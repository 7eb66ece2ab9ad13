# Parameter-map resolution and transform hand-off of plastimatch-api

This project is a Dafny model of the logic in `plastimatch-api.py` that the
service owns itself. Around it sit SimpleITK/Elastix and FastAPI. The model
covers three parts:

- **Parameter-map resolution** (`Register_Inputs.__init__`). An ordered list
  of specifications becomes an ordered list of parameter maps. Each
  specification is either a default-profile name or an override dictionary.
  A parameter map is a `map<string, seq<string>>`. A name outside
  `translation, affine, bspline, groupwise, rigid` raises an error, and
  resolution stops there. A dictionary first has its `default_parameter_map`
  key popped. It then starts from that profile's defaults, or from an empty
  map when the key is missing or not a valid profile. Every remaining key is
  then written as a one-element list.
- **Stage hand-off and transform files** (`elastix_register`). The first
  resolved map is set as the registration filter's primary map. The others
  are added after it, in order. Transform map `i` is written to
  `transform_parameter_<i>.txt` in the output image's directory.
- **Warp pre-check** (`elastix_warp`). The transform files are checked in
  order. The first missing file short-circuits with an error payload, and no
  transform filter is built. Otherwise one map is read per file, in order.

The library is abstract. Every definition takes its parts as parameters, so
each property holds whatever the library does:

- `GetDefaultParameterMap` is the function parameter `defaults`.
- `Path.exists` is `fileExists`.
- `ReadParameterFile` is `read`.
- The transform maps a registration produces are `transformMaps`.
- The outcome of `WriteImage` is `writeImageError`.

The registration filter's stage list is a small class. `SetParameterMap`
replaces the list with one map, and `AddParameterMap` appends one map. The
file system that the transform files go to is a map from path to parameter
map.

Modules:

- `Wrappers` (wrappers.dfy): `Option` and `Result`.
- `ParameterMaps` (parameter_maps.dfy): specifications, their reference
  resolution, and its properties.
- `TransformFiles` (transform_files.dfy): transform file names, their decimal
  index, and the loop that writes the files.
- `Responses` (responses.dfy): the success and error payloads.
- `Registration` (registration.dfy): the request class, its resolution loop,
  stage hand-off and the registration endpoint.
- `Warp` (warp.dfy): the pre-check loop and the warp endpoint.

Two behaviours of the code worth noting:

- An empty `parameter_maps` list is accepted. It resolves no maps, and the
  filter keeps the library's own stages (`InstallParameterMaps`,
  `ElastixRegister`).
- An unrecognized profile name raises `ValueError`, modelled as
  `ResolveError.UnrecognizedProfile(name)`.

## Model

| member | source | states |
|---|---|---|
| `ParameterMaps.PopDefault` | plastimatch-api.py:57 | popping `default_parameter_map` yields its value exactly when the key was there, and leaves the dictionary with every other key and value unchanged |
| `ParameterMaps.Popped` | plastimatch-api.py:57 | a profile name is left as it is; a dictionary loses exactly the `default_parameter_map` key, and every other key keeps its value |
| `ParameterMaps.StartingMap` | plastimatch-api.py:58-61 | a dictionary starts from the named profile's defaults when the name is one of the five, and from the empty map otherwise, including when no name is given |
| `ParameterMaps.Overridden` | plastimatch-api.py:62-63 | after the overrides, the keys are the base keys plus the override keys; each override key holds the one-element list `[v]`; every other base key keeps its value |
| `ParameterMaps.ApplyOverrides` | plastimatch-api.py:62-63 | the key-by-key loop ends with exactly the overridden map, whatever order it visits the keys in |
| `ParameterMaps.Resolved` | plastimatch-api.py:48-49 | when `parameter_maps` is `None`, no maps are produced and nothing fails |
| `ParameterMaps.ProfileResolution` | plastimatch-api.py:50-54 | a profile name resolves if and only if it is one of the five names, and then to exactly that profile's defaults; otherwise the error names it |
| `ParameterMaps.OverridesOnProfile` | plastimatch-api.py:57-63 | a dictionary naming a valid profile: every remaining key `k: v` becomes `[v]`, every default key it does not override keeps its default, and there are no other keys |
| `ParameterMaps.OverridesFromScratch` | plastimatch-api.py:57-63 | a dictionary without a valid profile resolves to exactly its remaining keys, each as a one-element list; `default_parameter_map` never appears |
| `ParameterMaps.ResolveAllPointwise` | plastimatch-api.py:48-64 | resolving a list succeeds if and only if every entry does; then there is one map per entry, and the i-th map comes from the i-th entry |
| `ParameterMaps.ResolveAllFailsAt` | plastimatch-api.py:49-53 | if every entry before `i` resolves and entry `i` does not, the whole list fails with entry `i`'s error |
| `ParameterMaps.ResolveAllFirstFailure` | plastimatch-api.py:49-53 | a failed resolution names an unrecognized profile name, and that name is the first entry in list order that does not resolve |
| `Registration.RegisterInputs.constructor` | plastimatch-api.py:37-38 | a new request holds the given fields, and its resolved-map list starts empty |
| `Registration.RegisterInputs.ResolveParameterMaps` | plastimatch-api.py:48-64 | the loop fails exactly when reference resolution fails, and with its error; otherwise it appends exactly the reference maps in order, and leaves each dictionary of the request without `default_parameter_map` |
| `Registration.ResolveEntry` | plastimatch-api.py:50-63 | one iteration: it gives the error exactly for an unrecognized profile name, and otherwise the entry's reference map and the popped entry |
| `Registration.NewRegisterInputs` | plastimatch-api.py:37-64 | constructing a request raises exactly when resolution fails, with its error; otherwise the new request holds the given paths, the resolved maps, and its specifications with `default_parameter_map` popped from every dictionary |
| `Registration.ElastixImageFilter.constructor` | plastimatch-api.py:82 | a new filter holds the library's own stage list |
| `Registration.ElastixImageFilter.SetParameterMap` | plastimatch-api.py:89 | setting a map makes it the only stage |
| `Registration.ElastixImageFilter.AddParameterMap` | plastimatch-api.py:91 | adding a map appends it after the existing stages |
| `Registration.InstallParameterMaps` | plastimatch-api.py:86-91 | with at least one map, the filter's stages are exactly the resolved maps in their original order, map 0 first; with none, the filter keeps its stages |
| `Registration.ElastixRegister` | plastimatch-api.py:69-112 | the filter runs with the request's maps, or the library's when there are none; when the image write fails, the error payload (status `error`) is returned and no file is written; otherwise transform map `i` is in `transform_parameter_<i>.txt` for every `i`, other files are unchanged, and the success payload (status `success`) names the output image |
| `TransformFiles.Decimal` | plastimatch-api.py:101 | an index is written as a non-empty string of decimal digits with no leading zero |
| `TransformFiles.DecimalRoundTrip` | plastimatch-api.py:101 | reading the decimal rendering of an index gives back that index |
| `TransformFiles.ParseDecimalCanonical` | plastimatch-api.py:101 | every string that reads as an index is that index's decimal rendering |
| `TransformFiles.FileNameRoundTrip` | plastimatch-api.py:101 | the index can be read back from `transform_parameter_<i>.txt` |
| `TransformFiles.FileNameCanonical` | plastimatch-api.py:101 | a file name that carries index `i` is exactly `transform_parameter_<i>.txt` |
| `TransformFiles.TransformPathsDistinct` | plastimatch-api.py:97-101 | two different indices never write to the same file |
| `TransformFiles.TransformPathsStep` | plastimatch-api.py:97-101 | the file for index `i` is new: it is not one of the files for indices below `i` |
| `TransformFiles.TransformPathsExact` | plastimatch-api.py:97-101 | the files written for `n` maps are exactly the output directory's transform files with an index in 0..n-1: no gaps and nothing else |
| `TransformFiles.WriteTransformFiles` | plastimatch-api.py:96-102 | after the loop, file `i` holds transform map `i` for every `i`; the other files keep their contents; no other file appears |
| `Responses.Status` | plastimatch-api.py:103-112 | the payload status is `success` exactly for a success payload and `error` exactly for an error payload |
| `Warp.LoadTransformMaps` | plastimatch-api.py:146-153 | the check fails if and only if some path is missing, and the error names the first missing path in list order; otherwise there is one map per path, read from that path, in order |
| `Warp.ElastixWarp` | plastimatch-api.py:135-172 | if a transform file is missing, no filter is built and the error payload (status `error`) names the first missing file; otherwise the filter gets one map per path, in order, and the payload reports the image write's outcome (status `success` exactly when the write succeeds) |

## Left out

- SimpleITK is a foreign library and is not modelled: `ReadImage`, `WriteImage`, `ElastixImageFilter.Execute`, `SetFixedImage`, `SetMovingImage`, `TransformixImageFilter` and its `Execute`, and `ReadParameterFile`/`WriteParameterFile`. The contents of `GetDefaultParameterMap` are not modelled either. Their results are parameters.
- Images are not modelled. Only the stage list of the registration filter and the maps handed to the transform filter are.
- Path construction is not modelled. That covers `Path(__file__).parent.joinpath("temp_data")` (plastimatch-api.py:39-42 and 127-132) and pathlib normalisation. The output image's parent directory is a parameter of `ElastixRegister`, and joining is "directory, slash, name".
- FastAPI routing and pydantic validation and coercion are not modelled. Dictionary values are taken to be strings.
- The class-level default of `_parameter_maps_sitk` is not modelled. Whether pydantic shares it between instances is not visible here. The list is a field of the request that starts empty.
- Aliasing of the caller's dictionaries is not modelled. Popping `default_parameter_map` is modelled on the request's own specification list. Whether that dictionary object is the HTTP caller's depends on pydantic.
- `Registration.RegisterInputs.ResolveParameterMaps`: after an error, its contract does not say which maps were already appended. The request is discarded because the constructor raises.
- `Registration.ElastixRegister`: models a failure of `WriteImage` but not one of `WriteParameterFile` part-way through the loop. That failure depends on library exceptions.
- The text of the `ValueError` for an unrecognized profile is not modelled. The error carries the offending name.
- The ad-hoc test functions (plastimatch-api.py:174-202) call the real library and are not modelled.
