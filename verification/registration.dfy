/**
 * The registration request (`Register_Inputs`) and the registration
 * endpoint (`elastix_register`) of plastimatch-api.py.
 *
 * The registration library is not modelled: its default parameter maps,
 * the transform maps a registration produces and the outcome of writing
 * the output image are parameters.
 */
module Registration {
  import opened Wrappers
  import opened ParameterMaps
  import opened TransformFiles
  import opened Responses

  /**
   * A registration request. `parameterMaps` holds the caller's
   * specifications (resolution pops `default_parameter_map` out of each
   * dictionary) and `parameterMapsSitk` the resolved maps.
   */
  class RegisterInputs {
    var fixedImage: string
    var movingImage: string
    var parameterMaps: Option<seq<Spec>>
    var outputImage: string
    var parameterMapsSitk: seq<ParameterMap>

    /** The validated fields, before any specification is resolved. */
    constructor (fixedImage: string, movingImage: string, parameterMaps: Option<seq<Spec>>, outputImage: string)
      ensures this.fixedImage == fixedImage && this.movingImage == movingImage
      ensures this.parameterMaps == parameterMaps && this.outputImage == outputImage
      ensures parameterMapsSitk == []
    {
      this.fixedImage := fixedImage;
      this.movingImage := movingImage;
      this.parameterMaps := parameterMaps;
      this.outputImage := outputImage;
      parameterMapsSitk := [];
    }

    /**
     * The resolution loop of the constructor: resolves every
     * specification in order and appends its map, or stops at the first
     * unrecognized profile name with its error. Every dictionary loses its
     * `default_parameter_map` key on the way.
     */
    method ResolveParameterMaps(defaults: string -> ParameterMap) returns (err: Option<ResolveError>)
      modifies this
      ensures fixedImage == old(fixedImage) && movingImage == old(movingImage)
      ensures outputImage == old(outputImage)
      ensures err.None? <==> Resolved(defaults, old(parameterMaps)).Success?
      ensures err.None? ==> parameterMapsSitk == old(parameterMapsSitk) + Resolved(defaults, old(parameterMaps)).value
      ensures err.Some? ==> err.value == Resolved(defaults, old(parameterMaps)).error
      ensures old(parameterMaps).None? ==> parameterMaps.None?
      ensures old(parameterMaps).Some? && err.None? ==>
                && parameterMaps.Some?
                && |parameterMaps.value| == |old(parameterMaps).value|
                && forall i :: 0 <= i < |parameterMaps.value| ==>
                     parameterMaps.value[i] == Popped(old(parameterMaps).value[i])
    {
      if parameterMaps.None? {
        return None;
      }
      var specs := parameterMaps.value;
      ghost var start := parameterMapsSitk;
      ghost var current := specs;
      ghost var resolved: seq<ParameterMap> := [];
      var i := 0;
      while i < |specs|
        invariant 0 <= i <= |specs|
        invariant fixedImage == old(fixedImage) && movingImage == old(movingImage)
        invariant outputImage == old(outputImage)
        invariant parameterMaps == Some(current) && parameterMapsSitk == start + resolved
        invariant |current| == |specs|
        invariant forall j :: 0 <= j < i ==> current[j] == Popped(specs[j])
        invariant forall j :: i <= j < |specs| ==> current[j] == specs[j]
        invariant |resolved| == i
        invariant forall j :: 0 <= j < i ==>
                    ResolveSpec(defaults, specs[j]).Success? && resolved[j] == ResolveSpec(defaults, specs[j]).value
      {
        var entryErr, popped, paramSitk := ResolveEntry(defaults, specs[i]);
        if entryErr.Some? {
          ResolveAllFailsAt(defaults, specs, i);
          return entryErr;
        }
        parameterMaps := Some(parameterMaps.value[i := popped]);
        current := current[i := popped];
        parameterMapsSitk := parameterMapsSitk + [paramSitk];
        resolved := resolved + [paramSitk];
        i := i + 1;
      }
      ResolveAllPointwise(defaults, specs);
      assert resolved == ResolveAll(defaults, specs).value;
      return None;
    }
  }

  /**
   * The body of the resolution loop for one specification: its map, or
   * the error for an unrecognized profile name, and the specification
   * as it is left once `default_parameter_map` has been popped.
   * `ResolveSpec` and `Popped` are its reference definitions.
   */
  method ResolveEntry(defaults: string -> ParameterMap, spec: Spec)
    returns (err: Option<ResolveError>, popped: Spec, paramSitk: ParameterMap)
    ensures err.None? <==> ResolveSpec(defaults, spec).Success?
    ensures err.Some? ==> err.value == ResolveSpec(defaults, spec).error
    ensures err.None? ==> paramSitk == ResolveSpec(defaults, spec).value && popped == Popped(spec)
  {
    match spec {
      case Profile(name) =>
        if !IsValidProfile(name) {
          return Some(UnrecognizedProfile(name)), spec, map[];
        }
        return None, spec, defaults(name);
      case Overrides(dict) =>
        var pop := PopDefault(dict);
        var base, rest := pop.0, pop.1;
        popped := Overrides(rest);
        if base.Some? && IsValidProfile(base.value) {
          paramSitk := defaults(base.value);
        } else {
          paramSitk := map[];
        }
        paramSitk := ApplyOverrides(paramSitk, rest);
        err := None;
    }
  }

  /**
   * Constructing a request: either the `ValueError` for the first
   * unrecognized profile name, or a request holding the resolved maps.
   */
  method NewRegisterInputs(fixedImage: string, movingImage: string, parameterMaps: Option<seq<Spec>>,
                           outputImage: string, defaults: string -> ParameterMap)
    returns (r: Result<RegisterInputs, ResolveError>)
    ensures r.Failure? <==> Resolved(defaults, parameterMaps).Failure?
    ensures r.Failure? ==> r.error == Resolved(defaults, parameterMaps).error
    ensures r.Success? ==>
              && fresh(r.value)
              && r.value.fixedImage == fixedImage && r.value.movingImage == movingImage
              && r.value.outputImage == outputImage
              && r.value.parameterMapsSitk == Resolved(defaults, parameterMaps).value
              && r.value.parameterMaps.None? == parameterMaps.None?
              && (parameterMaps.Some? ==>
                    && |r.value.parameterMaps.value| == |parameterMaps.value|
                    && forall i :: 0 <= i < |parameterMaps.value| ==>
                         r.value.parameterMaps.value[i] == Popped(parameterMaps.value[i]))
  {
    var inputs := new RegisterInputs(fixedImage, movingImage, parameterMaps, outputImage);
    var err := inputs.ResolveParameterMaps(defaults);
    if err.Some? {
      return Failure(err.value);
    }
    return Success(inputs);
  }

  /**
   * The registration filter's list of stages, as far as this program uses
   * it: setting a map replaces the list with that one map, adding a map
   * appends it. A new filter holds the library's own default stages.
   */
  class ElastixImageFilter {
    var parameterMaps: seq<ParameterMap>

    constructor (libraryDefaults: seq<ParameterMap>)
      ensures parameterMaps == libraryDefaults
    {
      parameterMaps := libraryDefaults;
    }

    method SetParameterMap(m: ParameterMap)
      modifies this
      ensures parameterMaps == [m]
    {
      parameterMaps := [m];
    }

    method AddParameterMap(m: ParameterMap)
      modifies this
      ensures parameterMaps == old(parameterMaps) + [m]
    {
      parameterMaps := parameterMaps + [m];
    }
  }

  /**
   * Stage hand-off: map 0 is set as the primary map and the others are
   * added after it in order; with no maps the filter keeps its own.
   */
  method InstallParameterMaps(filter: ElastixImageFilter, maps: seq<ParameterMap>)
    modifies filter
    ensures maps != [] ==> filter.parameterMaps == maps
    ensures maps == [] ==> filter.parameterMaps == old(filter.parameterMaps)
  {
    if maps != [] {
      for i := 0 to |maps|
        invariant i > 0 ==> filter.parameterMaps == maps[..i]
      {
        if i == 0 {
          filter.SetParameterMap(maps[i]);
        } else {
          filter.AddParameterMap(maps[i]);
        }
      }
    }
  }

  /**
   * The registration endpoint. `stages` is what the filter runs with;
   * `transformMaps` stands for what the registration produced and
   * `writeImageError` for the outcome of writing the output image.
   * `outputDir` is the directory holding `inputs.outputImage` and `files`
   * the file system before the call.
   */
  method ElastixRegister(inputs: RegisterInputs, libraryDefaults: seq<ParameterMap>,
                         transformMaps: seq<ParameterMap>, writeImageError: Option<string>,
                         outputDir: string, files: map<string, ParameterMap>)
    returns (response: Response, stages: seq<ParameterMap>, written: map<string, ParameterMap>)
    ensures inputs.parameterMapsSitk != [] ==> stages == inputs.parameterMapsSitk
    ensures inputs.parameterMapsSitk == [] ==> stages == libraryDefaults
    ensures Status(response) == "success" <==> writeImageError.None?
    ensures writeImageError.Some? ==>
              response == Failed(WriteFailed(writeImageError.value)) && written == files
    ensures writeImageError.None? ==>
              && response == Succeeded(RegisterSucceeded, inputs.outputImage)
              && written.Keys == files.Keys + TransformPaths(outputDir, |transformMaps|)
              && (forall i :: 0 <= i < |transformMaps| ==>
                    written[TransformPath(outputDir, i)] == transformMaps[i])
              && (forall p :: p in files && p !in TransformPaths(outputDir, |transformMaps|) ==>
                    written[p] == files[p])
  {
    var filter := new ElastixImageFilter(libraryDefaults);
    InstallParameterMaps(filter, inputs.parameterMapsSitk);
    stages := filter.parameterMaps;
    if writeImageError.Some? {
      return Failed(WriteFailed(writeImageError.value)), stages, files;
    }
    written := WriteTransformFiles(outputDir, transformMaps, files);
    response := Succeeded(RegisterSucceeded, inputs.outputImage);
  }
}
