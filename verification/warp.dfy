/**
 * The warp endpoint (`elastix_warp` in plastimatch-api.py). Whether a
 * path exists, what reading a parameter file yields and the outcome of
 * writing the output image are parameters.
 */
module Warp {
  import opened Wrappers
  import opened ParameterMaps
  import opened Responses

  /** A warp request: input image, output image, transform files in order. */
  datatype WarpInputs = WarpInputs(input: string, output: string, transformMaps: seq<string>)

  /**
   * The pre-check loop: each path in order must exist; the first one that
   * does not is returned as the error, otherwise one map is read per path.
   */
  method LoadTransformMaps(paths: seq<string>, fileExists: string -> bool, read: string -> ParameterMap)
    returns (r: Result<seq<ParameterMap>, string>)
    ensures r.Failure? <==> exists i :: 0 <= i < |paths| && !fileExists(paths[i])
    ensures r.Failure? ==>
              exists i :: 0 <= i < |paths| && paths[i] == r.error && !fileExists(paths[i])
                          && forall j :: 0 <= j < i ==> fileExists(paths[j])
    ensures r.Success? ==>
              |r.value| == |paths| && forall i :: 0 <= i < |paths| ==> r.value[i] == read(paths[i])
  {
    var loaded: seq<ParameterMap> := [];
    for i := 0 to |paths|
      invariant |loaded| == i
      invariant forall j :: 0 <= j < i ==> fileExists(paths[j]) && loaded[j] == read(paths[j])
    {
      if !fileExists(paths[i]) {
        return Failure(paths[i]);
      }
      loaded := loaded + [read(paths[i])];
    }
    return Success(loaded);
  }

  /**
   * The warp endpoint. `filterMaps` is what the transform filter is
   * given, and is `None` when no filter is built: a missing transform
   * file short-circuits with an error naming the first such file.
   */
  method ElastixWarp(inputs: WarpInputs, fileExists: string -> bool, read: string -> ParameterMap,
                     writeImageError: Option<string>)
    returns (response: Response, filterMaps: Option<seq<ParameterMap>>)
    ensures Status(response) == "success" <==> filterMaps.Some? && writeImageError.None?
    ensures filterMaps.None? <==> exists i :: 0 <= i < |inputs.transformMaps| && !fileExists(inputs.transformMaps[i])
    ensures filterMaps.None? ==>
              exists i :: 0 <= i < |inputs.transformMaps|
                          && !fileExists(inputs.transformMaps[i])
                          && (forall j :: 0 <= j < i ==> fileExists(inputs.transformMaps[j]))
                          && response == Failed(MissingTransform(inputs.transformMaps[i]))
    ensures filterMaps.Some? ==>
              && |filterMaps.value| == |inputs.transformMaps|
              && (forall i :: 0 <= i < |inputs.transformMaps| ==>
                    filterMaps.value[i] == read(inputs.transformMaps[i]))
              && response == (if writeImageError.None? then Succeeded(WarpSucceeded, inputs.output)
                              else Failed(WriteFailed(writeImageError.value)))
  {
    var loaded := LoadTransformMaps(inputs.transformMaps, fileExists, read);
    if loaded.Failure? {
      return Failed(MissingTransform(loaded.error)), None;
    }
    filterMaps := Some(loaded.value);
    if writeImageError.Some? {
      response := Failed(WriteFailed(writeImageError.value));
    } else {
      response := Succeeded(WarpSucceeded, inputs.output);
    }
  }
}
