/**
 * Resolution of registration parameter-map specifications
 * (`Register_Inputs.__init__` in plastimatch-api.py).
 *
 * A specification is either the name of a default profile of the
 * registration library or an override dictionary. The library's
 * `GetDefaultParameterMap` is not modelled: every definition here takes
 * it as a parameter `defaults`, so every property holds whatever the
 * library returns.
 */
module ParameterMaps {
  import opened Wrappers

  /** A registration parameter map: every key holds a list of values. */
  type ParameterMap = map<string, seq<string>>

  /** The closed set of profile names the library provides defaults for. */
  const ValidProfiles: seq<string> := ["translation", "affine", "bspline", "groupwise", "rigid"]

  /** The dictionary key that names the profile an override dictionary starts from. */
  const DefaultKey: string := "default_parameter_map"

  predicate IsValidProfile(name: string)
  {
    name in ValidProfiles
  }

  /** One entry of `parameter_maps`: a profile name or an override dictionary. */
  datatype Spec = Profile(name: string) | Overrides(dict: map<string, string>)

  /** The `ValueError` raised for a profile name outside the closed set. */
  datatype ResolveError = UnrecognizedProfile(name: string)

  /**
   * `dict.pop("default_parameter_map", None)`: the value the key had, if
   * any, and the dictionary without it.
   */
  function PopDefault(dict: map<string, string>): (r: (Option<string>, map<string, string>))
    ensures r.0.Some? <==> DefaultKey in dict
    ensures r.0.Some? ==> r.0.value == dict[DefaultKey]
    ensures r.1.Keys == dict.Keys - {DefaultKey}
    ensures forall k :: k in r.1 ==> r.1[k] == dict[k]
  {
    (if DefaultKey in dict then Some(dict[DefaultKey]) else None, dict - {DefaultKey})
  }

  /** What a specification looks like once its `default_parameter_map` has been popped. */
  function Popped(spec: Spec): (r: Spec)
    ensures spec.Profile? ==> r == spec
    ensures spec.Overrides? ==> r.Overrides? && r.dict.Keys == spec.dict.Keys - {DefaultKey}
    ensures spec.Overrides? ==> forall k :: k in r.dict ==> r.dict[k] == spec.dict[k]
  {
    match spec
    case Profile(_) => spec
    case Overrides(dict) => Overrides(PopDefault(dict).1)
  }

  /** The map an override dictionary starts from: a profile's defaults, or the empty map. */
  function StartingMap(defaults: string -> ParameterMap, base: Option<string>): (r: ParameterMap)
    ensures base.Some? && IsValidProfile(base.value) ==> r == defaults(base.value)
    ensures base.None? || !IsValidProfile(base.value) ==> r == map[]
  {
    if base.Some? && IsValidProfile(base.value) then defaults(base.value) else map[]
  }

  /**
   * `base` after every override `k: v` has been written as `[v]`:
   * overrides replace what was there, every other key keeps its value.
   */
  function Overridden(base: ParameterMap, overrides: map<string, string>): (r: ParameterMap)
    ensures r.Keys == base.Keys + overrides.Keys
    ensures forall k :: k in overrides ==> r[k] == [overrides[k]]
    ensures forall k :: k in base && k !in overrides ==> r[k] == base[k]
  {
    base + map k | k in overrides :: [overrides[k]]
  }

  /**
   * The loop that writes the remaining dictionary entries into the map
   * one key at a time (plastimatch-api.py:62-63).
   */
  method ApplyOverrides(base: ParameterMap, overrides: map<string, string>) returns (m: ParameterMap)
    ensures m == Overridden(base, overrides)
  {
    m := base;
    var todo := overrides.Keys;
    assert overrides - todo == map[];
    while todo != {}
      invariant todo <= overrides.Keys
      invariant m == Overridden(base, overrides - todo)
      decreases todo
    {
      var k :| k in todo;
      OverriddenStep(base, overrides, todo, k);
      m := m[k := [overrides[k]]];
      todo := todo - {k};
    }
    assert overrides - todo == overrides;
  }

  /** Writing one more override key extends the partial result by that key. */
  lemma OverriddenStep(base: ParameterMap, overrides: map<string, string>, todo: set<string>, k: string)
    requires k in todo && todo <= overrides.Keys
    ensures Overridden(base, overrides - (todo - {k}))
         == Overridden(base, overrides - todo)[k := [overrides[k]]]
  {
  }

  /** The parameter map one specification resolves to, or the error it raises. */
  function ResolveSpec(defaults: string -> ParameterMap, spec: Spec): Result<ParameterMap, ResolveError>
  {
    match spec
    case Profile(name) =>
      if IsValidProfile(name) then Success(defaults(name)) else Failure(UnrecognizedProfile(name))
    case Overrides(dict) =>
      var (base, rest) := PopDefault(dict);
      Success(Overridden(StartingMap(defaults, base), rest))
  }

  /** Resolution of a whole list: the first error stops it, otherwise one map per entry. */
  function ResolveAll(defaults: string -> ParameterMap, specs: seq<Spec>): Result<seq<ParameterMap>, ResolveError>
    decreases |specs|
  {
    if specs == [] then Success([])
    else
      match ResolveSpec(defaults, specs[0])
      case Failure(e) => Failure(e)
      case Success(m) =>
        match ResolveAll(defaults, specs[1..])
        case Failure(e) => Failure(e)
        case Success(ms) => Success([m] + ms)
  }

  /** `parameter_maps` may be `None`, in which case nothing is resolved. */
  function Resolved(defaults: string -> ParameterMap, parameterMaps: Option<seq<Spec>>): (r: Result<seq<ParameterMap>, ResolveError>)
    ensures parameterMaps.None? ==> r == Success([])
  {
    match parameterMaps
    case None => Success([])
    case Some(specs) => ResolveAll(defaults, specs)
  }

  // ---------------------------------------------------------------------
  // Properties of a single specification
  // ---------------------------------------------------------------------

  /** A profile name resolves exactly when it is one of the five, and then to its defaults. */
  lemma ProfileResolution(defaults: string -> ParameterMap, name: string)
    ensures ResolveSpec(defaults, Profile(name)).Success?
        <==> (name == "translation" || name == "affine" || name == "bspline"
              || name == "groupwise" || name == "rigid")
    ensures ResolveSpec(defaults, Profile(name)).Success? ==>
              ResolveSpec(defaults, Profile(name)).value == defaults(name)
    ensures ResolveSpec(defaults, Profile(name)).Failure? ==>
              ResolveSpec(defaults, Profile(name)).error == UnrecognizedProfile(name)
  {
  }

  /**
   * An override dictionary that names a valid profile: every other key
   * `k: v` becomes `[v]`, every default key it does not override keeps
   * the default value, and there are no other keys.
   */
  lemma OverridesOnProfile(defaults: string -> ParameterMap, dict: map<string, string>)
    requires DefaultKey in dict && IsValidProfile(dict[DefaultKey])
    ensures ResolveSpec(defaults, Overrides(dict)).Success?
    ensures var r := ResolveSpec(defaults, Overrides(dict)).value;
            var d := defaults(dict[DefaultKey]);
            && r.Keys == d.Keys + (dict.Keys - {DefaultKey})
            && (forall k :: k in dict && k != DefaultKey ==> r[k] == [dict[k]])
            && (forall k :: k in d && (k !in dict || k == DefaultKey) ==> r[k] == d[k])
  {
  }

  /**
   * An override dictionary without a valid `default_parameter_map`:
   * the result holds exactly the other keys, each as a one-element list,
   * and never the `default_parameter_map` key itself.
   */
  lemma OverridesFromScratch(defaults: string -> ParameterMap, dict: map<string, string>)
    requires DefaultKey !in dict || !IsValidProfile(dict[DefaultKey])
    ensures ResolveSpec(defaults, Overrides(dict)).Success?
    ensures var r := ResolveSpec(defaults, Overrides(dict)).value;
            && r.Keys == dict.Keys - {DefaultKey}
            && DefaultKey !in r
            && (forall k :: k in r ==> r[k] == [dict[k]])
  {
  }

  // ---------------------------------------------------------------------
  // Properties of a whole list
  // ---------------------------------------------------------------------

  /**
   * Resolution succeeds exactly when every entry does, and then the i-th
   * map is the one the i-th entry resolves to.
   */
  lemma {:induction false} ResolveAllPointwise(defaults: string -> ParameterMap, specs: seq<Spec>)
    ensures ResolveAll(defaults, specs).Success?
        <==> forall i :: 0 <= i < |specs| ==> ResolveSpec(defaults, specs[i]).Success?
    ensures ResolveAll(defaults, specs).Success? ==>
              && |ResolveAll(defaults, specs).value| == |specs|
              && forall i :: 0 <= i < |specs| ==>
                   ResolveAll(defaults, specs).value[i] == ResolveSpec(defaults, specs[i]).value
    decreases |specs|
  {
    if specs != [] {
      ResolveAllPointwise(defaults, specs[1..]);
      assert forall i :: 1 <= i < |specs| ==> specs[i] == specs[1..][i - 1];
      if ResolveAll(defaults, specs).Success? {
        var ms := ResolveAll(defaults, specs).value;
        assert ms == [ResolveSpec(defaults, specs[0]).value] + ResolveAll(defaults, specs[1..]).value;
      } else if ResolveSpec(defaults, specs[0]).Success? {
        var i :| 0 <= i < |specs[1..]| && ResolveSpec(defaults, specs[1..][i]).Failure?;
        assert ResolveSpec(defaults, specs[i + 1]).Failure?;
      }
    }
  }

  /**
   * If every entry before `i` resolves and entry `i` does not, the whole
   * list fails with entry `i`'s error.
   */
  lemma {:induction false} ResolveAllFailsAt(defaults: string -> ParameterMap, specs: seq<Spec>, i: nat)
    requires i < |specs|
    requires forall j :: 0 <= j < i ==> ResolveSpec(defaults, specs[j]).Success?
    requires ResolveSpec(defaults, specs[i]).Failure?
    ensures ResolveAll(defaults, specs) == Failure(ResolveSpec(defaults, specs[i]).error)
    decreases i
  {
    if i > 0 {
      assert forall j :: 0 <= j < i - 1 ==> specs[1..][j] == specs[j + 1];
      ResolveAllFailsAt(defaults, specs[1..], i - 1);
    }
  }

  /**
   * A failed resolution names an unrecognized profile, and that name is
   * the first entry of the list that does not resolve.
   */
  lemma {:induction false} ResolveAllFirstFailure(defaults: string -> ParameterMap, specs: seq<Spec>)
    requires ResolveAll(defaults, specs).Failure?
    ensures exists i :: 0 <= i < |specs|
              && specs[i] == Profile(ResolveAll(defaults, specs).error.name)
              && !IsValidProfile(specs[i].name)
              && forall j :: 0 <= j < i ==> ResolveSpec(defaults, specs[j]).Success?
    decreases |specs|
  {
    var e := ResolveAll(defaults, specs).error;
    if ResolveSpec(defaults, specs[0]).Failure? {
      assert specs[0] == Profile(e.name);
    } else {
      ResolveAllFirstFailure(defaults, specs[1..]);
      var i :| 0 <= i < |specs[1..]|
              && specs[1..][i] == Profile(ResolveAll(defaults, specs[1..]).error.name)
              && !IsValidProfile(specs[1..][i].name)
              && forall j :: 0 <= j < i ==> ResolveSpec(defaults, specs[1..][j]).Success?;
      assert forall j :: 1 <= j < i + 1 ==> specs[j] == specs[1..][j - 1];
      assert specs[i + 1] == Profile(e.name);
    }
  }
}
