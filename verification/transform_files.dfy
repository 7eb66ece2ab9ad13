/**
 * Where `elastix_register` writes the transform parameter maps the
 * registration produced (plastimatch-api.py:96-101): map `i` goes to
 * `transform_parameter_<i>.txt` in the directory of the output image.
 *
 * The directory is a parameter (pathlib's `parent` is not modelled) and a
 * path is the directory, a slash and the file name. The file system is a
 * map from path to the parameter map stored there.
 */
module TransformFiles {
  import opened Wrappers
  import opened ParameterMaps

  const FilePrefix: string := "transform_parameter_"
  const FileSuffix: string := ".txt"

  function DigitChar(d: nat): (c: char)
    requires d < 10
    ensures '0' <= c <= '9'
  {
    (48 + d) as char
  }

  function DigitValue(c: char): (r: Option<nat>)
    ensures r.Some? <==> '0' <= c <= '9'
    ensures r.Some? ==> r.value < 10 && DigitChar(r.value) == c
  {
    if '0' <= c <= '9' then Some(c as int - 48) else None
  }

  /** Python's `f"{i}"` for a non-negative integer: decimal digits, no leading zero. */
  function Decimal(n: nat): (s: string)
    ensures |s| >= 1
    ensures forall k :: 0 <= k < |s| ==> '0' <= s[k] <= '9'
    ensures s[0] == '0' ==> n == 0 && s == "0"
    decreases n
  {
    if n < 10 then [DigitChar(n)] else Decimal(n / 10) + [DigitChar(n % 10)]
  }

  /** The value of a non-empty string of digits, read from the last digit back. */
  function DigitsValue(s: string): Option<nat>
    decreases |s|
  {
    if |s| == 0 then None
    else
      match DigitValue(s[|s| - 1])
      case None => None
      case Some(d) =>
        if |s| == 1 then Some(d)
        else
          match DigitsValue(s[..|s| - 1])
          case None => None
          case Some(v) => Some(10 * v + d)
  }

  /** Reads back what `Decimal` writes: digits only, and no leading zero. */
  function ParseDecimal(s: string): Option<nat>
  {
    if |s| > 1 && s[0] == '0' then None else DigitsValue(s)
  }

  lemma {:induction false} DecimalRoundTrip(n: nat)
    ensures ParseDecimal(Decimal(n)) == Some(n)
    decreases n
  {
    var s := Decimal(n);
    if n >= 10 {
      DecimalRoundTrip(n / 10);
      assert s[..|s| - 1] == Decimal(n / 10);
      assert DigitValue(s[|s| - 1]) == Some(n % 10);
      assert DigitsValue(Decimal(n / 10)) == Some(n / 10);
    } else {
      assert DigitValue(s[0]) == Some(n);
    }
  }

  lemma {:induction false} DigitsValuePositive(s: string)
    requires |s| >= 1 && s[0] != '0' && DigitsValue(s).Some?
    ensures DigitsValue(s).value >= 1
    decreases |s|
  {
    if |s| > 1 {
      DigitsValuePositive(s[..|s| - 1]);
    }
  }

  /** Every string `ParseDecimal` accepts is the decimal rendering of its value. */
  lemma {:induction false} ParseDecimalCanonical(s: string)
    requires ParseDecimal(s).Some?
    ensures Decimal(ParseDecimal(s).value) == s
    decreases |s|
  {
    var d := DigitValue(s[|s| - 1]).value;
    if |s| > 1 {
      var init := s[..|s| - 1];
      assert init[0] == s[0];
      var v := DigitsValue(init).value;
      ParseDecimalCanonical(init);
      DigitsValuePositive(init);
      var n := 10 * v + d;
      assert n / 10 == v && n % 10 == d;
      assert s == init + [s[|s| - 1]];
    }
  }

  /** The file name for transform map `i`. */
  function FileName(i: nat): string
  {
    FilePrefix + Decimal(i) + FileSuffix
  }

  /** The index a transform file name carries, if it is one. */
  function IndexOfFileName(name: string): Option<nat>
  {
    if |name| >= |FilePrefix| + |FileSuffix|
       && name[..|FilePrefix|] == FilePrefix
       && name[|name| - |FileSuffix|..] == FileSuffix
    then ParseDecimal(name[|FilePrefix|..|name| - |FileSuffix|])
    else None
  }

  /** The index can be read back from the file name. */
  lemma FileNameRoundTrip(i: nat)
    ensures IndexOfFileName(FileName(i)) == Some(i)
  {
    var f := FileName(i);
    assert f[..|FilePrefix|] == FilePrefix;
    assert f[|f| - |FileSuffix|..] == FileSuffix;
    assert f[|FilePrefix|..|f| - |FileSuffix|] == Decimal(i);
    DecimalRoundTrip(i);
  }

  /** Only the file name of an index carries that index. */
  lemma FileNameCanonical(i: nat, name: string)
    requires IndexOfFileName(name) == Some(i)
    ensures name == FileName(i)
  {
    var middle := name[|FilePrefix|..|name| - |FileSuffix|];
    ParseDecimalCanonical(middle);
    assert name == name[..|FilePrefix|] + middle + name[|name| - |FileSuffix|..];
  }

  /** `Path(dir).joinpath(name)`, abstracted. */
  function Join(dir: string, name: string): string
  {
    dir + "/" + name
  }

  /** Where transform map `i` is written. */
  function TransformPath(dir: string, i: nat): string
  {
    Join(dir, FileName(i))
  }

  /** The paths written for `n` transform maps. */
  function TransformPaths(dir: string, n: nat): set<string>
  {
    set i: nat | i < n :: TransformPath(dir, i)
  }

  lemma JoinInjective(dir: string, a: string, b: string)
    requires Join(dir, a) == Join(dir, b)
    ensures a == b
  {
    var p := dir + "/";
    assert a == Join(dir, a)[|p|..];
    assert b == Join(dir, b)[|p|..];
  }

  /** Different indices never write to the same file. */
  lemma TransformPathsDistinct(dir: string, i: nat, j: nat)
    requires i != j
    ensures TransformPath(dir, i) != TransformPath(dir, j)
  {
    if TransformPath(dir, i) == TransformPath(dir, j) {
      JoinInjective(dir, FileName(i), FileName(j));
      FileNameRoundTrip(i);
      FileNameRoundTrip(j);
    }
  }

  /**
   * The files written for `n` maps are exactly the transform files of the
   * output directory whose index is below `n`: indices 0..n-1, no gaps.
   */
  lemma TransformPathsExact(dir: string, n: nat, name: string)
    ensures Join(dir, name) in TransformPaths(dir, n)
        <==> IndexOfFileName(name).Some? && IndexOfFileName(name).value < n
  {
    if Join(dir, name) in TransformPaths(dir, n) {
      var i: nat :| i < n && TransformPath(dir, i) == Join(dir, name);
      JoinInjective(dir, FileName(i), name);
      FileNameRoundTrip(i);
    }
    if IndexOfFileName(name).Some? && IndexOfFileName(name).value < n {
      var i := IndexOfFileName(name).value;
      FileNameCanonical(i, name);
      assert TransformPath(dir, i) == Join(dir, name);
    }
  }

  lemma TransformPathsStep(dir: string, i: nat)
    ensures forall j :: 0 <= j < i ==> TransformPath(dir, j) != TransformPath(dir, i)
    ensures TransformPath(dir, i) !in TransformPaths(dir, i)
    ensures TransformPaths(dir, i + 1) == TransformPaths(dir, i) + {TransformPath(dir, i)}
  {
    forall j | 0 <= j < i
      ensures TransformPath(dir, j) != TransformPath(dir, i)
    {
      TransformPathsDistinct(dir, j, i);
    }
  }

  /**
   * The loop that writes transform map `i` to its file, in order, over
   * the file system `files`.
   */
  method WriteTransformFiles(dir: string, transformMaps: seq<ParameterMap>, files: map<string, ParameterMap>)
    returns (written: map<string, ParameterMap>)
    ensures written.Keys == files.Keys + TransformPaths(dir, |transformMaps|)
    ensures forall i :: 0 <= i < |transformMaps| ==> written[TransformPath(dir, i)] == transformMaps[i]
    ensures forall p :: p in files && p !in TransformPaths(dir, |transformMaps|) ==> written[p] == files[p]
  {
    written := files;
    for i := 0 to |transformMaps|
      invariant written.Keys == files.Keys + TransformPaths(dir, i)
      invariant forall j :: 0 <= j < i ==> written[TransformPath(dir, j)] == transformMaps[j]
      invariant forall p :: p in files && p !in TransformPaths(dir, i) ==> written[p] == files[p]
    {
      var path := TransformPath(dir, i);
      TransformPathsStep(dir, i);
      ghost var before := written;
      written := written[path := transformMaps[i]];
      assert written.Keys == before.Keys + {path};
      assert files.Keys + TransformPaths(dir, i) + {path} == files.Keys + TransformPaths(dir, i + 1);
    }
  }
}
