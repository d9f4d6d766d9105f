/**
 * The response envelope every client operation returns, the minimum-version
 * gate, and the classification of transport outcomes (success, connection
 * failure, SOAP fault) into a return code, a `changed` flag or an exception.
 */
module IsimApplication {
  import opened Common

  // ---------------------------------------------------------------------
  // The response envelope
  // ---------------------------------------------------------------------

  /**
   * The dictionary-like response object. `fault` stands for the optional
   * 'fault' key, which `succeeded()` and `failed()` consult and which nothing
   * in the client ever stores.
   */
  class IBMResponse<D> {
    var rc: int
    var data: Option<D>
    var changed: bool
    var warnings: seq<string>
    var fault: Option<bool>

    /** `create_return_object`: exactly the keys rc, data, changed and warnings. */
    constructor CreateReturnObject(rc: int, data: Option<D>, warnings: seq<string>, changed: bool)
      ensures this.rc == rc && this.data == data
      ensures this.changed == changed && this.warnings == warnings
      ensures fault == None
      ensures !Succeeded() && Failed()
    {
      this.rc := rc;
      this.data := data;
      this.changed := changed;
      this.warnings := warnings;
      this.fault := None;
    }

    /** True only when the 'fault' key is present and holds False. */
    predicate Succeeded()
      reads this
    {
      fault == Some(false)
    }

    predicate Failed()
      reads this
    {
      fault != Some(false)
    }
  }

  // ---------------------------------------------------------------------
  // Version comparison
  // ---------------------------------------------------------------------

  // Normalization works on positions inside the version string: every step
  // below names the part of `v` it keeps by an end index.

  /** Number of decimal digits immediately before position `end`. */
  function DigitRun(v: string, end: nat): (n: nat)
    requires end <= |v|
    ensures n <= end
    ensures n < end ==> !IsDigit(v[end - n - 1])
  {
    if end > 0 && IsDigit(v[end - 1]) then DigitRun(v, end - 1) + 1 else 0
  }

  /**
   * `re.sub(r'_b\d+$', '', v)`: the length of what is kept once a trailing
   * build marker "_b" followed by one or more digits is removed.
   */
  function BuildEnd(v: string): (end: nat)
    ensures end <= |v|
  {
    var n := DigitRun(v, |v|);
    if n > 0 && n + 2 <= |v| && v[|v| - n - 2] == '_' && v[|v| - n - 1] == 'b' then |v| - n - 2 else |v|
  }

  /** Number of '0' characters immediately before position `end`. */
  function ZeroRun(v: string, end: nat): (n: nat)
    requires end <= |v|
    ensures n <= end
    ensures n < end ==> v[end - n - 1] != '0'
  {
    if end > 0 && v[end - 1] == '0' then ZeroRun(v, end - 1) + 1 else 0
  }

  /**
   * `re.sub(r'(\.0+)*$', '', v[..end])`: the end of what is kept once the
   * longest suffix made of groups "." + one or more "0" is removed. Groups
   * come off from the right, each one '.' plus the whole run of zeros.
   */
  function ZeroGroupsEnd(v: string, end: nat): (k: nat)
    requires end <= |v|
    ensures k <= end
  {
    var z := ZeroRun(v, end);
    if z > 0 && z < end && v[end - z - 1] == '.' then ZeroGroupsEnd(v, end - z - 1) else end
  }

  /** The first '.' at or after `i` and before `end`, or `end`. */
  function NextDot(v: string, i: nat, end: nat): (j: nat)
    requires i <= end <= |v|
    ensures i <= j <= end
    decreases end - i
  {
    if i == end || v[i] == '.' then i else NextDot(v, i + 1, end)
  }

  /**
   * `[int(x) for x in v[lo..end].split(".")]`: every dot-separated component
   * goes through `int`, and the first one it rejects raises ValueError.
   */
  function ParseComponents(v: string, lo: nat, end: nat): (r: Result<seq<int>>)
    requires lo <= end <= |v|
    ensures r.Ok? ==> |r.value| >= 1
    ensures r.Err? ==> r.error == ValueError
    decreases end - lo
  {
    var j := NextDot(v, lo, end);
    var n := PyIntBetween(v, lo, j);
    if n.Err? then Err(n.error)
    else if j == end then Ok([n.value])
    else match ParseComponents(v, j + 1, end)
      case Err(e) => Err(e)
      case Ok(rest) => Ok([n.value] + rest)
  }

  /** `normalize(v)` inside `version_compare`. */
  function Normalize(v: string): Result<seq<int>> {
    ParseComponents(v, 0, ZeroGroupsEnd(v, BuildEnd(v)))
  }

  /** Python's ordering of integer lists: lexicographic, a proper prefix is smaller. */
  function LexCompare(a: seq<int>, b: seq<int>): (c: int)
    ensures -1 <= c <= 1
  {
    if a == [] && b == [] then 0
    else if a == [] then -1
    else if b == [] then 1
    else if a[0] < b[0] then -1
    else if a[0] > b[0] then 1
    else LexCompare(a[1..], b[1..])
  }

  lemma {:induction false} LexCompareAntisymmetric(a: seq<int>, b: seq<int>)
    ensures LexCompare(a, b) == -LexCompare(b, a)
  {
    if a != [] && b != [] && a[0] == b[0] {
      LexCompareAntisymmetric(a[1..], b[1..]);
    }
  }

  lemma {:induction false} LexCompareZeroIffEqual(a: seq<int>, b: seq<int>)
    ensures LexCompare(a, b) == 0 <==> a == b
  {
    if a != [] && b != [] && a[0] == b[0] {
      LexCompareZeroIffEqual(a[1..], b[1..]);
      assert a == [a[0]] + a[1..] && b == [b[0]] + b[1..];
    }
  }

  /** `version_compare`: 0, 1 or -1; a component that is not a number raises ValueError. */
  function VersionCompare(version1: string, version2: string): (r: Result<int>)
    ensures r.Ok? <==> Normalize(version1).Ok? && Normalize(version2).Ok?
    ensures r.Ok? ==> -1 <= r.value <= 1
  {
    var n1 := Normalize(version1);
    var n2 := Normalize(version2);
    if n1.Err? then Err(n1.error)
    else if n2.Err? then Err(n2.error)
    else Ok(LexCompare(n1.value, n2.value))
  }

  /** Swapping the arguments negates the result. */
  lemma VersionCompareAntisymmetric(version1: string, version2: string)
    ensures VersionCompare(version1, version2).Ok? <==> VersionCompare(version2, version1).Ok?
    ensures VersionCompare(version1, version2).Ok? ==>
      VersionCompare(version1, version2).value == -VersionCompare(version2, version1).value
  {
    if VersionCompare(version1, version2).Ok? {
      LexCompareAntisymmetric(Normalize(version1).value, Normalize(version2).value);
    }
  }

  /** The result is 0 exactly when both versions normalize to the same integer list. */
  lemma VersionCompareZero(version1: string, version2: string)
    requires VersionCompare(version1, version2).Ok?
    ensures VersionCompare(version1, version2).value == 0 <==> Normalize(version1) == Normalize(version2)
  {
    LexCompareZeroIffEqual(Normalize(version1).value, Normalize(version2).value);
  }

  // Each step of the normalization looks only at the part of the string
  // before its end index, so text appended after that index is irrelevant.

  lemma {:induction false} DigitRunPrefix(v: string, x: string, end: nat)
    requires end <= |v|
    ensures DigitRun(v + x, end) == DigitRun(v, end)
  {
    if end > 0 && IsDigit(v[end - 1]) {
      DigitRunPrefix(v, x, end - 1);
    }
  }

  lemma {:induction false} ZeroRunPrefix(v: string, x: string, end: nat)
    requires end <= |v|
    ensures ZeroRun(v + x, end) == ZeroRun(v, end)
  {
    if end > 0 && v[end - 1] == '0' {
      ZeroRunPrefix(v, x, end - 1);
    }
  }

  lemma {:induction false} ZeroGroupsEndPrefix(v: string, x: string, end: nat)
    requires end <= |v|
    ensures ZeroGroupsEnd(v + x, end) == ZeroGroupsEnd(v, end)
    decreases end
  {
    ZeroRunPrefix(v, x, end);
    var z := ZeroRun(v, end);
    if z > 0 && z < end && v[end - z - 1] == '.' {
      ZeroGroupsEndPrefix(v, x, end - z - 1);
    }
  }

  lemma {:induction false} NextDotPrefix(v: string, x: string, i: nat, end: nat)
    requires i <= end <= |v|
    ensures NextDot(v + x, i, end) == NextDot(v, i, end)
    decreases end - i
  {
    if i < end && v[i] != '.' {
      NextDotPrefix(v, x, i + 1, end);
    }
  }

  lemma {:induction false} ParseComponentsPrefix(v: string, x: string, lo: nat, end: nat)
    requires lo <= end <= |v|
    ensures ParseComponents(v + x, lo, end) == ParseComponents(v, lo, end)
    decreases end - lo
  {
    NextDotPrefix(v, x, lo, end);
    var j := NextDot(v, lo, end);
    PyIntBetweenPrefix(v, x, lo, j);
    if j < end {
      ParseComponentsPrefix(v, x, j + 1, end);
    }
  }

  lemma {:induction false} DigitRunAllDigits(v: string, end: nat)
    requires end <= |v|
    ensures forall i :: end - DigitRun(v, end) <= i < end ==> IsDigit(v[i])
  {
    if end > 0 && IsDigit(v[end - 1]) {
      DigitRunAllDigits(v, end - 1);
    }
  }

  lemma {:induction false} DigitRunAtLeast(v: string, end: nat, k: nat)
    requires k <= end <= |v|
    requires forall i :: end - k <= i < end ==> IsDigit(v[i])
    ensures DigitRun(v, end) >= k
  {
    if k > 0 {
      DigitRunAtLeast(v, end - 1, k - 1);
    }
  }

  /**
   * Appending a build marker `_b<digits>` to a version that has none removes
   * exactly the marker, so the comparison ignores it.
   */
  lemma BuildMarkerIgnored(v: string, build: string)
    requires build != [] && AllDigits(build)
    requires BuildEnd(v) == |v|
    ensures BuildEnd(v + "_b" + build) == |v|
    ensures Normalize(v + "_b" + build) == Normalize(v)
  {
    var x := "_b" + build;
    var s := v + x;
    assert s == v + "_b" + build;
    assert forall i :: |s| - |build| <= i < |s| ==> s[i] == build[i - (|s| - |build|)];
    DigitRunAtLeast(s, |s|, |build|);
    DigitRunAllDigits(s, |s|);
    assert s[|s| - |build| - 1] == 'b';
    assert DigitRun(s, |s|) == |build|;
    assert s[|v|] == '_';
    ZeroGroupsEndPrefix(v, x, |v|);
    ParseComponentsPrefix(v, x, 0, ZeroGroupsEnd(v, |v|));
  }

  /** Appending a ".0" group to a version that has no build marker leaves its normal form unchanged. */
  lemma ZeroGroupIgnored(v: string)
    requires BuildEnd(v) == |v|
    ensures BuildEnd(v + ".0") == |v| + 2
    ensures Normalize(v + ".0") == Normalize(v)
  {
    var x := ".0";
    var s := v + x;
    assert s[|s| - 1] == '0' && s[|s| - 2] == '.';
    assert DigitRun(s, |s|) == 1;
    assert ZeroRun(s, |s|) == 1;
    assert ZeroGroupsEnd(s, |s|) == ZeroGroupsEnd(s, |v|);
    ZeroGroupsEndPrefix(v, x, |v|);
    ParseComponentsPrefix(v, x, 0, ZeroGroupsEnd(v, |v|));
  }

  /** One step of the component parser: a leading digit group followed by a dot. */
  lemma ParseComponentsCons(v: string, lo: nat, j: nat, end: nat, n: int, rest: seq<int>)
    requires lo < j < end <= |v| && NextDot(v, lo, end) == j && PyIntBetween(v, lo, j) == Ok(n)
    requires ParseComponents(v, j + 1, end) == Ok(rest)
    ensures ParseComponents(v, lo, end) == Ok([n] + rest)
  {
  }


  /** A common prefix does not change the comparison. */
  lemma {:induction false} LexCompareCommonPrefix(p: seq<int>, a: seq<int>, b: seq<int>)
    ensures LexCompare(p + a, p + b) == LexCompare(a, b)
  {
    if p != [] {
      assert (p + a)[0] == p[0] == (p + b)[0];
      assert (p + a)[1..] == p[1..] + a && (p + b)[1..] == p[1..] + b;
      LexCompareCommonPrefix(p[1..], a, b);
    } else {
      assert p + a == a && p + b == b;
    }
  }

  // Normal forms of the versions that appear in the self-test table.

  lemma NormalForm_1()
    ensures Normalize("1") == Ok([1])
  {
    var v := "1";
    assert BuildEnd(v) == 1 && ZeroGroupsEnd(v, 1) == 1;
    assert ParseComponents(v, 0, 1) == Ok([1]);
  }

  lemma NormalForm_5_6_7()
    ensures Normalize("5.6.7") == Ok([5, 6, 7])
  {
    var v := "5.6.7";
    assert BuildEnd(v) == 5 && ZeroGroupsEnd(v, 5) == 5;
    assert ParseComponents(v, 4, 5) == Ok([7]);
    ParseComponentsCons(v, 2, 3, 5, 6, [7]);
    assert [6] + [7] == [6, 7];
    ParseComponentsCons(v, 0, 1, 5, 5, [6, 7]);
    assert [5] + [6, 7] == [5, 6, 7];
  }

  lemma NormalForm_1_0()
    ensures Normalize("1.0") == Ok([1])
  {
    var v := "1.0";
    assert BuildEnd(v) == 3 && ZeroGroupsEnd(v, 3) == 1;
    assert ParseComponents(v, 0, 1) == Ok([1]);
  }

  lemma NormalForm_1_01_1()
    ensures Normalize("1.01.1") == Ok([1, 1, 1])
  {
    var v := "1.01.1";
    assert BuildEnd(v) == 6 && ZeroGroupsEnd(v, 6) == 6;
    assert ParseComponents(v, 5, 6) == Ok([1]);
    ParseComponentsCons(v, 2, 4, 6, 1, [1]);
    assert [1] + [1] == [1, 1];
    ParseComponentsCons(v, 0, 1, 6, 1, [1, 1]);
    assert [1] + [1, 1] == [1, 1, 1];
  }

  lemma NormalForm_1_1_1()
    ensures Normalize("1.1.1") == Ok([1, 1, 1])
  {
    var v := "1.1.1";
    assert BuildEnd(v) == 5 && ZeroGroupsEnd(v, 5) == 5;
    assert ParseComponents(v, 4, 5) == Ok([1]);
    ParseComponentsCons(v, 2, 3, 5, 1, [1]);
    assert [1] + [1] == [1, 1];
    ParseComponentsCons(v, 0, 1, 5, 1, [1, 1]);
    assert [1] + [1, 1] == [1, 1, 1];
  }

  lemma NormalForm_1_0_2_0()
    ensures Normalize("1.0.2.0") == Ok([1, 0, 2])
  {
    var v := "1.0.2.0";
    assert BuildEnd(v) == 7 && ZeroGroupsEnd(v, 7) == 5;
    assert ParseComponents(v, 4, 5) == Ok([2]);
    ParseComponentsCons(v, 2, 3, 5, 0, [2]);
    assert [0] + [2] == [0, 2];
    ParseComponentsCons(v, 0, 1, 5, 1, [0, 2]);
    assert [1] + [0, 2] == [1, 0, 2];
  }

  lemma NormalForm_1_0_2()
    ensures Normalize("1.0.2") == Ok([1, 0, 2])
  {
    var v := "1.0.2";
    assert BuildEnd(v) == 5 && ZeroGroupsEnd(v, 5) == 5;
    assert ParseComponents(v, 4, 5) == Ok([2]);
    ParseComponentsCons(v, 2, 3, 5, 0, [2]);
    assert [0] + [2] == [0, 2];
    ParseComponentsCons(v, 0, 1, 5, 1, [0, 2]);
    assert [1] + [0, 2] == [1, 0, 2];
  }

  lemma NormalForm_2_1()
    ensures Normalize("2.1") == Ok([2, 1])
  {
    var v := "2.1";
    assert BuildEnd(v) == 3 && ZeroGroupsEnd(v, 3) == 3;
    assert ParseComponents(v, 2, 3) == Ok([1]);
    ParseComponentsCons(v, 0, 1, 3, 2, [1]);
    assert [2] + [1] == [2, 1];
  }

  lemma NormalForm_2_2()
    ensures Normalize("2.2") == Ok([2, 2])
  {
    var v := "2.2";
    assert BuildEnd(v) == 3 && ZeroGroupsEnd(v, 3) == 3;
    assert ParseComponents(v, 2, 3) == Ok([2]);
    ParseComponentsCons(v, 0, 1, 3, 2, [2]);
    assert [2] + [2] == [2, 2];
  }

  lemma NormalForm_1_2()
    ensures Normalize("1.2") == Ok([1, 2])
  {
    var v := "1.2";
    assert BuildEnd(v) == 3 && ZeroGroupsEnd(v, 3) == 3;
    assert ParseComponents(v, 2, 3) == Ok([2]);
    ParseComponentsCons(v, 0, 1, 3, 1, [2]);
    assert [1] + [2] == [1, 2];
  }

  lemma NormalForm_3_0_4_10()
    ensures Normalize("3.0.4.10") == Ok([3, 0, 4, 10])
  {
    var v := "3.0.4.10";
    assert BuildEnd(v) == 8 && ZeroGroupsEnd(v, 8) == 8;
    assert ParseComponents(v, 6, 8) == Ok([10]);
    ParseComponentsCons(v, 4, 5, 8, 4, [10]);
    assert [4] + [10] == [4, 10];
    ParseComponentsCons(v, 2, 3, 8, 0, [4, 10]);
    assert [0] + [4, 10] == [0, 4, 10];
    ParseComponentsCons(v, 0, 1, 8, 3, [0, 4, 10]);
    assert [3] + [0, 4, 10] == [3, 0, 4, 10];
  }

  lemma NormalForm_3_0_4_2()
    ensures Normalize("3.0.4.2") == Ok([3, 0, 4, 2])
  {
    var v := "3.0.4.2";
    assert BuildEnd(v) == 7 && ZeroGroupsEnd(v, 7) == 7;
    assert ParseComponents(v, 6, 7) == Ok([2]);
    ParseComponentsCons(v, 4, 5, 7, 4, [2]);
    assert [4] + [2] == [4, 2];
    ParseComponentsCons(v, 2, 3, 7, 0, [4, 2]);
    assert [0] + [4, 2] == [0, 4, 2];
    ParseComponentsCons(v, 0, 1, 7, 3, [0, 4, 2]);
    assert [3] + [0, 4, 2] == [3, 0, 4, 2];
  }

  lemma NormalForm_10_0()
    ensures Normalize("10.0") == Ok([10])
  {
    var v := "10.0";
    assert BuildEnd(v) == 4 && ZeroGroupsEnd(v, 4) == 2;
    assert ParseComponents(v, 0, 2) == Ok([10]);
  }

  lemma NormalForm_9_0_3()
    ensures Normalize("9.0.3") == Ok([9, 0, 3])
  {
    var v := "9.0.3";
    assert BuildEnd(v) == 5 && ZeroGroupsEnd(v, 5) == 5;
    assert ParseComponents(v, 4, 5) == Ok([3]);
    ParseComponentsCons(v, 2, 3, 5, 0, [3]);
    assert [0] + [3] == [0, 3];
    ParseComponentsCons(v, 0, 1, 5, 9, [0, 3]);
    assert [9] + [0, 3] == [9, 0, 3];
  }

  lemma NormalForm_4_08()
    ensures Normalize("4.08") == Ok([4, 8])
  {
    var v := "4.08";
    assert BuildEnd(v) == 4 && ZeroGroupsEnd(v, 4) == 4;
    assert ParseComponents(v, 2, 4) == Ok([8]);
    ParseComponentsCons(v, 0, 1, 4, 4, [8]);
    assert [4] + [8] == [4, 8];
  }

  lemma NormalForm_4_08_01()
    ensures Normalize("4.08.01") == Ok([4, 8, 1])
  {
    var v := "4.08.01";
    assert BuildEnd(v) == 7 && ZeroGroupsEnd(v, 7) == 7;
    assert ParseComponents(v, 5, 7) == Ok([1]);
    ParseComponentsCons(v, 2, 4, 7, 8, [1]);
    assert [8] + [1] == [8, 1];
    ParseComponentsCons(v, 0, 1, 7, 4, [8, 1]);
    assert [4] + [8, 1] == [4, 8, 1];
  }

  lemma NormalForm_1_0_1()
    ensures Normalize("1.0.1") == Ok([1, 0, 1])
  {
    var v := "1.0.1";
    assert BuildEnd(v) == 5 && ZeroGroupsEnd(v, 5) == 5;
    assert ParseComponents(v, 4, 5) == Ok([1]);
    ParseComponentsCons(v, 2, 3, 5, 0, [1]);
    assert [0] + [1] == [0, 1];
    ParseComponentsCons(v, 0, 1, 5, 1, [0, 1]);
    assert [1] + [0, 1] == [1, 0, 1];
  }

  /** The last two components of "3.2.1.9.8144". */
  lemma ComponentsFrom_9_8144()
    ensures ParseComponents("3.2.1.9.8144", 6, 12) == Ok([9, 8144])
  {
    var v := "3.2.1.9.8144";
    assert ParseComponents(v, 8, 12) == Ok([8144]);
    ParseComponentsCons(v, 6, 7, 12, 9, [8144]);
    assert [9] + [8144] == [9, 8144];
  }

  lemma NormalForm_3_2_1_9_8144()
    ensures Normalize("3.2.1.9.8144") == Ok([3, 2, 1, 9, 8144])
  {
    var v := "3.2.1.9.8144";
    assert BuildEnd(v) == 12 && ZeroGroupsEnd(v, 12) == 12;
    ComponentsFrom_9_8144();
    ParseComponentsCons(v, 4, 5, 12, 1, [9, 8144]);
    assert [1] + [9, 8144] == [1, 9, 8144];
    ParseComponentsCons(v, 2, 3, 12, 2, [1, 9, 8144]);
    assert [2] + [1, 9, 8144] == [2, 1, 9, 8144];
    ParseComponentsCons(v, 0, 1, 12, 3, [2, 1, 9, 8144]);
    assert [3] + [2, 1, 9, 8144] == [3, 2, 1, 9, 8144];
  }

  lemma NormalForm_3_2()
    ensures Normalize("3.2") == Ok([3, 2])
  {
    var v := "3.2";
    assert BuildEnd(v) == 3 && ZeroGroupsEnd(v, 3) == 3;
    assert ParseComponents(v, 2, 3) == Ok([2]);
    ParseComponentsCons(v, 0, 1, 3, 3, [2]);
    assert [3] + [2] == [3, 2];
  }

  // The self-test table of `version_compare`.

  lemma NormalForm_1_plus_1()
    ensures Normalize("1.+1") == Ok([1, 1])
  {
    var v := "1.+1";
    assert BuildEnd(v) == 4 && ZeroGroupsEnd(v, 4) == 4;
    assert Underscored(v, 3, 4);
    assert ParseComponents(v, 2, 4) == Ok([1]);
    ParseComponentsCons(v, 0, 1, 4, 1, [1]);
    assert [1] + [1] == [1, 1];
  }

  lemma NormalForm_1_space_1()
    ensures Normalize("1. 1 ") == Ok([1, 1])
  {
    var v := "1. 1 ";
    assert BuildEnd(v) == 5 && ZeroGroupsEnd(v, 5) == 5;
    assert Underscored(v, 3, 4);
    assert ParseComponents(v, 2, 5) == Ok([1]);
    ParseComponentsCons(v, 0, 1, 5, 1, [1]);
    assert [1] + [1] == [1, 1];
  }

  lemma NormalForm_1_1()
    ensures Normalize("1.1") == Ok([1, 1])
  {
    var v := "1.1";
    assert BuildEnd(v) == 3 && ZeroGroupsEnd(v, 3) == 3;
    assert ParseComponents(v, 2, 3) == Ok([1]);
    ParseComponentsCons(v, 0, 1, 3, 1, [1]);
    assert [1] + [1] == [1, 1];
  }

  /**
   * A component goes through `int`, so a sign or white space around its
   * digits is accepted: "1.+1" and "1. 1 " compare equal to "1.1".
   */
  lemma ComponentsReadByInt()
    ensures VersionCompare("1.+1", "1.1") == Ok(0)
    ensures VersionCompare("1. 1 ", "1.1") == Ok(0)
  {
    NormalForm_1_plus_1();
    NormalForm_1_space_1();
    NormalForm_1_1();
    VersionCompareOfNormalForms("1.+1", "1.1", [1, 1], [1, 1]);
    VersionCompareOfNormalForms("1. 1 ", "1.1", [1, 1], [1, 1]);
  }

  /** The comparison of two versions is the comparison of their normal forms. */
  lemma VersionCompareOfNormalForms(version1: string, version2: string, n1: seq<int>, n2: seq<int>)
    requires Normalize(version1) == Ok(n1) && Normalize(version2) == Ok(n2)
    ensures VersionCompare(version1, version2) == Ok(LexCompare(n1, n2))
  {
  }

  lemma LexCompare_3_0_4_10_vs_3_0_4_2()
    ensures LexCompare([3, 0, 4, 10], [3, 0, 4, 2]) == 1
  {
    LexCompareCommonPrefix([3, 0, 4], [10], [2]);
    assert [3, 0, 4] + [10] == [3, 0, 4, 10] && [3, 0, 4] + [2] == [3, 0, 4, 2];
  }

  lemma LexCompare_4_8_vs_4_8_1()
    ensures LexCompare([4, 8], [4, 8, 1]) == -1
  {
    LexCompareCommonPrefix([4, 8], [], [1]);
    assert [4, 8] + [] == [4, 8] && [4, 8] + [1] == [4, 8, 1];
  }

  lemma LexCompare_3_2_1_9_8144_vs_3_2()
    ensures LexCompare([3, 2, 1, 9, 8144], [3, 2]) == 1
    ensures LexCompare([3, 2], [3, 2, 1, 9, 8144]) == -1
  {
    LexCompareCommonPrefix([3, 2], [1, 9, 8144], []);
    LexCompareCommonPrefix([3, 2], [], [1, 9, 8144]);
    assert [3, 2] + [1, 9, 8144] == [3, 2, 1, 9, 8144] && [3, 2] + [] == [3, 2];
  }

  /** Self-test 1: version_compare("1", "1") is 0. */
  lemma VersionCompareCase1()
    ensures VersionCompare("1", "1") == Ok(0)
  {
    NormalForm_1();
    VersionCompareOfNormalForms("1", "1", [1], [1]);
  }

  /** Self-test 2: version_compare("2.1", "2.2") is negative. */
  lemma VersionCompareCase2()
    ensures VersionCompare("2.1", "2.2") == Ok(-1)
  {
    NormalForm_2_1();
    NormalForm_2_2();
    VersionCompareOfNormalForms("2.1", "2.2", [2, 1], [2, 2]);
  }

  /** Self-test 3: version_compare("3.0.4.10", "3.0.4.2") is positive. */
  lemma VersionCompareCase3()
    ensures VersionCompare("3.0.4.10", "3.0.4.2") == Ok(1)
  {
    NormalForm_3_0_4_10();
    NormalForm_3_0_4_2();
    LexCompare_3_0_4_10_vs_3_0_4_2();
    VersionCompareOfNormalForms("3.0.4.10", "3.0.4.2", [3, 0, 4, 10], [3, 0, 4, 2]);
  }

  /** Self-test 4: version_compare("4.08", "4.08.01") is negative. */
  lemma VersionCompareCase4()
    ensures VersionCompare("4.08", "4.08.01") == Ok(-1)
  {
    NormalForm_4_08();
    NormalForm_4_08_01();
    LexCompare_4_8_vs_4_8_1();
    VersionCompareOfNormalForms("4.08", "4.08.01", [4, 8], [4, 8, 1]);
  }

  /** Self-test 5: version_compare("3.2.1.9.8144", "3.2") is positive. */
  lemma VersionCompareCase5()
    ensures VersionCompare("3.2.1.9.8144", "3.2") == Ok(1)
  {
    NormalForm_3_2_1_9_8144();
    NormalForm_3_2();
    LexCompare_3_2_1_9_8144_vs_3_2();
    VersionCompareOfNormalForms("3.2.1.9.8144", "3.2", [3, 2, 1, 9, 8144], [3, 2]);
  }

  /** Self-test 6: version_compare("3.2", "3.2.1.9.8144") is negative. */
  lemma VersionCompareCase6()
    ensures VersionCompare("3.2", "3.2.1.9.8144") == Ok(-1)
  {
    NormalForm_3_2();
    NormalForm_3_2_1_9_8144();
    LexCompare_3_2_1_9_8144_vs_3_2();
    VersionCompareOfNormalForms("3.2", "3.2.1.9.8144", [3, 2], [3, 2, 1, 9, 8144]);
  }

  /** Self-test 7: version_compare("1.2", "2.1") is negative. */
  lemma VersionCompareCase7()
    ensures VersionCompare("1.2", "2.1") == Ok(-1)
  {
    NormalForm_1_2();
    NormalForm_2_1();
    VersionCompareOfNormalForms("1.2", "2.1", [1, 2], [2, 1]);
  }

  /** Self-test 8: version_compare("2.1", "1.2") is positive. */
  lemma VersionCompareCase8()
    ensures VersionCompare("2.1", "1.2") == Ok(1)
  {
    NormalForm_2_1();
    NormalForm_1_2();
    VersionCompareOfNormalForms("2.1", "1.2", [2, 1], [1, 2]);
  }

  /** Self-test 9: version_compare("5.6.7", "5.6.7") is 0. */
  lemma VersionCompareCase9()
    ensures VersionCompare("5.6.7", "5.6.7") == Ok(0)
  {
    NormalForm_5_6_7();
    VersionCompareOfNormalForms("5.6.7", "5.6.7", [5, 6, 7], [5, 6, 7]);
  }

  /** Self-test 10: version_compare("1.01.1", "1.1.1") is 0. */
  lemma VersionCompareCase10()
    ensures VersionCompare("1.01.1", "1.1.1") == Ok(0)
  {
    NormalForm_1_01_1();
    NormalForm_1_1_1();
    VersionCompareOfNormalForms("1.01.1", "1.1.1", [1, 1, 1], [1, 1, 1]);
  }

  /** Self-test 11: version_compare("1.1.1", "1.01.1") is 0. */
  lemma VersionCompareCase11()
    ensures VersionCompare("1.1.1", "1.01.1") == Ok(0)
  {
    NormalForm_1_1_1();
    NormalForm_1_01_1();
    VersionCompareOfNormalForms("1.1.1", "1.01.1", [1, 1, 1], [1, 1, 1]);
  }

  /** Self-test 12: version_compare("1", "1.0") is 0. */
  lemma VersionCompareCase12()
    ensures VersionCompare("1", "1.0") == Ok(0)
  {
    NormalForm_1();
    NormalForm_1_0();
    VersionCompareOfNormalForms("1", "1.0", [1], [1]);
  }

  /** Self-test 13: version_compare("1.0", "1") is 0. */
  lemma VersionCompareCase13()
    ensures VersionCompare("1.0", "1") == Ok(0)
  {
    NormalForm_1_0();
    NormalForm_1();
    VersionCompareOfNormalForms("1.0", "1", [1], [1]);
  }

  /** Self-test 14: version_compare("1.0", "1.0.1") is negative. */
  lemma VersionCompareCase14()
    ensures VersionCompare("1.0", "1.0.1") == Ok(-1)
  {
    NormalForm_1_0();
    NormalForm_1_0_1();
    VersionCompareOfNormalForms("1.0", "1.0.1", [1], [1, 0, 1]);
  }

  /** Self-test 15: version_compare("1.0.1", "1.0") is positive. */
  lemma VersionCompareCase15()
    ensures VersionCompare("1.0.1", "1.0") == Ok(1)
  {
    NormalForm_1_0_1();
    NormalForm_1_0();
    VersionCompareOfNormalForms("1.0.1", "1.0", [1, 0, 1], [1]);
  }

  /** Self-test 16: version_compare("1.0.2.0", "1.0.2") is 0. */
  lemma VersionCompareCase16()
    ensures VersionCompare("1.0.2.0", "1.0.2") == Ok(0)
  {
    NormalForm_1_0_2_0();
    NormalForm_1_0_2();
    VersionCompareOfNormalForms("1.0.2.0", "1.0.2", [1, 0, 2], [1, 0, 2]);
  }

  /** Self-test 17: version_compare("10.0", "9.0.3") is positive. */
  lemma VersionCompareCase17()
    ensures VersionCompare("10.0", "9.0.3") == Ok(1)
  {
    NormalForm_10_0();
    NormalForm_9_0_3();
    VersionCompareOfNormalForms("10.0", "9.0.3", [10], [9, 0, 3]);
  }

  // ---------------------------------------------------------------------
  // Transport outcomes
  // ---------------------------------------------------------------------

  datatype SoapFault = SoapFault(code: string, message: string)

  /** What the remote call did: returned data, failed to connect, or answered with a SOAP fault. */
  datatype SoapCall<D> = Returned(response: D) | ConnectionFailed | Faulted(fault: SoapFault)

  /** Operation-name prefixes that mark an operation as read-only. */
  const ReadOnlyPrefixes: seq<string> := ["get", "is", "login", "logout", "search", "lookup", "test", "find"]

  /** `s.startswith(prefixes)` for a tuple of prefixes. */
  function StartsWithAny(s: string, prefixes: seq<string>): (r: bool)
    ensures r <==> exists i :: 0 <= i < |prefixes| && StartsWith(s, prefixes[i])
  {
    if prefixes == [] then false
    else if StartsWith(s, prefixes[0]) then true
    else
      var r := StartsWithAny(s, prefixes[1..]);
      assert forall i :: 1 <= i < |prefixes| ==> prefixes[i] == prefixes[1..][i - 1];
      r
  }

  /** The default `changed` flag of `invoke_soap_request`: set unless the operation looks read-only. */
  function ChangedHint(operation: string): (changed: bool)
    ensures changed <==> forall i :: 0 <= i < |ReadOnlyPrefixes| ==> !StartsWith(Lower(operation), ReadOnlyPrefixes[i])
  {
    !StartsWithAny(Lower(operation), ReadOnlyPrefixes)
  }

  lemma ChangedHintExamples()
    ensures !ChangedHint("searchRoles")
    ensures ChangedHint("modifyRole")
  {
    assert Lower("searchRoles") == "searchroles";
    assert StartsWith("searchroles", ReadOnlyPrefixes[4]);
    assert Lower("modifyRole") == "modifyrole";
    assert forall i :: 0 <= i < |ReadOnlyPrefixes| ==> |ReadOnlyPrefixes[i]| > 0 && ReadOnlyPrefixes[i][0] != 'm';
  }

  /** The fault that marks an invalid session and always aborts. */
  predicate IsFatalFault(f: SoapFault) {
    f.code == "axis2ns1:Server" && f.message == "Internal Error"
  }

  /** The connection to the identity server, reduced to the version it reported. */
  class ISIMApplication {
    var version: Option<string>

    /** The version string is the reported version and fix-pack level joined by a dot. */
    constructor (reportedVersion: string, fixPackLevel: string)
      ensures version == Some(reportedVersion + "." + fixPackLevel)
    {
      version := Some(reportedVersion + "." + fixPackLevel);
    }

    /** `_is_version_supported`: unknown versions are accepted; otherwise version >= required. */
    function IsVersionSupported(requiresVersion: Option<string>): (r: Result<bool>)
      reads this
      ensures requiresVersion.None? || version.None? ==> r == Ok(true)
      ensures requiresVersion.Some? && version.Some? ==>
        match VersionCompare(version.value, requiresVersion.value)
        case Ok(c) => r == Ok(c >= 0)
        case Err(e) => r == Err(e)
    {
      if requiresVersion.Some? && version.Some? then
        var c :- VersionCompare(version.value, requiresVersion.value);
        if c < 0 then Ok(false) else Ok(true)
      else Ok(true)
    }

    /** `_check_version`: an unsupported version raises, or with ignore_error sets rc to 1. */
    method CheckVersion<D>(returnObj: IBMResponse<D>, requiresVersion: Option<string>, ignoreError: bool)
      returns (raised: Option<Error>)
      modifies returnObj
      ensures IsVersionSupported(requiresVersion).Err? ==>
        raised == Some(IsVersionSupported(requiresVersion).error) && unchanged(returnObj)
      ensures IsVersionSupported(requiresVersion) == Ok(true) ==> raised == None && unchanged(returnObj)
      ensures IsVersionSupported(requiresVersion) == Ok(false) && !ignoreError ==>
        raised == Some(IBMError) && unchanged(returnObj)
      ensures IsVersionSupported(requiresVersion) == Ok(false) && ignoreError ==>
        raised == None && returnObj.rc == 1 && returnObj.data == old(returnObj.data)
        && returnObj.changed == old(returnObj.changed) && returnObj.warnings == old(returnObj.warnings)
        && returnObj.fault == old(returnObj.fault)
    {
      var supported := IsVersionSupported(requiresVersion);
      if supported.Err? {
        return Some(supported.error);
      }
      if !supported.value {
        if !ignoreError {
          return Some(IBMError);
        }
        returnObj.rc := 1;
      }
      return None;
    }

    /** `_process_connection_error`: raise, or with ignore_error set rc to 502. */
    method ProcessConnectionError<D>(ignoreError: bool, returnObj: IBMResponse<D>) returns (raised: Option<Error>)
      modifies returnObj
      ensures !ignoreError ==> raised == Some(IBMError) && unchanged(returnObj)
      ensures ignoreError ==> (raised == None && returnObj.rc == 502
        && returnObj.data == old(returnObj.data) && returnObj.changed == old(returnObj.changed)
        && returnObj.warnings == old(returnObj.warnings) && returnObj.fault == old(returnObj.fault))
    {
      if !ignoreError {
        return Some(IBMError);
      }
      returnObj.rc := 502;
      return None;
    }

    /**
     * `_process_response`: a return code set by an earlier step stops all
     * processing; otherwise a fault sets rc to 500 and either raises or (when
     * ignoring errors) forces changed to false, no fault sets rc to 0, and the
     * data becomes the response.
     */
    method ProcessResponse<D>(returnObj: IBMResponse<D>, zeepResponse: Option<D>, soapFault: Option<SoapFault>,
                              ignoreError: bool)
      returns (raised: Option<Error>)
      modifies returnObj
      ensures old(returnObj.rc) != 0 ==> raised == None && unchanged(returnObj)
      ensures returnObj.warnings == old(returnObj.warnings) && returnObj.fault == old(returnObj.fault)
      ensures old(returnObj.rc) == 0 && soapFault.None? ==>
        raised == None && returnObj.rc == 0 && returnObj.data == zeepResponse
        && returnObj.changed == old(returnObj.changed)
      ensures old(returnObj.rc) == 0 && soapFault.Some? ==> returnObj.rc == 500
      ensures old(returnObj.rc) == 0 && soapFault.Some? && IsFatalFault(soapFault.value) ==>
        raised == Some(IBMFatal)
      ensures old(returnObj.rc) == 0 && soapFault.Some? && !IsFatalFault(soapFault.value) && !ignoreError ==>
        raised == Some(IBMError)
      ensures old(returnObj.rc) == 0 && soapFault.Some? && !IsFatalFault(soapFault.value) && ignoreError ==>
        raised == None && !returnObj.changed && returnObj.data == zeepResponse
    {
      if returnObj.rc != 0 {
        return None;
      }
      if soapFault.None? {
        returnObj.rc := 0;
      } else {
        returnObj.rc := 500;
        if IsFatalFault(soapFault.value) {
          return Some(IBMFatal);
        }
        if !ignoreError {
          return Some(IBMError);
        }
        returnObj.changed := false;
      }
      returnObj.data := zeepResponse;
      return None;
    }

    /**
     * `invoke_soap_request` with the remote call replaced by its outcome:
     * version gate, then the call, then the changed hint, then the response
     * processing. Without `ignore_error` a call either raises or returns rc 0.
     */
    method InvokeSoapRequest<D>(operation: string, requiresVersion: Option<string>, warnings: seq<string>,
                                ignoreError: bool, call: SoapCall<D>)
      returns (returnObj: IBMResponse<D>, raised: Option<Error>)
      ensures fresh(returnObj) && returnObj.warnings == warnings && returnObj.fault == None
      ensures IsVersionSupported(requiresVersion).Err? ==> raised == Some(IsVersionSupported(requiresVersion).error)
      ensures IsVersionSupported(requiresVersion) == Ok(false) ==>
        if ignoreError then raised == None && returnObj.rc == 1 && !returnObj.changed && returnObj.data == None
        else raised == Some(IBMError)
      ensures IsVersionSupported(requiresVersion) == Ok(true) && call.Returned? ==>
        raised == None && returnObj.rc == 0 && returnObj.data == Some(call.response)
        && returnObj.changed == ChangedHint(operation)
      ensures IsVersionSupported(requiresVersion) == Ok(true) && call.ConnectionFailed? ==>
        if ignoreError then raised == None && returnObj.rc == 502 && returnObj.data == None
          && returnObj.changed == ChangedHint(operation)
        else raised == Some(IBMError)
      ensures IsVersionSupported(requiresVersion) == Ok(true) && call.Faulted? ==>
        returnObj.rc == 500 &&
        if IsFatalFault(call.fault) then raised == Some(IBMFatal)
        else if !ignoreError then raised == Some(IBMError)
        else raised == None && !returnObj.changed && returnObj.data == None
      ensures !ignoreError && raised.None? ==> returnObj.rc == 0
    {
      returnObj := new IBMResponse.CreateReturnObject(0, None, warnings, false);
      raised := CheckVersion(returnObj, requiresVersion, ignoreError);
      if raised.Some? || returnObj.rc == 1 {
        return;
      }
      var soapData: Option<D> := None;
      var soapFault: Option<SoapFault> := None;
      match call {
        case Returned(response) =>
          soapData := Some(response);
        case ConnectionFailed =>
          raised := ProcessConnectionError(ignoreError, returnObj);
          if raised.Some? {
            return;
          }
        case Faulted(fault) =>
          soapFault := Some(fault);
      }
      if ChangedHint(operation) {
        returnObj.changed := true;
      }
      raised := ProcessResponse(returnObj, soapData, soapFault, ignoreError);
    }
  }
}
