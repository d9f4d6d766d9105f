/**
 * Shared vocabulary: optional values, the exceptions the client raises, and the
 * handful of Python string operations (lower(), startswith, endswith, split)
 * the reconciliation code relies on.
 */
module Common {

  datatype Option<T> = None | Some(value: T)

  /** The exception kinds the client raises, by class. */
  datatype Error =
    | ValueError
    | IndexError
    | KeyError
    | TypeError
    | IBMError
    | IBMFatal

  /** A computation that either returns a value or raises. */
  datatype Result<T> = Ok(value: T) | Err(error: Error) {
    predicate IsFailure() { Err? }

    function PropagateFailure<U>(): Result<U>
      requires Err?
    {
      Err(error)
    }

    function Extract(): T
      requires Ok?
    {
      value
    }
  }

  // ---------------------------------------------------------------------
  // Case folding (ASCII letters only; other letters are kept as they are)
  // ---------------------------------------------------------------------

  function LowerChar(c: char): char {
    if 'A' <= c <= 'Z' then (c as int + 32) as char else c
  }

  /** `s.lower()` */
  function Lower(s: string): (r: string)
    ensures |r| == |s|
  {
    seq(|s|, i requires 0 <= i < |s| => LowerChar(s[i]))
  }

  lemma LowerIdempotent(s: string)
    ensures Lower(Lower(s)) == Lower(s)
  {
  }

  lemma LowerConcat(a: string, b: string)
    ensures Lower(a + b) == Lower(a) + Lower(b)
  {
  }

  /** The two spellings agree when case is ignored. */
  predicate EqualsIgnoreCase(a: string, b: string) {
    Lower(a) == Lower(b)
  }

  // ---------------------------------------------------------------------
  // Prefixes, suffixes, substrings
  // ---------------------------------------------------------------------

  predicate StartsWith(s: string, p: string) {
    |p| <= |s| && s[..|p|] == p
  }

  predicate EndsWith(s: string, suffix: string) {
    |suffix| <= |s| && s[|s| - |suffix|..] == suffix
  }

  predicate OccursAt(s: string, sep: string, i: nat) {
    i + |sep| <= |s| && s[i..i + |sep|] == sep
  }

  /** Python's `a in s` for strings. */
  ghost predicate Contains(s: string, sep: string) {
    exists i: nat | i <= |s| :: OccursAt(s, sep, i)
  }

  /** The first position at or after `from` where `sep` occurs in `s`. */
  function FindFrom(s: string, sep: string, from: nat): (r: Option<nat>)
    requires |sep| > 0
    ensures r.Some? ==> from <= r.value && OccursAt(s, sep, r.value)
    ensures r.Some? ==> forall j: nat :: from <= j < r.value ==> !OccursAt(s, sep, j)
    ensures r.None? ==> forall j: nat :: from <= j ==> !OccursAt(s, sep, j)
    decreases |s| - from
  {
    if from + |sep| > |s| then None
    else if s[from..from + |sep|] == sep then Some(from)
    else FindFrom(s, sep, from + 1)
  }

  /** Python's `s.split(sep)` for a non-empty separator. */
  function Split(s: string, sep: string): (parts: seq<string>)
    requires |sep| > 0
    ensures |parts| >= 1
    decreases |s|
  {
    match FindFrom(s, sep, 0)
    case None => [s]
    case Some(i) => [s[..i]] + Split(s[i + |sep|..], sep)
  }

  /** Python's `sep.join(parts)`. */
  function Join(parts: seq<string>, sep: string): string
    requires |parts| >= 1
  {
    if |parts| == 1 then parts[0] else parts[0] + sep + Join(parts[1..], sep)
  }

  /** Splitting and joining back with the same separator restores the string. */
  lemma {:induction false} JoinSplit(s: string, sep: string)
    requires |sep| > 0
    ensures Join(Split(s, sep), sep) == s
    decreases |s|
  {
    var f := FindFrom(s, sep, 0);
    if f.Some? {
      var i := f.value;
      var rest := s[i + |sep|..];
      var parts := Split(s, sep);
      assert parts == [s[..i]] + Split(rest, sep);
      assert parts[1..] == Split(rest, sep);
      JoinSplit(rest, sep);
      assert Join(parts, sep) == s[..i] + sep + rest;
      assert s[i..i + |sep|] == sep;
      assert s == s[..i] + s[i..i + |sep|] + rest;
    }
  }

  /** A string that splits into two parts is the two parts around the separator. */
  lemma SplitInTwo(s: string, sep: string)
    requires |sep| > 0
    requires |Split(s, sep)| == 2
    ensures Split(s, sep)[0] + sep + Split(s, sep)[1] == s
  {
    var parts := Split(s, sep);
    JoinSplit(s, sep);
    assert parts[1..] == [parts[1]];
    assert Join(parts, sep) == parts[0] + sep + Join(parts[1..], sep);
  }

  lemma FoundImpliesContains(s: string, sep: string)
    requires |sep| > 0
    ensures FindFrom(s, sep, 0).Some? ==> Contains(s, sep)
  {
    var f := FindFrom(s, sep, 0);
    if f.Some? {
      assert f.value <= |s| && OccursAt(s, sep, f.value);
    }
  }

  /** A string without any occurrence of the separator does not split. */
  lemma SplitNoOccurrence(s: string, sep: string)
    requires |sep| > 0
    requires !Contains(s, sep)
    ensures Split(s, sep) == [s]
  {
    FoundImpliesContains(s, sep);
  }

  /**
   * `(a + sep + b).split(sep) == [a, b]` when the separator can only be
   * found at the junction: no occurrence starts inside `a`, and none lies
   * inside `b`.
   */
  lemma SplitAtJunction(a: string, sep: string, b: string)
    requires |sep| > 0
    requires forall j: nat :: j < |a| ==> !OccursAt(a + sep + b, sep, j)
    requires !Contains(b, sep)
    ensures Split(a + sep + b, sep) == [a, b]
  {
    var s := a + sep + b;
    assert OccursAt(s, sep, |a|) by { assert s[|a|..|a| + |sep|] == sep; }
    var f := FindFrom(s, sep, 0);
    assert f == Some(|a|);
    assert s[..|a|] == a;
    assert s[|a| + |sep|..] == b;
    SplitNoOccurrence(b, sep);
  }

  /** The same when the separator's first character does not occur in `a`. */
  lemma SplitTwoParts(a: string, sep: string, b: string)
    requires |sep| > 0
    requires sep[0] !in a
    requires !Contains(b, sep)
    ensures Split(a + sep + b, sep) == [a, b]
  {
    var s := a + sep + b;
    forall j: nat | j < |a|
      ensures !OccursAt(s, sep, j)
    {
      assert s[j..j + |sep|][0] == a[j] && a[j] != sep[0];
    }
    SplitAtJunction(a, sep, b);
  }

  /** `a + sep + b` splits first at the junction when `sep` cannot start inside `a`. */
  lemma SplitFirstPart(a: string, sep: string, b: string)
    requires |sep| > 0
    requires sep[0] !in a
    ensures Split(a + sep + b, sep)[0] == a
  {
    var s := a + sep + b;
    assert OccursAt(s, sep, |a|) by { assert s[|a|..|a| + |sep|] == sep; }
    forall j: nat | j < |a|
      ensures !OccursAt(s, sep, j)
    {
      assert s[j..j + |sep|][0] == a[j] && a[j] != sep[0];
    }
    assert FindFrom(s, sep, 0) == Some(|a|);
    assert s[..|a|] == a;
  }

  // ---------------------------------------------------------------------
  // Python slices with negative or out-of-range bounds
  // ---------------------------------------------------------------------

  /** `s[:-k]` for k >= 1: everything but the last k characters, or '' when k reaches the length. */
  function DropLast(s: string, k: nat): (r: string)
    requires k >= 1
    ensures k < |s| ==> r == s[..|s| - k]
    ensures k >= |s| ==> r == ""
  {
    if k >= |s| then "" else s[..|s| - k]
  }

  /** `s[k:]`: everything from index k on, or '' when k reaches the length. */
  function DropFirst(s: string, k: nat): (r: string)
    ensures k < |s| ==> r == s[k..]
    ensures k >= |s| ==> r == ""
  {
    if k >= |s| then "" else s[k..]
  }

  // ---------------------------------------------------------------------
  // Decimal digits
  // ---------------------------------------------------------------------

  predicate IsDigit(c: char) {
    '0' <= c <= '9'
  }

  predicate AllDigits(s: string) {
    forall i :: 0 <= i < |s| ==> IsDigit(s[i])
  }

  /** The value of a string of decimal digits. */
  function DigitsValue(s: string): nat
    requires AllDigits(s)
  {
    if s == [] then 0 else DigitsValue(s[..|s| - 1]) * 10 + (s[|s| - 1] as int - '0' as int)
  }

  /** The ASCII characters that Python's `int` strips from both ends of its argument. */
  predicate IsSpace(c: char) {
    c == ' ' || 9 <= c as int <= 13 || 0x1c <= c as int <= 0x1f
  }

  /** Where `s[lo..hi]` starts once leading white space is stripped. */
  function StripStart(s: string, lo: nat, hi: nat): (a: nat)
    requires lo <= hi <= |s|
    ensures lo <= a <= hi
    decreases hi - lo
  {
    if lo < hi && IsSpace(s[lo]) then StripStart(s, lo + 1, hi) else lo
  }

  /** Where `s[lo..hi]` ends once trailing white space is stripped. */
  function StripEnd(s: string, lo: nat, hi: nat): (b: nat)
    requires lo <= hi <= |s|
    ensures lo <= b <= hi
  {
    if lo < hi && IsSpace(s[hi - 1]) then StripEnd(s, lo, hi - 1) else hi
  }

  /**
   * `s[lo..hi]` is the digits of an integer literal: decimal digits, where
   * a single '_' may stand between two of them.
   */
  predicate Underscored(s: string, lo: nat, hi: nat)
    requires lo <= hi <= |s|
    decreases hi - lo
  {
    && lo < hi && IsDigit(s[lo])
    && (lo + 1 == hi || Underscored(s, if s[lo + 1] == '_' then lo + 2 else lo + 1, hi))
  }

  /** The value of the digits in `s[lo..hi]`, the underscores skipped. */
  function UnderscoredValue(s: string, lo: nat, hi: nat): int
    requires lo <= hi <= |s|
  {
    if lo == hi then 0
    else if s[hi - 1] == '_' then UnderscoredValue(s, lo, hi - 1)
    else UnderscoredValue(s, lo, hi - 1) * 10 + (s[hi - 1] as int - '0' as int)
  }

  /**
   * Python's `int(s[lo..hi])` in base 10: surrounding white space is
   * stripped, one '+' or '-' may lead, and the rest must be digits with
   * single '_' between them; anything else raises ValueError.
   */
  function PyIntBetween(s: string, lo: nat, hi: nat): (r: Result<int>)
    requires lo <= hi <= |s|
    ensures r.Err? ==> r.error == ValueError
  {
    var a := StripStart(s, lo, hi);
    var b := StripEnd(s, a, hi);
    if a == b then Err(ValueError)
    else
      var digits := if s[a] == '+' || s[a] == '-' then a + 1 else a;
      if !Underscored(s, digits, b) then Err(ValueError)
      else if s[a] == '-' then Ok(-UnderscoredValue(s, digits, b))
      else Ok(UnderscoredValue(s, digits, b))
  }

  /** Python's `int(s)` in base 10. */
  function PyInt(s: string): (r: Result<int>)
    ensures r.Err? ==> r.error == ValueError
  {
    PyIntBetween(s, 0, |s|)
  }

  // Each step of `PyIntBetween` reads only `s[lo..hi]`, so text appended
  // after `hi` is irrelevant.

  lemma {:induction false} StripStartPrefix(s: string, x: string, lo: nat, hi: nat)
    requires lo <= hi <= |s|
    ensures StripStart(s + x, lo, hi) == StripStart(s, lo, hi)
    decreases hi - lo
  {
    if lo < hi && IsSpace(s[lo]) {
      StripStartPrefix(s, x, lo + 1, hi);
    }
  }

  lemma {:induction false} StripEndPrefix(s: string, x: string, lo: nat, hi: nat)
    requires lo <= hi <= |s|
    ensures StripEnd(s + x, lo, hi) == StripEnd(s, lo, hi)
  {
    if lo < hi && IsSpace(s[hi - 1]) {
      StripEndPrefix(s, x, lo, hi - 1);
    }
  }

  lemma {:induction false} UnderscoredPrefix(s: string, x: string, lo: nat, hi: nat)
    requires lo <= hi <= |s|
    ensures Underscored(s + x, lo, hi) == Underscored(s, lo, hi)
    ensures UnderscoredValue(s + x, lo, hi) == UnderscoredValue(s, lo, hi)
    decreases hi - lo
  {
    if lo + 2 < hi {
      UnderscoredPrefix(s, x, lo + 2, hi);
    }
    if lo + 1 < hi {
      UnderscoredPrefix(s, x, lo + 1, hi);
    }
    if lo < hi {
      UnderscoredPrefix(s, x, lo, hi - 1);
    }
  }

  lemma PyIntBetweenPrefix(s: string, x: string, lo: nat, hi: nat)
    requires lo <= hi <= |s|
    ensures PyIntBetween(s + x, lo, hi) == PyIntBetween(s, lo, hi)
  {
    StripStartPrefix(s, x, lo, hi);
    var a := StripStart(s, lo, hi);
    StripEndPrefix(s, x, a, hi);
    var b := StripEnd(s, a, hi);
    if a < b {
      UnderscoredPrefix(s, x, a, b);
      if a + 1 <= b {
        UnderscoredPrefix(s, x, a + 1, b);
      }
    }
  }

  // Each step of `PyIntBetween` gives the same answer on a range of `s`
  // and on that range moved behind a prefix `p`.

  lemma {:induction false} StripStartShift(p: string, s: string, lo: nat, hi: nat)
    requires lo <= hi <= |s|
    ensures StripStart(p + s, |p| + lo, |p| + hi) == |p| + StripStart(s, lo, hi)
    decreases hi - lo
  {
    if lo < hi {
      assert (p + s)[|p| + lo] == s[lo];
      StripStartShift(p, s, lo + 1, hi);
    }
  }

  lemma {:induction false} StripEndShift(p: string, s: string, lo: nat, hi: nat)
    requires lo <= hi <= |s|
    ensures StripEnd(p + s, |p| + lo, |p| + hi) == |p| + StripEnd(s, lo, hi)
  {
    if lo < hi {
      assert (p + s)[|p| + hi - 1] == s[hi - 1];
      StripEndShift(p, s, lo, hi - 1);
    }
  }

  lemma {:induction false} UnderscoredShift(p: string, s: string, lo: nat, hi: nat)
    requires lo <= hi <= |s|
    ensures Underscored(p + s, |p| + lo, |p| + hi) == Underscored(s, lo, hi)
    ensures UnderscoredValue(p + s, |p| + lo, |p| + hi) == UnderscoredValue(s, lo, hi)
    decreases hi - lo
  {
    if lo < hi {
      assert (p + s)[|p| + lo] == s[lo];
      assert (p + s)[|p| + hi - 1] == s[hi - 1];
      UnderscoredShift(p, s, lo, hi - 1);
      if lo + 1 < hi {
        assert (p + s)[|p| + lo + 1] == s[lo + 1];
        UnderscoredShift(p, s, if s[lo + 1] == '_' then lo + 2 else lo + 1, hi);
      }
    }
  }

  lemma PyIntBetweenShift(p: string, s: string, lo: nat, hi: nat)
    requires lo <= hi <= |s|
    ensures PyIntBetween(p + s, |p| + lo, |p| + hi) == PyIntBetween(s, lo, hi)
  {
    StripStartShift(p, s, lo, hi);
    var a := StripStart(s, lo, hi);
    StripEndShift(p, s, a, hi);
    var b := StripEnd(s, a, hi);
    if a < b {
      assert (p + s)[|p| + a] == s[a];
      UnderscoredShift(p, s, a, b);
      UnderscoredShift(p, s, a + 1, b);
    }
  }

  /** `int` ignores white space in front of its argument. */
  lemma PyIntStripsLeadingSpace(c: char, s: string)
    requires IsSpace(c)
    ensures PyInt([c] + s) == PyInt(s)
  {
    var x := [c] + s;
    assert StripStart(x, 0, |x|) == StripStart(x, 1, |x|);
    PyIntBetweenShift([c], s, 0, |s|);
  }

  /** A leading '-' negates a run of digits, a leading '+' keeps it. */
  lemma PyIntOfSignedDigits(sign: char, d: string)
    requires sign == '+' || sign == '-'
    requires d != [] && AllDigits(d)
    ensures PyInt([sign] + d) == Ok(if sign == '-' then -(DigitsValue(d) as int) else DigitsValue(d))
  {
    var x := [sign] + d;
    assert x[|x| - 1] == d[|d| - 1] && IsDigit(d[|d| - 1]);
    assert StripStart(x, 0, |x|) == 0;
    assert StripEnd(x, 0, |x|) == |x|;
    assert d[0..|d|] == d;
    UnderscoredDigits(d, 0, |d|);
    UnderscoredShift([sign], d, 0, |d|);
  }

  /** Single underscores between digits are skipped; a doubled, leading or trailing one raises. */
  lemma PyIntUnderscores()
    ensures PyInt("1_000") == Ok(1000)
    ensures PyInt("1__0") == Err(ValueError)
    ensures PyInt("_1") == Err(ValueError)
    ensures PyInt("1_") == Err(ValueError)
  {
    assert !Underscored("1__0", 2, 4);
    assert !Underscored("1_", 2, 2);
    assert !Underscored("_1", 0, 2);
    assert Underscored("1_000", 4, 5) && Underscored("1_000", 3, 5) && Underscored("1_000", 2, 5);
  }

  /** A run of digits is an integer literal, and its value is its decimal value. */
  lemma {:induction false} UnderscoredDigits(s: string, lo: nat, hi: nat)
    requires lo < hi <= |s| && AllDigits(s[lo..hi])
    ensures Underscored(s, lo, hi)
    ensures UnderscoredValue(s, lo, hi) == DigitsValue(s[lo..hi])
    decreases hi - lo
  {
    assert IsDigit(s[lo..hi][0]);
    if lo + 1 < hi {
      assert IsDigit(s[lo..hi][1]);
      assert s[lo + 1..hi] == s[lo..hi][1..];
      UnderscoredDigits(s, lo + 1, hi);
      assert s[lo..hi - 1] == s[lo..hi][..hi - 1 - lo];
      UnderscoredDigits(s, lo, hi - 1);
    }
    assert IsDigit(s[lo..hi][hi - 1 - lo]);
    assert s[lo..hi][..hi - lo - 1] == s[lo..hi - 1];
  }

  /** On a plain digit string `int` is the decimal value, and on the empty string it raises. */
  lemma PyIntOfDigits(s: string)
    requires AllDigits(s)
    ensures s != [] ==> PyInt(s) == Ok(DigitsValue(s))
    ensures s == [] ==> PyInt(s) == Err(ValueError)
  {
    if s != [] {
      assert IsDigit(s[0]) && IsDigit(s[|s| - 1]);
      assert s[0..|s|] == s;
      UnderscoredDigits(s, 0, |s|);
    }
  }

  /** `int` reads back the decimal text of every natural number. */
  lemma PyIntOfDecimalText(n: nat)
    ensures PyInt(DecimalText(n)) == Ok(n)
  {
    PyIntOfDigits(DecimalText(n));
  }

  /** The decimal text of a natural number. */
  function DecimalText(n: nat): (s: string)
    ensures s != [] && AllDigits(s) && DigitsValue(s) == n
    decreases n
  {
    var digit := "0123456789"[n % 10];
    if n < 10 then [digit]
    else
      var s := DecimalText(n / 10) + [digit];
      assert s[..|s| - 1] == DecimalText(n / 10);
      s
  }
}
