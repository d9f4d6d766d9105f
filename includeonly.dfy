/**
 * The `include_only` filter used by the start configuration. Given a list,
 * it deletes in place every element whose first item is not `b`, unless `b`
 * is empty. It walks a copy of the list and deletes each unwanted element
 * with `list.remove`, which deletes the first element equal to it. Given a
 * dict, it applies the same step in place to every list-valued entry. Either
 * way it returns the object it was given.
 *
 * Each element is a list of strings. `Filter` states the result: the
 * elements kept, in their order, or the IndexError raised by the first empty
 * element, with the list as the walk leaves it.
 */
module IncludeOnly {
  import opened Common

  /** One element of a filtered list: a list whose first item is compared. */
  type Element = seq<string>

  // ---------------------------------------------------------------------
  // Specification
  // ---------------------------------------------------------------------

  /** The element stays: its first item is `b`, or `b` is empty. */
  predicate Keeps(b: string, e: Element) {
    |e| > 0 && (b == e[0] || b == "")
  }

  /** The elements that stay, in their order. */
  function Kept(b: string, xs: seq<Element>): (r: seq<Element>)
    ensures |r| <= |xs|
  {
    if |xs| == 0 then []
    else Kept(b, xs[..|xs| - 1]) + (if Keeps(b, xs[|xs| - 1]) then [xs[|xs| - 1]] else [])
  }

  /** The index of the first empty element, or the length when there is none. */
  function FirstEmpty(xs: seq<Element>): (i: nat)
    ensures i <= |xs|
    ensures forall j :: 0 <= j < i ==> |xs[j]| > 0
    ensures i < |xs| ==> |xs[i]| == 0
  {
    if |xs| == 0 then 0
    else if |xs[0]| == 0 then 0
    else 1 + FirstEmpty(xs[1..])
  }

  /**
   * The outcome of filtering one list: the error raised, if any, and the
   * list as it is left. An empty element raises IndexError when the walk
   * reaches it. The elements before it have been filtered, and the rest
   * have not.
   */
  function Filter(b: string, xs: seq<Element>): (r: (Option<Error>, seq<Element>))
    ensures r.0.None? <==> forall j :: 0 <= j < |xs| ==> |xs[j]| > 0
    ensures r.0.Some? ==> r.0.value == IndexError
  {
    var i := FirstEmpty(xs);
    if i < |xs| then (Some(IndexError), Kept(b, xs[..i]) + xs[i..]) else (None, Kept(b, xs))
  }

  /**
   * `list.remove(x)`: the list without the first element equal to `x`, or
   * None where the code raises ValueError because there is none.
   */
  function Remove(xs: seq<Element>, x: Element): (r: Option<seq<Element>>)
    ensures r.Some? <==> x in xs
    ensures r.Some? ==> |r.value| == |xs| - 1
  {
    if |xs| == 0 then None
    else if xs[0] == x then Some(xs[1..])
    else
      var rest := Remove(xs[1..], x);
      assert xs == [xs[0]] + xs[1..];
      if rest.None? then None else Some([xs[0]] + rest.value)
  }

  /** `list.remove` takes away one occurrence of the element and nothing else. */
  lemma {:induction false} RemoveOneOccurrence(xs: seq<Element>, x: Element)
    requires x in xs
    ensures multiset(Remove(xs, x).value) == multiset(xs) - multiset{x}
  {
    assert xs == [xs[0]] + xs[1..];
    if xs[0] != x {
      RemoveOneOccurrence(xs[1..], x);
    }
  }

  /** Removing from a list whose head is another element keeps the head. */
  lemma RemoveCons(y: Element, s: seq<Element>, x: Element)
    requires y != x
    ensures Remove([y] + s, x) == if Remove(s, x).None? then None else Some([y] + Remove(s, x).value)
  {
    assert ([y] + s)[1..] == s;
  }

  // ---------------------------------------------------------------------
  // Properties of the specification
  // ---------------------------------------------------------------------

  /** An element is kept exactly when it is in the list and passes the test. */
  lemma {:induction false} KeptMembers(b: string, xs: seq<Element>)
    ensures forall e :: e in Kept(b, xs) <==> e in xs && Keeps(b, e)
  {
    if |xs| > 0 {
      var init := xs[..|xs| - 1];
      KeptMembers(b, init);
      assert xs == init + [xs[|xs| - 1]];
    }
  }

  /**
   * Filtering distributes over concatenation, so the kept elements keep
   * their relative order.
   */
  lemma {:induction false} KeptConcat(b: string, xs: seq<Element>, ys: seq<Element>)
    ensures Kept(b, xs + ys) == Kept(b, xs) + Kept(b, ys)
    decreases |ys|
  {
    if |ys| == 0 {
      assert xs + ys == xs;
    } else {
      var init := ys[..|ys| - 1];
      KeptConcat(b, xs, init);
      assert (xs + ys)[..|xs + ys| - 1] == xs + init;
    }
  }

  /** With an empty `b`, a list with no empty element is left as it was. */
  lemma {:induction false} EmptyPatternKeepsAll(xs: seq<Element>)
    requires forall j :: 0 <= j < |xs| ==> |xs[j]| > 0
    ensures Filter("", xs) == (None, xs)
  {
    KeepsAllPrefix(xs, |xs|);
    assert xs[..|xs|] == xs;
  }

  lemma {:induction false} KeepsAllPrefix(xs: seq<Element>, n: nat)
    requires n <= |xs| && forall j :: 0 <= j < |xs| ==> |xs[j]| > 0
    ensures Kept("", xs[..n]) == xs[..n]
  {
    if n > 0 {
      KeepsAllPrefix(xs, n - 1);
      assert xs[..n][..n - 1] == xs[..n - 1];
      assert xs[..n] == xs[..n - 1] + [xs[n - 1]];
    }
  }

  /** Filtering twice is filtering once. */
  lemma {:induction false} KeptIdempotent(b: string, xs: seq<Element>)
    ensures Kept(b, Kept(b, xs)) == Kept(b, xs)
  {
    if |xs| > 0 {
      var init := xs[..|xs| - 1];
      var last := xs[|xs| - 1];
      KeptIdempotent(b, init);
      KeptConcat(b, Kept(b, init), if Keeps(b, last) then [last] else []);
      if Keeps(b, last) {
        assert [last][..0] == [];
      }
    }
  }

  /** The documented example `b='test'`: only the element starting with 'test' stays. */
  lemma ExampleTest()
    ensures Filter("test", [["test", "value"], ["another", "value"]]) == (None, [["test", "value"]])
  {
    var test: Element := ["test", "value"];
    var another: Element := ["another", "value"];
    KeptPair("test", test, another);
    assert [test] + [] == [test];
  }

  /** The documented example `b=''`: the list is unchanged. */
  lemma ExampleEmpty()
    ensures Filter("", [["test", "value"], ["another", "value"]]) == (None, [["test", "value"], ["another", "value"]])
  {
    var test: Element := ["test", "value"];
    var another: Element := ["another", "value"];
    KeptPair("", test, another);
    assert [test] + [another] == [test, another];
  }

  /** The documented example `b='value'`: a match in a later item does not count, so nothing stays. */
  lemma ExampleValue()
    ensures Filter("value", [["test", "value"], ["another", "value"]]) == (None, [])
  {
    KeptPair("value", ["test", "value"], ["another", "value"]);
  }

  /** The documented example `b='another'`: only the element starting with 'another' stays. */
  lemma ExampleAnother()
    ensures Filter("another", [["test", "value"], ["another", "value"]]) == (None, [["another", "value"]])
  {
    var test: Element := ["test", "value"];
    var another: Element := ["another", "value"];
    KeptPair("another", test, another);
    assert [] + [another] == [another];
  }

  /** Filtering a two-element list with no empty element. */
  lemma KeptPair(b: string, e1: Element, e2: Element)
    requires |e1| > 0 && |e2| > 0
    ensures Filter(b, [e1, e2]) == (None, (if Keeps(b, e1) then [e1] else []) + (if Keeps(b, e2) then [e2] else []))
  {
    var xs := [e1, e2];
    assert FirstEmpty(xs) == 2 by {
      assert xs[1..] == [e2];
      assert [e2][1..] == [];
    }
    assert xs[..1] == [e1];
    assert [e1][..0] == [];
    assert Kept(b, [e1]) == [] + (if Keeps(b, e1) then [e1] else []);
    assert [] + (if Keeps(b, e1) then [e1] else []) == (if Keeps(b, e1) then [e1] else []);
  }

  /** An empty element raises even when `b` is empty and nothing would be removed. */
  lemma EmptyElementRaises(xs: seq<Element>)
    requires [] in xs
    ensures Filter("", xs).0 == Some(IndexError)
  {
  }

  // ---------------------------------------------------------------------
  // The walk over the copy
  // ---------------------------------------------------------------------

  /** Deleting the first copy of an element that is not among the kept ones removes exactly that position. */
  lemma {:induction false} RemoveAfterPrefix(p: seq<Element>, x: Element, q: seq<Element>)
    requires x !in p
    ensures Remove(p + [x] + q, x) == Some(p + q)
  {
    if |p| == 0 {
      assert p + [x] + q == [x] + q && ([x] + q)[1..] == q && p + q == q;
    } else {
      var t := p[1..] + [x] + q;
      assert p + [x] + q == [p[0]] + t;
      RemoveAfterPrefix(p[1..], x, q);
      RemoveCons(p[0], t, x);
      assert [p[0]] + (p[1..] + q) == p + q;
    }
  }

  /**
   * One step of the walk: once the elements before `i` have been handled,
   * handling element `i` keeps it, or deletes it with `list.remove`, which
   * finds it in place.
   */
  lemma WalkStep(b: string, copy: seq<Element>, i: nat)
    requires i < |copy| && |copy[i]| > 0
    ensures var items := Kept(b, copy[..i]) + copy[i..];
            && (Keeps(b, copy[i]) ==> Kept(b, copy[..i + 1]) + copy[i + 1..] == items)
            && (!Keeps(b, copy[i]) ==> Remove(items, copy[i]) == Some(Kept(b, copy[..i + 1]) + copy[i + 1..]))
  {
    var elem := copy[i];
    assert copy[..i + 1][..i] == copy[..i];
    assert copy[i..] == [elem] + copy[i + 1..];
    if !Keeps(b, elem) {
      KeptMembers(b, copy[..i]);
      RemoveAfterPrefix(Kept(b, copy[..i]), elem, copy[i + 1..]);
      assert Kept(b, copy[..i]) + [elem] + copy[i + 1..] == Kept(b, copy[..i]) + copy[i..];
      assert Kept(b, copy[..i + 1]) == Kept(b, copy[..i]) + [];
      assert Kept(b, copy[..i]) + [] == Kept(b, copy[..i]);
    }
  }

  /** The walk stops at an empty element: this is the outcome `Filter` states. */
  lemma WalkRaises(b: string, xs: seq<Element>, i: nat)
    requires i < |xs| && |xs[i]| == 0
    requires forall j :: 0 <= j < i ==> |xs[j]| > 0
    ensures Filter(b, xs) == (Some(IndexError), Kept(b, xs[..i]) + xs[i..])
  {
    assert FirstEmpty(xs) == i;
  }

  /** The walk reaches the end: this is the outcome `Filter` states. */
  lemma WalkEnds(b: string, xs: seq<Element>, items: seq<Element>)
    requires forall j :: 0 <= j < |xs| ==> |xs[j]| > 0
    requires items == Kept(b, xs[..|xs|]) + xs[|xs|..]
    ensures Filter(b, xs) == (None, items)
  {
    assert xs[..|xs|] == xs;
    assert xs[|xs|..] == [];
    assert items == Kept(b, xs) + [];
    assert Kept(b, xs) + [] == Kept(b, xs);
  }

  /**
   * The loop body of `include_only` on a list, over a copy: each element
   * that fails the test is deleted from the list with `list.remove`.
   */
  method RemoveUnmatched(b: string, a: seq<Element>) returns (raised: Option<Error>, items: seq<Element>)
    ensures (raised, items) == Filter(b, a)
  {
    items := a;
    var copy := a;
    for i := 0 to |copy|
      invariant forall j :: 0 <= j < i ==> |copy[j]| > 0
      invariant items == Kept(b, copy[..i]) + copy[i..]
    {
      var elem := copy[i];
      if |elem| == 0 {
        // `elem[0]` raises IndexError
        WalkRaises(b, copy, i);
        return Some(IndexError), items;
      }
      WalkStep(b, copy, i);
      if b != elem[0] && b != "" {
        var removed := Remove(items, elem);
        if removed.Some? {
          items := removed.value;
        } else {
          // the ValueError of a missing element is caught and ignored
          assert false;
        }
      }
    }
    WalkEnds(b, copy, items);
    return None, items;
  }

  // ---------------------------------------------------------------------
  // Lists and dicts, changed in place
  // ---------------------------------------------------------------------

  /** A list filtered in place. */
  class MutableList {
    var items: seq<Element>

    constructor (items: seq<Element>)
      ensures this.items == items
    {
      this.items := items;
    }

    /**
     * `include_only(a, b)` on a list. The list becomes `Filter(b, ·)` of
     * what it was, and the call returns this same list, or raises.
     */
    method IncludeOnly(b: string) returns (r: Result<MutableList>)
      modifies this
      ensures (if r.Err? then Some(r.error) else None, items) == Filter(b, old(items))
      ensures r.Ok? ==> r.value == this
    {
      var raised, filtered := RemoveUnmatched(b, items);
      items := filtered;
      if raised.Some? {
        return Err(raised.value);
      }
      return Ok(this);
    }
  }

  /** A dict value: a list, which is filtered, or anything else, which is not. */
  datatype Value = Items(xs: seq<Element>) | Scalar(s: string)

  /**
   * The dict branch over its keys in order. Each list value is filtered,
   * and the first one that raises stops the walk.
   */
  function FilterEntries(b: string, keys: seq<string>, m: map<string, Value>): (r: (Option<Error>, map<string, Value>))
    ensures r.1.Keys == m.Keys
  {
    if |keys| == 0 then (None, m)
    else
      var prev := FilterEntries(b, keys[..|keys| - 1], m);
      var k := keys[|keys| - 1];
      if prev.0.Some? || k !in prev.1 || !prev.1[k].Items? then prev
      else
        var f := Filter(b, prev.1[k].xs);
        (f.0, prev.1[k := Items(f.1)])
  }

  /**
   * Over distinct keys, a walk that raises nothing filters every listed
   * list value once, and leaves every other entry as it was.
   */
  lemma {:induction false} FilterEntriesEffect(b: string, keys: seq<string>, m: map<string, Value>)
    requires forall i, j :: 0 <= i < j < |keys| ==> keys[i] != keys[j]
    requires FilterEntries(b, keys, m).0.None?
    ensures forall k :: k in m && k in keys && m[k].Items? ==>
              FilterEntries(b, keys, m).1[k] == Items(Filter(b, m[k].xs).1)
    ensures forall k :: k in m && (k !in keys || !m[k].Items?) ==> FilterEntries(b, keys, m).1[k] == m[k]
  {
    if |keys| > 0 {
      var init := keys[..|keys| - 1];
      var last := keys[|keys| - 1];
      assert forall k :: k in init ==> k != last;
      FilterEntriesEffect(b, init, m);
      assert forall k :: k in keys ==> k in init || k == last;
    }
  }

  /** A dict with its keys in insertion order, whose list values are filtered in place. */
  class MutableDict {
    var keys: seq<string>
    var entries: map<string, Value>

    /** The keys are distinct and are exactly the dict's keys. */
    ghost predicate Valid()
      reads this
    {
      (forall i, j :: 0 <= i < j < |keys| ==> keys[i] != keys[j])
      && (forall k :: k in entries <==> k in keys)
    }

    constructor ()
      ensures Valid() && keys == [] && entries == map[]
    {
      keys := [];
      entries := map[];
    }

    /**
     * `include_only(a, b)` on a dict. It walks the keys and filters each
     * list value in place, and returns this same dict, or raises.
     */
    method IncludeOnly(b: string) returns (r: Result<MutableDict>)
      requires Valid()
      modifies this
      ensures Valid() && keys == old(keys)
      ensures (if r.Err? then Some(r.error) else None, entries) == FilterEntries(b, keys, old(entries))
      ensures r.Ok? ==> r.value == this
    {
      for i := 0 to |keys|
        invariant keys == old(keys)
        invariant FilterEntries(b, keys[..i], old(entries)) == (None, entries)
      {
        var elem := keys[i];
        var value := entries[elem];
        EntriesStep(b, keys, old(entries), i, entries);
        if value.Items? {
          var raised, filtered := RemoveUnmatched(b, value.xs);
          entries := entries[elem := Items(filtered)];
          if raised.Some? {
            FilterEntriesStops(b, keys, old(entries), i + 1);
            return Err(raised.value);
          }
        }
      }
      assert keys[..|keys|] == keys;
      return Ok(this);
    }
  }

  /** One step of the dict walk, from the state the keys before `i` leave. */
  lemma EntriesStep(b: string, keys: seq<string>, m: map<string, Value>, i: nat, entries: map<string, Value>)
    requires i < |keys| && FilterEntries(b, keys[..i], m) == (None, entries) && keys[i] in entries
    ensures var k := keys[i];
            FilterEntries(b, keys[..i + 1], m)
            == if entries[k].Items? then (Filter(b, entries[k].xs).0, entries[k := Items(Filter(b, entries[k].xs).1)])
               else (None, entries)
  {
    assert keys[..i + 1][..i] == keys[..i];
  }

  /** Once a prefix of the walk raises, the whole walk raises with the same dict. */
  lemma {:induction false} FilterEntriesStops(b: string, keys: seq<string>, m: map<string, Value>, n: nat)
    requires n <= |keys| && FilterEntries(b, keys[..n], m).0.Some?
    ensures FilterEntries(b, keys, m) == FilterEntries(b, keys[..n], m)
    decreases |keys| - n
  {
    if n < |keys| {
      assert keys[..n + 1][..n] == keys[..n];
      FilterEntriesStops(b, keys, m, n + 1);
    } else {
      assert keys[..n] == keys;
    }
  }

  /**
   * `include_only` on a dict whose list values hold no empty element
   * returns the dict with every list value filtered and every other value
   * untouched.
   */
  lemma DictFilteredEntryByEntry(b: string, keys: seq<string>, m: map<string, Value>)
    requires forall i, j :: 0 <= i < j < |keys| ==> keys[i] != keys[j]
    requires forall k :: k in m <==> k in keys
    requires forall k :: k in m && m[k].Items? ==> forall j :: 0 <= j < |m[k].xs| ==> |m[k].xs[j]| > 0
    ensures FilterEntries(b, keys, m).0.None?
    ensures forall k :: k in m ==>
              FilterEntries(b, keys, m).1[k] == (if m[k].Items? then Items(Kept(b, m[k].xs)) else m[k])
  {
    NoRaiseWithoutEmpty(b, keys, m);
    FilterEntriesEffect(b, keys, m);
  }

  lemma {:induction false} NoRaiseWithoutEmpty(b: string, keys: seq<string>, m: map<string, Value>)
    requires forall i, j :: 0 <= i < j < |keys| ==> keys[i] != keys[j]
    requires forall k :: k in m && m[k].Items? ==> forall j :: 0 <= j < |m[k].xs| ==> |m[k].xs[j]| > 0
    ensures FilterEntries(b, keys, m).0.None?
  {
    if |keys| > 0 {
      var init := keys[..|keys| - 1];
      NoRaiseWithoutEmpty(b, init, m);
      assert forall k :: k in init ==> k != keys[|keys| - 1];
      FilterEntriesEffect(b, init, m);
    }
  }
}
