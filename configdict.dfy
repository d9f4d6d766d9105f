/**
 * The service-specific configuration of a service or identity feed: a dict
 * from LDAP attribute name to value, in insertion order, which the service
 * apply functions rewrite in place before building their change list.
 */
module ServiceConfig {
  import opened Common
  import opened Tools
  import opened Reconcile

  /** A configuration value: None, a string, or a list of strings. */
  datatype ConfigValue = Unset | Text(s: string) | Items(xs: seq<string>)

  /** A dict's contents: its keys in insertion order, and the value of each. */
  datatype Dict = Dict(keys: seq<string>, values: map<string, ConfigValue>)

  predicate Distinct(ks: seq<string>) {
    forall i, j :: 0 <= i < j < |ks| ==> ks[i] != ks[j]
  }

  /** Every key with a value is listed, once. */
  ghost predicate WellFormed(d: Dict) {
    (forall k :: k in d.values <==> k in d.keys) && Distinct(d.keys)
  }

  /** The keys, lower-cased, in order. */
  function LowerEach(ks: seq<string>): (r: seq<string>)
    ensures |r| == |ks| && forall i :: 0 <= i < |ks| ==> r[i] == Lower(ks[i])
  {
    seq(|ks|, i requires 0 <= i < |ks| => Lower(ks[i]))
  }

  // ---------------------------------------------------------------------
  // Python dict assignment and deletion
  // ---------------------------------------------------------------------

  /** The keys without `k`, in order. */
  function RemoveKey(ks: seq<string>, k: string): (r: seq<string>)
    ensures forall x :: x in r <==> x in ks && x != k
    ensures Distinct(ks) ==> Distinct(r)
    decreases |ks|
  {
    if ks == [] then []
    else if ks[0] == k then RemoveKey(ks[1..], k)
    else
      var rest := RemoveKey(ks[1..], k);
      assert Distinct(ks) ==> forall j :: 1 <= j < |ks| ==> ks[0] != ks[j];
      assert Distinct(ks) ==> ks[0] !in ks[1..];
      DistinctCons(ks[0], rest);
      [ks[0]] + rest
  }

  /** Putting a new key in front of distinct keys keeps them distinct. */
  lemma DistinctCons(x: string, rest: seq<string>)
    ensures Distinct(rest) && x !in rest ==> Distinct([x] + rest)
  {
    if Distinct(rest) && x !in rest {
      var r := [x] + rest;
      forall i, j | 0 <= i < j < |r| ensures r[i] != r[j] {
        if i == 0 {
          assert r[j] == rest[j - 1];
        } else {
          assert r[i] == rest[i - 1] && r[j] == rest[j - 1];
        }
      }
    }
  }

  /** `d[k] = v`: a new key goes last, an existing key keeps its place. */
  function Put(d: Dict, k: string, v: ConfigValue): (r: Dict)
    requires WellFormed(d)
    ensures WellFormed(r)
    ensures r.values == d.values[k := v]
    ensures k in d.values ==> r.keys == d.keys
    ensures k !in d.values ==> r.keys == d.keys + [k]
  {
    if k in d.values then Dict(d.keys, d.values[k := v]) else Dict(d.keys + [k], d.values[k := v])
  }

  /** `del d[k]`. */
  function Delete(d: Dict, k: string): (r: Dict)
    requires WellFormed(d)
    ensures WellFormed(r)
    ensures r.values == d.values - {k} && r.keys == RemoveKey(d.keys, k)
  {
    Dict(RemoveKey(d.keys, k), d.values - {k})
  }

  // ---------------------------------------------------------------------
  // None to ''
  // ---------------------------------------------------------------------

  /** Every None value becomes ''; nothing else changes. */
  function Filled(d: Dict): (r: Dict)
    ensures r.keys == d.keys && r.values.Keys == d.values.Keys
    ensures forall k :: k in r.values ==> !r.values[k].Unset?
    ensures forall k :: k in d.values && !d.values[k].Unset? ==> r.values[k] == d.values[k]
    ensures forall k :: k in d.values && d.values[k].Unset? ==> r.values[k] == Text("")
  {
    Dict(d.keys, map k | k in d.values :: if d.values[k].Unset? then Text("") else d.values[k])
  }

  /** Values where exactly the None values of `d` have become '' are the values of Filled(d). */
  lemma FilledValues(d: Dict, vals: map<string, ConfigValue>)
    requires WellFormed(d) && vals.Keys == d.values.Keys
    requires forall k :: k in vals ==> vals[k] == if k in d.keys && d.values[k].Unset? then Text("") else d.values[k]
    ensures vals == Filled(d).values
  {
    assert forall k :: k in vals ==> vals[k] == Filled(d).values[k];
  }

  // ---------------------------------------------------------------------
  // Keys to lower case
  // ---------------------------------------------------------------------

  /** One step of the renaming loop: a key that is not lower case hands its value to its lower-case form and goes. */
  function LowerStep(d: Dict, k: string): (r: Dict)
    requires WellFormed(d)
    ensures WellFormed(r)
  {
    if k in d.values && Lower(k) != k then Delete(Put(d, Lower(k), d.values[k]), k) else d
  }

  /** The renaming loop over a snapshot of the keys. */
  function LowerAll(d: Dict, ks: seq<string>): (r: Dict)
    requires WellFormed(d)
    ensures WellFormed(r)
    decreases |ks|
  {
    if ks == [] then d else LowerStep(LowerAll(d, ks[..|ks| - 1]), ks[|ks| - 1])
  }

  /** Every key of the configuration converted to lower case. */
  function Lowered(d: Dict): Dict
    requires WellFormed(d)
  {
    LowerAll(d, d.keys)
  }

  /** One more round of the renaming loop. */
  lemma LowerAllSnoc(d: Dict, ks: seq<string>, i: nat)
    requires WellFormed(d) && i < |ks|
    ensures LowerAll(d, ks[..i + 1]) == LowerStep(LowerAll(d, ks[..i]), ks[i])
  {
    assert ks[..i + 1][..i] == ks[..i];
  }

  /** The lower-case form of a key that is not lower case is not that key. */
  lemma LowerFormDiffers(k: string, k2: string)
    requires Lower(k2) != k2
    ensures Lower(k) != k2
  {
    LowerIdempotent(k);
  }

  /** A key that is not lower case and not yet renamed is still there with its value. */
  lemma {:induction false} LowerAllKeeps(d: Dict, ks: seq<string>, k: string)
    requires WellFormed(d) && k in d.values && Lower(k) != k && k !in ks
    ensures k in LowerAll(d, ks).values && LowerAll(d, ks).values[k] == d.values[k]
    decreases |ks|
  {
    if ks != [] {
      var init := ks[..|ks| - 1];
      assert forall x :: x in init ==> x in ks;
      LowerAllKeeps(d, init, k);
      LowerFormDiffers(ks[|ks| - 1], k);
    }
  }

  /** A key that is not lower case is present after renaming only if it was there and was not renamed. */
  lemma {:induction false} LowerAllNotLowerOnlyOriginal(d: Dict, ks: seq<string>, k: string)
    requires WellFormed(d) && Lower(k) != k
    ensures k in LowerAll(d, ks).values <==> k in d.values && k !in ks
    decreases |ks|
  {
    if ks != [] {
      var init := ks[..|ks| - 1];
      var last := ks[|ks| - 1];
      assert ks == init + [last];
      LowerAllNotLowerOnlyOriginal(d, init, k);
      LowerFormDiffers(last, k);
    }
  }

  /** A lower-case key, once present, is never removed. */
  lemma {:induction false} LowerAllKeepsLowerCase(d: Dict, ks: seq<string>, k: string)
    requires WellFormed(d) && k in d.values && Lower(k) == k
    ensures k in LowerAll(d, ks).values
    decreases |ks|
  {
    if ks != [] {
      LowerAllKeepsLowerCase(d, ks[..|ks| - 1], k);
    }
  }

  /** Every renamed key has left its lower-case form behind. */
  lemma {:induction false} LowerAllHasLowerForm(d: Dict, ks: seq<string>, k: string)
    requires WellFormed(d) && k in d.values && k in ks
    ensures Lower(k) in LowerAll(d, ks).values
    decreases |ks|
  {
    var init := ks[..|ks| - 1];
    var last := ks[|ks| - 1];
    assert ks == init + [last];
    var r := LowerAll(d, init);
    LowerIdempotent(k);
    if Lower(k) == k {
      LowerAllKeepsLowerCase(d, ks, k);
    } else if k in init {
      LowerAllHasLowerForm(d, init, k);
    } else {
      LowerAllKeeps(d, init, k);
    }
  }

  /** Every key after renaming is one not yet renamed, or the lower-case form of a renamed key. */
  lemma {:induction false} LowerAllOrigin(d: Dict, ks: seq<string>, k: string)
    requires WellFormed(d) && k in LowerAll(d, ks).values
    ensures (k in d.values && k !in ks) || (Lower(k) == k && exists k0 :: k0 in ks && Lower(k0) == k)
    decreases |ks|
  {
    if ks != [] {
      var init := ks[..|ks| - 1];
      var last := ks[|ks| - 1];
      assert ks == init + [last];
      var r := LowerAll(d, init);
      LowerIdempotent(last);
      if last in r.values && Lower(last) != last && k == Lower(last) {
        assert last in ks;
      } else {
        assert k in r.values;
        LowerAllOrigin(d, init, k);
        if k in d.values && k !in init && k == last {
          assert Lower(k) == k;
          assert k in ks;
        }
      }
    }
  }

  /** After the renaming loop the keys are exactly the lower-case forms of the original keys. */
  lemma LowerKeysAreLowerCase(d: Dict)
    requires WellFormed(d)
    ensures forall k :: k in Lowered(d).values ==> Lower(k) == k && exists k0 :: k0 in d.values && Lower(k0) == k
    ensures forall k :: k in d.values ==> Lower(k) in Lowered(d).values
  {
    forall k | k in Lowered(d).values
      ensures Lower(k) == k && exists k0 :: k0 in d.values && Lower(k0) == k
    {
      LowerAllOrigin(d, d.keys, k);
    }
    forall k | k in d.values ensures Lower(k) in Lowered(d).values {
      LowerAllHasLowerForm(d, d.keys, k);
    }
  }

  /** No two keys have the same lower-case form. */
  ghost predicate CaseDistinct(d: Dict) {
    forall k1, k2 :: k1 in d.values && k2 in d.values && k1 != k2 ==> Lower(k1) != Lower(k2)
  }

  /** Without two keys that differ only in case, a key not yet renamed keeps its value. */
  lemma {:induction false} LowerAllValueKept(d: Dict, ks: seq<string>, k: string)
    requires WellFormed(d) && CaseDistinct(d) && k in d.values && k !in ks
    ensures k in LowerAll(d, ks).values && LowerAll(d, ks).values[k] == d.values[k]
    decreases |ks|
  {
    if ks != [] {
      var init := ks[..|ks| - 1];
      var last := ks[|ks| - 1];
      assert ks == init + [last];
      LowerAllValueKept(d, init, k);
      var r := LowerAll(d, init);
      if last in r.values && Lower(last) != last {
        LowerAllNotLowerOnlyOriginal(d, init, last);
        if Lower(k) != k {
          LowerFormDiffers(last, k);
        } else {
          assert Lower(last) != Lower(k);
        }
      }
    }
  }

  /** Without two keys that differ only in case, a renamed key's value sits under its lower-case form. */
  lemma {:induction false} LowerAllValueMoved(d: Dict, ks: seq<string>, k: string)
    requires WellFormed(d) && CaseDistinct(d) && k in d.values && k in ks
    ensures Lower(k) in LowerAll(d, ks).values && LowerAll(d, ks).values[Lower(k)] == d.values[k]
    decreases |ks|
  {
    var init := ks[..|ks| - 1];
    var last := ks[|ks| - 1];
    assert ks == init + [last];
    var r := LowerAll(d, init);
    LowerIdempotent(k);
    if k !in init {
      if Lower(k) == k {
        LowerAllValueKept(d, init, k);
        assert LowerAll(d, ks) == r;
      } else {
        LowerAllKeeps(d, init, k);
        assert LowerAll(d, ks) == Delete(Put(r, Lower(k), d.values[k]), k);
      }
    } else {
      LowerAllValueMoved(d, init, k);
      if last in r.values && Lower(last) != last {
        LowerAllNotLowerOnlyOriginal(d, init, last);
        assert Lower(last) != Lower(k);
        assert LowerAll(d, ks) == Delete(Put(r, Lower(last), r.values[last]), last);
      } else {
        assert LowerAll(d, ks) == r;
      }
    }
  }

  /** Without two keys that differ only in case, renaming moves every value to the key's lower-case form. */
  lemma LowerKeysKeepValues(d: Dict)
    requires WellFormed(d) && CaseDistinct(d)
    ensures forall k :: k in d.values ==> Lower(k) in Lowered(d).values && Lowered(d).values[Lower(k)] == d.values[k]
  {
    forall k | k in d.values
      ensures Lower(k) in Lowered(d).values && Lowered(d).values[Lower(k)] == d.values[k]
    {
      LowerAllValueMoved(d, d.keys, k);
    }
  }

  /** Removing one of two distinct keys leaves the other, in either order. */
  lemma RemoveFromPair(a: string, b: string)
    requires a != b
    ensures RemoveKey([a, b], a) == [b] && RemoveKey([b, a], a) == [b]
  {
    assert [a, b][1..] == [b] && [b, a][1..] == [a] && [b][1..] == [] && [a][1..] == [];
    assert RemoveKey([a], a) == [] && RemoveKey([b], a) == [b] + RemoveKey([], a);
  }

  /** Renaming a key onto its lower-case form that comes after it overwrites that form's value. */
  lemma RenameOntoLaterLower(upper: string, v: ConfigValue, w: ConfigValue)
    requires Lower(upper) != upper
    ensures LowerStep(Dict([upper, Lower(upper)], map[upper := v, Lower(upper) := w]), upper)
            == Dict([Lower(upper)], map[Lower(upper) := v])
  {
    var lo := Lower(upper);
    var d := Dict([upper, lo], map[upper := v, lo := w]);
    RemoveFromPair(upper, lo);
    assert Put(d, lo, v).values - {upper} == map[lo := v];
  }

  /** Renaming a key onto its lower-case form that comes before it overwrites that form's value. */
  lemma RenameOntoEarlierLower(upper: string, v: ConfigValue, w: ConfigValue)
    requires Lower(upper) != upper
    ensures LowerStep(Dict([Lower(upper), upper], map[Lower(upper) := w, upper := v]), upper)
            == Dict([Lower(upper)], map[Lower(upper) := v])
  {
    var lo := Lower(upper);
    var d := Dict([lo, upper], map[lo := w, upper := v]);
    RemoveFromPair(upper, lo);
    assert Put(d, lo, v).values - {upper} == map[lo := v];
  }

  /**
   * With two keys that differ only in case, one value is lost: the value of
   * the key that is not lower case ends up under its lower-case form,
   * whatever that held.
   */
  lemma LowerKeysCollision(upper: string, v: ConfigValue, w: ConfigValue)
    requires Lower(upper) != upper
    ensures Lowered(Dict([upper, Lower(upper)], map[upper := v, Lower(upper) := w]))
            == Dict([Lower(upper)], map[Lower(upper) := v])
  {
    var lo := Lower(upper);
    var d := Dict([upper, lo], map[upper := v, lo := w]);
    var one := Dict([lo], map[lo := v]);
    LowerIdempotent(upper);
    RenameOntoLaterLower(upper, v, w);
    assert LowerStep(one, lo) == one;
    LowerAllSnoc(d, d.keys, 0);
    LowerAllSnoc(d, d.keys, 1);
    assert d.keys[..0] == [] && d.keys[..2] == d.keys;
  }

  /** The same collision with the lower-case key first. */
  lemma LowerKeysCollisionReversed(upper: string, v: ConfigValue, w: ConfigValue)
    requires Lower(upper) != upper
    ensures Lowered(Dict([Lower(upper), upper], map[Lower(upper) := w, upper := v]))
            == Dict([Lower(upper)], map[Lower(upper) := v])
  {
    var lo := Lower(upper);
    var d := Dict([lo, upper], map[lo := w, upper := v]);
    LowerIdempotent(upper);
    assert LowerStep(d, lo) == d;
    RenameOntoEarlierLower(upper, v, w);
    LowerAllSnoc(d, d.keys, 0);
    LowerAllSnoc(d, d.keys, 1);
    assert d.keys[..0] == [] && d.keys[..2] == d.keys;
  }

  // ---------------------------------------------------------------------
  // Comparison with the existing service: unchanged values become None
  // ---------------------------------------------------------------------

  /**
   * Whether a configuration value differs from the existing attribute: a
   * list compares like the multi-valued fields, a string like the
   * single-valued ones, and None differs from anything (but still raises
   * IndexError when the attribute is present with no values).
   */
  function ConfigValueDiffers(existing: Option<seq<Value>>, v: ConfigValue): (r: Result<bool>)
    ensures r.Err? <==> existing == Some([]) && !v.Items?
    ensures existing.None? ==> r == Ok(v != Text("") && v != Items([]))
  {
    match v
    case Items(xs) => Ok(ListDiffers(existing, xs))
    case Text(s) => TextDiffers(existing, s)
    case Unset => if existing == Some([]) then Err(IndexError) else Ok(true)
  }

  /** The outcome of the comparison loop (modify required, or the error raised) and the dict it leaves. */
  datatype Marked = Marked(outcome: Result<bool>, dict: Dict)

  /** The comparison loop over the keys `ks`: stop at the first error; a value that does not differ becomes None. */
  function MarkAll(d: Dict, attrs: seq<Attribute>, ks: seq<string>): (m: Marked)
    requires WellFormed(d)
    ensures WellFormed(m.dict) && m.dict.keys == d.keys && m.dict.values.Keys == d.values.Keys
    decreases |ks|
  {
    if ks == [] then Marked(Ok(false), d) else MarkStep(MarkAll(d, attrs, ks[..|ks| - 1]), attrs, ks[|ks| - 1])
  }

  /** One round of the comparison loop, for key `k`. */
  function MarkStep(m: Marked, attrs: seq<Attribute>, k: string): (r: Marked)
    requires WellFormed(m.dict)
    ensures WellFormed(r.dict) && r.dict.keys == m.dict.keys && r.dict.values.Keys == m.dict.values.Keys
    ensures forall x :: x in m.dict.values && x != k ==> r.dict.values[x] == m.dict.values[x]
    ensures r.outcome.Ok? ==> m.outcome.Ok?
  {
    if m.outcome.Err? then m
    else if k !in m.dict.values then Marked(Err(KeyError), m.dict)
    else
      var differs := ConfigValueDiffers(AttributeValues(attrs, k), m.dict.values[k]);
      if differs.Err? then Marked(Err(differs.error), m.dict)
      else if differs.value then Marked(Ok(true), m.dict)
      else Marked(m.outcome, Put(m.dict, k, Unset))
  }

  /** One more round of the comparison loop. */
  lemma MarkAllSnoc(d: Dict, attrs: seq<Attribute>, ks: seq<string>, i: nat)
    requires WellFormed(d) && i < |ks|
    ensures MarkAll(d, attrs, ks[..i + 1]) == MarkStep(MarkAll(d, attrs, ks[..i]), attrs, ks[i])
  {
    assert ks[..i + 1][..i] == ks[..i];
  }

  /** Once a key has raised, the rest of the comparison loop changes nothing. */
  lemma {:induction false} MarkErrorSticks(d: Dict, attrs: seq<Attribute>, ks: seq<string>, n: nat)
    requires WellFormed(d) && n <= |ks| && MarkAll(d, attrs, ks[..n]).outcome.Err?
    ensures MarkAll(d, attrs, ks) == MarkAll(d, attrs, ks[..n])
    ensures ks == d.keys ==> Mark(d, attrs) == MarkAll(d, attrs, ks[..n])
    decreases |ks|
  {
    if n < |ks| {
      var init := ks[..|ks| - 1];
      assert init[..n] == ks[..n];
      MarkErrorSticks(d, attrs, init, n);
    } else {
      assert ks[..n] == ks;
    }
  }

  /** The comparison loop over all the configuration's keys. */
  function Mark(d: Dict, attrs: seq<Attribute>): Marked
    requires WellFormed(d)
  {
    MarkAll(d, attrs, d.keys)
  }

  /** How key `k` compares with the existing attributes. */
  function KeyDiffers(d: Dict, attrs: seq<Attribute>, k: string): Result<bool>
    requires k in d.values
  {
    ConfigValueDiffers(AttributeValues(attrs, k), d.values[k])
  }

  /** None of the first n keys raises when compared. */
  ghost predicate NoneRaise(d: Dict, attrs: seq<Attribute>, n: nat)
    requires WellFormed(d) && n <= |d.keys|
  {
    forall j :: 0 <= j < n ==> KeyDiffers(d, attrs, d.keys[j]).Ok?
  }

  /** None of the first n keys differs. */
  ghost predicate NoneDiffer(d: Dict, attrs: seq<Attribute>, n: nat)
    requires WellFormed(d) && n <= |d.keys|
  {
    forall j :: 0 <= j < n ==> KeyDiffers(d, attrs, d.keys[j]) == Ok(false)
  }

  /**
   * Comparing the first n keys raises iff one of them raises, and asks for
   * no modification iff none of them differs.
   */
  lemma {:induction false} MarkPrefixOutcome(d: Dict, attrs: seq<Attribute>, n: nat)
    requires WellFormed(d) && n <= |d.keys|
    ensures MarkAll(d, attrs, d.keys[..n]).outcome.Ok? <==> NoneRaise(d, attrs, n)
    ensures MarkAll(d, attrs, d.keys[..n]).outcome == Ok(false) <==> NoneDiffer(d, attrs, n)
    decreases n
  {
    if n > 0 {
      assert d.keys[..n][..n - 1] == d.keys[..n - 1];
      MarkPrefixOutcome(d, attrs, n - 1);
      var k := d.keys[n - 1];
      var m := MarkAll(d, attrs, d.keys[..n - 1]);
      assert MarkAll(d, attrs, d.keys[..n]) == MarkStep(m, attrs, k);
      assert k !in d.keys[..n - 1];
      MarkPrefixKeyUntouched(d, attrs, n - 1, k);
      var differs := KeyDiffers(d, attrs, k);
      assert NoneRaise(d, attrs, n) <==> NoneRaise(d, attrs, n - 1) && differs.Ok?;
      assert NoneDiffer(d, attrs, n) <==> NoneDiffer(d, attrs, n - 1) && differs == Ok(false);
      if m.outcome.Ok? {
        assert MarkStep(m, attrs, k).outcome
            == if differs.Err? then Err(differs.error) else if differs.value then Ok(true) else m.outcome;
      }
    }
  }

  /** Comparing the first n keys leaves the value of every other key as it was. */
  lemma {:induction false} MarkPrefixKeyUntouched(d: Dict, attrs: seq<Attribute>, n: nat, k: string)
    requires WellFormed(d) && n <= |d.keys| && k in d.values && k !in d.keys[..n]
    ensures MarkAll(d, attrs, d.keys[..n]).dict.values[k] == d.values[k]
    decreases n
  {
    if n > 0 {
      assert d.keys[..n][..n - 1] == d.keys[..n - 1];
      assert d.keys[n - 1] in d.keys[..n] && k != d.keys[n - 1];
      var m := MarkAll(d, attrs, d.keys[..n - 1]);
      assert MarkAll(d, attrs, d.keys[..n]) == MarkStep(m, attrs, d.keys[n - 1]);
      MarkPrefixKeyUntouched(d, attrs, n - 1, k);
    }
  }

  /** After comparing the distinct keys `ks` without error, exactly those of them that do not differ are None. */
  lemma {:induction false} MarkKeysValue(d: Dict, attrs: seq<Attribute>, ks: seq<string>, x: string)
    requires WellFormed(d) && Distinct(ks) && x in d.values
    requires MarkAll(d, attrs, ks).outcome.Ok?
    ensures MarkAll(d, attrs, ks).dict.values[x]
            == if x in ks && KeyDiffers(d, attrs, x) == Ok(false) then Unset else d.values[x]
    decreases |ks|
  {
    if ks != [] {
      var init, k := ks[..|ks| - 1], ks[|ks| - 1];
      var m := MarkAll(d, attrs, init);
      DistinctInit(ks, x);
      MarkStepValue(m, attrs, k, x);
      if x == k {
        MarkKeysValue(d, attrs, init, k);
      } else {
        MarkKeysValue(d, attrs, init, x);
      }
    }
  }

  /** Dropping the last key of a distinct key list keeps it distinct, and the last key is not among the rest. */
  lemma DistinctInit(ks: seq<string>, x: string)
    requires Distinct(ks) && ks != []
    ensures Distinct(ks[..|ks| - 1]) && ks[|ks| - 1] !in ks[..|ks| - 1]
    ensures x in ks <==> x in ks[..|ks| - 1] || x == ks[|ks| - 1]
  {
    assert ks == ks[..|ks| - 1] + [ks[|ks| - 1]];
  }

  /** One round of the comparison loop sets its key to None when it does not differ, and changes nothing else. */
  lemma MarkStepValue(m: Marked, attrs: seq<Attribute>, k: string, x: string)
    requires WellFormed(m.dict) && x in m.dict.values && MarkStep(m, attrs, k).outcome.Ok?
    ensures MarkStep(m, attrs, k).dict.values[x]
            == if x == k && ConfigValueDiffers(AttributeValues(attrs, k), m.dict.values[k]) == Ok(false) then Unset
               else m.dict.values[x]
  {
  }

  /** The comparison loop raises iff some key raises, and asks for no modification iff no key differs. */
  lemma MarkOutcome(d: Dict, attrs: seq<Attribute>)
    requires WellFormed(d)
    ensures Mark(d, attrs).outcome.Ok? <==> forall k :: k in d.values ==> KeyDiffers(d, attrs, k).Ok?
    ensures Mark(d, attrs).outcome == Ok(false) <==> forall k :: k in d.values ==> KeyDiffers(d, attrs, k) == Ok(false)
    ensures Mark(d, attrs).outcome.Ok? ==>
              forall k :: k in d.values ==>
                Mark(d, attrs).dict.values[k] == if KeyDiffers(d, attrs, k) == Ok(false) then Unset else d.values[k]
  {
    MarkPrefixOutcome(d, attrs, |d.keys|);
    assert d.keys[..|d.keys|] == d.keys;
    if Mark(d, attrs).outcome.Ok? {
      MarkValues(d, attrs);
    }
    EveryKeyListed(d, attrs);
  }

  /** Over all the keys, the per-position conditions are the per-key ones. */
  lemma EveryKeyListed(d: Dict, attrs: seq<Attribute>)
    requires WellFormed(d)
    ensures NoneRaise(d, attrs, |d.keys|) <==> forall k :: k in d.values ==> KeyDiffers(d, attrs, k).Ok?
    ensures NoneDiffer(d, attrs, |d.keys|) <==> forall k :: k in d.values ==> KeyDiffers(d, attrs, k) == Ok(false)
  {
    assert forall k :: k in d.values ==> exists j :: 0 <= j < |d.keys| && d.keys[j] == k;
  }

  /** When the comparison loop does not raise, exactly the keys that do not differ are None afterwards. */
  lemma MarkValues(d: Dict, attrs: seq<Attribute>)
    requires WellFormed(d) && Mark(d, attrs).outcome.Ok?
    ensures forall k :: k in d.values ==>
              Mark(d, attrs).dict.values[k] == if KeyDiffers(d, attrs, k) == Ok(false) then Unset else d.values[k]
  {
    forall k | k in d.values
      ensures Mark(d, attrs).dict.values[k] == if KeyDiffers(d, attrs, k) == Ok(false) then Unset else d.values[k]
    {
      MarkKeysValue(d, attrs, d.keys, k);
    }
  }

  // ---------------------------------------------------------------------
  // Existing attributes outside the configuration are cleared
  // ---------------------------------------------------------------------

  /** Every existing key not in `skip` is set to '' (to be cleared), in the order listed. */
  function ClearAll(d: Dict, existingKeys: seq<string>, skip: seq<string>): (r: Dict)
    requires WellFormed(d)
    ensures WellFormed(r) && |d.keys| <= |r.keys| && r.keys[..|d.keys|] == d.keys
    decreases |existingKeys|
  {
    if existingKeys == [] then d
    else
      var r := ClearAll(d, existingKeys[..|existingKeys| - 1], skip);
      var k := existingKeys[|existingKeys| - 1];
      if k in skip then r else Put(r, k, Text(""))
  }

  /**
   * Clearing adds '' for every existing key outside `skip` and keeps the
   * other keys and their values.
   */
  lemma {:induction false} ClearAllEffect(d: Dict, existingKeys: seq<string>, skip: seq<string>)
    requires WellFormed(d)
    ensures var r := ClearAll(d, existingKeys, skip);
            && (forall k :: k in r.values <==> k in d.values || (k in existingKeys && k !in skip))
            && (forall k :: k in existingKeys && k !in skip ==> r.values[k] == Text(""))
            && (forall k :: k in d.values && !(k in existingKeys && k !in skip) ==> r.values[k] == d.values[k])
    decreases |existingKeys|
  {
    if existingKeys != [] {
      var init := existingKeys[..|existingKeys| - 1];
      assert existingKeys == init + [existingKeys[|existingKeys| - 1]];
      ClearAllEffect(d, init, skip);
    }
  }

  // ---------------------------------------------------------------------
  // Naming contexts: container paths to DNs, in place
  // ---------------------------------------------------------------------

  /** Convert each path in order; the first failure stops the loop, leaving the later entries as they were. */
  function ConvertPaths(convert: string -> Result<string>, xs: seq<string>): (r: (Option<Error>, seq<string>))
    ensures |r.1| == |xs|
    ensures r.0.None? <==> forall i :: 0 <= i < |xs| ==> convert(xs[i]).Ok?
    ensures r.0.None? ==> forall i :: 0 <= i < |xs| ==> convert(xs[i]) == Ok(r.1[i])
    decreases |xs|
  {
    if xs == [] then (None, [])
    else
      var first := convert(xs[0]);
      if first.Err? then (Some(first.error), xs)
      else
        var rest := ConvertPaths(convert, xs[1..]);
        assert forall i :: 1 <= i < |xs| ==> xs[i] == xs[1..][i - 1];
        (rest.0, [first.value] + rest.1)
  }

  /** The key whose values are container paths to be converted. */
  const NamingContextsKey := "ernamingcontexts"

  /** The outcome of a step that may raise, with the dict as the step leaves it. */
  datatype Staged = Staged(raised: Option<Error>, dict: Dict)

  /**
   * The naming-context conversion of the identity feed: a list is converted
   * in place; a string cannot be assigned into, so a non-empty one raises
   * TypeError after its first character has been looked up; None has no length.
   */
  function NamingContexts(convert: string -> Result<string>, d: Dict): (r: Staged)
    requires WellFormed(d)
    ensures WellFormed(r.dict) && r.dict.keys == d.keys
    ensures NamingContextsKey !in d.values ==> r == Staged(None, d)
    ensures NamingContextsKey in d.values && d.values[NamingContextsKey].Items? ==>
              (r.raised.None? <==> forall i :: 0 <= i < |d.values[NamingContextsKey].xs| ==> convert(d.values[NamingContextsKey].xs[i]).Ok?)
    ensures r.raised.None? && NamingContextsKey in d.values && d.values[NamingContextsKey].Items? ==>
              r.dict.values[NamingContextsKey].Items?
              && var xs, ys := d.values[NamingContextsKey].xs, r.dict.values[NamingContextsKey].xs;
                 |ys| == |xs| && forall i :: 0 <= i < |xs| ==> convert(xs[i]) == Ok(ys[i])
    ensures forall k :: k in d.values && k != NamingContextsKey ==> r.dict.values[k] == d.values[k]
  {
    if NamingContextsKey !in d.values then Staged(None, d)
    else
      match d.values[NamingContextsKey]
      case Items(xs) =>
        var converted := ConvertPaths(convert, xs);
        Staged(converted.0, Put(d, NamingContextsKey, Items(converted.1)))
      case Text(s) =>
        if s == "" then Staged(None, d)
        else
          var first := convert([s[0]]);
          Staged(Some(if first.Err? then first.error else TypeError), d)
      case Unset => Staged(Some(TypeError), d)
  }

  /** Once the first i paths have converted, the rest of the conversion is that of the remaining paths. */
  lemma {:induction false} ConvertPathsFrom(convert: string -> Result<string>, xs: seq<string>, i: nat)
    requires i <= |xs| && forall j :: 0 <= j < i ==> convert(xs[j]).Ok?
    ensures ConvertPaths(convert, xs).0 == ConvertPaths(convert, xs[i..]).0
    ensures forall j :: 0 <= j < i ==> ConvertPaths(convert, xs).1[j] == convert(xs[j]).value
    ensures ConvertPaths(convert, xs).1[i..] == ConvertPaths(convert, xs[i..]).1
    decreases i
  {
    if i == 0 {
      assert xs[0..] == xs;
    } else {
      assert xs[1..][i - 1..] == xs[i..];
      ConvertPathsFrom(convert, xs[1..], i - 1);
    }
  }

  /** The loop that replaces each naming-context path by its DN, in place, stopping at the first failure. */
  method ConvertEach(convert: string -> Result<string>, xs: seq<string>) returns (raised: Option<Error>, contexts: seq<string>)
    ensures (raised, contexts) == ConvertPaths(convert, xs)
  {
    contexts := xs;
    for index := 0 to |xs|
      invariant |contexts| == |xs|
      invariant forall j :: 0 <= j < index ==> convert(xs[j]).Ok? && contexts[j] == convert(xs[j]).value
      invariant forall j :: index <= j < |xs| ==> contexts[j] == xs[j]
    {
      var dn := convert(contexts[index]);
      if dn.Err? {
        ConvertPathsFrom(convert, xs, index);
        assert xs[index..][0] == xs[index];
        var converted := ConvertPaths(convert, xs);
        assert ConvertPaths(convert, xs[index..]) == (Some(dn.error), xs[index..]);
        assert converted.1 == contexts by {
          forall j | index <= j < |xs| ensures converted.1[j] == contexts[j] {
            assert converted.1[j] == converted.1[index..][j - index];
          }
        }
        return Some(dn.error), contexts;
      }
      contexts := contexts[index := dn.value];
    }
    ConvertPathsFrom(convert, xs, |xs|);
    assert xs[|xs|..] == [];
    assert ConvertPaths(convert, xs).1 == contexts;
    return None, contexts;
  }

  // ---------------------------------------------------------------------
  // The dict itself, updated in place
  // ---------------------------------------------------------------------

  class Configuration {
    var keys: seq<string>
    var values: map<string, ConfigValue>

    function Contents(): Dict
      reads this
    {
      Dict(keys, values)
    }

    ghost predicate Valid()
      reads this
    {
      WellFormed(Contents())
    }

    constructor (d: Dict)
      requires WellFormed(d)
      ensures Valid() && Contents() == d
    {
      keys := d.keys;
      values := d.values;
    }

    /** `configuration[k] = v`. */
    method Set(k: string, v: ConfigValue)
      requires Valid()
      modifies this
      ensures Valid() && Contents() == Put(old(Contents()), k, v)
    {
      if k !in values {
        keys := keys + [k];
      }
      values := values[k := v];
    }

    /** `del configuration[k]`. */
    method Remove(k: string)
      requires Valid() && k in values
      modifies this
      ensures Valid() && Contents() == Delete(old(Contents()), k)
    {
      keys := RemoveKey(keys, k);
      values := values - {k};
    }

    /** The loop that replaces None values by ''. */
    method FillEmpty()
      requires Valid()
      modifies this
      ensures Valid() && Contents() == Filled(old(Contents()))
    {
      ghost var d := Contents();
      for i := 0 to |keys|
        invariant Valid() && keys == d.keys && values.Keys == d.values.Keys
        invariant forall k :: k in values ==> values[k] == if k in d.keys[..i] && d.values[k].Unset? then Text("") else d.values[k]
      {
        var key := keys[i];
        assert d.keys[..i + 1] == d.keys[..i] + [key];
        if values[key].Unset? {
          Set(key, Text(""));
        }
      }
      assert d.keys[..|d.keys|] == d.keys;
      FilledValues(d, values);
    }

    /** The loop that moves every value under the lower-case form of its key, over a snapshot of the keys. */
    method LowerKeys()
      requires Valid()
      modifies this
      ensures Valid() && Contents() == Lowered(old(Contents()))
    {
      ghost var d := Contents();
      var listOfKeys := keys;
      for i := 0 to |listOfKeys|
        invariant Valid() && Contents() == LowerAll(d, listOfKeys[..i])
      {
        var keyName := listOfKeys[i];
        LowerAllSnoc(d, listOfKeys, i);
        if Lower(keyName) != keyName {
          assert keyName !in listOfKeys[..i];
          LowerAllKeeps(d, listOfKeys[..i], keyName);
          RenameToLower(keyName);
        }
      }
      assert listOfKeys[..|listOfKeys|] == listOfKeys;
    }

    /** `configuration[k.lower()] = configuration[k]; del configuration[k]`. */
    method RenameToLower(k: string)
      requires Valid() && k in values && Lower(k) != k
      modifies this
      ensures Valid() && Contents() == LowerStep(old(Contents()), k)
    {
      Set(Lower(k), values[k]);
      Remove(k);
    }

    /** One round of the comparison loop: look the key up among the existing attributes and set it to None when it does not differ. */
    method MarkKey(existing: SoapObject, key: string, modifyRequired: bool) returns (r: Result<bool>)
      requires Valid() && key in values
      modifies this
      ensures Valid() && Marked(r, Contents()) == MarkStep(Marked(Ok(modifyRequired), old(Contents())), existing.attributes, key)
    {
      var existingValue := GetSoapAttribute(existing, key);
      var differs := ConfigValueDiffers(existingValue, values[key]);
      if differs.Err? {
        return Err(differs.error);
      }
      if differs.value {
        return Ok(true);
      }
      Set(key, Unset);
      return Ok(modifyRequired);
    }

    /** The comparison loop over the keys. Returns whether some key differs. */
    method MarkUnchanged(existing: SoapObject) returns (r: Result<bool>)
      requires Valid()
      modifies this
      ensures Valid() && Marked(r, Contents()) == Mark(old(Contents()), existing.attributes)
    {
      ghost var d := Contents();
      var ks := keys;
      var modifyRequired := false;
      for i := 0 to |ks|
        invariant Valid() && keys == ks
        invariant MarkAll(d, existing.attributes, ks[..i]) == Marked(Ok(modifyRequired), Contents())
      {
        var key := ks[i];
        MarkAllSnoc(d, existing.attributes, ks, i);
        var step := MarkKey(existing, key, modifyRequired);
        if step.Err? {
          ghost var stopped := Marked(step, Contents());
          assert MarkAll(d, existing.attributes, ks[..i + 1]) == stopped;
          MarkErrorSticks(d, existing.attributes, d.keys, i + 1);
          assert Mark(d, existing.attributes) == stopped;
          return step;
        }
        modifyRequired := step.value;
      }
      assert ks[..|ks|] == ks;
      return Ok(modifyRequired);
    }

    /** The loop that sets every existing key not checked to '', so that it is cleared. */
    method ClearExtras(existingKeys: seq<string>, doNotCheck: seq<string>)
      requires Valid()
      modifies this
      ensures Valid() && Contents() == ClearAll(old(Contents()), existingKeys, doNotCheck)
    {
      ghost var d := Contents();
      for i := 0 to |existingKeys|
        invariant Valid() && Contents() == ClearAll(d, existingKeys[..i], doNotCheck)
      {
        var key := existingKeys[i];
        assert existingKeys[..i + 1][..i] == existingKeys[..i];
        if key in doNotCheck {
          continue;
        }
        Set(key, Text(""));
      }
      assert existingKeys[..|existingKeys|] == existingKeys;
    }

    /** The identity feed's conversion of the naming-context paths into DNs, in place. */
    method ConvertNamingContexts(convert: string -> Result<string>) returns (raised: Option<Error>)
      requires Valid()
      modifies this
      ensures Valid() && Staged(raised, Contents()) == NamingContexts(convert, old(Contents()))
    {
      if NamingContextsKey !in values {
        return None;
      }
      match values[NamingContextsKey]
      case Items(xs) =>
        var contexts;
        raised, contexts := ConvertEach(convert, xs);
        Set(NamingContextsKey, Items(contexts));
        return raised;
      case Text(s) =>
        if |s| > 0 {
          var dn := convert([s[0]]);
          if dn.Err? {
            return Some(dn.error);
          }
          return Some(TypeError);
        }
        return None;
      case Unset =>
        return Some(TypeError);
    }
  }
}
