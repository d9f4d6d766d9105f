/**
 * The vocabulary every reconciliation engine ("apply") shares: the decision an
 * apply call returns instead of calling the server, the abstract resolver it
 * consults, the per-field comparisons between an existing object's attribute
 * and a desired value, the three-way encoding of a desired value in a change
 * list (omitted / cleared / set), and a model of how the server applies such
 * a change list, used to state what a second apply run sees.
 */
module Reconcile {
  import opened Common
  import opened Tools

  // ---------------------------------------------------------------------
  // Decisions
  // ---------------------------------------------------------------------

  /** The warnings an apply call can return instead of acting. */
  datatype Warning =
    | ServiceTypeMismatch(name: string, containerDn: string, existingType: string, requestedType: string)
    | AmbiguousService(name: string, containerDn: string)

  /**
   * What an apply call does. `Respond` is `create_return_object(changed,
   * warnings)`; `Forward` returns a failed search response unchanged;
   * `Create` and `Modify` are the remote calls with the object's top-level
   * fields and the attribute change list they would send.
   */
  datatype Action =
    | Respond(changed: bool, warnings: seq<Warning>)
    | Forward(rc: int)
    | Create(parent: string, fields: seq<(string, string)>, attributes: seq<Attribute>)
    | Modify(dn: string, attributes: seq<Attribute>)

  /** The part of a search response an apply call reads. */
  datatype SearchResponse = SearchResponse(rc: int, results: seq<SoapObject>)

  /**
   * The path resolver of the DN encoder used by the engines: container path
   * to DN; (where, name, object type) to DN, where the role, person and
   * container modules pass a container path and the service module passes
   * an organization name; and the unique object with a name in a container.
   * Each either answers or raises.
   */
  datatype Resolver = Resolver(
    containerPathToDn: string -> Result<string>,
    encodeToIsimDn: (string, string, string) -> Result<string>,
    getUniqueObject: (string, string, string) -> Result<Option<SoapObject>>)

  /** A (container path, name) pair naming an owner, a role or a person. */
  datatype NamedEntry = NamedEntry(containerPath: string, name: string)

  /** Resolve every entry to a DN in order; the first failure is raised. */
  function EncodeAll(resolver: Resolver, entries: seq<NamedEntry>, objectType: string): (r: Result<seq<string>>)
    ensures r.Ok? ==> |r.value| == |entries|
    ensures r.Ok? ==> forall i :: 0 <= i < |entries| ==>
              resolver.encodeToIsimDn(entries[i].containerPath, entries[i].name, objectType) == Ok(r.value[i])
    decreases |entries|
  {
    if entries == [] then Ok([])
    else
      var init :- EncodeAll(resolver, entries[..|entries| - 1], objectType);
      var last := entries[|entries| - 1];
      var dn :- resolver.encodeToIsimDn(last.containerPath, last.name, objectType);
      Ok(init + [dn])
  }

  /** A failure while resolving a prefix is the failure of the whole list. */
  lemma {:induction false} EncodeAllPrefixFailure(resolver: Resolver, entries: seq<NamedEntry>, objectType: string, i: nat)
    requires i <= |entries|
    requires EncodeAll(resolver, entries[..i], objectType).Err?
    ensures EncodeAll(resolver, entries, objectType) == EncodeAll(resolver, entries[..i], objectType)
    decreases |entries| - i
  {
    if i < |entries| {
      var next := entries[..i + 1];
      assert next[..|next| - 1] == entries[..i];
      EncodeAllPrefixFailure(resolver, entries, objectType, i + 1);
    } else {
      assert entries[..i] == entries;
    }
  }

  /** The loop `for e in entries: dns.append(encode_to_isim_dn(...))`. */
  method EncodeEach(resolver: Resolver, entries: seq<NamedEntry>, objectType: string) returns (r: Result<seq<string>>)
    ensures r == EncodeAll(resolver, entries, objectType)
  {
    var dns: seq<string> := [];
    for i := 0 to |entries|
      invariant EncodeAll(resolver, entries[..i], objectType) == Ok(dns)
    {
      var next := entries[..i + 1];
      assert next[..|next| - 1] == entries[..i];
      var dn := resolver.encodeToIsimDn(entries[i].containerPath, entries[i].name, objectType);
      if dn.Err? {
        EncodeAllPrefixFailure(resolver, entries, objectType, i + 1);
        return Err(dn.error);
      }
      dns := dns + [dn.value];
    }
    assert entries[..|entries|] == entries;
    return Ok(dns);
  }

  // ---------------------------------------------------------------------
  // Badges
  // ---------------------------------------------------------------------

  /** An access badge: a text and a colour. */
  datatype Badge = Badge(text: string, colour: string)

  /** A badge is sent and stored as `text~colour`. */
  function BadgeString(b: Badge): (s: string)
    ensures s == b.text + "~" + b.colour
  {
    b.text + "~" + b.colour
  }

  function BadgeStrings(badges: seq<Badge>): (r: seq<string>)
    ensures |r| == |badges| && forall i :: 0 <= i < |badges| ==> r[i] == BadgeString(badges[i])
  {
    seq(|badges|, i requires 0 <= i < |badges| => BadgeString(badges[i]))
  }

  /** The badge loop: one `text~colour` string per badge, in order. */
  method EncodeBadges(badges: seq<Badge>) returns (r: seq<string>)
    ensures r == BadgeStrings(badges)
  {
    r := [];
    for i := 0 to |badges|
      invariant r == BadgeStrings(badges[..i])
    {
      r := r + [badges[i].text + "~" + badges[i].colour];
    }
    assert badges[..|badges|] == badges;
  }

  // ---------------------------------------------------------------------
  // Field comparisons (existing attribute values against a desired value)
  // ---------------------------------------------------------------------

  /**
   * A single-valued text field: an absent attribute differs unless the
   * desired value is ''; a present one is compared with its first value,
   * and a present attribute with no values raises IndexError.
   */
  function TextDiffers(existing: Option<seq<Value>>, desired: string): (r: Result<bool>)
    ensures r.Err? <==> existing.Some? && existing.value == []
    ensures r.Err? ==> r.error == IndexError
    ensures existing.None? ==> r == Ok(desired != "")
    ensures r.Ok? && existing.Some? ==> r.value == (existing.value[0] != Str(desired))
  {
    match existing
    case None => Ok(desired != "")
    case Some(vs) => if vs == [] then Err(IndexError) else Ok(vs[0] != Str(desired))
  }

  /** As TextDiffers, except that an absent attribute always differs. */
  function TextDiffersStrict(existing: Option<seq<Value>>, desired: string): (r: Result<bool>)
    ensures existing.None? ==> r == Ok(true)
    ensures existing.Some? ==> r == TextDiffers(existing, desired)
  {
    if existing.None? then Ok(true) else TextDiffers(existing, desired)
  }

  /**
   * A multi-valued field compared as a multiset (`Counter` equality); an
   * absent attribute differs unless the desired list is empty.
   */
  function ListDiffers(existing: Option<seq<Value>>, desired: seq<string>): (r: bool)
    ensures existing.None? ==> (r <==> desired != [])
    ensures existing.Some? ==> (r <==> multiset(Strs(desired)) != multiset(existing.value))
  {
    match existing
    case None => desired != []
    case Some(vs) => multiset(Strs(desired)) != multiset(vs)
  }

  /** As ListDiffers, except that an absent attribute always differs. */
  function ListDiffersStrict(existing: Option<seq<Value>>, desired: seq<string>): (r: bool)
    ensures existing.None? ==> r
    ensures existing.Some? ==> r == ListDiffers(existing, desired)
  {
    existing.None? || ListDiffers(existing, desired)
  }

  /** The order of a list field does not matter to the comparison. */
  lemma ListDiffersIgnoresOrder(existing: Option<seq<Value>>, a: seq<string>, b: seq<string>)
    requires multiset(a) == multiset(b)
    ensures ListDiffers(existing, a) == ListDiffers(existing, b)
  {
    if existing.None? {
      assert |a| == |multiset(a)| == |multiset(b)| == |b|;
    } else {
      StrsMultiset(a, b);
    }
  }

  lemma StrsMultiset(a: seq<string>, b: seq<string>)
    requires multiset(a) == multiset(b)
    ensures multiset(Strs(a)) == multiset(Strs(b))
  {
    forall v: Value
      ensures multiset(Strs(a))[v] == multiset(Strs(b))[v]
    {
      StrsCount(a, v);
      StrsCount(b, v);
    }
  }

  /** Each string value occurs in `Strs(a)` as often as its string occurs in `a`. */
  lemma {:induction false} StrsCount(a: seq<string>, v: Value)
    ensures multiset(Strs(a))[v] == if v.Str? then multiset(a)[v.s] else 0
    decreases |a|
  {
    if a != [] {
      StrsCount(a[1..], v);
      assert a == [a[0]] + a[1..];
      StrsConcat([a[0]], a[1..]);
      assert Strs([a[0]]) == [Str(a[0])];
      assert multiset(Strs(a)) == multiset([Str(a[0])]) + multiset(Strs(a[1..]));
      assert multiset(a) == multiset([a[0]]) + multiset(a[1..]);
    }
  }

  lemma StrsConcat(a: seq<string>, b: seq<string>)
    ensures Strs(a + b) == Strs(a) + Strs(b)
  {
  }

  /** The single-valued check of the `apply` functions: an absent attribute differs unless the value is ''. */
  method CompareText(existing: Option<seq<Value>>, desired: string) returns (r: Result<bool>)
    ensures r == TextDiffers(existing, desired)
  {
    if existing.None? {
      return Ok(desired != "");
    } else if existing.value == [] {
      return Err(IndexError);
    }
    return Ok(Str(desired) != existing.value[0]);
  }

  /** The multi-valued check of the `apply` functions: `Counter` equality. */
  method CompareList(existing: Option<seq<Value>>, desired: seq<string>) returns (r: bool)
    ensures r == ListDiffers(existing, desired)
  {
    if existing.None? {
      return desired != [];
    }
    return multiset(Strs(desired)) != multiset(existing.value);
  }

  /** The multi-valued check for an attribute that must be present. */
  method CompareListStrict(existing: Option<seq<Value>>, desired: seq<string>) returns (r: bool)
    ensures r == ListDiffersStrict(existing, desired)
  {
    if existing.None? {
      return true;
    }
    r := CompareList(existing, desired);
  }

  /** The single-valued check for an attribute that must be present. */
  method CompareTextStrict(existing: Option<seq<Value>>, desired: string) returns (r: Result<bool>)
    ensures r == TextDiffersStrict(existing, desired)
  {
    if existing.None? {
      return Ok(true);
    }
    r := CompareText(existing, desired);
  }

  /** Whether a field differs is reported as the value to send: the desired value, or None for no change. */
  function SendIf<T>(differs: bool, desired: T): (r: Option<T>)
    ensures r.Some? <==> differs
    ensures r.Some? ==> r.value == desired
  {
    if differs then Some(desired) else None
  }

  // ---------------------------------------------------------------------
  // Value tables
  // ---------------------------------------------------------------------

  /** The access categories: application, sharedfolder, emailgroup and role, ignoring case. */
  function AccessCategory(accessType: string): (r: Option<string>)
    ensures r.Some? <==> Lower(accessType) in {"application", "sharedfolder", "emailgroup", "role"}
    ensures Lower(accessType) == "application" ==> r == Some("Application")
    ensures Lower(accessType) == "sharedfolder" ==> r == Some("SharedFolder")
    ensures Lower(accessType) == "emailgroup" ==> r == Some("MailGroup")
    ensures Lower(accessType) == "role" ==> r == Some("AccessRole")
  {
    var t := Lower(accessType);
    if t == "application" then Some("Application")
    else if t == "sharedfolder" then Some("SharedFolder")
    else if t == "emailgroup" then Some("MailGroup")
    else if t == "role" then Some("AccessRole")
    else None
  }

  /** The access type check of the apply engines: an unknown type raises only when the attribute is present. */
  method CompareAccessType(existing: Option<seq<Value>>, accessType: string) returns (r: Result<bool>)
    ensures r == AccessTypeDiffers(existing, accessType)
  {
    if existing.None? {
      return Ok(accessType != "");
    }
    var category := Lower(accessType);
    var expected: string;
    if category == "application" {
      expected := "Application";
    } else if category == "sharedfolder" {
      expected := "SharedFolder";
    } else if category == "emailgroup" {
      expected := "MailGroup";
    } else if category == "role" {
      expected := "AccessRole";
    } else {
      return Err(ValueError);
    }
    if existing.value == [] {
      return Err(IndexError);
    }
    return Ok(existing.value[0] != Str(expected));
  }

  /** The stored category names are all distinct, so the table can be read backwards. */
  lemma AccessCategoryInjective(a: string, b: string)
    requires AccessCategory(a).Some? && AccessCategory(a) == AccessCategory(b)
    ensures Lower(a) == Lower(b)
  {
  }

  /**
   * The access category field: an absent attribute differs unless the
   * desired type is ''; for a present one an unknown type raises ValueError
   * before the first value is read.
   */
  function AccessTypeDiffers(existing: Option<seq<Value>>, accessType: string): (r: Result<bool>)
    ensures existing.None? ==> r == Ok(accessType != "")
    ensures existing.Some? && AccessCategory(accessType).None? ==> r == Err(ValueError)
    ensures existing.Some? && AccessCategory(accessType).Some? ==>
              r == TextDiffers(existing, AccessCategory(accessType).value)
  {
    match existing
    case None => Ok(accessType != "")
    case Some(vs) =>
      match AccessCategory(accessType)
      case None => Err(ValueError)
      case Some(c) => if vs == [] then Err(IndexError) else Ok(vs[0] != Str(c))
  }

  /** The role classifications: application and business, ignoring case. */
  function RoleClassification(classification: string): (r: Option<string>)
    ensures r.Some? <==> Lower(classification) in {"application", "business"}
    ensures Lower(classification) == "application" ==> r == Some("role.classification.application")
    ensures Lower(classification) == "business" ==> r == Some("role.classification.business")
  {
    var c := Lower(classification);
    if c == "application" then Some("role.classification.application")
    else if c == "business" then Some("role.classification.business")
    else None
  }

  /** The classification field: absent always differs; an unknown classification raises when present. */
  function ClassificationDiffers(existing: Option<seq<Value>>, classification: string): (r: Result<bool>)
    ensures existing.None? ==> r == Ok(true)
    ensures existing.Some? && RoleClassification(classification).None? ==> r == Err(ValueError)
    ensures existing.Some? && RoleClassification(classification).Some? ==>
              r == TextDiffers(existing, RoleClassification(classification).value)
  {
    match existing
    case None => Ok(true)
    case Some(vs) =>
      match RoleClassification(classification)
      case None => Err(ValueError)
      case Some(c) => if vs == [] then Err(IndexError) else Ok(vs[0] != Str(c))
  }

  /** The role access option: 1 disabled, 2 enabled, 3 enabled and common. */
  function RoleAccessCode(enableAccess: bool, commonAccess: bool): (code: string)
    ensures !enableAccess ==> code == "1"
    ensures enableAccess && !commonAccess ==> code == "2"
    ensures enableAccess && commonAccess ==> code == "3"
  {
    if !enableAccess then "1" else if !commonAccess then "2" else "3"
  }

  // ---------------------------------------------------------------------
  // The change list: None omits a field, '' clears it, a value sets it
  // ---------------------------------------------------------------------

  /** One entry of a change list: no values leaves the attribute alone; otherwise its new values, [] clearing it. */
  datatype Field = Field(name: string, values: Option<seq<Value>>)

  /** The values sent for a text field: '' is the empty list, anything else a one-element list. */
  function TextValues(v: string): (vs: seq<Value>)
    ensures vs == [] <==> v == ""
    ensures v != "" ==> vs == [Str(v)]
  {
    if v == "" then [] else [Str(v)]
  }

  /** A text field: None is omitted, '' becomes [], a value becomes [value]. */
  function TextField(name: string, v: Option<string>): (f: Field)
    ensures f.name == name
    ensures v.None? <==> f.values.None?
    ensures v == Some("") ==> f.values == Some([])
    ensures v.Some? && v.value != "" ==> f.values == Some([Str(v.value)])
  {
    Field(name, if v.None? then None else Some(TextValues(v.value)))
  }

  /** A list field: None is omitted, a list is sent as it is. */
  function ListField(name: string, v: Option<seq<string>>): (f: Field)
    ensures f.name == name
    ensures v.None? <==> f.values.None?
    ensures v.Some? ==> f.values == Some(Strs(v.value))
  {
    Field(name, if v.None? then None else Some(Strs(v.value)))
  }

  /** The attribute a field contributes, if any. */
  function Emit(f: Field): (attrs: seq<Attribute>)
    ensures |attrs| <= 1 && (attrs == [] <==> f.values.None?)
    ensures f.values.Some? ==> attrs == [BuildAttribute(f.name, f.values.value)]
  {
    if f.values.None? then [] else [BuildAttribute(f.name, f.values.value)]
  }

  /** The change list of a sequence of fields, in order. */
  function ChangeList(fields: seq<Field>): (attrs: seq<Attribute>)
    ensures |attrs| <= |fields|
    decreases |fields|
  {
    if fields == [] then [] else Emit(fields[0]) + ChangeList(fields[1..])
  }

  // ---------------------------------------------------------------------
  // The server side of a change list (replace semantics)
  // ---------------------------------------------------------------------

  /** What a change list does to one attribute. */
  datatype Effect = Unchanged | Cleared | Replaced(values: seq<Value>)

  /** The effect of a field on its own attribute. */
  function FieldEffect(f: Field): Effect {
    match f.values
    case None => Unchanged
    case Some(vs) => if vs == [] then Cleared else Replaced(vs)
  }

  /** The effect of the last change to `key` in the list (names compared ignoring case). */
  function EffectOf(mods: seq<Attribute>, key: string): Effect
    decreases |mods|
  {
    if mods == [] then Unchanged
    else
      var later := EffectOf(mods[1..], key);
      if later != Unchanged then later
      else if NameMatches(mods[0], key) then (if mods[0].values == [] then Cleared else Replaced(mods[0].values))
      else Unchanged
  }

  /** The existing values of an attribute after an effect. */
  function After(existing: Option<seq<Value>>, e: Effect): Option<seq<Value>> {
    match e
    case Unchanged => existing
    case Cleared => None
    case Replaced(vs) => Some(vs)
  }

  /** The attributes whose names do not match `name`, in order. */
  function Without(attrs: seq<Attribute>, name: string): (r: seq<Attribute>)
    ensures forall i :: 0 <= i < |r| ==> !NameMatches(r[i], name)
    ensures forall a :: a in r ==> a in attrs
  {
    if attrs == [] then []
    else if NameMatches(attrs[0], name) then Without(attrs[1..], name)
    else [attrs[0]] + Without(attrs[1..], name)
  }

  /** The server replaces an attribute's values; an empty value list removes the attribute. */
  function Replace(attrs: seq<Attribute>, m: Attribute): seq<Attribute> {
    Without(attrs, m.name) + (if m.values == [] then [] else [m])
  }

  /** A change list applied in order. The server adds no attribute that was neither there nor sent. */
  function ApplyModifications(attrs: seq<Attribute>, mods: seq<Attribute>): (r: seq<Attribute>)
    ensures forall a :: a in r ==> a in attrs || a in mods
    decreases |mods|
  {
    if mods == [] then attrs else ApplyModifications(Replace(attrs, mods[0]), mods[1..])
  }

  lemma {:induction false} AttributeValuesConcat(xs: seq<Attribute>, ys: seq<Attribute>, key: string)
    ensures AttributeValues(xs + ys, key)
            == if AttributeValues(xs, key).Some? then AttributeValues(xs, key) else AttributeValues(ys, key)
    decreases |xs|
  {
    if xs != [] {
      assert (xs + ys)[1..] == xs[1..] + ys;
      AttributeValuesConcat(xs[1..], ys, key);
    } else {
      assert xs + ys == ys;
    }
  }

  lemma {:induction false} AttributeValuesWithout(attrs: seq<Attribute>, name: string, key: string)
    ensures Lower(name) == Lower(key) ==> AttributeValues(Without(attrs, name), key) == None
    ensures Lower(name) != Lower(key) ==> AttributeValues(Without(attrs, name), key) == AttributeValues(attrs, key)
    decreases |attrs|
  {
    if attrs != [] {
      AttributeValuesWithout(attrs[1..], name, key);
      if !NameMatches(attrs[0], name) {
        AttributeValuesConcat([attrs[0]], Without(attrs[1..], name), key);
      }
    }
  }

  lemma AttributeValuesReplace(attrs: seq<Attribute>, m: Attribute, key: string)
    ensures AttributeValues(Replace(attrs, m), key)
            == if NameMatches(m, key) then (if m.values == [] then None else Some(m.values)) else AttributeValues(attrs, key)
  {
    AttributeValuesWithout(attrs, m.name, key);
    AttributeValuesConcat(Without(attrs, m.name), if m.values == [] then [] else [m], key);
  }

  /** After a change list, an attribute holds what the last change to it says, or what it held before. */
  lemma {:induction false} LookupAfterModifications(attrs: seq<Attribute>, mods: seq<Attribute>, key: string)
    ensures AttributeValues(ApplyModifications(attrs, mods), key) == After(AttributeValues(attrs, key), EffectOf(mods, key))
    decreases |mods|
  {
    if mods != [] {
      LookupAfterModifications(Replace(attrs, mods[0]), mods[1..], key);
      AttributeValuesReplace(attrs, mods[0], key);
    }
  }

  lemma {:induction false} EffectOfConcat(xs: seq<Attribute>, ys: seq<Attribute>, key: string)
    ensures EffectOf(xs + ys, key) == if EffectOf(ys, key) != Unchanged then EffectOf(ys, key) else EffectOf(xs, key)
    decreases |xs|
  {
    if xs == [] {
      assert xs + ys == ys;
    } else {
      assert (xs + ys)[1..] == xs[1..] + ys;
      EffectOfConcat(xs[1..], ys, key);
    }
  }

  /** The three-way distinction for a text field: None leaves it, '' clears it, a value sets it. */
  lemma TextFieldEffect(name: string, v: Option<string>)
    ensures v.None? ==> FieldEffect(TextField(name, v)) == Unchanged
    ensures v == Some("") ==> FieldEffect(TextField(name, v)) == Cleared
    ensures v.Some? && v.value != "" ==> FieldEffect(TextField(name, v)) == Replaced([Str(v.value)])
  {
  }

  /** A field changes its own attribute and no other. */
  lemma EmitEffect(f: Field, key: string)
    ensures EqualsIgnoreCase(f.name, key) ==> EffectOf(Emit(f), key) == FieldEffect(f)
    ensures !EqualsIgnoreCase(f.name, key) ==> EffectOf(Emit(f), key) == Unchanged
  {
    if f.values.Some? {
      assert Emit(f)[1..] == [];
    }
  }

  /** An attribute no field names is left alone by the change list. */
  lemma {:induction false} ChangeListUntouched(fields: seq<Field>, key: string)
    requires forall j :: 0 <= j < |fields| ==> !EqualsIgnoreCase(fields[j].name, key)
    ensures EffectOf(ChangeList(fields), key) == Unchanged
    decreases |fields|
  {
    if fields != [] {
      ChangeListUntouched(fields[1..], key);
      EmitEffect(fields[0], key);
      EffectOfConcat(Emit(fields[0]), ChangeList(fields[1..]), key);
    }
  }

  /** When exactly one field names an attribute, the change list does to it what that field says. */
  lemma {:induction false} ChangeListEffect(fields: seq<Field>, i: int, key: string)
    requires 0 <= i < |fields| && EqualsIgnoreCase(fields[i].name, key)
    requires forall j :: 0 <= j < |fields| && j != i ==> !EqualsIgnoreCase(fields[j].name, key)
    ensures EffectOf(ChangeList(fields), key) == FieldEffect(fields[i])
    decreases |fields|
  {
    EmitEffect(fields[0], key);
    EffectOfConcat(Emit(fields[0]), ChangeList(fields[1..]), key);
    if i == 0 {
      ChangeListUntouched(fields[1..], key);
    } else {
      ChangeListEffect(fields[1..], i - 1, key);
    }
  }

  /** The last field that names an attribute and has values decides what the change list does to it. */
  lemma {:induction false} ChangeListLastEffect(fields: seq<Field>, i: int, key: string)
    requires 0 <= i < |fields| && EqualsIgnoreCase(fields[i].name, key) && fields[i].values.Some?
    requires forall j :: i < j < |fields| ==> !EqualsIgnoreCase(fields[j].name, key)
    ensures EffectOf(ChangeList(fields), key) == FieldEffect(fields[i])
    decreases |fields|
  {
    EmitEffect(fields[0], key);
    EffectOfConcat(Emit(fields[0]), ChangeList(fields[1..]), key);
    if i == 0 {
      ChangeListUntouched(fields[1..], key);
    } else {
      ChangeListLastEffect(fields[1..], i - 1, key);
    }
  }

  /** Appending five fields one at a time is appending the five of them at once. */
  lemma AppendedOneByOne(p: seq<Field>, a: Field, b: Field, c: Field, d: Field, e: Field)
    ensures p + [a] + [b] + [c] + [d] + [e] == p + [a, b, c, d, e]
  {
    assert p + [a] + [b] + [c] + [d] + [e] == p + ([a] + [b] + [c] + [d] + [e]);
  }

  /** Appending three fields one at a time is appending the three of them at once. */
  lemma AppendedThreeByOne(p: seq<Field>, a: Field, b: Field, c: Field)
    ensures p + [a] + [b] + [c] == p + [a, b, c]
  {
    assert p + [a] + [b] + [c] == p + ([a] + [b] + [c]);
  }

  lemma {:induction false} ChangeListSnoc(fields: seq<Field>, f: Field)
    ensures ChangeList(fields + [f]) == ChangeList(fields) + Emit(f)
    decreases |fields|
  {
    if fields == [] {
      assert [f][1..] == [];
    } else {
      assert (fields + [f])[1..] == fields[1..] + [f];
      ChangeListSnoc(fields[1..], f);
    }
  }

  /** The change list of two field sequences in a row is the two change lists in a row. */
  lemma {:induction false} ChangeListConcat(xs: seq<Field>, ys: seq<Field>)
    ensures ChangeList(xs + ys) == ChangeList(xs) + ChangeList(ys)
    decreases |xs|
  {
    if xs == [] {
      assert xs + ys == ys;
    } else {
      assert (xs + ys)[1..] == xs[1..] + ys;
      ChangeListConcat(xs[1..], ys);
    }
  }

  /** The change list of the first k + 1 fields extends that of the first k by field k. */
  lemma ChangeListPrefix(fields: seq<Field>, k: nat)
    requires k < |fields|
    ensures ChangeList(fields[..k + 1]) == ChangeList(fields[..k]) + Emit(fields[k])
  {
    assert fields[..k + 1] == fields[..k] + [fields[k]];
    ChangeListSnoc(fields[..k], fields[k]);
  }

  /** The change list of the first k fields, built by appending one field at a time. */
  function ChangeListUpTo(fields: seq<Field>, k: nat): (attrs: seq<Attribute>)
    requires k <= |fields|
    ensures attrs == ChangeList(fields[..k])
  {
    if k == 0 then (assert fields[..0] == []; [])
    else (ChangeListPrefix(fields, k - 1); ChangeListUpTo(fields, k - 1) + Emit(fields[k - 1]))
  }

  /** The change list of the first six fields, written out. */
  lemma ChangeListOfFirstSix(f: seq<Field>)
    requires |f| >= 6
    ensures ChangeList(f[..6]) == [] + Emit(f[0]) + Emit(f[1]) + Emit(f[2]) + Emit(f[3]) + Emit(f[4]) + Emit(f[5])
  {
    assert f[..0] == [];
    ChangeListPrefix(f, 0);
    ChangeListPrefix(f, 1);
    ChangeListPrefix(f, 2);
    ChangeListPrefix(f, 3);
    ChangeListPrefix(f, 4);
    ChangeListPrefix(f, 5);
  }

  /** The change list of eleven fields, written out. */
  lemma ChangeListOfEleven(f: seq<Field>)
    requires |f| == 11
    ensures ChangeList(f) == [] + Emit(f[0]) + Emit(f[1]) + Emit(f[2]) + Emit(f[3]) + Emit(f[4]) + Emit(f[5])
                             + Emit(f[6]) + Emit(f[7]) + Emit(f[8]) + Emit(f[9]) + Emit(f[10])
  {
    var s6 := [] + Emit(f[0]) + Emit(f[1]) + Emit(f[2]) + Emit(f[3]) + Emit(f[4]) + Emit(f[5]);
    ChangeListOfFirstSix(f);
    ChangeListPrefix(f, 6);
    var s7 := s6 + Emit(f[6]);
    assert ChangeList(f[..7]) == s7;
    ChangeListPrefix(f, 7);
    var s8 := s7 + Emit(f[7]);
    assert ChangeList(f[..8]) == s8;
    ChangeListPrefix(f, 8);
    var s9 := s8 + Emit(f[8]);
    assert ChangeList(f[..9]) == s9;
    ChangeListPrefix(f, 9);
    var s10 := s9 + Emit(f[9]);
    assert ChangeList(f[..10]) == s10;
    ChangeListPrefix(f, 10);
    assert f[..11] == f;
  }

  /** The builders' text pattern: nothing for None, an empty list for '', the value otherwise. */
  method AppendTextField(attributeList: seq<Attribute>, name: string, v: Option<string>) returns (r: seq<Attribute>)
    ensures r == attributeList + Emit(TextField(name, v))
  {
    r := attributeList;
    if v.Some? {
      if v.value == "" {
        r := r + [BuildAttribute(name, [])];
      } else {
        r := r + [BuildAttribute(name, [Str(v.value)])];
      }
    }
  }

  /** The builders' list pattern: nothing for None, the list otherwise. */
  method AppendListField(attributeList: seq<Attribute>, name: string, v: Option<seq<string>>) returns (r: seq<Attribute>)
    ensures r == attributeList + Emit(ListField(name, v))
  {
    r := attributeList;
    if v.Some? {
      r := r + [BuildAttribute(name, Strs(v.value))];
    }
  }

  /** When every field has values, the change list holds one attribute per field, in order. */
  lemma {:induction false} ChangeListAllSent(fields: seq<Field>)
    requires forall j :: 0 <= j < |fields| ==> fields[j].values.Some?
    ensures |ChangeList(fields)| == |fields|
    ensures forall j :: 0 <= j < |fields| ==> ChangeList(fields)[j] == BuildAttribute(fields[j].name, fields[j].values.value)
    decreases |fields|
  {
    if fields != [] {
      ChangeListAllSent(fields[1..]);
    }
  }

  /** No two fields name the same attribute, ignoring case. */
  predicate DistinctNames(fields: seq<Field>) {
    forall j, k :: 0 <= j < k < |fields| ==> Lower(fields[j].name) != Lower(fields[k].name)
  }

  /** Names that are already in lower case are distinct ignoring case when they are distinct. */
  lemma DistinctLowerCaseNames(fields: seq<Field>)
    requires forall j :: 0 <= j < |fields| ==> Lower(fields[j].name) == fields[j].name
    requires forall j, k :: 0 <= j < k < |fields| ==> fields[j].name != fields[k].name
    ensures DistinctNames(fields)
  {
  }

  /** Names whose lower-case forms are known and distinct are distinct ignoring case. */
  lemma DistinctLoweredNames(fields: seq<Field>, lowered: seq<string>)
    requires |lowered| == |fields|
    requires forall j :: 0 <= j < |fields| ==> Lower(fields[j].name) == lowered[j]
    requires forall j, k :: 0 <= j < k < |lowered| ==> lowered[j] != lowered[k]
    ensures DistinctNames(fields)
  {
  }

  /**
   * After the server applies the change list of fields with distinct names,
   * each field's attribute holds what that field says, or what it held before.
   */
  lemma FieldAfterModifications(attrs: seq<Attribute>, fields: seq<Field>, i: int)
    requires DistinctNames(fields) && 0 <= i < |fields|
    ensures AttributeValues(ApplyModifications(attrs, ChangeList(fields)), fields[i].name)
            == After(AttributeValues(attrs, fields[i].name), FieldEffect(fields[i]))
  {
    forall j | 0 <= j < |fields| && j != i
      ensures !EqualsIgnoreCase(fields[j].name, fields[i].name)
    {
      if j < i {
        assert Lower(fields[j].name) != Lower(fields[i].name);
      } else {
        assert Lower(fields[i].name) != Lower(fields[j].name);
      }
    }
    ChangeListEffect(fields, i, fields[i].name);
    LookupAfterModifications(attrs, ChangeList(fields), fields[i].name);
  }

  // ---------------------------------------------------------------------
  // A field that was sent is in sync afterwards
  // ---------------------------------------------------------------------

  /** What the server keeps of a sent value list. */
  function Stored(vs: seq<Value>): (r: Option<seq<Value>>)
    ensures r.None? <==> vs == []
  {
    if vs == [] then None else Some(vs)
  }

  /** After a field is sent, the attribute holds what was sent, or nothing for []. */
  lemma SentFieldStored(existing: Option<seq<Value>>, f: Field)
    requires f.values.Some?
    ensures After(existing, FieldEffect(f)) == Stored(f.values.value)
  {
  }

  /** A text value, once stored, compares equal with itself. */
  lemma TextSettles(v: string)
    ensures TextDiffers(Stored(TextValues(v)), v) == Ok(false)
    ensures v != "" ==> TextDiffersStrict(Stored(TextValues(v)), v) == Ok(false)
  {
  }

  /** A list, once stored, compares equal with itself. */
  lemma ListSettles(xs: seq<string>)
    ensures !ListDiffers(Stored(Strs(xs)), xs)
    ensures xs != [] ==> !ListDiffersStrict(Stored(Strs(xs)), xs)
  {
  }

  /** A text field sent only when it differed is in sync once the server applies it. */
  lemma TextFieldSettles(existing: Option<seq<Value>>, name: string, v: string)
    requires TextDiffers(existing, v).Ok?
    ensures TextDiffers(After(existing, FieldEffect(TextField(name, SendIf(TextDiffers(existing, v).value, v)))), v) == Ok(false)
  {
  }

  /** The same for a field where an absent attribute always differs, provided the value is not ''. */
  lemma StrictTextFieldSettles(existing: Option<seq<Value>>, name: string, v: string)
    requires v != "" && TextDiffersStrict(existing, v).Ok?
    ensures TextDiffersStrict(After(existing, FieldEffect(TextField(name, SendIf(TextDiffersStrict(existing, v).value, v)))), v) == Ok(false)
  {
  }

  /** A list field sent only when it differed is in sync once the server applies it. */
  lemma ListFieldSettles(existing: Option<seq<Value>>, name: string, xs: seq<string>)
    ensures !ListDiffers(After(existing, FieldEffect(ListField(name, SendIf(ListDiffers(existing, xs), xs)))), xs)
  {
  }

  /** An access category, once stored, compares equal. */
  lemma AccessTypeSettles(accessType: string)
    requires AccessCategory(accessType).Some?
    ensures AccessTypeDiffers(Stored([Str(AccessCategory(accessType).value)]), accessType) == Ok(false)
  {
  }
}
