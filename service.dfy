/**
 * What the two service engines (account services and identity feeds) share:
 * the search by name and the exact-name filter over its results, the
 * organization taken from a container path, and the attribute builder that
 * both the create and the modify calls use. The builder sends the service
 * name, the description, the profile-specific configuration entries, then
 * the account-service fields and the identity-feed fields, each only when
 * it is not None.
 */
module Service {
  import opened Common
  import opened Tools
  import opened Reconcile
  import opened ServiceConfig

  // ---------------------------------------------------------------------
  // Searching by name
  // ---------------------------------------------------------------------

  /** The search filter for a service name. */
  function NameFilter(name: string): string {
    "(erservicename=" + name + ")"
  }

  /** The search results whose name is exactly `name`, in order. */
  function ExactMatches(results: seq<SoapObject>, name: string): (r: seq<SoapObject>)
    ensures |r| <= |results|
    ensures forall i :: 0 <= i < |r| ==> r[i].name == name
    decreases |results|
  {
    if results == [] then []
    else
      var last := results[|results| - 1];
      ExactMatches(results[..|results| - 1], name) + (if last.name == name then [last] else [])
  }

  /** A result occurs among the exact matches as often as among all results when its name is `name`, and never otherwise. */
  lemma {:induction false} ExactMatchesCount(results: seq<SoapObject>, name: string, o: SoapObject)
    ensures multiset(ExactMatches(results, name))[o] == if o.name == name then multiset(results)[o] else 0
    decreases |results|
  {
    if results != [] {
      var init := results[..|results| - 1];
      var last := results[|results| - 1];
      ExactMatchesCount(init, name, o);
      assert results == init + [last];
      assert multiset(results) == multiset(init) + multiset([last]);
    }
  }

  /** The loop that keeps the results with the exact name. */
  method FindExactMatches(results: seq<SoapObject>, name: string) returns (exactMatches: seq<SoapObject>)
    ensures exactMatches == ExactMatches(results, name)
  {
    exactMatches := [];
    for i := 0 to |results|
      invariant exactMatches == ExactMatches(results[..i], name)
    {
      assert results[..i + 1][..i] == results[..i];
      if results[i].name == name {
        exactMatches := exactMatches + [results[i]];
      }
    }
    assert results[..|results|] == results;
  }

  /**
   * The remote search: the response to a filter in a container, given by its
   * DN, or the IBMError or IBMFatal that `invoke_soap_request` raises.
   */
  type Search = (string, string) -> Result<SearchResponse>

  // ---------------------------------------------------------------------
  // The organization of a container path
  // ---------------------------------------------------------------------

  /** `container_path.split('//')[1]`: raises IndexError when the path has no '//'. */
  function Organization(containerPath: string): (r: Result<string>)
    ensures r.Err? <==> |Split(containerPath, "//")| < 2
    ensures r.Err? ==> r.error == IndexError
    ensures r.Ok? ==> r.value == Split(containerPath, "//")[1]
  {
    var parts := Split(containerPath, "//");
    if |parts| < 2 then Err(IndexError) else Ok(parts[1])
  }

  /** The organization of `//org//rest` is `org`. */
  lemma OrganizationOfPath(org: string, rest: string)
    requires '/' !in org
    ensures Organization("//" + org + "//" + rest) == Ok(org)
  {
    var s := "//" + org + "//" + rest;
    assert OccursAt(s, "//", 0);
    assert FindFrom(s, "//", 0) == Some(0);
    assert s[2..] == org + "//" + rest;
    assert Split(s, "//") == [""] + Split(org + "//" + rest, "//");
    SplitFirstPart(org, "//", rest);
  }

  /** The organization of the top-level path `//org` is `org`. */
  lemma OrganizationOfTopLevel(org: string)
    requires !Contains(org, "//")
    ensures Organization("//" + org) == Ok(org)
  {
    var s := "//" + org;
    assert OccursAt(s, "//", 0);
    assert FindFrom(s, "//", 0) == Some(0);
    assert s[2..] == org;
    SplitNoOccurrence(org, "//");
  }

  /** A path without '//' has no organization. */
  lemma NoOrganizationWithoutSeparator(containerPath: string)
    requires !Contains(containerPath, "//")
    ensures Organization(containerPath) == Err(IndexError)
  {
    SplitNoOccurrence(containerPath, "//");
  }

  /** `list_soap_attribute_keys`, as a value: the lower-cased attribute names. */
  function AttributeKeys(attrs: seq<Attribute>): (keys: seq<string>)
    ensures |keys| == |attrs| && forall i :: 0 <= i < |attrs| ==> keys[i] == Lower(attrs[i].name)
  {
    seq(|attrs|, i requires 0 <= i < |attrs| => Lower(attrs[i].name))
  }

  // ---------------------------------------------------------------------
  // The attribute builder
  // ---------------------------------------------------------------------

  /** The arguments of `_build_service_attributes_list` other than the configuration; None means no change. */
  datatype ServiceChanges = ServiceChanges(
    name: Option<string>,
    description: Option<string>,
    owner: Option<string>,
    prerequisite: Option<string>,
    defineAccess: Option<bool>,
    accessName: Option<string>,
    accessDescription: Option<string>,
    accessType: Option<string>,
    imageUri: Option<string>,
    searchTerms: Option<seq<string>>,
    additionalInfo: Option<string>,
    badges: Option<seq<Badge>>,
    useWorkflow: Option<bool>,
    evaluateSod: Option<bool>,
    placementRule: Option<string>)

  /** A configuration entry: None is omitted, a list is sent as it is, '' clears, a string is sent as [string]. */
  function ConfigField(key: string, v: ConfigValue): (f: Field)
    ensures f.name == key
    ensures f.values.None? <==> v.Unset?
    ensures v.Items? ==> f.values == Some(Strs(v.xs))
    ensures v.Text? ==> f.values == Some(TextValues(v.s))
  {
    match v
    case Unset => Field(key, None)
    case Text(s) => TextField(key, Some(s))
    case Items(xs) => ListField(key, Some(xs))
  }

  /** The configuration entries in the dict's order. */
  function ConfigFields(d: Dict): (fields: seq<Field>)
    requires WellFormed(d)
    ensures |fields| == |d.keys|
    ensures forall i :: 0 <= i < |d.keys| ==> fields[i] == ConfigField(d.keys[i], d.values[d.keys[i]])
  {
    seq(|d.keys|, i requires 0 <= i < |d.keys| && d.keys[i] in d.values => ConfigField(d.keys[i], d.values[d.keys[i]]))
  }

  /** The access option: True is sent as "2", False clears it. */
  function AccessOptionField(defineAccess: Option<bool>): (f: Field)
    ensures f.name == "eraccessoption"
    ensures defineAccess == Some(true) ==> f.values == Some([Str("2")])
    ensures defineAccess == Some(false) ==> f.values == Some([])
    ensures defineAccess.None? ==> f.values.None?
  {
    Field("eraccessoption", if defineAccess.None? then None else Some(if defineAccess.value then [Str("2")] else []))
  }

  /** The access category: an access type outside the four known ones raises ValueError. */
  function CategoryField(accessType: Option<string>): (r: Result<Field>)
    ensures r.Err? <==> accessType.Some? && AccessCategory(accessType.value).None?
    ensures r.Err? ==> r.error == ValueError
    ensures r.Ok? ==> r.value.name == "eraccesscategory"
    ensures r.Ok? && accessType.None? ==> r.value.values.None?
    ensures r.Ok? && accessType.Some? ==> r.value.values == Some([Str(AccessCategory(accessType.value).value)])
  {
    if accessType.None? then Ok(Field("eraccesscategory", None))
    else
      match AccessCategory(accessType.value)
      case None => Err(ValueError)
      case Some(c) => Ok(Field("eraccesscategory", Some([Str(c)])))
  }

  /** A boolean identity-feed flag is sent as a one-element list holding the boolean itself. */
  function FlagField(name: string, flag: Option<bool>): (f: Field)
    ensures f.name == name
    ensures flag.None? <==> f.values.None?
    ensures flag.Some? ==> f.values == Some([Bool(flag.value)])
  {
    Field(name, if flag.None? then None else Some([Bool(flag.value)]))
  }

  /** The badges, each sent as `text~colour`. */
  function BadgeField(badges: Option<seq<Badge>>): (f: Field)
    ensures f.name == "erbadge"
    ensures badges.None? <==> f.values.None?
    ensures badges.Some? ==> f.values == Some(Strs(BadgeStrings(badges.value)))
  {
    ListField("erbadge", if badges.None? then None else Some(BadgeStrings(badges.value)))
  }

  /** The fields before the configuration. */
  function HeadFields(c: ServiceChanges): seq<Field> {
    [TextField("erservicename", c.name), TextField("description", c.description)]
  }

  /** The owner, the prerequisite and the first access fields. */
  function OwnershipFields(c: ServiceChanges): (fields: seq<Field>)
    ensures |fields| == 5
  {
    [TextField("owner", c.owner),
     TextField("erprerequisite", c.prerequisite),
     AccessOptionField(c.defineAccess),
     TextField("eraccessname", c.accessName),
     TextField("eraccessdescription", c.accessDescription)]
  }

  /** The access category (already mapped) and the remaining access fields. */
  function AccessFields(c: ServiceChanges, category: Field): (fields: seq<Field>)
    ensures |fields| == 5
  {
    [category,
     TextField("erimageuri", c.imageUri),
     ListField("eraccesstag", c.searchTerms),
     TextField("eradditionalinformation", c.additionalInfo),
     BadgeField(c.badges)]
  }

  /** The identity-feed fields. */
  function FeedFields(c: ServiceChanges): (fields: seq<Field>)
    ensures |fields| == 3
  {
    [FlagField("eruseworkflow", c.useWorkflow),
     FlagField("erevaluatesod", c.evaluateSod),
     TextField("erplacementrule", c.placementRule)]
  }

  /** Every field the builder considers, in the order it appends them. */
  function Fields(c: ServiceChanges, d: Dict): (r: Result<seq<Field>>)
    requires WellFormed(d)
    ensures r.Err? <==> c.accessType.Some? && AccessCategory(c.accessType.value).None?
    ensures r.Ok? ==> |r.value| == 15 + |d.keys|
  {
    var category :- CategoryField(c.accessType);
    Ok(HeadFields(c) + ConfigFields(d) + OwnershipFields(c) + AccessFields(c, category) + FeedFields(c))
  }

  /** The attribute list `_build_service_attributes_list` returns, or the error it raises. */
  function Attributes(c: ServiceChanges, d: Dict): (r: Result<seq<Attribute>>)
    requires WellFormed(d)
    ensures r.Err? <==> c.accessType.Some? && AccessCategory(c.accessType.value).None?
    ensures r.Err? ==> r.error == ValueError
  {
    var fields :- Fields(c, d);
    Ok(ChangeList(fields))
  }

  /** When no configuration value is None, the configuration contributes one attribute per key, in order. */
  lemma ConfigSendsEveryKey(d: Dict)
    requires WellFormed(d)
    requires forall k :: k in d.values ==> !d.values[k].Unset?
    ensures |ChangeList(ConfigFields(d))| == |d.keys|
    ensures forall i :: 0 <= i < |d.keys| ==>
              ChangeList(ConfigFields(d))[i] == BuildAttribute(d.keys[i], ConfigField(d.keys[i], d.values[d.keys[i]]).values.value)
  {
    ChangeListAllSent(ConfigFields(d));
  }

  /** One configuration entry of the builder: nothing for None, a list as it is, [] for '', [value] otherwise. */
  method AppendConfigEntry(attributeList: seq<Attribute>, key: string, value: ConfigValue) returns (r: seq<Attribute>)
    ensures r == attributeList + Emit(ConfigField(key, value))
  {
    r := attributeList;
    if value.Items? {
      r := r + [BuildAttribute(key, Strs(value.xs))];
    } else if value.Text? {
      if value.s == "" {
        r := r + [BuildAttribute(key, [])];
      } else {
        r := r + [BuildAttribute(key, [Str(value.s)])];
      }
    }
  }

  /** The head and the configuration entries of the builder. */
  method AppendHeadAndConfiguration(c: ServiceChanges, configuration: Configuration) returns (attributeList: seq<Attribute>)
    requires configuration.Valid()
    ensures attributeList == ChangeList(HeadFields(c) + ConfigFields(configuration.Contents()))
  {
    ghost var fields := HeadFields(c) + ConfigFields(configuration.Contents());
    attributeList := AppendTextField([], "erservicename", c.name);
    attributeList := AppendTextField(attributeList, "description", c.description);
    assert attributeList == ChangeListUpTo(fields, 2);
    var keys := configuration.keys;
    for i := 0 to |keys|
      invariant attributeList == ChangeList(fields[..2 + i])
    {
      var key := keys[i];
      attributeList := AppendConfigEntry(attributeList, key, configuration.values[key]);
      assert fields[2 + i] == ConfigField(key, configuration.values[key]);
      ChangeListPrefix(fields, 2 + i);
    }
    assert fields[..2 + |keys|] == fields;
  }

  /** The access option append of the builder. */
  method AppendAccessOption(attributeList: seq<Attribute>, defineAccess: Option<bool>) returns (r: seq<Attribute>)
    ensures r == attributeList + Emit(AccessOptionField(defineAccess))
  {
    r := attributeList;
    if defineAccess.Some? {
      if defineAccess.value {
        r := r + [BuildAttribute("eraccessoption", [Str("2")])];
      } else {
        r := r + [BuildAttribute("eraccessoption", [])];
      }
    }
  }

  /** The access category append of the builder: an unknown access type raises ValueError. */
  method AppendCategory(attributeList: seq<Attribute>, accessType: Option<string>) returns (r: Result<seq<Attribute>>)
    ensures CategoryField(accessType).Err? ==> r == Err(ValueError)
    ensures CategoryField(accessType).Ok? ==> r == Ok(attributeList + Emit(CategoryField(accessType).value))
  {
    if accessType.None? {
      assert attributeList + [] == attributeList;
      return Ok(attributeList);
    }
    var mapped := AccessCategory(accessType.value);
    if mapped.None? {
      return Err(ValueError);
    }
    return Ok(attributeList + [BuildAttribute("eraccesscategory", [Str(mapped.value)])]);
  }

  /** The badge append of the builder. */
  method AppendBadges(attributeList: seq<Attribute>, badges: Option<seq<Badge>>) returns (r: seq<Attribute>)
    ensures r == attributeList + Emit(BadgeField(badges))
  {
    r := attributeList;
    if badges.Some? {
      var encoded := EncodeBadges(badges.value);
      r := r + [BuildAttribute("erbadge", Strs(encoded))];
    }
  }

  /** An identity-feed flag append of the builder. */
  method AppendFlag(attributeList: seq<Attribute>, name: string, flag: Option<bool>) returns (r: seq<Attribute>)
    ensures r == attributeList + Emit(FlagField(name, flag))
  {
    r := attributeList;
    if flag.Some? {
      r := r + [BuildAttribute(name, [Bool(flag.value)])];
    }
  }

  /** The owner, prerequisite and access option, name and description appends of the builder. */
  method AppendOwnership(attributeList: seq<Attribute>, c: ServiceChanges, ghost before: seq<Field>) returns (r: seq<Attribute>)
    requires attributeList == ChangeList(before)
    ensures r == ChangeList(before + OwnershipFields(c))
  {
    ghost var sent := before;
    r := AppendTextField(attributeList, "owner", c.owner);
    ChangeListSnoc(sent, TextField("owner", c.owner));
    sent := sent + [TextField("owner", c.owner)];
    r := AppendTextField(r, "erprerequisite", c.prerequisite);
    ChangeListSnoc(sent, TextField("erprerequisite", c.prerequisite));
    sent := sent + [TextField("erprerequisite", c.prerequisite)];
    r := AppendAccessOption(r, c.defineAccess);
    ChangeListSnoc(sent, AccessOptionField(c.defineAccess));
    sent := sent + [AccessOptionField(c.defineAccess)];
    r := AppendTextField(r, "eraccessname", c.accessName);
    ChangeListSnoc(sent, TextField("eraccessname", c.accessName));
    sent := sent + [TextField("eraccessname", c.accessName)];
    r := AppendTextField(r, "eraccessdescription", c.accessDescription);
    ChangeListSnoc(sent, TextField("eraccessdescription", c.accessDescription));
    sent := sent + [TextField("eraccessdescription", c.accessDescription)];
    AppendedOneByOne(before, TextField("owner", c.owner), TextField("erprerequisite", c.prerequisite),
      AccessOptionField(c.defineAccess), TextField("eraccessname", c.accessName),
      TextField("eraccessdescription", c.accessDescription));
  }

  /** The access category, image, search terms, additional information and badge appends of the builder. */
  method AppendAccess(attributeList: seq<Attribute>, c: ServiceChanges, ghost before: seq<Field>) returns (r: Result<seq<Attribute>>)
    requires attributeList == ChangeList(before)
    ensures CategoryField(c.accessType).Err? ==> r == Err(ValueError)
    ensures CategoryField(c.accessType).Ok? ==> r == Ok(ChangeList(before + AccessFields(c, CategoryField(c.accessType).value)))
  {
    var list :- AppendCategory(attributeList, c.accessType);
    ghost var sent := before;
    ChangeListSnoc(sent, CategoryField(c.accessType).value);
    sent := sent + [CategoryField(c.accessType).value];
    list := AppendTextField(list, "erimageuri", c.imageUri);
    ChangeListSnoc(sent, TextField("erimageuri", c.imageUri));
    sent := sent + [TextField("erimageuri", c.imageUri)];
    list := AppendListField(list, "eraccesstag", c.searchTerms);
    ChangeListSnoc(sent, ListField("eraccesstag", c.searchTerms));
    sent := sent + [ListField("eraccesstag", c.searchTerms)];
    list := AppendTextField(list, "eradditionalinformation", c.additionalInfo);
    ChangeListSnoc(sent, TextField("eradditionalinformation", c.additionalInfo));
    sent := sent + [TextField("eradditionalinformation", c.additionalInfo)];
    list := AppendBadges(list, c.badges);
    ChangeListSnoc(sent, BadgeField(c.badges));
    sent := sent + [BadgeField(c.badges)];
    AppendedOneByOne(before, CategoryField(c.accessType).value, TextField("erimageuri", c.imageUri),
      ListField("eraccesstag", c.searchTerms), TextField("eradditionalinformation", c.additionalInfo),
      BadgeField(c.badges));
    return Ok(list);
  }

  /** The identity-feed appends of the builder. */
  method AppendFeed(attributeList: seq<Attribute>, c: ServiceChanges, ghost before: seq<Field>) returns (r: seq<Attribute>)
    requires attributeList == ChangeList(before)
    ensures r == ChangeList(before + FeedFields(c))
  {
    ghost var sent := before;
    r := AppendFlag(attributeList, "eruseworkflow", c.useWorkflow);
    ChangeListSnoc(sent, FlagField("eruseworkflow", c.useWorkflow));
    sent := sent + [FlagField("eruseworkflow", c.useWorkflow)];
    r := AppendFlag(r, "erevaluatesod", c.evaluateSod);
    ChangeListSnoc(sent, FlagField("erevaluatesod", c.evaluateSod));
    sent := sent + [FlagField("erevaluatesod", c.evaluateSod)];
    r := AppendTextField(r, "erplacementrule", c.placementRule);
    ChangeListSnoc(sent, TextField("erplacementrule", c.placementRule));
    sent := sent + [TextField("erplacementrule", c.placementRule)];
    AppendedThreeByOne(before, FlagField("eruseworkflow", c.useWorkflow), FlagField("erevaluatesod", c.evaluateSod),
      TextField("erplacementrule", c.placementRule));
  }

  /** `_build_service_attributes_list`: one append per field that is not None, in field order. */
  method BuildAttributes(c: ServiceChanges, configuration: Configuration) returns (r: Result<seq<Attribute>>)
    requires configuration.Valid()
    ensures r == Attributes(c, configuration.Contents())
  {
    ghost var before := HeadFields(c) + ConfigFields(configuration.Contents());
    var attributeList := AppendHeadAndConfiguration(c, configuration);
    attributeList := AppendOwnership(attributeList, c, before);
    before := before + OwnershipFields(c);
    attributeList :- AppendAccess(attributeList, c, before);
    before := before + AccessFields(c, CategoryField(c.accessType).value);
    attributeList := AppendFeed(attributeList, c, before);
    return Ok(attributeList);
  }

  // ---------------------------------------------------------------------
  // Outcomes
  // ---------------------------------------------------------------------

  /** What an apply call decides, together with the configuration dict as the call leaves it. */
  datatype Outcome = Outcome(action: Result<Action>, configuration: Dict)

  /** The result of comparing the fixed fields: the values to send and whether they force a modify. */
  datatype FieldDiff = FieldDiff(changes: ServiceChanges, modifyRequired: bool)

  /** The prepared configuration: values None become '' and keys are moved to their lower-case form. */
  function Prepared(d: Dict): (r: Dict)
    requires WellFormed(d)
    ensures WellFormed(r)
  {
    Lowered(Filled(d))
  }

  /** After preparation every key is lower case, and every original key has its lower-case form present. */
  lemma PreparedKeys(d: Dict)
    requires WellFormed(d)
    ensures forall k :: k in Prepared(d).values ==> Lower(k) == k
    ensures forall k :: k in d.values ==> Lower(k) in Prepared(d).values
  {
    LowerKeysAreLowerCase(Filled(d));
  }

  /** When no two keys differ only in case, each value ends up under the lower-case key, with None replaced by ''. */
  lemma PreparedValues(d: Dict)
    requires WellFormed(d) && CaseDistinct(d)
    ensures forall k :: k in d.values ==> Lower(k) in Prepared(d).values
    ensures forall k :: k in d.values ==>
              Prepared(d).values[Lower(k)] == if d.values[k].Unset? then Text("") else d.values[k]
  {
    assert CaseDistinct(Filled(d));
    LowerKeysKeepValues(Filled(d));
  }
}
