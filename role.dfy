/**
 * Static roles, as managed by the newer role module: `apply` finds the role
 * with a name in a container through the DN encoder, creates it when there is
 * none, and otherwise compares classification, description, owners, access
 * settings, badges and assignment attributes, modifying only what differs.
 */
module Role {
  import opened Common
  import opened Tools
  import opened Reconcile

  // ---------------------------------------------------------------------
  // search
  // ---------------------------------------------------------------------

  /** The default filter of `search`: every role. */
  const DefaultRoleFilter := "(errolename=*)"

  /** The remote search a role search makes: everywhere, or within one container. */
  datatype RoleSearch =
    | SearchRoles(filter: string)
    | SearchForRolesInContainer(containerDn: string, filter: string)

  /** `search`: without a container the filter is run everywhere. */
  function Search(containerDn: Option<string>, ldapFilter: string): (r: RoleSearch)
    ensures r.filter == ldapFilter
    ensures r.SearchRoles? <==> containerDn.None?
    ensures r.SearchForRolesInContainer? ==> r.containerDn == containerDn.value
  {
    if containerDn.None? then SearchRoles(ldapFilter) else SearchForRolesInContainer(containerDn.value, ldapFilter)
  }

  // ---------------------------------------------------------------------
  // Requests and changes
  // ---------------------------------------------------------------------

  /** The arguments of `apply`; None is an optional argument left out. */
  datatype RoleRequest = RoleRequest(
    containerPath: string,
    name: string,
    classification: string,
    description: Option<string>,
    roleOwners: Option<seq<NamedEntry>>,
    userOwners: Option<seq<NamedEntry>>,
    enableAccess: Option<bool>,
    commonAccess: Option<bool>,
    accessType: Option<string>,
    accessImageUri: Option<string>,
    accessSearchTerms: Option<seq<string>>,
    accessAdditionalInfo: Option<string>,
    accessBadges: Option<seq<Badge>>,
    assignmentAttributes: Option<seq<string>>)

  predicate ValidRequest(req: RoleRequest) {
    req.containerPath != "" && req.name != "" && req.classification != ""
  }

  /** The desired role once empties are filled in and owners resolved to DNs. */
  datatype DesiredRole = DesiredRole(
    classification: string,
    description: string,
    roleOwnerDns: seq<string>,
    userOwnerDns: seq<string>,
    enableAccess: bool,
    commonAccess: bool,
    accessType: string,
    accessImageUri: string,
    accessSearchTerms: seq<string>,
    accessAdditionalInfo: string,
    accessBadges: seq<Badge>,
    assignmentAttributes: seq<string>)

  /** The values the attribute builder receives; None means no change. */
  datatype RoleChanges = RoleChanges(
    classification: Option<string>,
    description: Option<string>,
    roleOwnerDns: Option<seq<string>>,
    userOwnerDns: Option<seq<string>>,
    enableAccess: Option<bool>,
    commonAccess: Option<bool>,
    accessType: Option<string>,
    accessImageUri: Option<string>,
    accessSearchTerms: Option<seq<string>>,
    accessAdditionalInfo: Option<string>,
    accessBadges: Option<seq<Badge>>,
    assignmentAttributes: Option<seq<string>>)

  /** A create sends every value. */
  function AllChanges(d: DesiredRole): RoleChanges {
    RoleChanges(Some(d.classification), Some(d.description), Some(d.roleOwnerDns), Some(d.userOwnerDns),
                Some(d.enableAccess), Some(d.commonAccess), Some(d.accessType), Some(d.accessImageUri),
                Some(d.accessSearchTerms), Some(d.accessAdditionalInfo), Some(d.accessBadges), Some(d.assignmentAttributes))
  }

  // ---------------------------------------------------------------------
  // Field builders shared by both role modules
  // ---------------------------------------------------------------------

  /** The classification field: an unknown classification raises ValueError. */
  function ClassificationField(classification: Option<string>): (r: Result<Field>)
    ensures r.Err? <==> classification.Some? && RoleClassification(classification.value).None?
    ensures r.Err? ==> r.error == ValueError
    ensures r.Ok? ==> r.value.name == "erroleclassification" && (r.value.values.None? <==> classification.None?)
    ensures r.Ok? && classification.Some? ==> r.value.values == Some([Str(RoleClassification(classification.value).value)])
  {
    if classification.None? then Ok(Field("erroleclassification", None))
    else match RoleClassification(classification.value)
      case None => Err(ValueError)
      case Some(c) => Ok(Field("erroleclassification", Some([Str(c)])))
  }

  /** The owner field: setting either owner list replaces every owner. */
  function OwnerField(roleOwnerDns: Option<seq<string>>, userOwnerDns: Option<seq<string>>): (f: Field)
    ensures f.name == "owner"
    ensures f.values.None? <==> roleOwnerDns.None? && userOwnerDns.None?
    ensures roleOwnerDns.Some? && userOwnerDns.Some? ==> f.values == Some(Strs(roleOwnerDns.value + userOwnerDns.value))
  {
    if roleOwnerDns.Some? && userOwnerDns.Some? then Field("owner", Some(Strs(roleOwnerDns.value + userOwnerDns.value)))
    else if roleOwnerDns.Some? then Field("owner", Some(Strs(roleOwnerDns.value)))
    else if userOwnerDns.Some? then Field("owner", Some(Strs(userOwnerDns.value)))
    else Field("owner", None)
  }

  /**
   * The access option code the builder sends: 1 disabled, 2 enabled, 3
   * enabled and common; nothing when access is not set, or enabled with
   * the common flag unset.
   */
  function AccessOptionCode(enableAccess: Option<bool>, commonAccess: Option<bool>): (r: Option<string>)
    ensures enableAccess.Some? && commonAccess.Some? ==> r == Some(RoleAccessCode(enableAccess.value, commonAccess.value))
    ensures enableAccess.None? ==> r.None?
  {
    if enableAccess.None? then None
    else if !enableAccess.value then Some("1")
    else if commonAccess == Some(false) then Some("2")
    else if commonAccess == Some(true) then Some("3")
    else None
  }

  /** The access type field: an unknown access type raises ValueError. */
  function AccessTypeField(accessType: Option<string>): (r: Result<Field>)
    ensures r.Err? <==> accessType.Some? && AccessCategory(accessType.value).None?
    ensures r.Err? ==> r.error == ValueError
    ensures r.Ok? ==> r.value.name == "erobjectprofilename" && (r.value.values.None? <==> accessType.None?)
    ensures r.Ok? && accessType.Some? ==> r.value.values == Some([Str(AccessCategory(accessType.value).value)])
  {
    if accessType.None? then Ok(Field("erobjectprofilename", None))
    else match AccessCategory(accessType.value)
      case None => Err(ValueError)
      case Some(c) => Ok(Field("erobjectprofilename", Some([Str(c)])))
  }

  /** The badges as sent: `text~colour` strings. */
  function BadgeField(badges: Option<seq<Badge>>): Field {
    ListField("erbadge", if badges.None? then None else Some(BadgeStrings(badges.value)))
  }

  // ---------------------------------------------------------------------
  // The change list
  // ---------------------------------------------------------------------

  /** The attributes a role change list can touch, in builder order. */
  const FieldNames: seq<string> := ["description", "eraccessdescription", "erroleclassification", "owner",
    "eraccessoption", "erobjectprofilename", "erimageuri", "eraccesstag", "eradditionalinformation", "erbadge",
    "erroleassignmentkey"]

  /** The access option field: the code, when there is one. */
  function AccessOptionField(enableAccess: Option<bool>, commonAccess: Option<bool>): Field {
    var code := AccessOptionCode(enableAccess, commonAccess);
    Field("eraccessoption", if code.None? then None else Some([Str(code.value)]))
  }

  /** The fields in builder order, given the two fields that can raise. */
  function FieldList(c: RoleChanges, classificationField: Field, accessTypeField: Field): (fields: seq<Field>)
    requires classificationField.name == "erroleclassification" && accessTypeField.name == "erobjectprofilename"
    ensures |fields| == |FieldNames| && forall j :: 0 <= j < |fields| ==> fields[j].name == FieldNames[j]
  {
    [TextField("description", c.description),
     TextField("eraccessdescription", c.description),
     classificationField,
     OwnerField(c.roleOwnerDns, c.userOwnerDns),
     AccessOptionField(c.enableAccess, c.commonAccess),
     accessTypeField,
     TextField("erimageuri", c.accessImageUri),
     ListField("eraccesstag", c.accessSearchTerms),
     TextField("eradditionalinformation", c.accessAdditionalInfo),
     BadgeField(c.accessBadges),
     ListField("erroleassignmentkey", c.assignmentAttributes)]
  }

  /** The fields of a role change list; the classification is checked before the access type. */
  function Fields(c: RoleChanges): (r: Result<seq<Field>>)
    ensures r.Err? <==> ClassificationField(c.classification).Err? || AccessTypeField(c.accessType).Err?
    ensures r.Err? ==> r.error == ValueError
  {
    var classificationField := ClassificationField(c.classification);
    var accessTypeField := AccessTypeField(c.accessType);
    if classificationField.Err? then Err(classificationField.error)
    else if accessTypeField.Err? then Err(accessTypeField.error)
    else Ok(FieldList(c, classificationField.value, accessTypeField.value))
  }

  /** The change list for a role. */
  function Attributes(c: RoleChanges): Result<seq<Attribute>> {
    var fields := Fields(c);
    if fields.Err? then Err(fields.error) else Ok(ChangeList(fields.value))
  }

  /** The eleven attribute names differ even when case is ignored. */
  lemma FieldNamesDifferIgnoringCase()
    ensures forall j, k :: 0 <= j < k < |FieldNames| ==> Lower(FieldNames[j]) != Lower(FieldNames[k])
  {
    forall j, k | 0 <= j < k < |FieldNames| ensures Lower(FieldNames[j]) != Lower(FieldNames[k]) {
      if |FieldNames[j]| == |FieldNames[k]| {
        assert Lower(FieldNames[j])[0] != Lower(FieldNames[k])[0] || Lower(FieldNames[j])[2] != Lower(FieldNames[k])[2];
      }
    }
  }

  /** Fields named as the builder names them have distinct names, ignoring case. */
  lemma FieldNamesDistinct(fields: seq<Field>)
    requires |fields| == |FieldNames| && forall j :: 0 <= j < |fields| ==> fields[j].name == FieldNames[j]
    ensures DistinctNames(fields)
  {
    FieldNamesDifferIgnoringCase();
  }

  /** The classification block of the builder: an unknown classification raises ValueError. */
  method AppendClassification(attributeList: seq<Attribute>, classification: Option<string>) returns (r: Result<seq<Attribute>>)
    ensures ClassificationField(classification).Err? ==> r == Err(ValueError)
    ensures ClassificationField(classification).Ok? ==> r == Ok(attributeList + Emit(ClassificationField(classification).value))
  {
    if classification.None? {
      assert attributeList + [] == attributeList;
      return Ok(attributeList);
    }
    var lowered := Lower(classification.value);
    if lowered == "application" {
      return Ok(attributeList + [BuildAttribute("erroleclassification", [Str("role.classification.application")])]);
    } else if lowered == "business" {
      return Ok(attributeList + [BuildAttribute("erroleclassification", [Str("role.classification.business")])]);
    }
    return Err(ValueError);
  }

  /** The owner block of the builder: either list, or both, replace every owner. */
  method AppendOwners(attributeList: seq<Attribute>, roleOwnerDns: Option<seq<string>>, userOwnerDns: Option<seq<string>>)
    returns (r: seq<Attribute>)
    ensures r == attributeList + Emit(OwnerField(roleOwnerDns, userOwnerDns))
  {
    r := attributeList;
    if roleOwnerDns.Some? && userOwnerDns.Some? {
      r := r + [BuildAttribute("owner", Strs(roleOwnerDns.value + userOwnerDns.value))];
    } else if roleOwnerDns.Some? {
      r := r + [BuildAttribute("owner", Strs(roleOwnerDns.value))];
    } else if userOwnerDns.Some? {
      r := r + [BuildAttribute("owner", Strs(userOwnerDns.value))];
    }
  }

  /** The access option block of the builder. */
  method AppendAccessOption(attributeList: seq<Attribute>, enableAccess: Option<bool>, commonAccess: Option<bool>)
    returns (r: seq<Attribute>)
    ensures r == attributeList + Emit(AccessOptionField(enableAccess, commonAccess))
  {
    r := attributeList;
    if enableAccess.Some? {
      if !enableAccess.value {
        r := r + [BuildAttribute("eraccessoption", [Str("1")])];
      } else if commonAccess == Some(false) {
        r := r + [BuildAttribute("eraccessoption", [Str("2")])];
      } else if commonAccess == Some(true) {
        r := r + [BuildAttribute("eraccessoption", [Str("3")])];
      }
    }
  }

  /** The access type block of the builder: an unknown access type raises ValueError. */
  method AppendAccessType(attributeList: seq<Attribute>, accessType: Option<string>) returns (r: Result<seq<Attribute>>)
    ensures AccessTypeField(accessType).Err? ==> r == Err(ValueError)
    ensures AccessTypeField(accessType).Ok? ==> r == Ok(attributeList + Emit(AccessTypeField(accessType).value))
  {
    if accessType.None? {
      assert attributeList + [] == attributeList;
      return Ok(attributeList);
    }
    var lowered := Lower(accessType.value);
    if lowered == "application" {
      return Ok(attributeList + [BuildAttribute("erobjectprofilename", [Str("Application")])]);
    } else if lowered == "sharedfolder" {
      return Ok(attributeList + [BuildAttribute("erobjectprofilename", [Str("SharedFolder")])]);
    } else if lowered == "emailgroup" {
      return Ok(attributeList + [BuildAttribute("erobjectprofilename", [Str("MailGroup")])]);
    } else if lowered == "role" {
      return Ok(attributeList + [BuildAttribute("erobjectprofilename", [Str("AccessRole")])]);
    }
    return Err(ValueError);
  }

  /** `_build_role_attributes_list`: one append per value that is not None, in builder order. */
  method BuildAttributes(c: RoleChanges) returns (r: Result<seq<Attribute>>)
    ensures r == Attributes(c)
  {
    ghost var classificationField :=
      if ClassificationField(c.classification).Ok? then ClassificationField(c.classification).value
      else Field("erroleclassification", None);
    ghost var accessTypeField :=
      if AccessTypeField(c.accessType).Ok? then AccessTypeField(c.accessType).value
      else Field("erobjectprofilename", None);
    ghost var f := FieldList(c, classificationField, accessTypeField);

    var attributeList := AppendTextField([], "description", c.description);
    attributeList := AppendTextField(attributeList, "eraccessdescription", c.description);
    attributeList :- AppendClassification(attributeList, c.classification);
    attributeList := AppendOwners(attributeList, c.roleOwnerDns, c.userOwnerDns);
    attributeList := AppendAccessOption(attributeList, c.enableAccess, c.commonAccess);
    attributeList :- AppendAccessType(attributeList, c.accessType);
    attributeList := AppendTextField(attributeList, "erimageuri", c.accessImageUri);
    attributeList := AppendListField(attributeList, "eraccesstag", c.accessSearchTerms);
    attributeList := AppendTextField(attributeList, "eradditionalinformation", c.accessAdditionalInfo);
    if c.accessBadges.Some? {
      var badges := EncodeBadges(c.accessBadges.value);
      attributeList := attributeList + [BuildAttribute("erbadge", Strs(badges))];
    }
    assert attributeList == [] + Emit(f[0]) + Emit(f[1]) + Emit(f[2]) + Emit(f[3]) + Emit(f[4]) + Emit(f[5])
                            + Emit(f[6]) + Emit(f[7]) + Emit(f[8]) + Emit(f[9]);
    attributeList := AppendListField(attributeList, "erroleassignmentkey", c.assignmentAttributes);
    ChangeListOfEleven(f);
    return Ok(attributeList);
  }

  // ---------------------------------------------------------------------
  // The comparisons
  // ---------------------------------------------------------------------

  /**
   * The description comparison: an absent attribute differs unless the
   * description is ''; otherwise the role's own description field is
   * compared first and the attribute's first value only when that matches.
   */
  function DescriptionDiffers(existing: Option<seq<Value>>, roleDescription: string, description: string): (r: Result<bool>)
    ensures existing.None? ==> r == Ok(description != "")
    ensures existing.Some? && description != roleDescription ==> r == Ok(true)
    ensures existing.Some? && description == roleDescription ==> r == TextDiffers(existing, description)
  {
    match existing
    case None => Ok(description != "")
    case Some(vs) => if description != roleDescription then Ok(true) else if vs == [] then Err(IndexError) else Ok(vs[0] != Str(description))
  }

  /** The classification check of `apply`. */
  method CompareClassification(existing: Option<seq<Value>>, classification: string) returns (r: Result<bool>)
    ensures r == ClassificationDiffers(existing, classification)
  {
    if existing.None? {
      return Ok(true);
    }
    var expected: string;
    if Lower(classification) == "application" {
      expected := "role.classification.application";
    } else if Lower(classification) == "business" {
      expected := "role.classification.business";
    } else {
      return Err(ValueError);
    }
    if existing.value == [] {
      return Err(IndexError);
    }
    return Ok(existing.value[0] != Str(expected));
  }

  /** The description check of `apply`. */
  method CompareDescription(existing: Option<seq<Value>>, roleDescription: string, description: string) returns (r: Result<bool>)
    ensures r == DescriptionDiffers(existing, roleDescription, description)
  {
    if existing.None? {
      return Ok(description != "");
    } else if description != roleDescription {
      return Ok(true);
    } else if existing.value == [] {
      return Err(IndexError);
    }
    return Ok(Str(description) != existing.value[0]);
  }

  /** The access option check of `apply`: an absent option always differs. */
  method CompareAccessOption(existing: Option<seq<Value>>, enableAccess: bool, commonAccess: bool) returns (r: Result<bool>)
    ensures r == TextDiffersStrict(existing, RoleAccessCode(enableAccess, commonAccess))
  {
    if existing.None? {
      return Ok(true);
    } else if existing.value == [] {
      return Err(IndexError);
    } else if !enableAccess && existing.value[0] != Str("1") {
      return Ok(true);
    } else if enableAccess && !commonAccess && existing.value[0] != Str("2") {
      return Ok(true);
    } else if enableAccess && commonAccess && existing.value[0] != Str("3") {
      return Ok(true);
    }
    return Ok(false);
  }

  // ---------------------------------------------------------------------
  // apply
  // ---------------------------------------------------------------------

  /** Which of the role's own values differ: classification, description and owners. */
  datatype GeneralDiffers = GeneralDiffers(classification: bool, description: bool, owners: bool)

  /** Which access settings differ. */
  datatype AccessDiffers = AccessDiffers(
    accessOption: bool, accessType: bool, imageUri: bool, searchTerms: bool,
    additionalInfo: bool, badges: bool, assignment: bool)

  /** Which values of the existing role differ from the desired ones. */
  datatype Differs = Differs(general: GeneralDiffers, access: AccessDiffers)

  /** The comparisons of classification, description and owners; a bad classification raises. */
  function GeneralComparisons(existing: SoapObject, d: DesiredRole): Result<GeneralDiffers> {
    var attrs := existing.attributes;
    var classification := ClassificationDiffers(AttributeValues(attrs, "erroleclassification"), d.classification);
    var description := DescriptionDiffers(AttributeValues(attrs, "description"), existing.description, d.description);
    if classification.Err? then Err(classification.error)
    else if description.Err? then Err(description.error)
    else Ok(GeneralDiffers(classification.value, description.value,
                           ListDiffers(AttributeValues(attrs, "owner"), d.roleOwnerDns + d.userOwnerDns)))
  }

  /** The comparisons of the access settings, in order; a bad access type or a non-text value raises. */
  function AccessComparisons(attrs: seq<Attribute>, d: DesiredRole): Result<AccessDiffers> {
    var accessOption := TextDiffersStrict(AttributeValues(attrs, "eraccessoption"), RoleAccessCode(d.enableAccess, d.commonAccess));
    var accessType := AccessTypeDiffers(AttributeValues(attrs, "erobjectprofilename"), d.accessType);
    var imageUri := TextDiffers(AttributeValues(attrs, "erimageuri"), d.accessImageUri);
    var additionalInfo := TextDiffers(AttributeValues(attrs, "eradditionalinformation"), d.accessAdditionalInfo);
    if accessOption.Err? then Err(accessOption.error)
    else if accessType.Err? then Err(accessType.error)
    else if imageUri.Err? then Err(imageUri.error)
    else if additionalInfo.Err? then Err(additionalInfo.error)
    else Ok(AccessDiffers(
      accessOption.value, accessType.value, imageUri.value, ListDiffers(AttributeValues(attrs, "eraccesstag"), d.accessSearchTerms),
      additionalInfo.value, ListDiffers(AttributeValues(attrs, "erbadge"), BadgeStrings(d.accessBadges)),
      ListDiffers(AttributeValues(attrs, "erroleassignmentkey"), d.assignmentAttributes)))
  }

  /** The comparisons with an existing role, in the order `apply` makes them; the first failing one raises. */
  function Comparisons(existing: SoapObject, d: DesiredRole): Result<Differs> {
    var general := GeneralComparisons(existing, d);
    var access := AccessComparisons(existing.attributes, d);
    if general.Err? then Err(general.error)
    else if access.Err? then Err(access.error)
    else Ok(Differs(general.value, access.value))
  }

  /** Every comparison of the existing role with the desired one succeeds. */
  predicate Comparable(existing: SoapObject, d: DesiredRole) {
    Comparisons(existing, d).Ok?
  }

  /** Each value is sent exactly when its comparison says it differs; owners and access flags go in pairs. */
  function ChangesOf(m: Differs, d: DesiredRole): RoleChanges {
    var g := m.general;
    var a := m.access;
    RoleChanges(
      SendIf(g.classification, d.classification), SendIf(g.description, d.description),
      SendIf(g.owners, d.roleOwnerDns), SendIf(g.owners, d.userOwnerDns),
      SendIf(a.accessOption, d.enableAccess), SendIf(a.accessOption, d.commonAccess),
      SendIf(a.accessType, d.accessType), SendIf(a.imageUri, d.accessImageUri),
      SendIf(a.searchTerms, d.accessSearchTerms), SendIf(a.additionalInfo, d.accessAdditionalInfo),
      SendIf(a.badges, d.accessBadges), SendIf(a.assignment, d.assignmentAttributes))
  }

  /** The changes of a comparable role. */
  function Changes(existing: SoapObject, d: DesiredRole): RoleChanges
    requires Comparable(existing, d)
  {
    ChangesOf(Comparisons(existing, d).value, d)
  }

  /** The comparison with an existing role: its changes, or the first comparison's error. */
  function Diff(existing: SoapObject, d: DesiredRole): Result<RoleChanges> {
    var m := Comparisons(existing, d);
    if m.Err? then Err(m.error) else Ok(ChangesOf(m.value, d))
  }

  /** `modify_required`: some value is sent. */
  predicate Changed(c: RoleChanges) {
    c.classification.Some? || c.description.Some? || c.roleOwnerDns.Some? || c.userOwnerDns.Some?
    || c.enableAccess.Some? || c.commonAccess.Some? || c.accessType.Some? || c.accessImageUri.Some?
    || c.accessSearchTerms.Some? || c.accessAdditionalInfo.Some? || c.accessBadges.Some? || c.assignmentAttributes.Some?
  }

  /** The existing role already has every desired value. */
  predicate InSync(existing: SoapObject, d: DesiredRole) {
    var attrs := existing.attributes;
    ClassificationDiffers(AttributeValues(attrs, "erroleclassification"), d.classification) == Ok(false)
    && DescriptionDiffers(AttributeValues(attrs, "description"), existing.description, d.description) == Ok(false)
    && !ListDiffers(AttributeValues(attrs, "owner"), d.roleOwnerDns + d.userOwnerDns)
    && TextDiffersStrict(AttributeValues(attrs, "eraccessoption"), RoleAccessCode(d.enableAccess, d.commonAccess)) == Ok(false)
    && AccessTypeDiffers(AttributeValues(attrs, "erobjectprofilename"), d.accessType) == Ok(false)
    && TextDiffers(AttributeValues(attrs, "erimageuri"), d.accessImageUri) == Ok(false)
    && !ListDiffers(AttributeValues(attrs, "eraccesstag"), d.accessSearchTerms)
    && TextDiffers(AttributeValues(attrs, "eradditionalinformation"), d.accessAdditionalInfo) == Ok(false)
    && !ListDiffers(AttributeValues(attrs, "erbadge"), BadgeStrings(d.accessBadges))
    && !ListDiffers(AttributeValues(attrs, "erroleassignmentkey"), d.assignmentAttributes)
  }

  /** What `apply` does with an existing role. */
  function Decide(existing: SoapObject, d: DesiredRole, checkMode: bool): Result<Action> {
    var c := Diff(existing, d);
    if c.Err? then Err(c.error)
    else if !Changed(c.value) then Ok(Respond(false, []))
    else if checkMode then Ok(Respond(true, []))
    else
      var attrs := Attributes(c.value);
      if attrs.Err? then Err(attrs.error) else Ok(Modify(existing.itimDN, attrs.value))
  }

  /** `_create`: the role's name and description with every value sent. */
  function CreateDecision(containerDn: string, name: string, d: DesiredRole): (r: Result<Action>)
    ensures r.Err? <==> RoleClassification(d.classification).None? || AccessCategory(d.accessType).None?
    ensures r.Err? ==> r.error == ValueError
    ensures r.Ok? ==> r.value.Create? && r.value.parent == containerDn
                      && r.value.fields == [("name", name), ("description", d.description)]
  {
    var attrs := Attributes(AllChanges(d));
    if attrs.Err? then Err(attrs.error) else Ok(Create(containerDn, [("name", name), ("description", d.description)], attrs.value))
  }

  /** The request with empties filled in, given the resolved owner DNs. */
  function Desired(req: RoleRequest, roleOwnerDns: seq<string>, userOwnerDns: seq<string>): DesiredRole {
    DesiredRole(
      req.classification,
      if req.description.None? then "" else req.description.value,
      roleOwnerDns,
      userOwnerDns,
      if req.enableAccess.None? then false else req.enableAccess.value,
      if req.commonAccess.None? then false else req.commonAccess.value,
      if req.accessType.None? then "" else req.accessType.value,
      if req.accessImageUri.None? then "" else req.accessImageUri.value,
      if req.accessSearchTerms.None? then [] else req.accessSearchTerms.value,
      if req.accessAdditionalInfo.None? then "" else req.accessAdditionalInfo.value,
      if req.accessBadges.None? then [] else req.accessBadges.value,
      if req.assignmentAttributes.None? then [] else req.assignmentAttributes.value)
  }

  /** `apply`, as a function of the resolver's answers. */
  function Decision(resolver: Resolver, req: RoleRequest, checkMode: bool, force: bool): (r: Result<Action>)
    ensures !ValidRequest(req) ==> r == Err(ValueError)
    ensures r.Ok? && r.value.Modify? ==> !checkMode
    ensures r.Ok? ==> !r.value.Forward?
  {
    if !ValidRequest(req) then Err(ValueError)
    else
      var roleOwners := if req.roleOwners.None? then [] else req.roleOwners.value;
      var userOwners := if req.userOwners.None? then [] else req.userOwners.value;
      var containerDn :- resolver.containerPathToDn(req.containerPath);
      var roleOwnerDns :- EncodeAll(resolver, roleOwners, "role");
      var userOwnerDns :- EncodeAll(resolver, userOwners, "person");
      var d := Desired(req, roleOwnerDns, userOwnerDns);
      var existing :- resolver.getUniqueObject(req.containerPath, req.name, "role");
      if existing.None? || force then
        if checkMode then Ok(Respond(true, []))
        else CreateDecision(containerDn, req.name, d)
      else Decide(existing.value, d, checkMode)
  }

  /** The lookups and comparisons of classification, description and owners. */
  method CompareGeneral(role: SoapObject, d: DesiredRole) returns (r: Result<GeneralDiffers>)
    ensures r == GeneralComparisons(role, d)
  {
    var existing := GetSoapAttribute(role, "erroleclassification");
    var classificationDiffers := CompareClassification(existing, d.classification);
    if classificationDiffers.Err? {
      return Err(classificationDiffers.error);
    }
    existing := GetSoapAttribute(role, "description");
    var descriptionDiffers := CompareDescription(existing, role.description, d.description);
    if descriptionDiffers.Err? {
      return Err(descriptionDiffers.error);
    }
    existing := GetSoapAttribute(role, "owner");
    var ownersDiffer := CompareList(existing, d.roleOwnerDns + d.userOwnerDns);
    return Ok(GeneralDiffers(classificationDiffers.value, descriptionDiffers.value, ownersDiffer));
  }

  /** The lookups and comparisons of the access settings. */
  method CompareAccess(role: SoapObject, d: DesiredRole) returns (r: Result<AccessDiffers>)
    ensures r == AccessComparisons(role.attributes, d)
  {
    var existing := GetSoapAttribute(role, "eraccessoption");
    var accessDiffers := CompareAccessOption(existing, d.enableAccess, d.commonAccess);
    if accessDiffers.Err? {
      return Err(accessDiffers.error);
    }
    existing := GetSoapAttribute(role, "erobjectprofilename");
    var accessTypeDiffers := CompareAccessType(existing, d.accessType);
    if accessTypeDiffers.Err? {
      return Err(accessTypeDiffers.error);
    }
    existing := GetSoapAttribute(role, "erimageuri");
    var imageUriDiffers := CompareText(existing, d.accessImageUri);
    if imageUriDiffers.Err? {
      return Err(imageUriDiffers.error);
    }
    existing := GetSoapAttribute(role, "eraccesstag");
    var searchTermsDiffer := CompareList(existing, d.accessSearchTerms);
    existing := GetSoapAttribute(role, "eradditionalinformation");
    var additionalInfoDiffers := CompareText(existing, d.accessAdditionalInfo);
    if additionalInfoDiffers.Err? {
      return Err(additionalInfoDiffers.error);
    }
    existing := GetSoapAttribute(role, "erbadge");
    var newBadges := EncodeBadges(d.accessBadges);
    var badgesDiffer := CompareList(existing, newBadges);
    existing := GetSoapAttribute(role, "erroleassignmentkey");
    var assignmentDiffers := CompareList(existing, d.assignmentAttributes);
    return Ok(AccessDiffers(accessDiffers.value, accessTypeDiffers.value, imageUriDiffers.value, searchTermsDiffer,
                            additionalInfoDiffers.value, badgesDiffer, assignmentDiffers));
  }

  /** The comparison block of `apply`: each value is set to None when it already matches. */
  method Compare(role: SoapObject, d: DesiredRole) returns (r: Result<RoleChanges>, modifyRequired: bool)
    ensures r == Diff(role, d)
    ensures r.Ok? ==> modifyRequired == Changed(r.value)
  {
    var general := CompareGeneral(role, d);
    if general.Err? {
      return Err(general.error), false;
    }
    var access := CompareAccess(role, d);
    if access.Err? {
      return Err(access.error), false;
    }
    var g, a := general.value, access.value;
    modifyRequired := g.classification || g.description || g.owners || a.accessOption || a.accessType
                      || a.imageUri || a.searchTerms || a.additionalInfo || a.badges || a.assignment;
    r := Ok(RoleChanges(
      SendIf(g.classification, d.classification), SendIf(g.description, d.description),
      SendIf(g.owners, d.roleOwnerDns), SendIf(g.owners, d.userOwnerDns),
      SendIf(a.accessOption, d.enableAccess), SendIf(a.accessOption, d.commonAccess),
      SendIf(a.accessType, d.accessType), SendIf(a.imageUri, d.accessImageUri),
      SendIf(a.searchTerms, d.accessSearchTerms), SendIf(a.additionalInfo, d.accessAdditionalInfo),
      SendIf(a.badges, d.accessBadges), SendIf(a.assignment, d.assignmentAttributes)));
  }

  /** `apply`: validate, fill in empties, resolve DNs, then create or compare. */
  method Apply(resolver: Resolver, req: RoleRequest, checkMode: bool, force: bool) returns (r: Result<Action>)
    ensures r == Decision(resolver, req, checkMode, force)
  {
    if !(req.containerPath != "" && req.name != "" && req.classification != "") {
      return Err(ValueError);
    }
    var roleOwners: seq<NamedEntry> := if req.roleOwners.None? then [] else req.roleOwners.value;
    var userOwners: seq<NamedEntry> := if req.userOwners.None? then [] else req.userOwners.value;

    var containerDn :- resolver.containerPathToDn(req.containerPath);
    var roleOwnerDns :- EncodeEach(resolver, roleOwners, "role");
    var userOwnerDns :- EncodeEach(resolver, userOwners, "person");
    var d := Desired(req, roleOwnerDns, userOwnerDns);

    var existingRole :- resolver.getUniqueObject(req.containerPath, req.name, "role");
    if existingRole.None? || force {
      if checkMode {
        return Ok(Respond(true, []));
      }
      var attributeList :- BuildAttributes(AllChanges(d));
      return Ok(Create(containerDn, [("name", req.name), ("description", d.description)], attributeList));
    }

    var role := existingRole.value;
    var changes, modifyRequired := Compare(role, d);
    if changes.Err? {
      return Err(changes.error);
    }
    if modifyRequired {
      if checkMode {
        return Ok(Respond(true, []));
      }
      var attributeList :- BuildAttributes(changes.value);
      return Ok(Modify(role.itimDN, attributeList));
    }
    return Ok(Respond(false, []));
  }

  // ---------------------------------------------------------------------
  // Properties
  // ---------------------------------------------------------------------

  /** An existing role is left alone exactly when every value is already in sync. */
  lemma NoChangeIffInSync(existing: SoapObject, d: DesiredRole, checkMode: bool)
    ensures Decide(existing, d, checkMode) == Ok(Respond(false, [])) <==> InSync(existing, d)
  {
  }

  /** A comparison that raises makes `apply` raise, in check mode too. */
  lemma IncomparableRaises(existing: SoapObject, d: DesiredRole, checkMode: bool)
    requires !Comparable(existing, d)
    ensures Decide(existing, d, checkMode).Err?
  {
  }

  /**
   * Without an access type a role cannot be created: '' is not one of the
   * four access types, and the builder raises ValueError.
   */
  lemma CreateWithoutAccessTypeRaises(containerDn: string, name: string, d: DesiredRole)
    requires d.accessType == ""
    ensures CreateDecision(containerDn, name, d) == Err(ValueError)
  {
    assert Lower("") == "";
  }

  /**
   * The server keeps a role's top-level description equal to the first value
   * of its description attribute, or '' when there is none.
   */
  predicate DescriptionMirrored(r: SoapObject) {
    match AttributeValues(r.attributes, "description")
    case None => r.description == ""
    case Some(vs) => vs != [] && vs[0].Str? && r.description == vs[0].s
  }

  /** A classification sent because it differed compares equal once stored. */
  lemma ClassificationSettles(existing: Option<seq<Value>>, classification: string)
    requires ClassificationDiffers(existing, classification).Ok?
    requires ClassificationField(SendIf(ClassificationDiffers(existing, classification).value, classification)).Ok?
    ensures ClassificationDiffers(After(existing, FieldEffect(
              ClassificationField(SendIf(ClassificationDiffers(existing, classification).value, classification)).value)),
              classification) == Ok(false)
  {
  }

  /** An access type sent because it differed compares equal once stored. */
  lemma AccessTypeSettles(existing: Option<seq<Value>>, accessType: string)
    requires AccessTypeDiffers(existing, accessType).Ok?
    requires AccessTypeField(SendIf(AccessTypeDiffers(existing, accessType).value, accessType)).Ok?
    ensures AccessTypeDiffers(After(existing, FieldEffect(
              AccessTypeField(SendIf(AccessTypeDiffers(existing, accessType).value, accessType)).value)),
              accessType) == Ok(false)
  {
  }

  /** An access option sent because it differed compares equal once stored. */
  lemma AccessOptionSettles(existing: Option<seq<Value>>, enableAccess: bool, commonAccess: bool)
    requires TextDiffersStrict(existing, RoleAccessCode(enableAccess, commonAccess)).Ok?
    ensures var differs := TextDiffersStrict(existing, RoleAccessCode(enableAccess, commonAccess)).value;
            TextDiffersStrict(After(existing, FieldEffect(AccessOptionField(SendIf(differs, enableAccess), SendIf(differs, commonAccess)))),
                              RoleAccessCode(enableAccess, commonAccess)) == Ok(false)
  {
  }

  /** Owners sent because they differed compare equal once stored. */
  lemma OwnersSettle(existing: Option<seq<Value>>, roleOwnerDns: seq<string>, userOwnerDns: seq<string>)
    ensures var differs := ListDiffers(existing, roleOwnerDns + userOwnerDns);
            !ListDiffers(After(existing, FieldEffect(OwnerField(SendIf(differs, roleOwnerDns), SendIf(differs, userOwnerDns)))),
                         roleOwnerDns + userOwnerDns)
  {
  }

  /**
   * A description sent because it differed compares equal once stored, when
   * the role's own description mirrors the attribute before and after.
   */
  lemma DescriptionSettles(existing: Option<seq<Value>>, after: Option<seq<Value>>,
                           roleDescription: string, afterDescription: string, description: string)
    requires DescriptionDiffers(existing, roleDescription, description).Ok?
    requires after == After(existing, FieldEffect(TextField("description",
                              SendIf(DescriptionDiffers(existing, roleDescription, description).value, description))))
    requires match existing case None => roleDescription == "" case Some(vs) => vs != [] && vs[0] == Str(roleDescription)
    requires match after case None => afterDescription == "" case Some(vs) => vs != [] && vs[0] == Str(afterDescription)
    ensures DescriptionDiffers(after, afterDescription, description) == Ok(false)
  {
  }

  /**
   * Once the server has applied the modification a run asked for (keeping
   * the description mirrored), a second run with the same desired role finds
   * nothing to change.
   */
  lemma SecondRunNoChange(existing: SoapObject, after: SoapObject, d: DesiredRole, dn: string, mods: seq<Attribute>)
    requires Decide(existing, d, false) == Ok(Modify(dn, mods))
    requires after.attributes == ApplyModifications(existing.attributes, mods)
    requires DescriptionMirrored(existing) && DescriptionMirrored(after)
    ensures InSync(after, d)
  {
    DecidedModification(existing, d, dn, mods);
    var m := Comparisons(existing, d).value;
    ModificationSettles(existing, after, d, m, mods);
  }

  /** Every field of the change list settles, so the role is in sync afterwards. */
  lemma ModificationSettles(existing: SoapObject, after: SoapObject, d: DesiredRole, m: Differs, mods: seq<Attribute>)
    requires Comparisons(existing, d) == Ok(m)
    requires var c := ChangesOf(m, d);
             ClassificationField(c.classification).Ok? && AccessTypeField(c.accessType).Ok?
             && mods == ChangeList(FieldList(c, ClassificationField(c.classification).value, AccessTypeField(c.accessType).value))
    requires after.attributes == ApplyModifications(existing.attributes, mods)
    requires DescriptionMirrored(existing) && DescriptionMirrored(after)
    ensures InSync(after, d)
  {
    var c := ChangesOf(m, d);
    var f := FieldList(c, ClassificationField(c.classification).value, AccessTypeField(c.accessType).value);
    FieldNamesDistinct(f);
    ComparisonsParts(existing, d, m);
    GeneralFieldsApplied(existing.attributes, f, c);
    SettlesGeneral(existing, after, d, m.general);
    AccessFieldsApplied(existing.attributes, f, c);
    SettlesAccess(existing.attributes, after.attributes, d, m.access);
    SettlesAccessDetails(existing.attributes, after.attributes, d, m.access);
  }

  /** The description, classification and owner fields of a change list each take effect. */
  lemma GeneralFieldsApplied(attrs: seq<Attribute>, f: seq<Field>, c: RoleChanges)
    requires ClassificationField(c.classification).Ok? && AccessTypeField(c.accessType).Ok?
    requires f == FieldList(c, ClassificationField(c.classification).value, AccessTypeField(c.accessType).value)
    requires DistinctNames(f)
    ensures var afterAttrs := ApplyModifications(attrs, ChangeList(f));
            && AttributeValues(afterAttrs, "description")
               == After(AttributeValues(attrs, "description"), FieldEffect(TextField("description", c.description)))
            && AttributeValues(afterAttrs, "erroleclassification")
               == After(AttributeValues(attrs, "erroleclassification"), FieldEffect(ClassificationField(c.classification).value))
            && AttributeValues(afterAttrs, "owner")
               == After(AttributeValues(attrs, "owner"), FieldEffect(OwnerField(c.roleOwnerDns, c.userOwnerDns)))
  {
    FieldAfterModifications(attrs, f, 0);
    FieldAfterModifications(attrs, f, 2);
    FieldAfterModifications(attrs, f, 3);
  }

  /** The access fields of a change list each take effect. */
  lemma AccessFieldsApplied(attrs: seq<Attribute>, f: seq<Field>, c: RoleChanges)
    requires ClassificationField(c.classification).Ok? && AccessTypeField(c.accessType).Ok?
    requires f == FieldList(c, ClassificationField(c.classification).value, AccessTypeField(c.accessType).value)
    requires DistinctNames(f)
    ensures var afterAttrs := ApplyModifications(attrs, ChangeList(f));
            && AttributeValues(afterAttrs, "eraccessoption")
               == After(AttributeValues(attrs, "eraccessoption"), FieldEffect(AccessOptionField(c.enableAccess, c.commonAccess)))
            && AttributeValues(afterAttrs, "erobjectprofilename")
               == After(AttributeValues(attrs, "erobjectprofilename"), FieldEffect(AccessTypeField(c.accessType).value))
            && AttributeValues(afterAttrs, "erimageuri")
               == After(AttributeValues(attrs, "erimageuri"), FieldEffect(TextField("erimageuri", c.accessImageUri)))
            && AttributeValues(afterAttrs, "eraccesstag")
               == After(AttributeValues(attrs, "eraccesstag"), FieldEffect(ListField("eraccesstag", c.accessSearchTerms)))
            && AttributeValues(afterAttrs, "eradditionalinformation")
               == After(AttributeValues(attrs, "eradditionalinformation"),
                        FieldEffect(TextField("eradditionalinformation", c.accessAdditionalInfo)))
            && AttributeValues(afterAttrs, "erbadge")
               == After(AttributeValues(attrs, "erbadge"), FieldEffect(BadgeField(c.accessBadges)))
            && AttributeValues(afterAttrs, "erroleassignmentkey")
               == After(AttributeValues(attrs, "erroleassignmentkey"),
                        FieldEffect(ListField("erroleassignmentkey", c.assignmentAttributes)))
  {
    FieldAfterModifications(attrs, f, 4);
    FieldAfterModifications(attrs, f, 5);
    FieldAfterModifications(attrs, f, 6);
    FieldAfterModifications(attrs, f, 7);
    FieldAfterModifications(attrs, f, 8);
    FieldAfterModifications(attrs, f, 9);
    FieldAfterModifications(attrs, f, 10);
  }

  /** Comparisons that succeed are made of a general and an access part that succeed. */
  lemma ComparisonsParts(existing: SoapObject, d: DesiredRole, m: Differs)
    requires Comparisons(existing, d) == Ok(m)
    ensures GeneralComparisons(existing, d) == Ok(m.general)
    ensures AccessComparisons(existing.attributes, d) == Ok(m.access)
  {
  }

  /** The modification decided for an existing role is the change list of its changes. */
  lemma DecidedModification(existing: SoapObject, d: DesiredRole, dn: string, mods: seq<Attribute>)
    requires Decide(existing, d, false) == Ok(Modify(dn, mods))
    ensures Comparisons(existing, d).Ok?
    ensures var c := ChangesOf(Comparisons(existing, d).value, d);
            ClassificationField(c.classification).Ok? && AccessTypeField(c.accessType).Ok?
            && mods == ChangeList(FieldList(c, ClassificationField(c.classification).value, AccessTypeField(c.accessType).value))
  {
  }

  /** Description, classification and owners settle once their fields are applied. */
  lemma SettlesGeneral(existing: SoapObject, after: SoapObject, d: DesiredRole, g: GeneralDiffers)
    requires GeneralComparisons(existing, d) == Ok(g)
    requires ClassificationField(SendIf(g.classification, d.classification)).Ok?
    requires var attrs, afterAttrs := existing.attributes, after.attributes;
             && AttributeValues(afterAttrs, "description")
                == After(AttributeValues(attrs, "description"), FieldEffect(TextField("description", SendIf(g.description, d.description))))
             && AttributeValues(afterAttrs, "erroleclassification")
                == After(AttributeValues(attrs, "erroleclassification"),
                         FieldEffect(ClassificationField(SendIf(g.classification, d.classification)).value))
             && AttributeValues(afterAttrs, "owner")
                == After(AttributeValues(attrs, "owner"), FieldEffect(OwnerField(SendIf(g.owners, d.roleOwnerDns), SendIf(g.owners, d.userOwnerDns))))
    requires DescriptionMirrored(existing) && DescriptionMirrored(after)
    ensures DescriptionDiffers(AttributeValues(after.attributes, "description"), after.description, d.description) == Ok(false)
    ensures ClassificationDiffers(AttributeValues(after.attributes, "erroleclassification"), d.classification) == Ok(false)
    ensures !ListDiffers(AttributeValues(after.attributes, "owner"), d.roleOwnerDns + d.userOwnerDns)
  {
    var attrs := existing.attributes;
    DescriptionSettles(AttributeValues(attrs, "description"), AttributeValues(after.attributes, "description"),
                       existing.description, after.description, d.description);
    ClassificationSettles(AttributeValues(attrs, "erroleclassification"), d.classification);
    OwnersSettle(AttributeValues(attrs, "owner"), d.roleOwnerDns, d.userOwnerDns);
  }

  /** The access option, access type and image settle once their fields are applied. */
  lemma SettlesAccess(attrs: seq<Attribute>, afterAttrs: seq<Attribute>, d: DesiredRole, a: AccessDiffers)
    requires AccessComparisons(attrs, d) == Ok(a)
    requires AccessTypeField(SendIf(a.accessType, d.accessType)).Ok?
    requires AttributeValues(afterAttrs, "eraccessoption")
             == After(AttributeValues(attrs, "eraccessoption"),
                      FieldEffect(AccessOptionField(SendIf(a.accessOption, d.enableAccess), SendIf(a.accessOption, d.commonAccess))))
    requires AttributeValues(afterAttrs, "erobjectprofilename")
             == After(AttributeValues(attrs, "erobjectprofilename"), FieldEffect(AccessTypeField(SendIf(a.accessType, d.accessType)).value))
    requires AttributeValues(afterAttrs, "erimageuri")
             == After(AttributeValues(attrs, "erimageuri"), FieldEffect(TextField("erimageuri", SendIf(a.imageUri, d.accessImageUri))))
    ensures TextDiffersStrict(AttributeValues(afterAttrs, "eraccessoption"), RoleAccessCode(d.enableAccess, d.commonAccess)) == Ok(false)
    ensures AccessTypeDiffers(AttributeValues(afterAttrs, "erobjectprofilename"), d.accessType) == Ok(false)
    ensures TextDiffers(AttributeValues(afterAttrs, "erimageuri"), d.accessImageUri) == Ok(false)
  {
    AccessOptionSettles(AttributeValues(attrs, "eraccessoption"), d.enableAccess, d.commonAccess);
    AccessTypeSettles(AttributeValues(attrs, "erobjectprofilename"), d.accessType);
    TextFieldSettles(AttributeValues(attrs, "erimageuri"), "erimageuri", d.accessImageUri);
  }

  /** Search terms, additional information, badges and assignment attributes settle once their fields are applied. */
  lemma SettlesAccessDetails(attrs: seq<Attribute>, afterAttrs: seq<Attribute>, d: DesiredRole, a: AccessDiffers)
    requires AccessComparisons(attrs, d) == Ok(a)
    requires AttributeValues(afterAttrs, "eraccesstag")
             == After(AttributeValues(attrs, "eraccesstag"), FieldEffect(ListField("eraccesstag", SendIf(a.searchTerms, d.accessSearchTerms))))
    requires AttributeValues(afterAttrs, "eradditionalinformation")
             == After(AttributeValues(attrs, "eradditionalinformation"),
                      FieldEffect(TextField("eradditionalinformation", SendIf(a.additionalInfo, d.accessAdditionalInfo))))
    requires AttributeValues(afterAttrs, "erbadge")
             == After(AttributeValues(attrs, "erbadge"), FieldEffect(BadgeField(SendIf(a.badges, d.accessBadges))))
    requires AttributeValues(afterAttrs, "erroleassignmentkey")
             == After(AttributeValues(attrs, "erroleassignmentkey"),
                      FieldEffect(ListField("erroleassignmentkey", SendIf(a.assignment, d.assignmentAttributes))))
    ensures !ListDiffers(AttributeValues(afterAttrs, "eraccesstag"), d.accessSearchTerms)
    ensures TextDiffers(AttributeValues(afterAttrs, "eradditionalinformation"), d.accessAdditionalInfo) == Ok(false)
    ensures !ListDiffers(AttributeValues(afterAttrs, "erbadge"), BadgeStrings(d.accessBadges))
    ensures !ListDiffers(AttributeValues(afterAttrs, "erroleassignmentkey"), d.assignmentAttributes)
  {
    ListFieldSettles(AttributeValues(attrs, "eraccesstag"), "eraccesstag", d.accessSearchTerms);
    TextFieldSettles(AttributeValues(attrs, "eradditionalinformation"), "eradditionalinformation", d.accessAdditionalInfo);
    ListFieldSettles(AttributeValues(attrs, "erbadge"), "erbadge", BadgeStrings(d.accessBadges));
    ListFieldSettles(AttributeValues(attrs, "erroleassignmentkey"), "erroleassignmentkey", d.assignmentAttributes);
  }
}
