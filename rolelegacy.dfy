/**
 * Static roles, as managed by the older role module: `apply` searches the
 * container for roles with the name, creates the role when there is none,
 * raises when there are several, and otherwise compares the one it found
 * value by value, modifying what differs. In this generation an attribute
 * the role does not have nearly always counts as different, attributes are
 * looked up by their exact name, the builder sends the access option as an
 * integer and every text value as a one-element list, and neither check mode
 * nor force is consulted.
 */
module RoleLegacy {
  import opened Common
  import opened Tools
  import opened Reconcile
  import Role

  // ---------------------------------------------------------------------
  // Requests
  // ---------------------------------------------------------------------

  /** The arguments of `apply`; None is an optional argument left out or passed as None. Owners are DNs. */
  datatype RoleRequest = RoleRequest(
    containerDn: string,
    name: string,
    classification: string,
    description: Option<string>,
    roleOwners: Option<seq<string>>,
    userOwners: Option<seq<string>>,
    enableAccess: Option<bool>,
    commonAccess: Option<bool>,
    accessType: Option<string>,
    accessImageUri: Option<string>,
    accessSearchTerms: Option<seq<string>>,
    accessAdditionalInfo: Option<string>,
    accessBadges: Option<seq<Badge>>,
    assignmentAttributes: Option<seq<string>>)

  predicate ValidRequest(req: RoleRequest) {
    req.containerDn != "" && req.name != "" && req.classification != ""
  }

  /** The request with every None replaced by an empty value. */
  function Desired(req: RoleRequest): Role.DesiredRole {
    Role.DesiredRole(
      req.classification,
      if req.description.None? then "" else req.description.value,
      if req.roleOwners.None? then [] else req.roleOwners.value,
      if req.userOwners.None? then [] else req.userOwners.value,
      if req.enableAccess.None? then false else req.enableAccess.value,
      if req.commonAccess.None? then false else req.commonAccess.value,
      if req.accessType.None? then "" else req.accessType.value,
      if req.accessImageUri.None? then "" else req.accessImageUri.value,
      if req.accessSearchTerms.None? then [] else req.accessSearchTerms.value,
      if req.accessAdditionalInfo.None? then "" else req.accessAdditionalInfo.value,
      if req.accessBadges.None? then [] else req.accessBadges.value,
      if req.assignmentAttributes.None? then [] else req.assignmentAttributes.value)
  }

  /** The filter `apply` searches the container with: roles whose name is exactly `name`. */
  function LookupFilter(name: string): (f: string)
    ensures StartsWith(f, "(errolename=") && EndsWith(f, ")")
    ensures |f| == |name| + 13 && f[12..|f| - 1] == name
  {
    "(errolename=" + name + ")"
  }

  // ---------------------------------------------------------------------
  // _get_role_attribute
  // ---------------------------------------------------------------------

  /** The values of the first attribute named exactly `key`, or None. */
  function RoleAttribute(attrs: seq<Attribute>, key: string): Option<seq<Value>>
    decreases |attrs|
  {
    if attrs == [] then None
    else if attrs[0].name == key then Some(attrs[0].values)
    else RoleAttribute(attrs[1..], key)
  }

  /** The lookup finds the first attribute with exactly that name, and nothing only when there is none. */
  lemma {:induction false} RoleAttributeFirstMatch(attrs: seq<Attribute>, key: string)
    ensures RoleAttribute(attrs, key).None? <==> forall i :: 0 <= i < |attrs| ==> attrs[i].name != key
    ensures RoleAttribute(attrs, key).Some? ==>
              exists i :: 0 <= i < |attrs| && attrs[i].name == key && RoleAttribute(attrs, key).value == attrs[i].values
                          && forall j :: 0 <= j < i ==> attrs[j].name != key
    decreases |attrs|
  {
    if attrs != [] && attrs[0].name != key {
      RoleAttributeFirstMatch(attrs[1..], key);
      assert forall i :: 1 <= i < |attrs| ==> attrs[i] == attrs[1..][i - 1];
      var r := RoleAttribute(attrs[1..], key);
      if r.Some? {
        var i :| 0 <= i < |attrs| - 1 && attrs[1..][i].name == key && r.value == attrs[1..][i].values
                  && forall j :: 0 <= j < i ==> attrs[1..][j].name != key;
        assert attrs[i + 1].name == key && forall j :: 0 <= j < i + 1 ==> attrs[j].name != key;
      }
    }
  }

  /** `_get_role_attribute`: a loop over the role's attributes that returns at the first exact match. */
  method GetRoleAttribute(role: SoapObject, key: string) returns (values: Option<seq<Value>>)
    ensures values == RoleAttribute(role.attributes, key)
  {
    var attributes := role.attributes;
    for i := 0 to |attributes|
      invariant RoleAttribute(attributes, key) == RoleAttribute(attributes[i..], key)
    {
      if attributes[i].name == key {
        return Some(attributes[i].values);
      }
      assert attributes[i..][1..] == attributes[i + 1..];
    }
    assert attributes[|attributes|..] == [];
    return None;
  }

  /** Every attribute name is already in lower case. */
  predicate LowerCaseNames(attrs: seq<Attribute>) {
    forall a :: a in attrs ==> Lower(a.name) == a.name
  }

  /** Where every name is in lower case, the exact lookup of a lower-case key agrees with `get_soap_attribute`. */
  lemma {:induction false} RoleAttributeAgrees(attrs: seq<Attribute>, key: string)
    requires LowerCaseNames(attrs) && Lower(key) == key
    ensures RoleAttribute(attrs, key) == AttributeValues(attrs, key)
    decreases |attrs|
  {
    if attrs != [] {
      assert attrs[0] in attrs;
      assert forall a :: a in attrs[1..] ==> a in attrs;
      RoleAttributeAgrees(attrs[1..], key);
    }
  }

  /** The lookup is case-sensitive: an attribute spelt `Description` is not found as `description`. */
  lemma CaseSensitiveLookup(vs: seq<Value>)
    ensures RoleAttribute([Attribute("Description", 0, false, vs)], "description") == None
    ensures AttributeValues([Attribute("Description", 0, false, vs)], "description") == Some(vs)
  {
    assert Lower("Description") == "description";
  }

  // ---------------------------------------------------------------------
  // The comparisons
  // ---------------------------------------------------------------------

  /** The attributes of an existing role that `apply` reads. */
  datatype Existing = Existing(
    classification: Option<seq<Value>>,
    description: Option<seq<Value>>,
    owners: Option<seq<Value>>,
    accessOption: Option<seq<Value>>,
    accessType: Option<seq<Value>>,
    imageUri: Option<seq<Value>>,
    searchTerms: Option<seq<Value>>,
    additionalInfo: Option<seq<Value>>,
    badges: Option<seq<Value>>,
    assignment: Option<seq<Value>>)

  /** The ten lookups of `apply`. */
  function Lookups(attrs: seq<Attribute>): Existing {
    Existing(
      RoleAttribute(attrs, "erroleclassification"), RoleAttribute(attrs, "description"), RoleAttribute(attrs, "owner"),
      RoleAttribute(attrs, "eraccessoption"), RoleAttribute(attrs, "erobjectprofilename"), RoleAttribute(attrs, "erimageuri"),
      RoleAttribute(attrs, "eraccesstag"), RoleAttribute(attrs, "eradditionalinformation"), RoleAttribute(attrs, "erbadge"),
      RoleAttribute(attrs, "erroleassignmentkey"))
  }

  /** The description check: an absent attribute always differs. */
  function DescriptionDiffers(existing: Option<seq<Value>>, roleDescription: string, description: string): Result<bool> {
    if existing.None? then Ok(true) else Role.DescriptionDiffers(existing, roleDescription, description)
  }

  /** The access type check: an absent attribute always differs; for a present one an unknown type raises. */
  function AccessTypeDiffers(existing: Option<seq<Value>>, accessType: string): Result<bool> {
    if existing.None? then Ok(true) else Reconcile.AccessTypeDiffers(existing, accessType)
  }

  /**
   * Against the newer module, the only disagreements are on an absent
   * attribute with an empty desired value: this generation then modifies,
   * the newer one leaves it alone.
   */
  lemma StricterThanNewer(existing: Option<seq<Value>>, roleDescription: string, description: string,
                          accessType: string, xs: seq<string>)
    ensures (DescriptionDiffers(existing, roleDescription, description)
             != Role.DescriptionDiffers(existing, roleDescription, description)) <==> existing.None? && description == ""
    ensures (AccessTypeDiffers(existing, accessType) != Reconcile.AccessTypeDiffers(existing, accessType))
            <==> existing.None? && accessType == ""
    ensures (ListDiffersStrict(existing, xs) != ListDiffers(existing, xs)) <==> existing.None? && xs == []
  {
  }

  /** Classification, description and owners, in that order; the first failing comparison raises. */
  function GeneralComparisons(e: Existing, roleDescription: string, d: Role.DesiredRole): Result<Role.GeneralDiffers> {
    var classification := ClassificationDiffers(e.classification, d.classification);
    var description := DescriptionDiffers(e.description, roleDescription, d.description);
    if classification.Err? then Err(classification.error)
    else if description.Err? then Err(description.error)
    else Ok(Role.GeneralDiffers(classification.value, description.value,
                                ListDiffersStrict(e.owners, d.roleOwnerDns + d.userOwnerDns)))
  }

  /** The access settings, in order; a bad access type or a present attribute with no values raises. */
  function AccessComparisons(e: Existing, d: Role.DesiredRole): Result<Role.AccessDiffers> {
    var accessOption := TextDiffersStrict(e.accessOption, RoleAccessCode(d.enableAccess, d.commonAccess));
    var accessType := AccessTypeDiffers(e.accessType, d.accessType);
    var imageUri := TextDiffers(e.imageUri, d.accessImageUri);
    var additionalInfo := TextDiffersStrict(e.additionalInfo, d.accessAdditionalInfo);
    if accessOption.Err? then Err(accessOption.error)
    else if accessType.Err? then Err(accessType.error)
    else if imageUri.Err? then Err(imageUri.error)
    else if additionalInfo.Err? then Err(additionalInfo.error)
    else Ok(Role.AccessDiffers(
      accessOption.value, accessType.value, imageUri.value, ListDiffersStrict(e.searchTerms, d.accessSearchTerms),
      additionalInfo.value, ListDiffersStrict(e.badges, BadgeStrings(d.accessBadges)),
      ListDiffersStrict(e.assignment, d.assignmentAttributes)))
  }

  /** Every comparison with an existing role, in the order `apply` makes them. */
  function Comparisons(e: Existing, roleDescription: string, d: Role.DesiredRole): Result<Role.Differs> {
    var general := GeneralComparisons(e, roleDescription, d);
    var access := AccessComparisons(e, d);
    if general.Err? then Err(general.error)
    else if access.Err? then Err(access.error)
    else Ok(Role.Differs(general.value, access.value))
  }

  /** The comparison with an existing role: the values to send, or the first comparison's error. */
  function Diff(existing: SoapObject, d: Role.DesiredRole): Result<Role.RoleChanges> {
    var m := Comparisons(Lookups(existing.attributes), existing.description, d);
    if m.Err? then Err(m.error) else Ok(Role.ChangesOf(m.value, d))
  }

  /** The existing role already has every desired value. */
  predicate InSync(existing: SoapObject, d: Role.DesiredRole) {
    var e := Lookups(existing.attributes);
    ClassificationDiffers(e.classification, d.classification) == Ok(false)
    && DescriptionDiffers(e.description, existing.description, d.description) == Ok(false)
    && !ListDiffersStrict(e.owners, d.roleOwnerDns + d.userOwnerDns)
    && TextDiffersStrict(e.accessOption, RoleAccessCode(d.enableAccess, d.commonAccess)) == Ok(false)
    && AccessTypeDiffers(e.accessType, d.accessType) == Ok(false)
    && TextDiffers(e.imageUri, d.accessImageUri) == Ok(false)
    && !ListDiffersStrict(e.searchTerms, d.accessSearchTerms)
    && TextDiffersStrict(e.additionalInfo, d.accessAdditionalInfo) == Ok(false)
    && !ListDiffersStrict(e.badges, BadgeStrings(d.accessBadges))
    && !ListDiffersStrict(e.assignment, d.assignmentAttributes)
  }

  // ---------------------------------------------------------------------
  // _build_role_attributes_list
  // ---------------------------------------------------------------------

  /** A text value as this builder sends it: None is omitted; any string, '' included, becomes a one-element list. */
  function ValueField(name: string, v: Option<string>): (f: Field)
    ensures f.name == name
    ensures f.values.None? <==> v.None?
    ensures v.Some? ==> f.values == Some([Str(v.value)])
  {
    Field(name, if v.None? then None else Some([Str(v.value)]))
  }

  /**
   * The access option this builder sends, as an integer: 1 disabled, 2
   * enabled, 3 enabled and common; it is sent exactly when the newer
   * module sends its code, and its decimal text is that code.
   */
  function AccessOptionNumber(enableAccess: Option<bool>, commonAccess: Option<bool>): (r: Option<nat>)
    ensures r.Some? <==> Role.AccessOptionCode(enableAccess, commonAccess).Some?
    ensures r.Some? ==> 1 <= r.value <= 3 && Role.AccessOptionCode(enableAccess, commonAccess) == Some(DecimalText(r.value))
  {
    if enableAccess.None? then None
    else if !enableAccess.value then Some(1)
    else if commonAccess == Some(false) then Some(2)
    else if commonAccess == Some(true) then Some(3)
    else None
  }

  /** The access option field: the integer, when there is one. */
  function AccessOptionField(enableAccess: Option<bool>, commonAccess: Option<bool>): Field {
    var n := AccessOptionNumber(enableAccess, commonAccess);
    Field("eraccessoption", if n.None? then None else Some([Int(n.value)]))
  }

  /** The attributes this builder can send, in its order. */
  const FieldNames: seq<string> := ["description", "erroleclassification", "owner", "eraccessoption",
    "eraccessdescription", "erobjectprofilename", "erimageuri", "eraccesstag", "eradditionalinformation", "erbadge",
    "erroleassignmentkey"]

  /** The fields in builder order, given the two fields that can raise. */
  function FieldList(c: Role.RoleChanges, classificationField: Field, accessTypeField: Field): (fields: seq<Field>)
    requires classificationField.name == "erroleclassification" && accessTypeField.name == "erobjectprofilename"
    ensures |fields| == |FieldNames| && forall j :: 0 <= j < |fields| ==> fields[j].name == FieldNames[j]
  {
    [ValueField("description", c.description),
     classificationField,
     Role.OwnerField(c.roleOwnerDns, c.userOwnerDns),
     AccessOptionField(c.enableAccess, c.commonAccess),
     ValueField("eraccessdescription", c.description),
     accessTypeField,
     ValueField("erimageuri", c.accessImageUri),
     ListField("eraccesstag", c.accessSearchTerms),
     ValueField("eradditionalinformation", c.accessAdditionalInfo),
     Role.BadgeField(c.accessBadges),
     ListField("erroleassignmentkey", c.assignmentAttributes)]
  }

  /** The fields of a change list; the classification is checked before the access type. */
  function Fields(c: Role.RoleChanges): (r: Result<seq<Field>>)
    ensures r.Err? <==> Role.ClassificationField(c.classification).Err? || Role.AccessTypeField(c.accessType).Err?
    ensures r.Err? ==> r.error == ValueError
  {
    var classificationField := Role.ClassificationField(c.classification);
    var accessTypeField := Role.AccessTypeField(c.accessType);
    if classificationField.Err? then Err(classificationField.error)
    else if accessTypeField.Err? then Err(accessTypeField.error)
    else Ok(FieldList(c, classificationField.value, accessTypeField.value))
  }

  /** The change list for a role. */
  function Attributes(c: Role.RoleChanges): Result<seq<Attribute>> {
    var fields := Fields(c);
    if fields.Err? then Err(fields.error) else Ok(ChangeList(fields.value))
  }

  /**
   * A description that is sent, even '', goes as the one-element list
   * [description] to both `description` and `eraccessdescription`, where the
   * newer module clears both for ''.
   */
  lemma DescriptionSentTwice(c: Role.RoleChanges, classificationField: Field, accessTypeField: Field)
    requires classificationField.name == "erroleclassification" && accessTypeField.name == "erobjectprofilename"
    requires c.description.Some?
    ensures var f := FieldList(c, classificationField, accessTypeField);
            f[0] == Field("description", Some([Str(c.description.value)]))
            && f[4] == Field("eraccessdescription", Some([Str(c.description.value)]))
    ensures c.description == Some("") ==> Role.FieldList(c, classificationField, accessTypeField)[0].values == Some([])
  {
  }

  /** The eleven attribute names differ even when case is ignored. */
  lemma FieldNamesDifferIgnoringCase()
    ensures forall j, k :: 0 <= j < k < |FieldNames| ==> Lower(FieldNames[j]) != Lower(FieldNames[k])
  {
    forall j, k | 0 <= j < k < |FieldNames| ensures Lower(FieldNames[j]) != Lower(FieldNames[k]) {
      if |FieldNames[j]| == |FieldNames[k]| {
        assert Lower(FieldNames[j])[0] != Lower(FieldNames[k])[0] || Lower(FieldNames[j])[2] != Lower(FieldNames[k])[2];
      }
    }
  }

  /** Fields named as the builder names them have distinct names, ignoring case. */
  lemma FieldNamesDistinct(fields: seq<Field>)
    requires |fields| == |FieldNames| && forall j :: 0 <= j < |fields| ==> fields[j].name == FieldNames[j]
    ensures DistinctNames(fields)
  {
    FieldNamesDifferIgnoringCase();
  }

  /** A value field, appended. */
  method AppendValueField(attributeList: seq<Attribute>, name: string, v: Option<string>) returns (r: seq<Attribute>)
    ensures r == attributeList + Emit(ValueField(name, v))
  {
    r := attributeList;
    if v.Some? {
      r := r + [BuildAttribute(name, [Str(v.value)])];
    }
  }

  /** The access option block of the builder: integers 1, 2 or 3. */
  method AppendAccessOption(attributeList: seq<Attribute>, enableAccess: Option<bool>, commonAccess: Option<bool>)
    returns (r: seq<Attribute>)
    ensures r == attributeList + Emit(AccessOptionField(enableAccess, commonAccess))
  {
    r := attributeList;
    if enableAccess.Some? {
      if !enableAccess.value {
        r := r + [BuildAttribute("eraccessoption", [Int(1)])];
      } else if commonAccess == Some(false) {
        r := r + [BuildAttribute("eraccessoption", [Int(2)])];
      } else if commonAccess == Some(true) {
        r := r + [BuildAttribute("eraccessoption", [Int(3)])];
      }
    }
  }

  /** The change list of a role's fields, one term per builder step. */
  lemma ChangeListWrittenOut(c: Role.RoleChanges, classificationField: Field, accessTypeField: Field)
    requires classificationField.name == "erroleclassification" && accessTypeField.name == "erobjectprofilename"
    ensures ChangeList(FieldList(c, classificationField, accessTypeField))
      == [] + Emit(ValueField("description", c.description)) + Emit(classificationField)
         + Emit(Role.OwnerField(c.roleOwnerDns, c.userOwnerDns)) + Emit(AccessOptionField(c.enableAccess, c.commonAccess))
         + Emit(ValueField("eraccessdescription", c.description)) + Emit(accessTypeField)
         + Emit(ValueField("erimageuri", c.accessImageUri)) + Emit(ListField("eraccesstag", c.accessSearchTerms))
         + Emit(ValueField("eradditionalinformation", c.accessAdditionalInfo)) + Emit(Role.BadgeField(c.accessBadges))
         + Emit(ListField("erroleassignmentkey", c.assignmentAttributes))
  {
    ChangeListOfEleven(FieldList(c, classificationField, accessTypeField));
  }

  /** `_build_role_attributes_list`: one append per value that is not None, in builder order. */
  method BuildAttributes(c: Role.RoleChanges) returns (r: Result<seq<Attribute>>)
    ensures r == Attributes(c)
  {
    var attributeList := AppendValueField([], "description", c.description);
    attributeList :- Role.AppendClassification(attributeList, c.classification);
    attributeList := Role.AppendOwners(attributeList, c.roleOwnerDns, c.userOwnerDns);
    attributeList := AppendAccessOption(attributeList, c.enableAccess, c.commonAccess);
    attributeList := AppendValueField(attributeList, "eraccessdescription", c.description);
    attributeList :- Role.AppendAccessType(attributeList, c.accessType);
    attributeList := AppendValueField(attributeList, "erimageuri", c.accessImageUri);
    attributeList := AppendListField(attributeList, "eraccesstag", c.accessSearchTerms);
    attributeList := AppendValueField(attributeList, "eradditionalinformation", c.accessAdditionalInfo);
    ghost var beforeBadges := attributeList;
    if c.accessBadges.Some? {
      var badges := EncodeBadges(c.accessBadges.value);
      attributeList := attributeList + [BuildAttribute("erbadge", Strs(badges))];
    }
    assert attributeList == beforeBadges + Emit(Role.BadgeField(c.accessBadges));
    attributeList := AppendListField(attributeList, "erroleassignmentkey", c.assignmentAttributes);
    ChangeListWrittenOut(c, Role.ClassificationField(c.classification).value, Role.AccessTypeField(c.accessType).value);
    return Ok(attributeList);
  }

  // ---------------------------------------------------------------------
  // apply
  // ---------------------------------------------------------------------

  /** What `apply` does with the one role the search found. */
  function Decide(existing: SoapObject, d: Role.DesiredRole): Result<Action> {
    var c := Diff(existing, d);
    if c.Err? then Err(c.error)
    else if !Role.Changed(c.value) then Ok(Respond(false, []))
    else
      var attrs := Attributes(c.value);
      if attrs.Err? then Err(attrs.error) else Ok(Modify(existing.itimDN, attrs.value))
  }

  /** `_create`: the role's name and description with every value sent, under the container. */
  function CreateDecision(containerDn: string, name: string, d: Role.DesiredRole): (r: Result<Action>)
    ensures r.Err? <==> RoleClassification(d.classification).None? || AccessCategory(d.accessType).None?
    ensures r.Err? ==> r.error == ValueError
    ensures r.Ok? ==> r.value.Create? && r.value.parent == containerDn
                      && r.value.fields == [("name", name), ("description", d.description)]
  {
    var attrs := Attributes(Role.AllChanges(d));
    if attrs.Err? then Err(attrs.error) else Ok(Create(containerDn, [("name", name), ("description", d.description)], attrs.value))
  }

  /**
   * The search response `apply` acts on: roles with the name, in the
   * container, or the IBMError or IBMFatal the search raises.
   */
  function LookupResponse(search: Role.RoleSearch -> Result<SearchResponse>, req: RoleRequest): Result<SearchResponse> {
    search(Role.Search(Some(req.containerDn), LookupFilter(req.name)))
  }

  /**
   * `apply`, as a function of the search answer: a search that raises makes
   * the call raise, a response with a nonzero rc is passed back, no role
   * means create, one role is compared, several raise.
   */
  function Decision(search: Role.RoleSearch -> Result<SearchResponse>, req: RoleRequest): (r: Result<Action>)
    ensures !ValidRequest(req) ==> r == Err(ValueError)
    ensures ValidRequest(req) && LookupResponse(search, req).Err? ==> r == Err(LookupResponse(search, req).error)
    ensures r.Ok? && r.value.Forward? ==> LookupResponse(search, req).Ok? && r.value.rc == LookupResponse(search, req).value.rc != 0
    ensures r.Ok? && r.value.Create? ==> LookupResponse(search, req).Ok? && LookupResponse(search, req).value.results == []
                                         && r.value.parent == req.containerDn
    ensures r.Ok? && r.value.Modify? ==> LookupResponse(search, req).Ok? && |LookupResponse(search, req).value.results| == 1
                                         && r.value.dn == LookupResponse(search, req).value.results[0].itimDN
    ensures ValidRequest(req) && LookupResponse(search, req).Ok? && LookupResponse(search, req).value.rc == 0
            && |LookupResponse(search, req).value.results| > 1
            ==> r == Err(ValueError)
  {
    if !ValidRequest(req) then Err(ValueError)
    else
      var d := Desired(req);
      var looked := LookupResponse(search, req);
      if looked.Err? then Err(looked.error)
      else
        var response := looked.value;
        if response.rc != 0 then Ok(Forward(response.rc))
        else if |response.results| == 0 then CreateDecision(req.containerDn, req.name, d)
        else if |response.results| == 1 then Decide(response.results[0], d)
        else Err(ValueError)
  }

  /** The description check of `apply`. */
  method CompareDescription(existing: Option<seq<Value>>, roleDescription: string, description: string) returns (r: Result<bool>)
    ensures r == DescriptionDiffers(existing, roleDescription, description)
  {
    if existing.None? {
      return Ok(true);
    }
    r := Role.CompareDescription(existing, roleDescription, description);
  }

  /** The access type check of `apply`. */
  method CompareAccessType(existing: Option<seq<Value>>, accessType: string) returns (r: Result<bool>)
    ensures r == AccessTypeDiffers(existing, accessType)
  {
    if existing.None? {
      return Ok(true);
    }
    r := Reconcile.CompareAccessType(existing, accessType);
  }

  /** The lookups and comparisons of classification, description and owners. */
  method CompareGeneral(role: SoapObject, d: Role.DesiredRole) returns (r: Result<Role.GeneralDiffers>)
    ensures r == GeneralComparisons(Lookups(role.attributes), role.description, d)
  {
    ghost var e := Lookups(role.attributes);
    var existing := GetRoleAttribute(role, "erroleclassification");
    assert existing == e.classification;
    var classificationDiffers := Role.CompareClassification(existing, d.classification);
    if classificationDiffers.Err? {
      return Err(classificationDiffers.error);
    }
    existing := GetRoleAttribute(role, "description");
    assert existing == e.description;
    var descriptionDiffers := CompareDescription(existing, role.description, d.description);
    if descriptionDiffers.Err? {
      return Err(descriptionDiffers.error);
    }
    existing := GetRoleAttribute(role, "owner");
    assert existing == e.owners;
    var ownersDiffer := CompareListStrict(existing, d.roleOwnerDns + d.userOwnerDns);
    return Ok(Role.GeneralDiffers(classificationDiffers.value, descriptionDiffers.value, ownersDiffer));
  }

  /** The lookups and comparisons of the access settings. */
  method CompareAccess(role: SoapObject, d: Role.DesiredRole) returns (r: Result<Role.AccessDiffers>)
    ensures r == AccessComparisons(Lookups(role.attributes), d)
  {
    ghost var e := Lookups(role.attributes);
    var existing := GetRoleAttribute(role, "eraccessoption");
    assert existing == e.accessOption;
    var accessDiffers := Role.CompareAccessOption(existing, d.enableAccess, d.commonAccess);
    if accessDiffers.Err? {
      return Err(accessDiffers.error);
    }
    existing := GetRoleAttribute(role, "erobjectprofilename");
    assert existing == e.accessType;
    var accessTypeDiffers := CompareAccessType(existing, d.accessType);
    if accessTypeDiffers.Err? {
      return Err(accessTypeDiffers.error);
    }
    existing := GetRoleAttribute(role, "erimageuri");
    assert existing == e.imageUri;
    var imageUriDiffers := CompareText(existing, d.accessImageUri);
    if imageUriDiffers.Err? {
      return Err(imageUriDiffers.error);
    }
    existing := GetRoleAttribute(role, "eraccesstag");
    assert existing == e.searchTerms;
    var searchTermsDiffer := CompareListStrict(existing, d.accessSearchTerms);
    existing := GetRoleAttribute(role, "eradditionalinformation");
    assert existing == e.additionalInfo;
    var additionalInfoDiffers := CompareTextStrict(existing, d.accessAdditionalInfo);
    if additionalInfoDiffers.Err? {
      return Err(additionalInfoDiffers.error);
    }
    existing := GetRoleAttribute(role, "erbadge");
    assert existing == e.badges;
    var newBadges := EncodeBadges(d.accessBadges);
    var badgesDiffer := CompareListStrict(existing, newBadges);
    existing := GetRoleAttribute(role, "erroleassignmentkey");
    assert existing == e.assignment;
    var assignmentDiffers := CompareListStrict(existing, d.assignmentAttributes);
    return Ok(Role.AccessDiffers(accessDiffers.value, accessTypeDiffers.value, imageUriDiffers.value, searchTermsDiffer,
                                 additionalInfoDiffers.value, badgesDiffer, assignmentDiffers));
  }

  /** The comparison block of `apply`: each value is set to None when it already matches. */
  method Compare(role: SoapObject, d: Role.DesiredRole) returns (r: Result<Role.RoleChanges>, modifyRequired: bool)
    ensures r == Diff(role, d)
    ensures r.Ok? ==> modifyRequired == Role.Changed(r.value)
  {
    var general := CompareGeneral(role, d);
    if general.Err? {
      return Err(general.error), false;
    }
    var access := CompareAccess(role, d);
    if access.Err? {
      return Err(access.error), false;
    }
    var g, a := general.value, access.value;
    modifyRequired := g.classification || g.description || g.owners || a.accessOption || a.accessType
                      || a.imageUri || a.searchTerms || a.additionalInfo || a.badges || a.assignment;
    r := Ok(Role.RoleChanges(
      SendIf(g.classification, d.classification), SendIf(g.description, d.description),
      SendIf(g.owners, d.roleOwnerDns), SendIf(g.owners, d.userOwnerDns),
      SendIf(a.accessOption, d.enableAccess), SendIf(a.accessOption, d.commonAccess),
      SendIf(a.accessType, d.accessType), SendIf(a.imageUri, d.accessImageUri),
      SendIf(a.searchTerms, d.accessSearchTerms), SendIf(a.additionalInfo, d.accessAdditionalInfo),
      SendIf(a.badges, d.accessBadges), SendIf(a.assignment, d.assignmentAttributes)));
  }

  /** `apply`: validate, fill in empties, search the container, then create, compare or raise. */
  method Apply(search: Role.RoleSearch -> Result<SearchResponse>, req: RoleRequest) returns (r: Result<Action>)
    ensures r == Decision(search, req)
  {
    if !(req.containerDn != "" && req.name != "" && req.classification != "") {
      return Err(ValueError);
    }
    var d := Desired(req);
    var response :- search(Role.SearchForRolesInContainer(req.containerDn, "(errolename=" + req.name + ")"));
    if response.rc != 0 {
      return Ok(Forward(response.rc));
    }
    if |response.results| == 0 {
      var attributeList :- BuildAttributes(Role.AllChanges(d));
      return Ok(Create(req.containerDn, [("name", req.name), ("description", d.description)], attributeList));
    } else if |response.results| == 1 {
      var role := response.results[0];
      var changes, modifyRequired := Compare(role, d);
      if changes.Err? {
        return Err(changes.error);
      }
      if modifyRequired {
        var attributeList :- BuildAttributes(changes.value);
        return Ok(Modify(role.itimDN, attributeList));
      }
      return Ok(Respond(false, []));
    }
    return Err(ValueError);
  }

  // ---------------------------------------------------------------------
  // Properties
  // ---------------------------------------------------------------------

  /** An existing role is left alone exactly when every value is already in sync. */
  lemma NoChangeIffInSync(existing: SoapObject, d: Role.DesiredRole)
    ensures Decide(existing, d) == Ok(Respond(false, [])) <==> InSync(existing, d)
  {
  }

  /**
   * A role without a description, owners, search terms, badges or
   * assignment keys is always modified (or the call raises), even when the
   * desired value is empty.
   */
  lemma AbsentForcesModify(existing: SoapObject, d: Role.DesiredRole)
    requires var e := Lookups(existing.attributes);
             e.description.None? || e.owners.None? || e.searchTerms.None? || e.badges.None? || e.assignment.None?
    ensures Decide(existing, d) != Ok(Respond(false, []))
  {
  }

  /**
   * Without an access type, `apply` raises unless the search passes back a
   * nonzero rc: a search that raises is passed on, creating sends '' as the
   * access type, an existing role with the attribute rejects '' in the
   * comparison, and one without it sends ''.
   */
  lemma EmptyAccessTypeRaises(search: Role.RoleSearch -> Result<SearchResponse>, req: RoleRequest)
    requires ValidRequest(req) && (req.accessType.None? || req.accessType == Some(""))
    requires LookupResponse(search, req).Ok? ==> LookupResponse(search, req).value.rc == 0
    ensures Decision(search, req).Err?
  {
    var d := Desired(req);
    assert Lower("") == "";
    if LookupResponse(search, req).Err? {
      return;
    }
    var results := LookupResponse(search, req).value.results;
    if |results| == 1 {
      EmptyAccessTypeDecideRaises(results[0], d);
    }
  }

  /** The comparison of one role with an empty access type raises, or the modification it asks for does. */
  lemma EmptyAccessTypeDecideRaises(existing: SoapObject, d: Role.DesiredRole)
    requires d.accessType == ""
    ensures Decide(existing, d).Err?
  {
    assert Lower("") == "";
    var m := Comparisons(Lookups(existing.attributes), existing.description, d);
    if m.Ok? {
      assert AccessComparisons(Lookups(existing.attributes), d).Ok?;
      assert m.value.access.accessType;
    }
  }

  // ---------------------------------------------------------------------
  // Second runs
  // ---------------------------------------------------------------------

  /** The text the server stores for an integer value. */
  function IntText(i: int): string {
    if i < 0 then "-" + DecimalText(-i) else DecimalText(i)
  }

  /** The server stores integers as their decimal text; other values as they are. */
  function StoredValue(v: Value): Value {
    if v.Int? then Str(IntText(v.i)) else v
  }

  function StoredValues(vs: seq<Value>): (r: seq<Value>)
    ensures |r| == |vs| && forall k :: 0 <= k < |vs| ==> r[k] == StoredValue(vs[k])
  {
    seq(|vs|, k requires 0 <= k < |vs| => StoredValue(vs[k]))
  }

  /** A change list as the server stores it. */
  function AsStored(mods: seq<Attribute>): (r: seq<Attribute>)
    ensures |r| == |mods|
    decreases |mods|
  {
    if mods == [] then []
    else [Attribute(mods[0].name, mods[0].operation, mods[0].isEncoded, StoredValues(mods[0].values))] + AsStored(mods[1..])
  }

  /** A field as the server stores it. */
  function StoredField(f: Field): (r: Field)
    ensures r.name == f.name && (r.values.None? <==> f.values.None?)
  {
    Field(f.name, if f.values.None? then None else Some(StoredValues(f.values.value)))
  }

  function StoredFields(fields: seq<Field>): (r: seq<Field>)
    ensures |r| == |fields| && forall j :: 0 <= j < |fields| ==> r[j] == StoredField(fields[j])
    decreases |fields|
  {
    if fields == [] then [] else [StoredField(fields[0])] + StoredFields(fields[1..])
  }

  lemma {:induction false} AsStoredConcat(xs: seq<Attribute>, ys: seq<Attribute>)
    ensures AsStored(xs + ys) == AsStored(xs) + AsStored(ys)
    decreases |xs|
  {
    if xs == [] {
      assert xs + ys == ys;
    } else {
      assert (xs + ys)[1..] == xs[1..] + ys;
      AsStoredConcat(xs[1..], ys);
    }
  }

  /** Storing a change list is storing each of its fields. */
  lemma {:induction false} AsStoredChangeList(fields: seq<Field>)
    ensures AsStored(ChangeList(fields)) == ChangeList(StoredFields(fields))
    decreases |fields|
  {
    if fields != [] {
      AsStoredChangeList(fields[1..]);
      AsStoredConcat(Emit(fields[0]), ChangeList(fields[1..]));
      assert StoredFields(fields)[1..] == StoredFields(fields[1..]);
    }
  }

  /** A field whose values are all strings is stored unchanged. */
  predicate StringValued(f: Field) {
    f.values.Some? ==> forall k :: 0 <= k < |f.values.value| ==> f.values.value[k].Str?
  }

  lemma StoredStringField(f: Field)
    requires StringValued(f)
    ensures StoredField(f) == f
  {
    if f.values.Some? {
      assert StoredValues(f.values.value) == f.values.value;
    }
  }

  /** The change list's names are the fields' names. */
  lemma {:induction false} ChangeListNames(fields: seq<Field>)
    requires forall j :: 0 <= j < |fields| ==> Lower(fields[j].name) == fields[j].name
    ensures LowerCaseNames(ChangeList(fields))
    decreases |fields|
  {
    if fields != [] {
      ChangeListNames(fields[1..]);
    }
  }

  /** The attributes left after removing a name are attributes that were there. */
  lemma {:induction false} WithoutKeeps(attrs: seq<Attribute>, name: string)
    ensures forall a :: a in Without(attrs, name) ==> a in attrs
    decreases |attrs|
  {
    if attrs != [] {
      WithoutKeeps(attrs[1..], name);
    }
  }

  /** Applying changes named in lower case keeps every name in lower case. */
  lemma {:induction false} LowerCaseNamesKept(attrs: seq<Attribute>, mods: seq<Attribute>)
    requires LowerCaseNames(attrs) && LowerCaseNames(mods)
    ensures LowerCaseNames(ApplyModifications(attrs, mods))
    decreases |mods|
  {
    if mods != [] {
      WithoutKeeps(attrs, mods[0].name);
      assert mods[0] in mods;
      assert forall a :: a in mods[1..] ==> a in mods;
      LowerCaseNamesKept(Replace(attrs, mods[0]), mods[1..]);
    }
  }

  /** A string without capital letters is its own lower case. */
  lemma LowerOfLowerCase(s: string)
    requires forall k :: 0 <= k < |s| ==> !('A' <= s[k] <= 'Z')
    ensures Lower(s) == s
  {
  }

  lemma FieldNamesLowerCase()
    ensures forall j :: 0 <= j < |FieldNames| ==> Lower(FieldNames[j]) == FieldNames[j]
  {
    forall j | 0 <= j < |FieldNames| ensures Lower(FieldNames[j]) == FieldNames[j] {
      LowerOfLowerCase(FieldNames[j]);
    }
  }

  /**
   * After the server stores a change list of the builder's fields, each
   * field's attribute holds what the stored field says, or what it held
   * before, for the exact lookup too.
   */
  lemma StoredFieldApplied(attrs: seq<Attribute>, f: seq<Field>, i: int)
    requires LowerCaseNames(attrs)
    requires |f| == |FieldNames| && forall j :: 0 <= j < |f| ==> f[j].name == FieldNames[j]
    requires 0 <= i < |f|
    ensures RoleAttribute(ApplyModifications(attrs, AsStored(ChangeList(f))), f[i].name)
            == After(RoleAttribute(attrs, f[i].name), FieldEffect(StoredField(f[i])))
  {
    var sf := StoredFields(f);
    AsStoredChangeList(f);
    FieldNamesDistinct(sf);
    FieldAfterModifications(attrs, sf, i);
    FieldNamesLowerCase();
    ChangeListNames(sf);
    LowerCaseNamesKept(attrs, ChangeList(sf));
    RoleAttributeAgrees(attrs, f[i].name);
    RoleAttributeAgrees(ApplyModifications(attrs, ChangeList(sf)), f[i].name);
  }

  /** A field whose values are all text is stored as sent. */
  lemma StringFieldApplied(attrs: seq<Attribute>, f: seq<Field>, i: int, field: Field)
    requires LowerCaseNames(attrs)
    requires |f| == |FieldNames| && forall j :: 0 <= j < |f| ==> f[j].name == FieldNames[j]
    requires 0 <= i < |f| && f[i] == field && StringValued(field)
    ensures RoleAttribute(ApplyModifications(attrs, AsStored(ChangeList(f))), field.name)
            == After(RoleAttribute(attrs, field.name), FieldEffect(field))
  {
    StoredFieldApplied(attrs, f, i);
    StoredStringField(field);
  }

  /** The role's top-level description mirrors the first value of its description attribute, or '' without one. */
  predicate DescriptionMirrored(r: SoapObject) {
    match RoleAttribute(r.attributes, "description")
    case None => r.description == ""
    case Some(vs) => vs != [] && vs[0].Str? && r.description == vs[0].s
  }

  /** The modification decided for an existing role is the change list of its changes. */
  lemma DecidedModification(existing: SoapObject, d: Role.DesiredRole, dn: string, mods: seq<Attribute>)
    requires Decide(existing, d) == Ok(Modify(dn, mods))
    ensures Comparisons(Lookups(existing.attributes), existing.description, d).Ok?
    ensures var c := Role.ChangesOf(Comparisons(Lookups(existing.attributes), existing.description, d).value, d);
            Role.ClassificationField(c.classification).Ok? && Role.AccessTypeField(c.accessType).Ok?
            && mods == ChangeList(FieldList(c, Role.ClassificationField(c.classification).value, Role.AccessTypeField(c.accessType).value))
  {
  }

  /** Comparisons that succeed are made of a general and an access part that succeed. */
  lemma ComparisonsParts(e: Existing, roleDescription: string, d: Role.DesiredRole, m: Role.Differs)
    requires Comparisons(e, roleDescription, d) == Ok(m)
    ensures GeneralComparisons(e, roleDescription, d) == Ok(m.general)
    ensures AccessComparisons(e, d) == Ok(m.access)
  {
  }

  /** The description, classification and owner fields of a stored change list each take effect. */
  lemma GeneralFieldsApplied(attrs: seq<Attribute>, f: seq<Field>, c: Role.RoleChanges)
    requires LowerCaseNames(attrs)
    requires |f| == |FieldNames| && forall j :: 0 <= j < |f| ==> f[j].name == FieldNames[j]
    requires f[0] == ValueField("description", c.description) && f[2] == Role.OwnerField(c.roleOwnerDns, c.userOwnerDns)
    requires Role.ClassificationField(c.classification).Ok? && f[1] == Role.ClassificationField(c.classification).value
    ensures var afterAttrs := ApplyModifications(attrs, AsStored(ChangeList(f)));
            && RoleAttribute(afterAttrs, "description")
               == After(RoleAttribute(attrs, "description"), FieldEffect(ValueField("description", c.description)))
            && RoleAttribute(afterAttrs, "erroleclassification")
               == After(RoleAttribute(attrs, "erroleclassification"), FieldEffect(Role.ClassificationField(c.classification).value))
            && RoleAttribute(afterAttrs, "owner")
               == After(RoleAttribute(attrs, "owner"), FieldEffect(Role.OwnerField(c.roleOwnerDns, c.userOwnerDns)))
  {
    StringFieldApplied(attrs, f, 0, ValueField("description", c.description));
    StringFieldApplied(attrs, f, 1, Role.ClassificationField(c.classification).value);
    StringFieldApplied(attrs, f, 2, Role.OwnerField(c.roleOwnerDns, c.userOwnerDns));
  }

  /** The access option field of a stored change list takes effect, stored as text. */
  lemma AccessOptionApplied(attrs: seq<Attribute>, f: seq<Field>, c: Role.RoleChanges)
    requires LowerCaseNames(attrs)
    requires |f| == |FieldNames| && forall j :: 0 <= j < |f| ==> f[j].name == FieldNames[j]
    requires f[3] == AccessOptionField(c.enableAccess, c.commonAccess)
    ensures RoleAttribute(ApplyModifications(attrs, AsStored(ChangeList(f))), "eraccessoption")
            == After(RoleAttribute(attrs, "eraccessoption"), FieldEffect(StoredField(AccessOptionField(c.enableAccess, c.commonAccess))))
  {
    StoredFieldApplied(attrs, f, 3);
  }

  /** The access type and image fields of a stored change list each take effect. */
  lemma AccessFieldsApplied(attrs: seq<Attribute>, f: seq<Field>, c: Role.RoleChanges)
    requires LowerCaseNames(attrs)
    requires |f| == |FieldNames| && forall j :: 0 <= j < |f| ==> f[j].name == FieldNames[j]
    requires Role.AccessTypeField(c.accessType).Ok? && f[5] == Role.AccessTypeField(c.accessType).value
    requires f[6] == ValueField("erimageuri", c.accessImageUri)
    ensures var afterAttrs := ApplyModifications(attrs, AsStored(ChangeList(f)));
            && RoleAttribute(afterAttrs, "erobjectprofilename")
               == After(RoleAttribute(attrs, "erobjectprofilename"), FieldEffect(Role.AccessTypeField(c.accessType).value))
            && RoleAttribute(afterAttrs, "erimageuri")
               == After(RoleAttribute(attrs, "erimageuri"), FieldEffect(ValueField("erimageuri", c.accessImageUri)))
  {
    StringFieldApplied(attrs, f, 5, Role.AccessTypeField(c.accessType).value);
    StringFieldApplied(attrs, f, 6, ValueField("erimageuri", c.accessImageUri));
  }

  /** The remaining access fields of a stored change list each take effect. */
  lemma AccessDetailFieldsApplied(attrs: seq<Attribute>, f: seq<Field>, c: Role.RoleChanges)
    requires LowerCaseNames(attrs)
    requires |f| == |FieldNames| && forall j :: 0 <= j < |f| ==> f[j].name == FieldNames[j]
    requires f[7] == ListField("eraccesstag", c.accessSearchTerms)
    requires f[8] == ValueField("eradditionalinformation", c.accessAdditionalInfo)
    requires f[9] == Role.BadgeField(c.accessBadges) && f[10] == ListField("erroleassignmentkey", c.assignmentAttributes)
    ensures var afterAttrs := ApplyModifications(attrs, AsStored(ChangeList(f)));
            && RoleAttribute(afterAttrs, "eraccesstag")
               == After(RoleAttribute(attrs, "eraccesstag"), FieldEffect(ListField("eraccesstag", c.accessSearchTerms)))
            && RoleAttribute(afterAttrs, "eradditionalinformation")
               == After(RoleAttribute(attrs, "eradditionalinformation"),
                        FieldEffect(ValueField("eradditionalinformation", c.accessAdditionalInfo)))
            && RoleAttribute(afterAttrs, "erbadge")
               == After(RoleAttribute(attrs, "erbadge"), FieldEffect(Role.BadgeField(c.accessBadges)))
            && RoleAttribute(afterAttrs, "erroleassignmentkey")
               == After(RoleAttribute(attrs, "erroleassignmentkey"),
                        FieldEffect(ListField("erroleassignmentkey", c.assignmentAttributes)))
  {
    StringFieldApplied(attrs, f, 7, ListField("eraccesstag", c.accessSearchTerms));
    StringFieldApplied(attrs, f, 8, ValueField("eradditionalinformation", c.accessAdditionalInfo));
    StringFieldApplied(attrs, f, 9, Role.BadgeField(c.accessBadges));
    StringFieldApplied(attrs, f, 10, ListField("erroleassignmentkey", c.assignmentAttributes));
  }

  /** A one-element text value sent because it differed compares equal once stored, even ''. */
  lemma ValueFieldSettles(existing: Option<seq<Value>>, name: string, v: string)
    requires TextDiffers(existing, v).Ok?
    ensures TextDiffers(After(existing, FieldEffect(ValueField(name, SendIf(TextDiffers(existing, v).value, v)))), v) == Ok(false)
    ensures TextDiffersStrict(existing, v).Ok?
            && TextDiffersStrict(After(existing, FieldEffect(ValueField(name, SendIf(TextDiffersStrict(existing, v).value, v)))), v)
               == Ok(false)
  {
  }

  /** A list that must be present, sent because it differed, compares equal once stored, unless it is empty. */
  lemma StrictListFieldSettles(existing: Option<seq<Value>>, name: string, xs: seq<string>)
    requires xs != []
    ensures !ListDiffersStrict(After(existing, FieldEffect(ListField(name, SendIf(ListDiffersStrict(existing, xs), xs)))), xs)
  {
  }

  /** An access option sent because it differed compares equal once stored as text. */
  lemma AccessOptionSettles(existing: Option<seq<Value>>, enableAccess: bool, commonAccess: bool)
    requires TextDiffersStrict(existing, RoleAccessCode(enableAccess, commonAccess)).Ok?
    ensures var differs := TextDiffersStrict(existing, RoleAccessCode(enableAccess, commonAccess)).value;
            TextDiffersStrict(After(existing, FieldEffect(StoredField(AccessOptionField(SendIf(differs, enableAccess), SendIf(differs, commonAccess))))),
                              RoleAccessCode(enableAccess, commonAccess)) == Ok(false)
  {
    var differs := TextDiffersStrict(existing, RoleAccessCode(enableAccess, commonAccess)).value;
    if differs {
      var n := AccessOptionNumber(Some(enableAccess), Some(commonAccess));
      assert Role.AccessOptionCode(Some(enableAccess), Some(commonAccess)) == Some(DecimalText(n.value));
      assert StoredValues([Int(n.value)]) == [Str(DecimalText(n.value))];
    }
  }

  /**
   * Stored as sent, the integer access option never equals the text code the
   * comparison reads, so without the server's conversion it would differ on
   * every run.
   */
  lemma AccessOptionVerbatimDiffers(existing: Option<seq<Value>>, enableAccess: bool, commonAccess: bool)
    ensures TextDiffersStrict(After(existing, FieldEffect(AccessOptionField(Some(enableAccess), Some(commonAccess)))),
                              RoleAccessCode(enableAccess, commonAccess)) == Ok(true)
  {
  }

  /** An access type sent because it differed compares equal once stored. */
  lemma AccessTypeSettles(existing: Option<seq<Value>>, accessType: string)
    requires AccessTypeDiffers(existing, accessType).Ok?
    requires Role.AccessTypeField(SendIf(AccessTypeDiffers(existing, accessType).value, accessType)).Ok?
    ensures AccessTypeDiffers(After(existing, FieldEffect(
              Role.AccessTypeField(SendIf(AccessTypeDiffers(existing, accessType).value, accessType)).value)),
              accessType) == Ok(false)
  {
  }

  /** Owners sent because they differed compare equal once stored, unless there are none. */
  lemma OwnersSettle(existing: Option<seq<Value>>, roleOwnerDns: seq<string>, userOwnerDns: seq<string>)
    requires roleOwnerDns + userOwnerDns != []
    ensures var differs := ListDiffersStrict(existing, roleOwnerDns + userOwnerDns);
            !ListDiffersStrict(After(existing, FieldEffect(Role.OwnerField(SendIf(differs, roleOwnerDns), SendIf(differs, userOwnerDns)))),
                               roleOwnerDns + userOwnerDns)
  {
  }

  /** A description sent because it differed compares equal once stored, with the description mirrored. */
  lemma DescriptionSettles(existing: Option<seq<Value>>, after: Option<seq<Value>>,
                           roleDescription: string, afterDescription: string, description: string)
    requires DescriptionDiffers(existing, roleDescription, description).Ok?
    requires after == After(existing, FieldEffect(ValueField("description",
                              SendIf(DescriptionDiffers(existing, roleDescription, description).value, description))))
    requires match existing case None => roleDescription == "" case Some(vs) => vs != [] && vs[0] == Str(roleDescription)
    requires match after case None => afterDescription == "" case Some(vs) => vs != [] && vs[0] == Str(afterDescription)
    ensures DescriptionDiffers(after, afterDescription, description) == Ok(false)
  {
  }

  /** Description, classification and owners settle once their fields are stored. */
  lemma SettlesGeneral(existing: SoapObject, after: SoapObject, d: Role.DesiredRole, g: Role.GeneralDiffers)
    requires GeneralComparisons(Lookups(existing.attributes), existing.description, d) == Ok(g)
    requires d.roleOwnerDns + d.userOwnerDns != []
    requires Role.ClassificationField(SendIf(g.classification, d.classification)).Ok?
    requires var attrs, afterAttrs := existing.attributes, after.attributes;
             && RoleAttribute(afterAttrs, "description")
                == After(RoleAttribute(attrs, "description"), FieldEffect(ValueField("description", SendIf(g.description, d.description))))
             && RoleAttribute(afterAttrs, "erroleclassification")
                == After(RoleAttribute(attrs, "erroleclassification"),
                         FieldEffect(Role.ClassificationField(SendIf(g.classification, d.classification)).value))
             && RoleAttribute(afterAttrs, "owner")
                == After(RoleAttribute(attrs, "owner"),
                         FieldEffect(Role.OwnerField(SendIf(g.owners, d.roleOwnerDns), SendIf(g.owners, d.userOwnerDns))))
    requires DescriptionMirrored(existing) && DescriptionMirrored(after)
    ensures var e := Lookups(after.attributes);
            && DescriptionDiffers(e.description, after.description, d.description) == Ok(false)
            && ClassificationDiffers(e.classification, d.classification) == Ok(false)
            && !ListDiffersStrict(e.owners, d.roleOwnerDns + d.userOwnerDns)
  {
    var attrs := existing.attributes;
    DescriptionSettles(RoleAttribute(attrs, "description"), RoleAttribute(after.attributes, "description"),
                       existing.description, after.description, d.description);
    Role.ClassificationSettles(RoleAttribute(attrs, "erroleclassification"), d.classification);
    OwnersSettle(RoleAttribute(attrs, "owner"), d.roleOwnerDns, d.userOwnerDns);
  }

  /** The access option, access type and image settle once their fields are stored. */
  lemma SettlesAccess(attrs: seq<Attribute>, afterAttrs: seq<Attribute>, d: Role.DesiredRole, a: Role.AccessDiffers)
    requires AccessComparisons(Lookups(attrs), d) == Ok(a)
    requires Role.AccessTypeField(SendIf(a.accessType, d.accessType)).Ok?
    requires RoleAttribute(afterAttrs, "eraccessoption")
             == After(RoleAttribute(attrs, "eraccessoption"),
                      FieldEffect(StoredField(AccessOptionField(SendIf(a.accessOption, d.enableAccess), SendIf(a.accessOption, d.commonAccess)))))
    requires RoleAttribute(afterAttrs, "erobjectprofilename")
             == After(RoleAttribute(attrs, "erobjectprofilename"), FieldEffect(Role.AccessTypeField(SendIf(a.accessType, d.accessType)).value))
    requires RoleAttribute(afterAttrs, "erimageuri")
             == After(RoleAttribute(attrs, "erimageuri"), FieldEffect(ValueField("erimageuri", SendIf(a.imageUri, d.accessImageUri))))
    ensures var e := Lookups(afterAttrs);
            && TextDiffersStrict(e.accessOption, RoleAccessCode(d.enableAccess, d.commonAccess)) == Ok(false)
            && AccessTypeDiffers(e.accessType, d.accessType) == Ok(false)
            && TextDiffers(e.imageUri, d.accessImageUri) == Ok(false)
  {
    AccessOptionSettles(RoleAttribute(attrs, "eraccessoption"), d.enableAccess, d.commonAccess);
    AccessTypeSettles(RoleAttribute(attrs, "erobjectprofilename"), d.accessType);
    ValueFieldSettles(RoleAttribute(attrs, "erimageuri"), "erimageuri", d.accessImageUri);
  }

  /** What the access comparisons that succeed found for the search terms, information, badges and assignment keys. */
  lemma AccessDetailFlags(attrs: seq<Attribute>, d: Role.DesiredRole, a: Role.AccessDiffers)
    requires AccessComparisons(Lookups(attrs), d) == Ok(a)
    ensures a.searchTerms == ListDiffersStrict(RoleAttribute(attrs, "eraccesstag"), d.accessSearchTerms)
    ensures TextDiffersStrict(RoleAttribute(attrs, "eradditionalinformation"), d.accessAdditionalInfo) == Ok(a.additionalInfo)
    ensures a.badges == ListDiffersStrict(RoleAttribute(attrs, "erbadge"), BadgeStrings(d.accessBadges))
    ensures a.assignment == ListDiffersStrict(RoleAttribute(attrs, "erroleassignmentkey"), d.assignmentAttributes)
  {
  }

  /** Search terms and additional information settle once stored, when there are search terms. */
  lemma SettlesAccessDetails(attrs: seq<Attribute>, afterAttrs: seq<Attribute>, d: Role.DesiredRole, a: Role.AccessDiffers)
    requires a.searchTerms == ListDiffersStrict(RoleAttribute(attrs, "eraccesstag"), d.accessSearchTerms)
    requires TextDiffersStrict(RoleAttribute(attrs, "eradditionalinformation"), d.accessAdditionalInfo) == Ok(a.additionalInfo)
    requires d.accessSearchTerms != []
    requires RoleAttribute(afterAttrs, "eraccesstag")
             == After(RoleAttribute(attrs, "eraccesstag"), FieldEffect(ListField("eraccesstag", SendIf(a.searchTerms, d.accessSearchTerms))))
    requires RoleAttribute(afterAttrs, "eradditionalinformation")
             == After(RoleAttribute(attrs, "eradditionalinformation"),
                      FieldEffect(ValueField("eradditionalinformation", SendIf(a.additionalInfo, d.accessAdditionalInfo))))
    ensures var e := Lookups(afterAttrs);
            && !ListDiffersStrict(e.searchTerms, d.accessSearchTerms)
            && TextDiffersStrict(e.additionalInfo, d.accessAdditionalInfo) == Ok(false)
  {
    StrictListFieldSettles(RoleAttribute(attrs, "eraccesstag"), "eraccesstag", d.accessSearchTerms);
    ValueFieldSettles(RoleAttribute(attrs, "eradditionalinformation"), "eradditionalinformation", d.accessAdditionalInfo);
  }

  /** Badges and assignment keys settle once stored, when there are some. */
  lemma SettlesBadgesAndAssignment(attrs: seq<Attribute>, afterAttrs: seq<Attribute>, d: Role.DesiredRole, a: Role.AccessDiffers)
    requires a.badges == ListDiffersStrict(RoleAttribute(attrs, "erbadge"), BadgeStrings(d.accessBadges))
    requires a.assignment == ListDiffersStrict(RoleAttribute(attrs, "erroleassignmentkey"), d.assignmentAttributes)
    requires d.accessBadges != [] && d.assignmentAttributes != []
    requires RoleAttribute(afterAttrs, "erbadge")
             == After(RoleAttribute(attrs, "erbadge"), FieldEffect(Role.BadgeField(SendIf(a.badges, d.accessBadges))))
    requires RoleAttribute(afterAttrs, "erroleassignmentkey")
             == After(RoleAttribute(attrs, "erroleassignmentkey"),
                      FieldEffect(ListField("erroleassignmentkey", SendIf(a.assignment, d.assignmentAttributes))))
    ensures var e := Lookups(afterAttrs);
            && !ListDiffersStrict(e.badges, BadgeStrings(d.accessBadges))
            && !ListDiffersStrict(e.assignment, d.assignmentAttributes)
  {
    StrictListFieldSettles(RoleAttribute(attrs, "erbadge"), "erbadge", BadgeStrings(d.accessBadges));
    StrictListFieldSettles(RoleAttribute(attrs, "erroleassignmentkey"), "erroleassignmentkey", d.assignmentAttributes);
  }

  /** The general part of a stored modification settles its comparisons. */
  lemma GeneralSettlesAfterStore(existing: SoapObject, after: SoapObject, d: Role.DesiredRole, m: Role.Differs, f: seq<Field>)
    requires GeneralComparisons(Lookups(existing.attributes), existing.description, d) == Ok(m.general)
    requires LowerCaseNames(existing.attributes)
    requires |f| == |FieldNames| && forall j :: 0 <= j < |f| ==> f[j].name == FieldNames[j]
    requires after.attributes == ApplyModifications(existing.attributes, AsStored(ChangeList(f)))
    requires DescriptionMirrored(existing) && DescriptionMirrored(after)
    requires d.roleOwnerDns + d.userOwnerDns != []
    requires var c := Role.ChangesOf(m, d);
             && f[0] == ValueField("description", c.description) && f[2] == Role.OwnerField(c.roleOwnerDns, c.userOwnerDns)
             && Role.ClassificationField(c.classification).Ok? && f[1] == Role.ClassificationField(c.classification).value
    ensures var e := Lookups(after.attributes);
            && DescriptionDiffers(e.description, after.description, d.description) == Ok(false)
            && ClassificationDiffers(e.classification, d.classification) == Ok(false)
            && !ListDiffersStrict(e.owners, d.roleOwnerDns + d.userOwnerDns)
  {
    GeneralFieldsApplied(existing.attributes, f, Role.ChangesOf(m, d));
    SettlesGeneral(existing, after, d, m.general);
  }

  /** The access option, type and image of a stored modification settle their comparisons. */
  lemma AccessSettlesAfterStore(existing: SoapObject, after: SoapObject, d: Role.DesiredRole, m: Role.Differs, f: seq<Field>)
    requires AccessComparisons(Lookups(existing.attributes), d) == Ok(m.access)
    requires LowerCaseNames(existing.attributes)
    requires |f| == |FieldNames| && forall j :: 0 <= j < |f| ==> f[j].name == FieldNames[j]
    requires after.attributes == ApplyModifications(existing.attributes, AsStored(ChangeList(f)))
    requires var c := Role.ChangesOf(m, d);
             && f[3] == AccessOptionField(c.enableAccess, c.commonAccess) && f[6] == ValueField("erimageuri", c.accessImageUri)
             && Role.AccessTypeField(c.accessType).Ok? && f[5] == Role.AccessTypeField(c.accessType).value
    ensures var e := Lookups(after.attributes);
            && TextDiffersStrict(e.accessOption, RoleAccessCode(d.enableAccess, d.commonAccess)) == Ok(false)
            && AccessTypeDiffers(e.accessType, d.accessType) == Ok(false)
            && TextDiffers(e.imageUri, d.accessImageUri) == Ok(false)
  {
    AccessOptionApplied(existing.attributes, f, Role.ChangesOf(m, d));
    AccessFieldsApplied(existing.attributes, f, Role.ChangesOf(m, d));
    SettlesAccess(existing.attributes, after.attributes, d, m.access);
  }

  /** The search terms, information, badges and assignment of a stored modification settle, when not empty. */
  lemma DetailsSettleAfterStore(existing: SoapObject, after: SoapObject, d: Role.DesiredRole, m: Role.Differs, f: seq<Field>)
    requires AccessComparisons(Lookups(existing.attributes), d) == Ok(m.access)
    requires LowerCaseNames(existing.attributes)
    requires |f| == |FieldNames| && forall j :: 0 <= j < |f| ==> f[j].name == FieldNames[j]
    requires after.attributes == ApplyModifications(existing.attributes, AsStored(ChangeList(f)))
    requires d.accessSearchTerms != [] && d.accessBadges != [] && d.assignmentAttributes != []
    requires var c := Role.ChangesOf(m, d);
             && f[7] == ListField("eraccesstag", c.accessSearchTerms)
             && f[8] == ValueField("eradditionalinformation", c.accessAdditionalInfo)
             && f[9] == Role.BadgeField(c.accessBadges) && f[10] == ListField("erroleassignmentkey", c.assignmentAttributes)
    ensures var e := Lookups(after.attributes);
            && !ListDiffersStrict(e.searchTerms, d.accessSearchTerms)
            && TextDiffersStrict(e.additionalInfo, d.accessAdditionalInfo) == Ok(false)
            && !ListDiffersStrict(e.badges, BadgeStrings(d.accessBadges))
            && !ListDiffersStrict(e.assignment, d.assignmentAttributes)
  {
    AccessDetailFieldsApplied(existing.attributes, f, Role.ChangesOf(m, d));
    AccessDetailFlags(existing.attributes, d, m.access);
    SettlesAccessDetails(existing.attributes, after.attributes, d, m.access);
    SettlesBadgesAndAssignment(existing.attributes, after.attributes, d, m.access);
  }

  /** The comparisons behind a decided modification, and its fields one by one. */
  lemma DecidedFields(existing: SoapObject, d: Role.DesiredRole, dn: string, mods: seq<Attribute>) returns (m: Role.Differs, f: seq<Field>)
    requires Decide(existing, d) == Ok(Modify(dn, mods))
    ensures Comparisons(Lookups(existing.attributes), existing.description, d) == Ok(m)
    ensures mods == ChangeList(f)
    ensures |f| == |FieldNames| && forall j :: 0 <= j < |f| ==> f[j].name == FieldNames[j]
    ensures var c := Role.ChangesOf(m, d);
            && f[0] == ValueField("description", c.description) && f[2] == Role.OwnerField(c.roleOwnerDns, c.userOwnerDns)
            && Role.ClassificationField(c.classification).Ok? && f[1] == Role.ClassificationField(c.classification).value
            && f[3] == AccessOptionField(c.enableAccess, c.commonAccess) && f[6] == ValueField("erimageuri", c.accessImageUri)
            && Role.AccessTypeField(c.accessType).Ok? && f[5] == Role.AccessTypeField(c.accessType).value
            && f[7] == ListField("eraccesstag", c.accessSearchTerms)
            && f[8] == ValueField("eradditionalinformation", c.accessAdditionalInfo)
            && f[9] == Role.BadgeField(c.accessBadges) && f[10] == ListField("erroleassignmentkey", c.assignmentAttributes)
  {
    DecidedModification(existing, d, dn, mods);
    m := Comparisons(Lookups(existing.attributes), existing.description, d).value;
    var c := Role.ChangesOf(m, d);
    f := FieldList(c, Role.ClassificationField(c.classification).value, Role.AccessTypeField(c.accessType).value);
  }

  /** Every comparison of a role settles once the fields of its changes are stored, when no desired list is empty. */
  lemma SettlesAfterStore(existing: SoapObject, after: SoapObject, d: Role.DesiredRole, m: Role.Differs, f: seq<Field>)
    requires Comparisons(Lookups(existing.attributes), existing.description, d) == Ok(m)
    requires LowerCaseNames(existing.attributes)
    requires |f| == |FieldNames| && forall j :: 0 <= j < |f| ==> f[j].name == FieldNames[j]
    requires after.attributes == ApplyModifications(existing.attributes, AsStored(ChangeList(f)))
    requires DescriptionMirrored(existing) && DescriptionMirrored(after)
    requires d.roleOwnerDns + d.userOwnerDns != [] && d.accessSearchTerms != [] && d.accessBadges != [] && d.assignmentAttributes != []
    requires var c := Role.ChangesOf(m, d);
             && f[0] == ValueField("description", c.description) && f[2] == Role.OwnerField(c.roleOwnerDns, c.userOwnerDns)
             && Role.ClassificationField(c.classification).Ok? && f[1] == Role.ClassificationField(c.classification).value
             && f[3] == AccessOptionField(c.enableAccess, c.commonAccess) && f[6] == ValueField("erimageuri", c.accessImageUri)
             && Role.AccessTypeField(c.accessType).Ok? && f[5] == Role.AccessTypeField(c.accessType).value
             && f[7] == ListField("eraccesstag", c.accessSearchTerms)
             && f[8] == ValueField("eradditionalinformation", c.accessAdditionalInfo)
             && f[9] == Role.BadgeField(c.accessBadges) && f[10] == ListField("erroleassignmentkey", c.assignmentAttributes)
    ensures InSync(after, d)
  {
    ComparisonsParts(Lookups(existing.attributes), existing.description, d, m);
    GeneralSettlesAfterStore(existing, after, d, m, f);
    AccessSettlesAfterStore(existing, after, d, m, f);
    DetailsSettleAfterStore(existing, after, d, m, f);
  }

  /**
   * Once the server has stored the modification a run asked for (integers
   * as text, names in lower case, the description mirrored), a second run
   * with the same desired role finds nothing to change, provided no desired
   * list is empty.
   */
  lemma SecondRunNoChange(existing: SoapObject, after: SoapObject, d: Role.DesiredRole, dn: string, mods: seq<Attribute>)
    requires Decide(existing, d) == Ok(Modify(dn, mods))
    requires LowerCaseNames(existing.attributes)
    requires after.attributes == ApplyModifications(existing.attributes, AsStored(mods))
    requires DescriptionMirrored(existing) && DescriptionMirrored(after)
    requires d.roleOwnerDns + d.userOwnerDns != [] && d.accessSearchTerms != [] && d.accessBadges != [] && d.assignmentAttributes != []
    ensures InSync(after, d)
  {
    var m, f := DecidedFields(existing, d, dn, mods);
    SettlesAfterStore(existing, after, d, m, f);
  }

  /**
   * A role without owners, asked to have none, is sent an empty owner list,
   * which the server stores as no owner attribute: the next run modifies
   * it again.
   */
  lemma EmptyOwnersNeverSettle(existing: SoapObject, after: SoapObject, d: Role.DesiredRole, dn: string, mods: seq<Attribute>)
    requires Decide(existing, d) == Ok(Modify(dn, mods))
    requires LowerCaseNames(existing.attributes)
    requires after.attributes == ApplyModifications(existing.attributes, AsStored(mods))
    requires RoleAttribute(existing.attributes, "owner").None? && d.roleOwnerDns + d.userOwnerDns == []
    ensures RoleAttribute(after.attributes, "owner").None?
    ensures !InSync(after, d)
  {
    var m, f := DecidedFields(existing, d, dn, mods);
    ComparisonsParts(Lookups(existing.attributes), existing.description, d, m);
    GeneralFieldsApplied(existing.attributes, f, Role.ChangesOf(m, d));
  }
}
