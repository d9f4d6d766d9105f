/**
 * `apply_account_service`: validate the request, fill in empties, prepare
 * the configuration dict in place, resolve the container and the owner and
 * prerequisite DNs, search for the service by name, then create it, compare
 * it field by field with the one existing service of that name, or warn.
 *
 * The decision is specified by the function `Decision`, which returns the
 * action together with the configuration dict as the call leaves it; the
 * method `ApplyAccountService` follows the code step by step and is proved
 * to agree with it.
 */
module AccountService {
  import opened Common
  import opened Tools
  import opened Reconcile
  import opened ServiceConfig
  import opened Service

  // ---------------------------------------------------------------------
  // The request and its normalized form
  // ---------------------------------------------------------------------

  /** The arguments of `apply_account_service` other than the configuration dict; None is an omitted argument. */
  datatype AccountServiceRequest = AccountServiceRequest(
    containerPath: string,
    name: string,
    serviceType: string,
    description: Option<string>,
    ownerName: Option<string>,
    prerequisiteName: Option<string>,
    defineAccess: Option<bool>,
    accessName: Option<string>,
    accessType: Option<string>,
    accessDescription: Option<string>,
    accessImageUri: Option<string>,
    accessSearchTerms: Option<seq<string>>,
    accessAdditionalInfo: Option<string>,
    accessBadges: Option<seq<Badge>>)

  /** The checks made before anything else: non-empty path, name, type and configuration, and an access name when access is defined. */
  predicate ValidRequest(req: AccountServiceRequest, d: Dict) {
    req.containerPath != "" && req.name != "" && req.serviceType != "" && |d.keys| > 0
    && (req.defineAccess == Some(true) ==> req.accessName.Some? && req.accessName.value != "")
  }

  /** A string argument with None replaced by ''. */
  function TextOrEmpty(s: Option<string>): string {
    if s.None? then "" else s.value
  }

  /** The desired values once None has been replaced by an empty value and the names by DNs. */
  datatype DesiredService = DesiredService(
    description: string,
    ownerDn: string,
    prerequisiteDn: string,
    defineAccess: bool,
    accessName: string,
    accessType: string,
    accessDescription: string,
    imageUri: string,
    searchTerms: seq<string>,
    additionalInfo: string,
    badges: seq<Badge>)

  /** The request with empties filled in, given the resolved owner and prerequisite DNs. */
  function Desired(req: AccountServiceRequest, ownerDn: string, prerequisiteDn: string): DesiredService {
    DesiredService(
      TextOrEmpty(req.description),
      ownerDn,
      prerequisiteDn,
      req.defineAccess == Some(true),
      TextOrEmpty(req.accessName),
      TextOrEmpty(req.accessType),
      TextOrEmpty(req.accessDescription),
      TextOrEmpty(req.accessImageUri),
      if req.accessSearchTerms.None? then [] else req.accessSearchTerms.value,
      TextOrEmpty(req.accessAdditionalInfo),
      if req.accessBadges.None? then [] else req.accessBadges.value)
  }

  /** The DN of a named person or service in the organization; '' stays ''. */
  function DnOf(resolver: Resolver, organization: string, name: string, objectType: string): (r: Result<string>)
    ensures name == "" ==> r == Ok("")
    ensures name != "" ==> r == resolver.encodeToIsimDn(organization, name, objectType)
  {
    if name == "" then Ok("") else resolver.encodeToIsimDn(organization, name, objectType)
  }

  /** The container DN and the desired values. */
  datatype Resolved = Resolved(containerDn: string, desired: DesiredService)

  /** The container DN, the organization, then the owner and the prerequisite DNs; the first failure is raised. */
  function Resolve(resolver: Resolver, req: AccountServiceRequest): (r: Result<Resolved>)
    ensures r.Ok? ==> resolver.containerPathToDn(req.containerPath) == Ok(r.value.containerDn)
    ensures r.Ok? ==> Organization(req.containerPath).Ok?
    ensures Organization(req.containerPath).Err? && resolver.containerPathToDn(req.containerPath).Ok? ==> r == Err(IndexError)
  {
    var containerDn :- resolver.containerPathToDn(req.containerPath);
    var organization :- Organization(req.containerPath);
    var ownerDn :- DnOf(resolver, organization, TextOrEmpty(req.ownerName), "person");
    var prerequisiteDn :- DnOf(resolver, organization, TextOrEmpty(req.prerequisiteName), "service");
    Ok(Resolved(containerDn, Desired(req, ownerDn, prerequisiteDn)))
  }

  // ---------------------------------------------------------------------
  // Comparing the fixed fields with an existing service
  // ---------------------------------------------------------------------

  /** Which of the description, owner, prerequisite, access option and access name differ. */
  datatype GeneralDiffers = GeneralDiffers(
    description: bool,
    owner: bool,
    prerequisite: bool,
    accessOption: bool,
    accessName: bool)

  /** Which of the remaining access fields differ. */
  datatype AccessDiffers = AccessDiffers(
    accessType: bool,
    accessDescription: bool,
    imageUri: bool,
    searchTerms: bool,
    additionalInfo: bool,
    badges: bool)

  /** Which fixed fields differ from the existing service. */
  datatype AccountDiffers = AccountDiffers(general: GeneralDiffers, access: AccessDiffers)

  /** The stored access option for a desired setting: "2" when access is defined, '' otherwise. */
  function AccessOptionText(defineAccess: bool): string {
    if defineAccess then "2" else ""
  }

  /** The first five comparisons, in the order the code makes them; the first one that raises stops the rest. */
  function GeneralComparisons(attrs: seq<Attribute>, w: DesiredService): Result<GeneralDiffers> {
    var description :- TextDiffers(AttributeValues(attrs, "description"), w.description);
    var owner :- TextDiffers(AttributeValues(attrs, "owner"), w.ownerDn);
    var prerequisite :- TextDiffers(AttributeValues(attrs, "erprerequisite"), w.prerequisiteDn);
    var accessOption :- TextDiffers(AttributeValues(attrs, "eraccessoption"), AccessOptionText(w.defineAccess));
    var accessName :- TextDiffers(AttributeValues(attrs, "eraccessname"), w.accessName);
    Ok(GeneralDiffers(description, owner, prerequisite, accessOption, accessName))
  }

  /** The remaining comparisons, in order; search terms and badges are compared as multisets and never raise. */
  function AccessComparisons(attrs: seq<Attribute>, w: DesiredService): Result<AccessDiffers> {
    var accessType :- AccessTypeDiffers(AttributeValues(attrs, "eraccesscategory"), w.accessType);
    var accessDescription :- TextDiffers(AttributeValues(attrs, "eraccessdescription"), w.accessDescription);
    var imageUri :- TextDiffers(AttributeValues(attrs, "erimageuri"), w.imageUri);
    var searchTerms := ListDiffers(AttributeValues(attrs, "eraccesstag"), w.searchTerms);
    var additionalInfo :- TextDiffers(AttributeValues(attrs, "eradditionalinformation"), w.additionalInfo);
    var badges := ListDiffers(AttributeValues(attrs, "erbadge"), BadgeStrings(w.badges));
    Ok(AccessDiffers(accessType, accessDescription, imageUri, searchTerms, additionalInfo, badges))
  }

  /** All the comparisons of the fixed fields. */
  function Comparisons(attrs: seq<Attribute>, w: DesiredService): Result<AccountDiffers> {
    var general :- GeneralComparisons(attrs, w);
    var access :- AccessComparisons(attrs, w);
    Ok(AccountDiffers(general, access))
  }

  /** Some fixed field differs. */
  predicate AnyDiffers(m: AccountDiffers) {
    var g, a := m.general, m.access;
    g.description || g.owner || g.prerequisite || g.accessOption || g.accessName || a.accessType
    || a.accessDescription || a.imageUri || a.searchTerms || a.additionalInfo || a.badges
  }

  /**
   * The values passed to the modify call: the differing ones, except that
   * the owner and the prerequisite DNs are also passed when the existing
   * service has no such attribute, since the code resets the wrong variable
   * in that case.
   */
  function ChangesOf(attrs: seq<Attribute>, m: AccountDiffers, w: DesiredService): ServiceChanges {
    var g, a := m.general, m.access;
    ServiceChanges(
      None,
      SendIf(g.description, w.description),
      if AttributeValues(attrs, "owner").None? then Some(w.ownerDn) else SendIf(g.owner, w.ownerDn),
      if AttributeValues(attrs, "erprerequisite").None? then Some(w.prerequisiteDn) else SendIf(g.prerequisite, w.prerequisiteDn),
      SendIf(g.accessOption, w.defineAccess),
      SendIf(g.accessName, w.accessName),
      SendIf(a.accessDescription, w.accessDescription),
      SendIf(a.accessType, w.accessType),
      SendIf(a.imageUri, w.imageUri),
      SendIf(a.searchTerms, w.searchTerms),
      SendIf(a.additionalInfo, w.additionalInfo),
      SendIf(a.badges, w.badges),
      None, None, None)
  }

  /** The comparison of the fixed fields: the values to send and whether they force a modify. */
  function AccountFieldDiff(attrs: seq<Attribute>, w: DesiredService): (r: Result<FieldDiff>)
    ensures r.Err? <==> Comparisons(attrs, w).Err?
    ensures r.Ok? ==> r.value.modifyRequired == AnyDiffers(Comparisons(attrs, w).value)
  {
    var m :- Comparisons(attrs, w);
    Ok(FieldDiff(ChangesOf(attrs, m, w), AnyDiffers(m)))
  }

  // ---------------------------------------------------------------------
  // The decision
  // ---------------------------------------------------------------------

  /** The attributes the comparison never clears: the fixed fields and the server's own bookkeeping attributes. */
  const AccountDoNotCheck: seq<string> := [
    "description", "owner", "erprerequisite", "eraccessoption", "eraccessname", "eraccesscategory",
    "eraccessdescription", "erimageuri", "eraccesstag", "eradditionalinformation", "erbadge",
    "eradapterprofileversion", "eradapterlaststatustime", "erparent", "objectclass", "erlastmodifiedtime",
    "eradapteruptime", "erglobalid", "erservicename"]

  /** Every value is sent on create; the identity-feed fields are not. */
  function CreateChanges(name: string, w: DesiredService): ServiceChanges {
    ServiceChanges(
      Some(name), Some(w.description), Some(w.ownerDn), Some(w.prerequisiteDn), Some(w.defineAccess),
      Some(w.accessName), Some(w.accessDescription), Some(w.accessType), Some(w.imageUri), Some(w.searchTerms),
      Some(w.additionalInfo), Some(w.badges), None, None, None)
  }

  /** `_create_account_service`: the container DN and the service type, with every value sent. */
  function CreateDecision(containerDn: string, name: string, serviceType: string, w: DesiredService, p: Dict): (r: Result<Action>)
    requires WellFormed(p)
    ensures r.Err? <==> AccessCategory(w.accessType).None?
    ensures r.Err? ==> r.error == ValueError
    ensures r.Ok? ==> r.value.Create? && r.value.parent == containerDn && r.value.fields == [("profileName", serviceType)]
  {
    var attrs :- Attributes(CreateChanges(name, w), p);
    Ok(Create(containerDn, [("profileName", serviceType)], attrs))
  }

  /** The keys the clearing step skips: the fixed ones and the lower-cased configuration keys. */
  function Skipped(p: Dict): seq<string> {
    AccountDoNotCheck + LowerEach(p.keys)
  }

  /** What the code does with the one existing service of the requested name, and the dict it leaves. */
  function DecideExisting(existing: SoapObject, containerDn: string, name: string, serviceType: string,
                          w: DesiredService, p: Dict, checkMode: bool): (o: Outcome)
    requires WellFormed(p)
    ensures o.action.Ok? && o.action.value.Modify? ==> !checkMode && o.action.value.dn == existing.itimDN
    ensures o.action.Ok? ==> !o.action.value.Create? && !o.action.value.Forward?
  {
    var attrs := existing.attributes;
    if serviceType != existing.profileName then
      Outcome(Ok(Respond(false, [ServiceTypeMismatch(name, containerDn, existing.profileName, serviceType)])), p)
    else
      var diff := AccountFieldDiff(attrs, w);
      if diff.Err? then Outcome(Err(diff.error), p)
      else
        var m := Mark(p, attrs);
        if m.outcome.Err? then Outcome(Err(m.outcome.error), m.dict)
        else
          var cleared := ClearAll(m.dict, AttributeKeys(attrs), Skipped(p));
          if !(diff.value.modifyRequired || m.outcome.value) then Outcome(Ok(Respond(false, [])), cleared)
          else if checkMode then Outcome(Ok(Respond(true, [])), cleared)
          else
            var list := Attributes(diff.value.changes, cleared);
            Outcome(if list.Err? then Err(list.error) else Ok(Modify(existing.itimDN, list.value)), cleared)
  }

  /** `apply_account_service`, as a function of the resolver's and the search's answers and of the dict passed in. */
  function Decision(resolver: Resolver, search: Search, req: AccountServiceRequest, d: Dict,
                    checkMode: bool, force: bool): (o: Outcome)
    requires WellFormed(d)
    ensures !ValidRequest(req, d) ==> o == Outcome(Err(ValueError), d)
    ensures o.action.Ok? && (o.action.value.Create? || o.action.value.Modify?) ==> !checkMode
  {
    if !ValidRequest(req, d) then Outcome(Err(ValueError), d)
    else
      var p := Prepared(d);
      var resolved := Resolve(resolver, req);
      if resolved.Err? then Outcome(Err(resolved.error), p)
      else
        var containerDn, w := resolved.value.containerDn, resolved.value.desired;
        var searched := search(containerDn, NameFilter(req.name));
        if searched.Err? then Outcome(Err(searched.error), p)
        else
          var response := searched.value;
          if response.rc != 0 then Outcome(Ok(Forward(response.rc)), p)
          else
            var exactMatches := ExactMatches(response.results, req.name);
            if |exactMatches| == 0 || force then
              Outcome(if checkMode then Ok(Respond(true, [])) else CreateDecision(containerDn, req.name, req.serviceType, w, p), p)
            else if |exactMatches| == 1 then
              DecideExisting(exactMatches[0], containerDn, req.name, req.serviceType, w, p, checkMode)
            else
              Outcome(Ok(Respond(false, [AmbiguousService(req.name, containerDn)])), p)
  }

  // ---------------------------------------------------------------------
  // The code, step by step
  // ---------------------------------------------------------------------

  /** The lookups and comparisons of the description, owner, prerequisite, access option and access name. */
  method CompareGeneral(existing: SoapObject, w: DesiredService) returns (r: Result<GeneralDiffers>)
    ensures r == GeneralComparisons(existing.attributes, w)
  {
    var existingValue := GetSoapAttribute(existing, "description");
    var description :- CompareText(existingValue, w.description);
    existingValue := GetSoapAttribute(existing, "owner");
    var owner :- CompareText(existingValue, w.ownerDn);
    existingValue := GetSoapAttribute(existing, "erprerequisite");
    var prerequisite :- CompareText(existingValue, w.prerequisiteDn);
    existingValue := GetSoapAttribute(existing, "eraccessoption");
    var accessOption :- CompareText(existingValue, AccessOptionText(w.defineAccess));
    existingValue := GetSoapAttribute(existing, "eraccessname");
    var accessName :- CompareText(existingValue, w.accessName);
    return Ok(GeneralDiffers(description, owner, prerequisite, accessOption, accessName));
  }

  /** The lookups and comparisons of the access type, description, image, search terms, information and badges. */
  method CompareAccess(existing: SoapObject, w: DesiredService) returns (r: Result<AccessDiffers>)
    ensures r == AccessComparisons(existing.attributes, w)
  {
    var existingValue := GetSoapAttribute(existing, "eraccesscategory");
    var accessType :- CompareAccessType(existingValue, w.accessType);
    existingValue := GetSoapAttribute(existing, "eraccessdescription");
    var accessDescription :- CompareText(existingValue, w.accessDescription);
    existingValue := GetSoapAttribute(existing, "erimageuri");
    var imageUri :- CompareText(existingValue, w.imageUri);
    existingValue := GetSoapAttribute(existing, "eraccesstag");
    var searchTerms := CompareList(existingValue, w.searchTerms);
    existingValue := GetSoapAttribute(existing, "eradditionalinformation");
    var additionalInfo :- CompareText(existingValue, w.additionalInfo);
    existingValue := GetSoapAttribute(existing, "erbadge");
    var newBadges := EncodeBadges(w.badges);
    var badges := CompareList(existingValue, newBadges);
    return Ok(AccessDiffers(accessType, accessDescription, imageUri, searchTerms, additionalInfo, badges));
  }

  /**
   * The comparison block: `modify_required` is set by any differing field,
   * and each value is reset to None when it matches (the owner and the
   * prerequisite DNs only when the attribute exists).
   */
  method CompareAccountFields(existing: SoapObject, w: DesiredService) returns (r: Result<FieldDiff>)
    ensures r == AccountFieldDiff(existing.attributes, w)
  {
    var general :- CompareGeneral(existing, w);
    var access :- CompareAccess(existing, w);
    var g, a := general, access;
    var modifyRequired := g.description || g.owner || g.prerequisite || g.accessOption || g.accessName
                          || a.accessType || a.accessDescription || a.imageUri || a.searchTerms
                          || a.additionalInfo || a.badges;
    var existingOwner := GetSoapAttribute(existing, "owner");
    var existingPrerequisite := GetSoapAttribute(existing, "erprerequisite");
    var changes := ServiceChanges(
      None,
      SendIf(g.description, w.description),
      if existingOwner.None? then Some(w.ownerDn) else SendIf(g.owner, w.ownerDn),
      if existingPrerequisite.None? then Some(w.prerequisiteDn) else SendIf(g.prerequisite, w.prerequisiteDn),
      SendIf(g.accessOption, w.defineAccess),
      SendIf(g.accessName, w.accessName),
      SendIf(a.accessDescription, w.accessDescription),
      SendIf(a.accessType, w.accessType),
      SendIf(a.imageUri, w.imageUri),
      SendIf(a.searchTerms, w.searchTerms),
      SendIf(a.additionalInfo, w.additionalInfo),
      SendIf(a.badges, w.badges),
      None, None, None);
    return Ok(FieldDiff(changes, modifyRequired));
  }

  /** `_create_account_service`: build every attribute and send them with the container DN and the service type. */
  method CreateAccountService(containerDn: string, name: string, serviceType: string, w: DesiredService,
                              configuration: Configuration) returns (r: Result<Action>)
    requires configuration.Valid()
    ensures r == CreateDecision(containerDn, name, serviceType, w, configuration.Contents())
  {
    var attributeList :- BuildAttributes(CreateChanges(name, w), configuration);
    return Ok(Create(containerDn, [("profileName", serviceType)], attributeList));
  }

  /** The branch for exactly one existing service: type check, comparisons, clearing of extra attributes, modify. */
  method UpdateAccountService(existing: SoapObject, containerDn: string, name: string, serviceType: string,
                              w: DesiredService, configuration: Configuration, checkMode: bool) returns (r: Result<Action>)
    requires configuration.Valid()
    modifies configuration
    ensures configuration.Valid()
    ensures Outcome(r, configuration.Contents())
            == DecideExisting(existing, containerDn, name, serviceType, w, old(configuration.Contents()), checkMode)
  {
    ghost var p := configuration.Contents();
    if serviceType != existing.profileName {
      return Ok(Respond(false, [ServiceTypeMismatch(name, containerDn, existing.profileName, serviceType)]));
    }
    var diff := CompareAccountFields(existing, w);
    if diff.Err? {
      return Err(diff.error);
    }
    var configurationDiffers := configuration.MarkUnchanged(existing);
    if configurationDiffers.Err? {
      return configurationDiffers.PropagateFailure();
    }
    var doNotCheck := AccountDoNotCheck + LowerEach(configuration.keys);
    var existingKeys := ListSoapAttributeKeys(existing);
    assert existingKeys == AttributeKeys(existing.attributes);
    configuration.ClearExtras(existingKeys, doNotCheck);
    if diff.value.modifyRequired || configurationDiffers.value {
      if checkMode {
        return Ok(Respond(true, []));
      }
      var attributeList :- BuildAttributes(diff.value.changes, configuration);
      return Ok(Modify(existing.itimDN, attributeList));
    }
    return Ok(Respond(false, []));
  }

  /** The conversions of the container path and of the owner and prerequisite names into DNs. */
  method ResolveNames(resolver: Resolver, req: AccountServiceRequest) returns (r: Result<Resolved>)
    ensures r == Resolve(resolver, req)
  {
    var ownerName := TextOrEmpty(req.ownerName);
    var prerequisiteName := TextOrEmpty(req.prerequisiteName);
    var containerDn :- resolver.containerPathToDn(req.containerPath);
    var organization :- Organization(req.containerPath);
    var ownerDn := "";
    if ownerName != "" {
      ownerDn :- resolver.encodeToIsimDn(organization, ownerName, "person");
    }
    var prerequisiteDn := "";
    if prerequisiteName != "" {
      prerequisiteDn :- resolver.encodeToIsimDn(organization, prerequisiteName, "service");
    }
    return Ok(Resolved(containerDn, Desired(req, ownerDn, prerequisiteDn)));
  }

  /** `apply_account_service`: validate, fill in empties, prepare the dict, resolve, search, then create, compare or warn. */
  method ApplyAccountService(resolver: Resolver, search: Search, req: AccountServiceRequest,
                             configuration: Configuration, checkMode: bool, force: bool) returns (r: Result<Action>)
    requires configuration.Valid()
    modifies configuration
    ensures configuration.Valid()
    ensures Outcome(r, configuration.Contents())
            == Decision(resolver, search, req, old(configuration.Contents()), checkMode, force)
  {
    if !(req.containerPath != "" && req.name != "" && req.serviceType != "" && |configuration.keys| > 0) {
      return Err(ValueError);
    }
    if req.defineAccess == Some(true) && !(req.accessName.Some? && req.accessName.value != "") {
      return Err(ValueError);
    }
    configuration.FillEmpty();
    configuration.LowerKeys();
    var resolved :- ResolveNames(resolver, req);
    var containerDn, w := resolved.containerDn, resolved.desired;

    var searchResponse :- search(containerDn, NameFilter(req.name));
    if searchResponse.rc != 0 {
      return Ok(Forward(searchResponse.rc));
    }
    var exactMatches := FindExactMatches(searchResponse.results, req.name);
    if |exactMatches| == 0 || force {
      if checkMode {
        return Ok(Respond(true, []));
      }
      r := CreateAccountService(containerDn, req.name, req.serviceType, w, configuration);
    } else if |exactMatches| == 1 {
      r := UpdateAccountService(exactMatches[0], containerDn, req.name, req.serviceType, w, configuration, checkMode);
    } else {
      r := Ok(Respond(false, [AmbiguousService(req.name, containerDn)]));
    }
  }

  // ---------------------------------------------------------------------
  // Properties
  // ---------------------------------------------------------------------

  /** The existing service's general fields are all in sync. */
  predicate GeneralInSync(attrs: seq<Attribute>, w: DesiredService) {
    TextDiffers(AttributeValues(attrs, "description"), w.description) == Ok(false)
    && TextDiffers(AttributeValues(attrs, "owner"), w.ownerDn) == Ok(false)
    && TextDiffers(AttributeValues(attrs, "erprerequisite"), w.prerequisiteDn) == Ok(false)
    && TextDiffers(AttributeValues(attrs, "eraccessoption"), AccessOptionText(w.defineAccess)) == Ok(false)
    && TextDiffers(AttributeValues(attrs, "eraccessname"), w.accessName) == Ok(false)
  }

  /** The existing service's remaining access fields are all in sync. */
  predicate AccessInSync(attrs: seq<Attribute>, w: DesiredService) {
    AccessTypeDiffers(AttributeValues(attrs, "eraccesscategory"), w.accessType) == Ok(false)
    && TextDiffers(AttributeValues(attrs, "eraccessdescription"), w.accessDescription) == Ok(false)
    && TextDiffers(AttributeValues(attrs, "erimageuri"), w.imageUri) == Ok(false)
    && !ListDiffers(AttributeValues(attrs, "eraccesstag"), w.searchTerms)
    && TextDiffers(AttributeValues(attrs, "eradditionalinformation"), w.additionalInfo) == Ok(false)
    && !ListDiffers(AttributeValues(attrs, "erbadge"), BadgeStrings(w.badges))
  }

  /** The existing service already has every desired fixed value. */
  predicate InSync(attrs: seq<Attribute>, w: DesiredService) {
    GeneralInSync(attrs, w) && AccessInSync(attrs, w)
  }

  lemma GeneralNoDifferenceIffInSync(attrs: seq<Attribute>, w: DesiredService)
    ensures GeneralComparisons(attrs, w) == Ok(GeneralDiffers(false, false, false, false, false)) <==> GeneralInSync(attrs, w)
  {
  }

  lemma AccessNoDifferenceIffInSync(attrs: seq<Attribute>, w: DesiredService)
    ensures AccessComparisons(attrs, w) == Ok(AccessDiffers(false, false, false, false, false, false)) <==> AccessInSync(attrs, w)
  {
  }

  /** The fixed fields force no modify, without raising, exactly when they are all in sync. */
  lemma FieldsNoDifferenceIffInSync(attrs: seq<Attribute>, w: DesiredService)
    ensures AccountFieldDiff(attrs, w).Ok? && !AccountFieldDiff(attrs, w).value.modifyRequired <==> InSync(attrs, w)
  {
    GeneralNoDifferenceIffInSync(attrs, w);
    AccessNoDifferenceIffInSync(attrs, w);
  }

  /** The steps of the one-match branch once the service type matches. */
  lemma DecideExistingSteps(existing: SoapObject, containerDn: string, name: string, w: DesiredService, p: Dict, checkMode: bool)
    requires WellFormed(p)
    ensures var o := DecideExisting(existing, containerDn, name, existing.profileName, w, p, checkMode);
            var diff := AccountFieldDiff(existing.attributes, w);
            var m := Mark(p, existing.attributes);
            && (diff.Err? ==> o == Outcome(Err(diff.error), p))
            && (diff.Ok? && m.outcome.Err? ==> o == Outcome(Err(m.outcome.error), m.dict))
            && (diff.Ok? && m.outcome.Ok? ==>
                  o.configuration == ClearAll(m.dict, AttributeKeys(existing.attributes), Skipped(p))
                  && (o.action == Ok(Respond(false, [])) <==> !diff.value.modifyRequired && !m.outcome.value))
  {
  }

  /**
   * With a matching service type, an existing service is left alone exactly
   * when every fixed field and every configuration entry is in sync;
   * existing attributes outside the configuration never force a modify.
   */
  lemma NoChangeIffInSync(existing: SoapObject, containerDn: string, name: string, w: DesiredService, p: Dict, checkMode: bool)
    requires WellFormed(p)
    ensures DecideExisting(existing, containerDn, name, existing.profileName, w, p, checkMode).action == Ok(Respond(false, []))
            <==> InSync(existing.attributes, w) && forall k :: k in p.values ==> KeyDiffers(p, existing.attributes, k) == Ok(false)
  {
    DecideExistingSteps(existing, containerDn, name, w, p, checkMode);
    FieldsNoDifferenceIffInSync(existing.attributes, w);
    MarkOutcome(p, existing.attributes);
  }

  /** When the search terms or the badges are only reordered, the comparisons come out the same. */
  lemma ListOrderIgnored(attrs: seq<Attribute>, w: DesiredService, searchTerms: seq<string>, badges: seq<Badge>)
    requires multiset(searchTerms) == multiset(w.searchTerms)
    requires multiset(BadgeStrings(badges)) == multiset(BadgeStrings(w.badges))
    ensures Comparisons(attrs, w.(searchTerms := searchTerms, badges := badges)) == Comparisons(attrs, w)
  {
    var w' := w.(searchTerms := searchTerms, badges := badges);
    assert GeneralComparisons(attrs, w') == GeneralComparisons(attrs, w);
    ListDiffersIgnoresOrder(AttributeValues(attrs, "eraccesstag"), searchTerms, w.searchTerms);
    ListDiffersIgnoresOrder(AttributeValues(attrs, "erbadge"), BadgeStrings(badges), BadgeStrings(w.badges));
    assert AccessComparisons(attrs, w') == AccessComparisons(attrs, w);
  }

  /** Whenever the builder is given an owner, the owner field is the last change to the owner attribute. */
  lemma OwnerFieldDecides(c: ServiceChanges, d: Dict)
    requires WellFormed(d) && c.owner.Some? && Attributes(c, d).Ok?
    ensures EffectOf(Attributes(c, d).value, "owner") == FieldEffect(TextField("owner", c.owner))
  {
    var category := CategoryField(c.accessType).value;
    var pre := HeadFields(c) + ConfigFields(d);
    var ownership, access, feed := OwnershipFields(c), AccessFields(c, category), FeedFields(c);
    var post := ownership + access + feed;
    assert Fields(c, d) == Ok(pre + ownership + access + feed);
    assert pre + ownership + access == pre + (ownership + access);
    assert pre + (ownership + access) + feed == pre + post;
    ChangeListConcat(pre, post);
    OnlyFirstIsOwner(c, category);
    ChangeListLastEffect(post, 0, "owner");
    EffectOfConcat(ChangeList(pre), ChangeList(post), "owner");
  }

  /** After the ownership fields begin with the owner, no later fixed field is named owner in any case. */
  lemma OnlyFirstIsOwner(c: ServiceChanges, category: Field)
    requires category.name == "eraccesscategory"
    ensures var post := OwnershipFields(c) + AccessFields(c, category) + FeedFields(c);
            forall j :: 1 <= j < |post| ==> !EqualsIgnoreCase(post[j].name, "owner")
  {
    var post := OwnershipFields(c) + AccessFields(c, category) + FeedFields(c);
    forall j | 1 <= j < |post|
      ensures !EqualsIgnoreCase(post[j].name, "owner")
    {
      if j < 5 {
        assert post[j] == OwnershipFields(c)[j];
      } else if j < 10 {
        assert post[j] == AccessFields(c, category)[j - 5];
      } else {
        assert post[j] == FeedFields(c)[j - 10];
      }
      assert |Lower(post[j].name)| != 5;
    }
  }

  /**
   * The owner quirk: with no owner attribute on the existing service and no
   * owner requested, the owner does not force a modify, yet it is passed to
   * the modify call as '', which clears it.
   */
  lemma AbsentOwnerIsCleared(attrs: seq<Attribute>, w: DesiredService, d: Dict)
    requires WellFormed(d)
    requires AttributeValues(attrs, "owner").None? && w.ownerDn == ""
    requires Comparisons(attrs, w).Ok?
    ensures !Comparisons(attrs, w).value.general.owner
    ensures AccountFieldDiff(attrs, w).value.changes.owner == Some("")
    ensures var list := Attributes(AccountFieldDiff(attrs, w).value.changes, d);
            list.Ok? ==> EffectOf(list.value, "owner") == Cleared
  {
    AbsentOwnerChange(attrs, w);
    var c := AccountFieldDiff(attrs, w).value.changes;
    if Attributes(c, d).Ok? {
      OwnerFieldDecides(c, d);
    }
  }

  /** With no owner on either side, the owner is not a difference, yet the change set carries it as ''. */
  lemma AbsentOwnerChange(attrs: seq<Attribute>, w: DesiredService)
    requires AttributeValues(attrs, "owner").None? && w.ownerDn == ""
    requires Comparisons(attrs, w).Ok?
    ensures !Comparisons(attrs, w).value.general.owner
    ensures AccountFieldDiff(attrs, w).value.changes.owner == Some("")
  {
  }

  /**
   * After the comparisons, every existing attribute outside the fixed fields
   * and the configuration is set to '' in the dict, and the configuration's
   * own entries keep what the comparison loop left.
   */
  lemma ExtraAttributesCleared(existing: SoapObject, containerDn: string, name: string, w: DesiredService, p: Dict, checkMode: bool)
    requires WellFormed(p)
    requires AccountFieldDiff(existing.attributes, w).Ok? && Mark(p, existing.attributes).outcome.Ok?
    requires forall k :: k in p.values ==> Lower(k) == k
    ensures var o := DecideExisting(existing, containerDn, name, existing.profileName, w, p, checkMode);
            && (forall i :: 0 <= i < |existing.attributes| && Lower(existing.attributes[i].name) !in Skipped(p) ==>
                  var k := Lower(existing.attributes[i].name);
                  k in o.configuration.values && o.configuration.values[k] == Text(""))
            && (forall k :: k in p.values ==>
                  k in o.configuration.values && o.configuration.values[k] == Mark(p, existing.attributes).dict.values[k])
  {
    var attrs := existing.attributes;
    var m := Mark(p, attrs);
    DecideExistingSteps(existing, containerDn, name, w, p, checkMode);
    ClearAllEffect(m.dict, AttributeKeys(attrs), Skipped(p));
    forall k | k in p.values
      ensures k in Skipped(p)
    {
      var j :| 0 <= j < |p.keys| && p.keys[j] == k;
      assert LowerEach(p.keys)[j] == k;
    }
    forall i | 0 <= i < |attrs| ensures Lower(attrs[i].name) in AttributeKeys(attrs) {
      assert AttributeKeys(attrs)[i] == Lower(attrs[i].name);
    }
  }

  /**
   * The route a valid request takes: a failed resolution or a search that
   * raises makes the call raise, a response with a nonzero rc is passed
   * back, no exact match (or force) creates or, in check
   * mode, answers changed; exactly one exact match is compared; more than
   * one warns and changes nothing. Only the comparison touches the dict
   * beyond its preparation.
   */
  lemma Routing(resolver: Resolver, search: Search, req: AccountServiceRequest, d: Dict, checkMode: bool, force: bool)
    requires WellFormed(d) && ValidRequest(req, d)
    ensures var o := Decision(resolver, search, req, d, checkMode, force);
            var p := Prepared(d);
            var resolved := Resolve(resolver, req);
            && (resolved.Err? ==> o == Outcome(Err(resolved.error), p))
            && (resolved.Ok? ==>
                  var containerDn := resolved.value.containerDn;
                  var searched := search(containerDn, NameFilter(req.name));
                  && (searched.Err? ==> o == Outcome(Err(searched.error), p))
                  && (searched.Ok? ==>
                        var response := searched.value;
                        var exactMatches := ExactMatches(response.results, req.name);
                        && (response.rc != 0 ==> o == Outcome(Ok(Forward(response.rc)), p))
                        && (response.rc == 0 && (|exactMatches| == 0 || force) ==>
                              o == Outcome(if checkMode then Ok(Respond(true, []))
                                           else CreateDecision(containerDn, req.name, req.serviceType, resolved.value.desired, p), p))
                        && (response.rc == 0 && |exactMatches| == 1 && !force ==>
                              o == DecideExisting(exactMatches[0], containerDn, req.name, req.serviceType, resolved.value.desired, p, checkMode))
                        && (response.rc == 0 && |exactMatches| > 1 && !force ==>
                              o == Outcome(Ok(Respond(false, [AmbiguousService(req.name, containerDn)])), p))))
  {
  }

  /** A differing service type is never changed: the call warns and leaves the prepared dict as it is. */
  lemma ServiceTypeMismatchWarns(existing: SoapObject, containerDn: string, name: string, serviceType: string,
                                 w: DesiredService, p: Dict, checkMode: bool)
    requires WellFormed(p) && serviceType != existing.profileName
    ensures DecideExisting(existing, containerDn, name, serviceType, w, p, checkMode)
            == Outcome(Ok(Respond(false, [ServiceTypeMismatch(name, containerDn, existing.profileName, serviceType)])), p)
  {
  }

  /** The one-match branch leaves only lower-case keys when the prepared dict has only lower-case keys. */
  lemma DecideExistingKeysLowerCase(existing: SoapObject, containerDn: string, name: string, serviceType: string,
                                    w: DesiredService, p: Dict, checkMode: bool)
    requires WellFormed(p) && forall k :: k in p.values ==> Lower(k) == k
    ensures forall k :: k in DecideExisting(existing, containerDn, name, serviceType, w, p, checkMode).configuration.values ==>
              Lower(k) == k
  {
    if serviceType == existing.profileName {
      var attrs := existing.attributes;
      DecideExistingSteps(existing, containerDn, name, w, p, checkMode);
      var m := Mark(p, attrs);
      ClearAllEffect(m.dict, AttributeKeys(attrs), Skipped(p));
      forall i | 0 <= i < |attrs|
        ensures Lower(AttributeKeys(attrs)[i]) == AttributeKeys(attrs)[i]
      {
        LowerIdempotent(attrs[i].name);
      }
    }
  }

  /** Whatever the outcome of a valid request, every key of the configuration dict it leaves is lower case. */
  lemma ConfigurationKeysLowerCase(resolver: Resolver, search: Search, req: AccountServiceRequest, d: Dict,
                                   checkMode: bool, force: bool)
    requires WellFormed(d) && ValidRequest(req, d)
    ensures forall k :: k in Decision(resolver, search, req, d, checkMode, force).configuration.values ==> Lower(k) == k
  {
    Routing(resolver, search, req, d, checkMode, force);
    PreparedKeys(d);
    var resolved := Resolve(resolver, req);
    if resolved.Ok? {
      var searched := search(resolved.value.containerDn, NameFilter(req.name));
      if searched.Ok? && searched.value.rc == 0 && |ExactMatches(searched.value.results, req.name)| == 1 && !force {
        var exactMatches := ExactMatches(searched.value.results, req.name);
        DecideExistingKeysLowerCase(exactMatches[0], resolved.value.containerDn, req.name, req.serviceType,
                                    resolved.value.desired, Prepared(d), checkMode);
      }
    }
  }

  /**
   * Creating a service without an access type always raises: the builder
   * maps the '' the missing type was replaced by, and '' is not a known type.
   */
  lemma CreateWithoutAccessTypeRaises(resolver: Resolver, search: Search, req: AccountServiceRequest, d: Dict, force: bool)
    requires WellFormed(d) && ValidRequest(req, d)
    requires req.accessType.None? || req.accessType == Some("")
    requires Resolve(resolver, req).Ok?
    requires var searched := search(Resolve(resolver, req).value.containerDn, NameFilter(req.name));
             searched.Ok? && searched.value.rc == 0 && (|ExactMatches(searched.value.results, req.name)| == 0 || force)
    ensures Decision(resolver, search, req, d, false, force) == Outcome(Err(ValueError), Prepared(d))
  {
    Routing(resolver, search, req, d, false, force);
    assert Resolve(resolver, req).value.desired.accessType == "";
  }
}
