/**
 * `apply_identity_feed`: validate the request, fill in empties, prepare the
 * configuration dict in place, resolve the container, convert the naming
 * contexts in the dict from container paths into DNs, search for the feed
 * by name, then create it, compare it with the one existing feed of that
 * name, or warn.
 *
 * As for account services, `Decision` specifies the action and the dict the
 * call leaves, and `ApplyIdentityFeed` follows the code and is proved to
 * agree with it.
 */
module IdentityFeed {
  import opened Common
  import opened Tools
  import opened Reconcile
  import opened ServiceConfig
  import opened Service

  // ---------------------------------------------------------------------
  // The request and its normalized form
  // ---------------------------------------------------------------------

  /** The arguments of `apply_identity_feed` other than the configuration dict; None is an omitted argument. */
  datatype FeedRequest = FeedRequest(
    containerPath: string,
    name: string,
    serviceType: string,
    description: Option<string>,
    useWorkflow: Option<bool>,
    evaluateSod: Option<bool>,
    placementRule: Option<string>)

  /** The checks made before anything else: non-empty path, name, type and configuration. */
  predicate ValidRequest(req: FeedRequest, d: Dict) {
    req.containerPath != "" && req.name != "" && req.serviceType != "" && |d.keys| > 0
  }

  /** The desired values once None has been replaced by '' or False. */
  datatype DesiredFeed = DesiredFeed(description: string, useWorkflow: bool, evaluateSod: bool, placementRule: string)

  /** The request with empties filled in. */
  function Desired(req: FeedRequest): DesiredFeed {
    DesiredFeed(
      if req.description.None? then "" else req.description.value,
      req.useWorkflow == Some(true),
      req.evaluateSod == Some(true),
      if req.placementRule.None? then "" else req.placementRule.value)
  }

  // ---------------------------------------------------------------------
  // Comparing the fixed fields with an existing feed
  // ---------------------------------------------------------------------

  /** How a flag is stored: 'True' or 'False'. */
  function FlagText(flag: bool): string {
    if flag then "True" else "False"
  }

  /** Which fixed fields differ from the existing feed. */
  datatype FeedDiffers = FeedDiffers(description: bool, useWorkflow: bool, evaluateSod: bool, placementRule: bool)

  /**
   * The comparisons, in order; the first one that raises stops the rest. An
   * absent workflow or separation-of-duties flag always differs.
   */
  function Comparisons(attrs: seq<Attribute>, w: DesiredFeed): Result<FeedDiffers> {
    var description :- TextDiffers(AttributeValues(attrs, "description"), w.description);
    var useWorkflow :- TextDiffersStrict(AttributeValues(attrs, "eruseworkflow"), FlagText(w.useWorkflow));
    var evaluateSod :- TextDiffersStrict(AttributeValues(attrs, "erevaluatesod"), FlagText(w.evaluateSod));
    var placementRule :- TextDiffers(AttributeValues(attrs, "erplacementrule"), w.placementRule);
    Ok(FeedDiffers(description, useWorkflow, evaluateSod, placementRule))
  }

  /** Some fixed field differs. */
  predicate AnyDiffers(m: FeedDiffers) {
    m.description || m.useWorkflow || m.evaluateSod || m.placementRule
  }

  /** The values passed to the modify call: the differing ones; the account-service fields are never passed. */
  function ChangesOf(m: FeedDiffers, w: DesiredFeed): ServiceChanges {
    ServiceChanges(
      None, SendIf(m.description, w.description),
      None, None, None, None, None, None, None, None, None, None,
      SendIf(m.useWorkflow, w.useWorkflow), SendIf(m.evaluateSod, w.evaluateSod),
      SendIf(m.placementRule, w.placementRule))
  }

  /** The comparison of the fixed fields: the values to send and whether they force a modify. */
  function FeedFieldDiff(attrs: seq<Attribute>, w: DesiredFeed): (r: Result<FieldDiff>)
    ensures r.Err? <==> Comparisons(attrs, w).Err?
    ensures r.Ok? ==> r.value.modifyRequired == AnyDiffers(Comparisons(attrs, w).value)
    ensures r.Ok? ==> r.value.changes.accessType.None?
  {
    var m :- Comparisons(attrs, w);
    Ok(FieldDiff(ChangesOf(m, w), AnyDiffers(m)))
  }

  /** The existing feed already has every desired fixed value. */
  predicate InSync(attrs: seq<Attribute>, w: DesiredFeed) {
    TextDiffers(AttributeValues(attrs, "description"), w.description) == Ok(false)
    && TextDiffersStrict(AttributeValues(attrs, "eruseworkflow"), FlagText(w.useWorkflow)) == Ok(false)
    && TextDiffersStrict(AttributeValues(attrs, "erevaluatesod"), FlagText(w.evaluateSod)) == Ok(false)
    && TextDiffers(AttributeValues(attrs, "erplacementrule"), w.placementRule) == Ok(false)
  }

  // ---------------------------------------------------------------------
  // The decision
  // ---------------------------------------------------------------------

  /** The attributes the comparison never clears: the fixed fields and the server's own bookkeeping attributes. */
  const FeedDoNotCheck: seq<string> := [
    "description", "eruseworkflow", "erevaluatesod", "erplacementrule", "eradapterprofileversion",
    "eradapterlaststatustime", "erparent", "objectclass", "erlastmodifiedtime", "eradapteruptime",
    "erglobalid", "erservicename"]

  /** The keys the clearing step skips: the fixed ones and the lower-cased configuration keys. */
  function Skipped(p: Dict): seq<string> {
    FeedDoNotCheck + LowerEach(p.keys)
  }

  /** Every feed value is sent on create; the account-service fields are not. */
  function CreateChanges(name: string, w: DesiredFeed): (c: ServiceChanges)
    ensures c.accessType.None?
  {
    ServiceChanges(
      Some(name), Some(w.description),
      None, None, None, None, None, None, None, None, None, None,
      Some(w.useWorkflow), Some(w.evaluateSod), Some(w.placementRule))
  }

  /** `_create_identity_feed`: the container DN and the service type, with every feed value sent. */
  function CreateDecision(containerDn: string, name: string, serviceType: string, w: DesiredFeed, p: Dict): (r: Result<Action>)
    requires WellFormed(p)
    ensures r.Ok? && r.value.Create? && r.value.parent == containerDn && r.value.fields == [("profileName", serviceType)]
  {
    var attrs := Attributes(CreateChanges(name, w), p);
    Ok(Create(containerDn, [("profileName", serviceType)], attrs.value))
  }

  /** What the code does with the one existing feed of the requested name, and the dict it leaves. */
  function DecideExisting(existing: SoapObject, containerDn: string, name: string, serviceType: string,
                          w: DesiredFeed, p: Dict, checkMode: bool): (o: Outcome)
    requires WellFormed(p)
    ensures o.action.Ok? && o.action.value.Modify? ==> !checkMode && o.action.value.dn == existing.itimDN
    ensures o.action.Ok? ==> !o.action.value.Create? && !o.action.value.Forward?
  {
    var attrs := existing.attributes;
    if serviceType != existing.profileName then
      Outcome(Ok(Respond(false, [ServiceTypeMismatch(name, containerDn, existing.profileName, serviceType)])), p)
    else
      var diff := FeedFieldDiff(attrs, w);
      if diff.Err? then Outcome(Err(diff.error), p)
      else
        var m := Mark(p, attrs);
        if m.outcome.Err? then Outcome(Err(m.outcome.error), m.dict)
        else
          var cleared := ClearAll(m.dict, AttributeKeys(attrs), Skipped(p));
          if !(diff.value.modifyRequired || m.outcome.value) then Outcome(Ok(Respond(false, [])), cleared)
          else if checkMode then Outcome(Ok(Respond(true, [])), cleared)
          else
            Outcome(Ok(Modify(existing.itimDN, Attributes(diff.value.changes, cleared).value)), cleared)
  }

  /** `apply_identity_feed`, as a function of the resolver's and the search's answers and of the dict passed in. */
  function Decision(resolver: Resolver, search: Search, req: FeedRequest, d: Dict, checkMode: bool, force: bool): (o: Outcome)
    requires WellFormed(d)
    ensures !ValidRequest(req, d) ==> o == Outcome(Err(ValueError), d)
    ensures o.action.Ok? && (o.action.value.Create? || o.action.value.Modify?) ==> !checkMode
  {
    if !ValidRequest(req, d) then Outcome(Err(ValueError), d)
    else
      var prepared := Prepared(d);
      var containerDn := resolver.containerPathToDn(req.containerPath);
      if containerDn.Err? then Outcome(Err(containerDn.error), prepared)
      else
        var staged := NamingContexts(resolver.containerPathToDn, prepared);
        var p := staged.dict;
        if staged.raised.Some? then Outcome(Err(staged.raised.value), p)
        else
          var searched := search(containerDn.value, NameFilter(req.name));
          if searched.Err? then Outcome(Err(searched.error), p)
          else
            var response := searched.value;
            if response.rc != 0 then Outcome(Ok(Forward(response.rc)), p)
            else
              var exactMatches := ExactMatches(response.results, req.name);
              var w := Desired(req);
              if |exactMatches| == 0 || force then
                Outcome(if checkMode then Ok(Respond(true, [])) else CreateDecision(containerDn.value, req.name, req.serviceType, w, p), p)
              else if |exactMatches| == 1 then
                DecideExisting(exactMatches[0], containerDn.value, req.name, req.serviceType, w, p, checkMode)
              else
                Outcome(Ok(Respond(false, [AmbiguousService(req.name, containerDn.value)])), p)
  }

  // ---------------------------------------------------------------------
  // The code, step by step
  // ---------------------------------------------------------------------

  /**
   * The comparison block: `modify_required` is set by any differing field,
   * and each value is reset to None when it matches.
   */
  method CompareFeedFields(existing: SoapObject, w: DesiredFeed) returns (r: Result<FieldDiff>)
    ensures r == FeedFieldDiff(existing.attributes, w)
  {
    var existingValue := GetSoapAttribute(existing, "description");
    var descriptionDiffers :- CompareText(existingValue, w.description);
    existingValue := GetSoapAttribute(existing, "eruseworkflow");
    var useWorkflowDiffers :- CompareTextStrict(existingValue, FlagText(w.useWorkflow));
    existingValue := GetSoapAttribute(existing, "erevaluatesod");
    var evaluateSodDiffers :- CompareTextStrict(existingValue, FlagText(w.evaluateSod));
    existingValue := GetSoapAttribute(existing, "erplacementrule");
    var placementRuleDiffers :- CompareText(existingValue, w.placementRule);
    var modifyRequired := descriptionDiffers || useWorkflowDiffers || evaluateSodDiffers || placementRuleDiffers;
    var changes := ServiceChanges(
      None, SendIf(descriptionDiffers, w.description),
      None, None, None, None, None, None, None, None, None, None,
      SendIf(useWorkflowDiffers, w.useWorkflow), SendIf(evaluateSodDiffers, w.evaluateSod),
      SendIf(placementRuleDiffers, w.placementRule));
    return Ok(FieldDiff(changes, modifyRequired));
  }

  /** `_create_identity_feed`: build every feed attribute and send them with the container DN and the service type. */
  method CreateIdentityFeed(containerDn: string, name: string, serviceType: string, w: DesiredFeed,
                            configuration: Configuration) returns (r: Result<Action>)
    requires configuration.Valid()
    ensures r == CreateDecision(containerDn, name, serviceType, w, configuration.Contents())
  {
    var attributeList := BuildAttributes(CreateChanges(name, w), configuration);
    return Ok(Create(containerDn, [("profileName", serviceType)], attributeList.value));
  }

  /** The branch for exactly one existing feed: type check, comparisons, clearing of extra attributes, modify. */
  method UpdateIdentityFeed(existing: SoapObject, containerDn: string, name: string, serviceType: string,
                            w: DesiredFeed, configuration: Configuration, checkMode: bool) returns (r: Result<Action>)
    requires configuration.Valid()
    modifies configuration
    ensures configuration.Valid()
    ensures Outcome(r, configuration.Contents())
            == DecideExisting(existing, containerDn, name, serviceType, w, old(configuration.Contents()), checkMode)
  {
    if serviceType != existing.profileName {
      return Ok(Respond(false, [ServiceTypeMismatch(name, containerDn, existing.profileName, serviceType)]));
    }
    var diff := CompareFeedFields(existing, w);
    if diff.Err? {
      return Err(diff.error);
    }
    var configurationDiffers := configuration.MarkUnchanged(existing);
    if configurationDiffers.Err? {
      return configurationDiffers.PropagateFailure();
    }
    var doNotCheck := FeedDoNotCheck + LowerEach(configuration.keys);
    var existingKeys := ListSoapAttributeKeys(existing);
    assert existingKeys == AttributeKeys(existing.attributes);
    configuration.ClearExtras(existingKeys, doNotCheck);
    if diff.value.modifyRequired || configurationDiffers.value {
      if checkMode {
        return Ok(Respond(true, []));
      }
      var attributeList := BuildAttributes(diff.value.changes, configuration);
      return Ok(Modify(existing.itimDN, attributeList.value));
    }
    return Ok(Respond(false, []));
  }

  /** `apply_identity_feed`: validate, fill in empties, prepare the dict, resolve, convert, search, then act. */
  method ApplyIdentityFeed(resolver: Resolver, search: Search, req: FeedRequest, configuration: Configuration,
                           checkMode: bool, force: bool) returns (r: Result<Action>)
    requires configuration.Valid()
    modifies configuration
    ensures configuration.Valid()
    ensures Outcome(r, configuration.Contents()) == Decision(resolver, search, req, old(configuration.Contents()), checkMode, force)
  {
    if !(req.containerPath != "" && req.name != "" && req.serviceType != "" && |configuration.keys| > 0) {
      return Err(ValueError);
    }
    var w := Desired(req);
    configuration.FillEmpty();
    configuration.LowerKeys();

    var containerDn :- resolver.containerPathToDn(req.containerPath);
    var raised := configuration.ConvertNamingContexts(resolver.containerPathToDn);
    if raised.Some? {
      return Err(raised.value);
    }

    var searchResponse :- search(containerDn, NameFilter(req.name));
    if searchResponse.rc != 0 {
      return Ok(Forward(searchResponse.rc));
    }
    var exactMatches := FindExactMatches(searchResponse.results, req.name);
    if |exactMatches| == 0 || force {
      if checkMode {
        return Ok(Respond(true, []));
      }
      r := CreateIdentityFeed(containerDn, req.name, req.serviceType, w, configuration);
    } else if |exactMatches| == 1 {
      r := UpdateIdentityFeed(exactMatches[0], containerDn, req.name, req.serviceType, w, configuration, checkMode);
    } else {
      r := Ok(Respond(false, [AmbiguousService(req.name, containerDn)]));
    }
  }

  // ---------------------------------------------------------------------
  // Properties
  // ---------------------------------------------------------------------

  /** The fixed fields force no modify, without raising, exactly when they are all in sync. */
  lemma FieldsNoDifferenceIffInSync(attrs: seq<Attribute>, w: DesiredFeed)
    ensures FeedFieldDiff(attrs, w).Ok? && !FeedFieldDiff(attrs, w).value.modifyRequired <==> InSync(attrs, w)
  {
  }

  /** The steps of the one-match branch once the service type matches. */
  lemma DecideExistingSteps(existing: SoapObject, containerDn: string, name: string, w: DesiredFeed, p: Dict, checkMode: bool)
    requires WellFormed(p)
    ensures var o := DecideExisting(existing, containerDn, name, existing.profileName, w, p, checkMode);
            var diff := FeedFieldDiff(existing.attributes, w);
            var m := Mark(p, existing.attributes);
            && (diff.Err? ==> o == Outcome(Err(diff.error), p))
            && (diff.Ok? && m.outcome.Err? ==> o == Outcome(Err(m.outcome.error), m.dict))
            && (diff.Ok? && m.outcome.Ok? ==>
                  o.configuration == ClearAll(m.dict, AttributeKeys(existing.attributes), Skipped(p))
                  && (o.action == Ok(Respond(false, [])) <==> !diff.value.modifyRequired && !m.outcome.value)
                  && (!checkMode && (diff.value.modifyRequired || m.outcome.value) ==> o.action.Ok? && o.action.value.Modify?))
  {
  }

  /**
   * With a matching service type, an existing feed is left alone exactly
   * when every fixed field and every configuration entry is in sync.
   */
  lemma NoChangeIffInSync(existing: SoapObject, containerDn: string, name: string, w: DesiredFeed, p: Dict, checkMode: bool)
    requires WellFormed(p)
    ensures DecideExisting(existing, containerDn, name, existing.profileName, w, p, checkMode).action == Ok(Respond(false, []))
            <==> InSync(existing.attributes, w) && forall k :: k in p.values ==> KeyDiffers(p, existing.attributes, k) == Ok(false)
  {
    DecideExistingSteps(existing, containerDn, name, w, p, checkMode);
    FieldsNoDifferenceIffInSync(existing.attributes, w);
    MarkOutcome(p, existing.attributes);
  }

  /**
   * A feed with no workflow flag or no separation-of-duties flag stored is
   * always modified (or reported as changed in check mode), whatever the
   * desired values, unless a comparison raises.
   */
  lemma AbsentFlagForcesModify(existing: SoapObject, containerDn: string, name: string, w: DesiredFeed, p: Dict, checkMode: bool)
    requires WellFormed(p)
    requires AttributeValues(existing.attributes, "eruseworkflow").None? || AttributeValues(existing.attributes, "erevaluatesod").None?
    ensures var o := DecideExisting(existing, containerDn, name, existing.profileName, w, p, checkMode);
            && (o.action.Ok? && checkMode ==> o.action.value == Respond(true, []))
            && (o.action.Ok? && !checkMode ==> o.action.value.Modify?)
  {
    DecideExistingSteps(existing, containerDn, name, w, p, checkMode);
  }

  /** The feed builder never raises: the access type, the only field that can, is never passed. */
  lemma FeedBuilderNeverRaises(m: FeedDiffers, w: DesiredFeed, name: string, d: Dict)
    requires WellFormed(d)
    ensures Attributes(ChangesOf(m, w), d).Ok?
    ensures Attributes(CreateChanges(name, w), d).Ok?
  {
  }

  /**
   * The naming contexts listed in the prepared dict are converted from
   * container paths into DNs, in order, before anything is created: the
   * call raises when one of them cannot be resolved, and otherwise the dict
   * the create call builds from holds the DN of each listed path.
   */
  lemma NamingContextsConverted(resolver: Resolver, search: Search, req: FeedRequest, d: Dict, force: bool)
    requires WellFormed(d) && ValidRequest(req, d)
    requires NamingContextsKey in Prepared(d).values && Prepared(d).values[NamingContextsKey].Items?
    requires resolver.containerPathToDn(req.containerPath).Ok?
    ensures var o := Decision(resolver, search, req, d, false, force);
            var paths := Prepared(d).values[NamingContextsKey].xs;
            && ((exists i :: 0 <= i < |paths| && resolver.containerPathToDn(paths[i]).Err?) ==> o.action.Err?)
            && (o.action.Ok? && o.action.value.Create? ==>
                  NamingContextsKey in o.configuration.values && o.configuration.values[NamingContextsKey].Items?
                  && var dns := o.configuration.values[NamingContextsKey].xs;
                     |dns| == |paths| && forall i :: 0 <= i < |paths| ==> resolver.containerPathToDn(paths[i]) == Ok(dns[i]))
  {
  }

  /**
   * How a valid request is routed: a container or naming context that cannot
   * be resolved, or a search that raises, makes the call raise; otherwise the
   * search's return code and the number of exact matches decide.
   */
  lemma Routing(resolver: Resolver, search: Search, req: FeedRequest, d: Dict, checkMode: bool, force: bool)
    requires WellFormed(d) && ValidRequest(req, d)
    ensures var o := Decision(resolver, search, req, d, checkMode, force);
            var containerDn := resolver.containerPathToDn(req.containerPath);
            && (containerDn.Err? ==> o == Outcome(Err(containerDn.error), Prepared(d)))
            && (containerDn.Ok? ==>
                  var staged := NamingContexts(resolver.containerPathToDn, Prepared(d));
                  var p := staged.dict;
                  && (staged.raised.Some? ==> o == Outcome(Err(staged.raised.value), p))
                  && (staged.raised.None? ==>
                        var searched := search(containerDn.value, NameFilter(req.name));
                        && (searched.Err? ==> o == Outcome(Err(searched.error), p))
                        && (searched.Ok? ==>
                        var response := searched.value;
                        var exactMatches := ExactMatches(response.results, req.name);
                        && (response.rc != 0 ==> o == Outcome(Ok(Forward(response.rc)), p))
                        && (response.rc == 0 && (|exactMatches| == 0 || force) ==>
                              o == Outcome(if checkMode then Ok(Respond(true, []))
                                           else CreateDecision(containerDn.value, req.name, req.serviceType, Desired(req), p), p))
                        && (response.rc == 0 && |exactMatches| == 1 && !force ==>
                              o == DecideExisting(exactMatches[0], containerDn.value, req.name, req.serviceType, Desired(req), p, checkMode))
                        && (response.rc == 0 && |exactMatches| > 1 && !force ==>
                              o == Outcome(Ok(Respond(false, [AmbiguousService(req.name, containerDn.value)])), p)))))
  {
  }
}
