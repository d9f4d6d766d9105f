/**
 * `provisioningpolicy.create`: the encoding and validation of a new
 * provisioning policy. Each entitlement dict becomes an entitlement with a
 * service target, a provisioning type, a workflow DN and an ownership type.
 * The membership type becomes a list of memberships. The priority is
 * checked, and the scope is chosen from the subunit flag.
 *
 * `Policy` specifies what is sent or raised. `CreatePolicy` follows the
 * code's loops and is proved to agree with it.
 */
module ProvisioningPolicy {
  import opened Common

  // ---------------------------------------------------------------------
  // Arguments
  // ---------------------------------------------------------------------

  /**
   * One entitlement dict. A key the dict does not hold is None. The
   * workflow's value may itself be None, meaning no workflow.
   */
  datatype EntitlementArgs = EntitlementArgs(
    automatic: Option<bool>,
    ownershipType: Option<string>,
    targetType: Option<string>,
    serviceType: Option<string>,
    serviceDn: Option<string>,
    workflow: Option<Option<string>>)

  /** The arguments of `create` apart from the application and the container. */
  datatype PolicyArgs = PolicyArgs(
    name: string,
    priority: int,
    description: string,
    keywords: string,
    caption: string,
    availableToSubunits: bool,
    enabled: bool,
    membershipType: string,
    membershipRoles: seq<string>,
    entitlements: seq<EntitlementArgs>)

  // ---------------------------------------------------------------------
  // What is sent
  // ---------------------------------------------------------------------

  /** The services an entitlement targets: a name and a type code. */
  datatype ServiceTarget = ServiceTarget(name: string, targetType: string)

  /**
   * One encoded entitlement. The provisioning type is 1 for automatic and 0
   * for manual.
   */
  datatype Entitlement = Entitlement(serviceTarget: ServiceTarget, provisioningType: int, processDn: string, ownershipType: string)

  /** Who the policy applies to: a name and a type code. */
  datatype Membership = Membership(name: string, membershipType: string)

  /** The policy object sent to the server. The container is given by its DN. */
  datatype PolicyObject = PolicyObject(
    description: string,
    name: string,
    keywords: string,
    caption: string,
    entitlements: seq<Entitlement>,
    membership: seq<Membership>,
    priority: int,
    scope: int,
    organizationalContainer: string,
    enabled: bool)

  /**
   * What the call ends in. When a preliminary lookup fails, its non-zero
   * return code is passed back. Otherwise the policy is sent.
   */
  datatype PolicyCall = Forwarded(rc: int) | CreateRequest(policy: PolicyObject)

  // ---------------------------------------------------------------------
  // Encoding one entitlement
  // ---------------------------------------------------------------------

  /** The dict holds the keys every entitlement needs. */
  predicate HasRequiredKeys(e: EntitlementArgs) {
    e.automatic.Some? && e.ownershipType.Some? && e.targetType.Some? && e.workflow.Some?
  }

  /**
   * The service target chosen by the target type:
   * - 'all' targets every service;
   * - 'type' targets a service profile, and 'policy' a service selection policy;
   * - 'specific' targets one service by its DN.
   * Any other target type, or a missing key it needs, raises.
   */
  function TargetOf(e: EntitlementArgs): (r: Result<ServiceTarget>)
    requires e.targetType.Some?
    ensures r.Err? ==> r.error == ValueError
    ensures r.Ok? <==>
              || e.targetType.value == "all"
              || (e.targetType.value in ["type", "policy"] && e.serviceType.Some?)
              || (e.targetType.value == "specific" && e.serviceDn.Some?)
    ensures e.targetType.value == "all" ==> r == Ok(ServiceTarget("*", "2"))
    ensures e.targetType.value == "type" && e.serviceType.Some? ==> r == Ok(ServiceTarget(e.serviceType.value, "0"))
    ensures e.targetType.value == "policy" && e.serviceType.Some? ==> r == Ok(ServiceTarget(e.serviceType.value, "3"))
    ensures e.targetType.value == "specific" && e.serviceDn.Some? ==> r == Ok(ServiceTarget(e.serviceDn.value, "1"))
  {
    var targetType := e.targetType.value;
    if targetType == "all" then Ok(ServiceTarget("*", "2"))
    else if targetType == "type" then
      if e.serviceType.None? then Err(ValueError) else Ok(ServiceTarget(e.serviceType.value, "0"))
    else if targetType == "policy" then
      if e.serviceType.None? then Err(ValueError) else Ok(ServiceTarget(e.serviceType.value, "3"))
    else if targetType == "specific" then
      if e.serviceDn.None? then Err(ValueError) else Ok(ServiceTarget(e.serviceDn.value, "1"))
    else Err(ValueError)
  }

  /** The ownership types the server accepts, lower-cased. */
  const OwnershipNames: seq<string> := ["all", "device", "individual", "system", "vendor"]

  /** The value sent for each ownership name, in the same order. */
  const OwnershipCodes: seq<string> := ["*", "Device", "Individual", "System", "Vendor"]

  /**
   * The ownership type, compared without regard to case. Any name outside
   * the five raises.
   */
  function OwnershipOf(ownershipType: string): (r: Result<string>)
    ensures r.Ok? <==> Lower(ownershipType) in OwnershipNames
    ensures r.Err? ==> r.error == ValueError
    ensures forall i :: 0 <= i < |OwnershipNames| && Lower(ownershipType) == OwnershipNames[i] ==> r == Ok(OwnershipCodes[i])
  {
    var lowered := Lower(ownershipType);
    if lowered == "all" then Ok("*")
    else if lowered == "device" then Ok("Device")
    else if lowered == "individual" then Ok("Individual")
    else if lowered == "system" then Ok("System")
    else if lowered == "vendor" then Ok("Vendor")
    else Err(ValueError)
  }

  /** `str(workflow)`: a missing workflow is sent as the text 'None'. */
  function ProcessDn(workflow: Option<string>): string {
    if workflow.None? then "None" else workflow.value
  }

  /**
   * One iteration of the entitlement loop. It checks the keys, then builds
   * the target, the provisioning type, the workflow DN and the ownership
   * type, raising on the first problem.
   */
  function EncodeEntitlement(e: EntitlementArgs): (r: Result<Entitlement>)
    ensures r.Err? ==> r.error == ValueError
    ensures r.Ok? <==> HasRequiredKeys(e) && TargetOf(e).Ok? && OwnershipOf(e.ownershipType.value).Ok?
    ensures r.Ok? ==> r.value.provisioningType == (if e.automatic.value then 1 else 0)
    ensures r.Ok? ==> r.value.processDn == ProcessDn(e.workflow.value)
  {
    if !HasRequiredKeys(e) then Err(ValueError)
    else
      var target :- TargetOf(e);
      var ownership :- OwnershipOf(e.ownershipType.value);
      Ok(Entitlement(target, if e.automatic.value then 1 else 0, ProcessDn(e.workflow.value), ownership))
  }

  // ---------------------------------------------------------------------
  // The lists
  // ---------------------------------------------------------------------

  /**
   * The entitlement list built from the dicts, in order. The first dict
   * that does not encode stops the loop. It is written over the last
   * element, as the loop builds the list.
   */
  function EncodeAll(es: seq<EntitlementArgs>): (r: Result<seq<Entitlement>>)
    ensures r.Err? ==> r.error == ValueError
    ensures r.Ok? <==> forall i :: 0 <= i < |es| ==> EncodeEntitlement(es[i]).Ok?
    ensures r.Ok? ==> |r.value| == |es| && forall i :: 0 <= i < |es| ==> EncodeEntitlement(es[i]) == Ok(r.value[i])
  {
    if |es| == 0 then Ok([])
    else
      var init :- EncodeAll(es[..|es| - 1]);
      var last :- EncodeEntitlement(es[|es| - 1]);
      Ok(init + [last])
  }

  /** One membership of type 3 for each role DN, in order. */
  function RoleMemberships(roles: seq<string>): (r: seq<Membership>)
    ensures |r| == |roles|
  {
    seq(|roles|, i requires 0 <= i < |roles| => Membership(roles[i], "3"))
  }

  /**
   * The membership list:
   * - 'all' gives one membership for everyone in the organization;
   * - 'other' gives one for the users that other policies do not grant;
   * - 'roles' gives one per listed role, and raises when there is none.
   * Any other type raises.
   */
  function MembershipOf(membershipType: string, roles: seq<string>): (r: Result<seq<Membership>>)
    ensures r.Err? ==> r.error == ValueError
    ensures r.Ok? <==> membershipType in ["all", "other"] || (membershipType == "roles" && |roles| > 0)
    ensures membershipType == "all" ==> r == Ok([Membership("*", "2")])
    ensures membershipType == "other" ==> r == Ok([Membership("*", "4")])
    ensures membershipType == "roles" && r.Ok? ==>
              |r.value| == |roles| && forall i :: 0 <= i < |roles| ==> r.value[i] == Membership(roles[i], "3")
  {
    if membershipType == "all" then Ok([Membership("*", "2")])
    else if membershipType == "other" then Ok([Membership("*", "4")])
    else if membershipType == "roles" then
      if |roles| < 1 then Err(ValueError) else Ok(RoleMemberships(roles))
    else Err(ValueError)
  }

  /** The scope: 2 for this business unit and its subunits, 1 for this unit only. */
  function ScopeOf(availableToSubunits: bool): (r: int)
    ensures r in {1, 2} && (r == 2 <==> availableToSubunits)
  {
    if availableToSubunits then 2 else 1
  }

  // ---------------------------------------------------------------------
  // The whole call
  // ---------------------------------------------------------------------

  /** Every preliminary lookup returned rc 0. */
  predicate AllSucceeded(lookups: seq<Result<int>>) {
    forall i :: 0 <= i < |lookups| ==> lookups[i] == Ok(0)
  }

  /**
   * The first preliminary lookup that does not succeed: one that raises
   * IBMError or IBMFatal, or one that returns a nonzero rc.
   */
  function FirstFailure(lookups: seq<Result<int>>): (r: Option<Result<int>>)
    ensures r.None? <==> AllSucceeded(lookups)
    ensures r.Some? ==> exists i :: 0 <= i < |lookups| && lookups[i] == r.value != Ok(0) && AllSucceeded(lookups[..i])
  {
    if |lookups| == 0 then None
    else if lookups[0] != Ok(0) then
      assert AllSucceeded(lookups[..0]);
      Some(lookups[0])
    else
      var rest := FirstFailure(lookups[1..]);
      if rest.Some? then
        var i :| 0 <= i < |lookups[1..]| && lookups[1..][i] == rest.value != Ok(0) && AllSucceeded(lookups[1..][..i]);
        assert lookups[..i + 1] == [lookups[0]] + lookups[1..][..i];
        assert AllSucceeded(lookups[..i + 1]);
        rest
      else
        assert forall i :: 1 <= i < |lookups| ==> lookups[i] == lookups[1..][i - 1];
        rest
  }

  /**
   * What `create` sends, or the error it raises. `lookups` are the outcomes,
   * in order, of the preliminary lookups of the four SOAP types and of the
   * container: each the rc it returns or what it raises. The first that does
   * not succeed decides, before any validation: a raise is passed on and a
   * nonzero rc is passed back.
   */
  function Policy(args: PolicyArgs, containerDn: string, lookups: seq<Result<int>>): (r: Result<PolicyCall>)
    ensures FirstFailure(lookups).Some? && FirstFailure(lookups).value.Err? ==> r == Err(FirstFailure(lookups).value.error)
    ensures FirstFailure(lookups).Some? && FirstFailure(lookups).value.Ok?
            ==> r == Ok(Forwarded(FirstFailure(lookups).value.value))
    ensures r.Err? ==> r.error == ValueError || Err(r.error) in lookups
    ensures r.Ok? && r.value.CreateRequest? ==> AllSucceeded(lookups) && r.value.policy.priority >= 1
  {
    var failure := FirstFailure(lookups);
    if failure.Some? then
      var raisedOrRc :- failure.value;
      Ok(Forwarded(raisedOrRc))
    else if |args.entitlements| < 1 then Err(ValueError)
    else
      var entitlements :- EncodeAll(args.entitlements);
      var membership :- MembershipOf(args.membershipType, args.membershipRoles);
      if args.priority < 1 then Err(ValueError)
      else
        Ok(CreateRequest(PolicyObject(
          args.description, args.name, args.keywords, args.caption, entitlements, membership,
          args.priority, ScopeOf(args.availableToSubunits), containerDn, args.enabled)))
  }

  // ---------------------------------------------------------------------
  // The code, loop by loop
  // ---------------------------------------------------------------------

  /** If one prefix of the dicts fails to encode, so does the whole list. */
  lemma {:induction false} EncodeAllPrefixFails(es: seq<EntitlementArgs>, i: nat)
    requires i <= |es| && EncodeAll(es[..i]).Err?
    ensures EncodeAll(es).Err?
  {
    var j :| 0 <= j < i && EncodeEntitlement(es[..i][j]).Err?;
    assert es[..i][j] == es[j];
  }

  /** Each further dict that encodes extends the list by its entitlement. */
  lemma EncodeAllStep(es: seq<EntitlementArgs>, i: nat)
    requires i < |es| && EncodeAll(es[..i]).Ok? && EncodeEntitlement(es[i]).Ok?
    ensures EncodeAll(es[..i + 1]) == Ok(EncodeAll(es[..i]).value + [EncodeEntitlement(es[i]).value])
  {
    assert es[..i + 1][..i] == es[..i];
  }

  /** The entitlement loop. */
  method EncodeEntitlements(entitlements: seq<EntitlementArgs>) returns (r: Result<seq<Entitlement>>)
    ensures r == EncodeAll(entitlements)
  {
    var entitlementList := [];
    for i := 0 to |entitlements|
      invariant EncodeAll(entitlements[..i]) == Ok(entitlementList)
    {
      var entitlement := entitlements[i];
      var encoded := EncodeEntitlement(entitlement);
      if encoded.Err? {
        assert EncodeAll(entitlements[..i + 1]).Err?;
        EncodeAllPrefixFails(entitlements, i + 1);
        return Err(ValueError);
      }
      EncodeAllStep(entitlements, i);
      entitlementList := entitlementList + [encoded.value];
    }
    assert entitlements[..|entitlements|] == entitlements;
    return Ok(entitlementList);
  }

  /** The membership block, with its loop over the role DNs. */
  method EncodeMembership(membershipType: string, membershipRoles: seq<string>) returns (r: Result<seq<Membership>>)
    ensures r == MembershipOf(membershipType, membershipRoles)
  {
    var membershipList: seq<Membership> := [];
    if membershipType == "all" {
      membershipList := membershipList + [Membership("*", "2")];
      assert membershipList == [Membership("*", "2")];
    } else if membershipType == "other" {
      membershipList := membershipList + [Membership("*", "4")];
      assert membershipList == [Membership("*", "4")];
    } else if membershipType == "roles" {
      if |membershipRoles| < 1 {
        return Err(ValueError);
      }
      for i := 0 to |membershipRoles|
        invariant |membershipList| == i
        invariant forall j :: 0 <= j < i ==> membershipList[j] == Membership(membershipRoles[j], "3")
      {
        membershipList := membershipList + [Membership(membershipRoles[i], "3")];
      }
      assert membershipList == RoleMemberships(membershipRoles);
    } else {
      return Err(ValueError);
    }
    return Ok(membershipList);
  }

  /** `create`, from the preliminary lookups to the policy object it sends. */
  method CreatePolicy(args: PolicyArgs, containerDn: string, lookups: seq<Result<int>>) returns (r: Result<PolicyCall>)
    ensures r == Policy(args, containerDn, lookups)
  {
    var failure := FirstFailure(lookups);
    if failure.Some? {
      var response :- failure.value;
      return Ok(Forwarded(response));
    }
    if |args.entitlements| < 1 {
      return Err(ValueError);
    }
    var entitlementList :- EncodeEntitlements(args.entitlements);
    var membershipList :- EncodeMembership(args.membershipType, args.membershipRoles);
    if args.priority < 1 {
      return Err(ValueError);
    }
    var scope := if args.availableToSubunits then 2 else 1;
    var policyObject := PolicyObject(
      args.description, args.name, args.keywords, args.caption, entitlementList, membershipList,
      args.priority, scope, containerDn, args.enabled);
    return Ok(CreateRequest(policyObject));
  }

  // ---------------------------------------------------------------------
  // Properties
  // ---------------------------------------------------------------------

  /**
   * Once the lookups succeed, the call sends a policy exactly when:
   * - there is at least one entitlement;
   * - every entitlement encodes;
   * - the membership is valid;
   * - the priority is at least 1.
   * Otherwise it raises ValueError.
   */
  lemma PolicySentIff(args: PolicyArgs, containerDn: string, lookups: seq<Result<int>>)
    requires AllSucceeded(lookups)
    ensures Policy(args, containerDn, lookups).Ok? <==>
              && |args.entitlements| > 0
              && (forall i :: 0 <= i < |args.entitlements| ==> EncodeEntitlement(args.entitlements[i]).Ok?)
              && MembershipOf(args.membershipType, args.membershipRoles).Ok?
              && args.priority >= 1
  {
  }

  /** A sent policy holds one entitlement per dict, each the encoding of its dict, and the fields as given. */
  lemma SentPolicyContents(args: PolicyArgs, containerDn: string, lookups: seq<Result<int>>)
    requires AllSucceeded(lookups) && Policy(args, containerDn, lookups).Ok?
    ensures var p := Policy(args, containerDn, lookups).value.policy;
            && |p.entitlements| == |args.entitlements|
            && (forall i :: 0 <= i < |args.entitlements| ==> EncodeEntitlement(args.entitlements[i]) == Ok(p.entitlements[i]))
            && Ok(p.membership) == MembershipOf(args.membershipType, args.membershipRoles)
            && p.priority == args.priority && p.scope == ScopeOf(args.availableToSubunits)
            && p.name == args.name && p.description == args.description && p.keywords == args.keywords
            && p.caption == args.caption && p.organizationalContainer == containerDn && p.enabled == args.enabled
  {
  }

  /** The ownership type is compared without regard to case. */
  lemma OwnershipIgnoresCase(ownershipType: string)
    ensures OwnershipOf(ownershipType) == OwnershipOf(Lower(ownershipType))
  {
    LowerIdempotent(ownershipType);
  }

  /** The target type is compared with case: 'All' raises even with every key present. */
  lemma TargetTypeIsCaseSensitive(e: EntitlementArgs)
    requires e.targetType == Some("All")
    ensures TargetOf(e) == Err(ValueError)
  {
  }

  /**
   * An entitlement whose workflow is None is sent with the workflow DN
   * 'None', the text of the missing value, not with an empty DN.
   */
  lemma MissingWorkflowSentAsNone(e: EntitlementArgs)
    requires e.workflow == Some(None) && EncodeEntitlement(e).Ok?
    ensures EncodeEntitlement(e).value.processDn == "None"
  {
  }
}
