/**
 * Translation between the server's distinguished names (DNs) for roles,
 * people, services and workflows and the human-readable triple
 * (organization, type, name). The organization tree is fetched once; the
 * object searches are parameters of the operations.
 */
module DnEncoder {
  import opened Common

  /** An organization as returned by getOrganizationTree. */
  datatype Organization = Organization(name: string, itimDN: string)

  /** A WSSearchArguments record for findSearchFilterObjects. */
  datatype SearchArguments = SearchArguments(category: string, returnedAttributeName: string, filter: string, base: string)

  /** The return code and the returned attribute values of one findSearchFilterObjects call. */
  datatype SearchReply = SearchReply(rc: int, data: seq<string>)

  /** The return code and the organizations of the getOrganizationTree call. */
  datatype TreeReply = TreeReply(rc: int, data: seq<Organization>)

  /**
   * The application server as the encoder sees it: what fetching the
   * WSSearchArguments SOAP type gives (its rc, or the IBMError or IBMFatal
   * that `retrieve_soap_type` raises), and what each findSearchFilterObjects
   * call gives (its reply, or what `invoke_soap_request` raises).
   */
  datatype Server = Server(argumentsType: Result<int>, search: SearchArguments -> Result<SearchReply>)

  /** The object types a DN can refer to. */
  datatype ObjectType = RoleObject | PersonObject | ServiceObject | WorkflowObject

  /** What decode_from_isim_dn returns. */
  datatype DecodedObject = DecodedObject(organization: string, objectType: string, name: string)

  /** The organization DN, object type and erglobalid read from a DN. */
  datatype ParsedDn = ParsedDn(organizationName: string, objectType: ObjectType, erglobalid: string)

  function TypeName(t: ObjectType): string {
    match t
    case RoleObject => "role"
    case PersonObject => "person"
    case ServiceObject => "service"
    case WorkflowObject => "workflow"
  }

  /** The `ou` component under which objects of type `t` live. */
  function OuComponent(t: ObjectType): string {
    match t
    case RoleObject => "ou=roles"
    case PersonObject => "ou=people"
    case ServiceObject => "ou=services"
    case WorkflowObject => "ou=workflow"
  }

  /** The type named by an already lower-cased type string, if supported. */
  function TypeOfName(lowered: string): (r: Option<ObjectType>)
    ensures r.Some? <==> lowered in {"role", "person", "service", "workflow"}
    ensures r.Some? ==> TypeName(r.value) == lowered
  {
    if lowered == "role" then Some(RoleObject)
    else if lowered == "person" then Some(PersonObject)
    else if lowered == "service" then Some(ServiceObject)
    else if lowered == "workflow" then Some(WorkflowObject)
    else None
  }

  /** The type whose `ou` component ends the non-organization part of a DN, tried in this order. */
  function TypeOfComponent(nonOrg: string): (r: Option<ObjectType>)
    ensures r.Some? ==> EndsWith(nonOrg, OuComponent(r.value))
    ensures r.None? <==> forall t: ObjectType :: !EndsWith(nonOrg, OuComponent(t))
  {
    if EndsWith(nonOrg, "ou=roles") then Some(RoleObject)
    else if EndsWith(nonOrg, "ou=people") then Some(PersonObject)
    else if EndsWith(nonOrg, "ou=services") then Some(ServiceObject)
    else if EndsWith(nonOrg, "ou=workflow") then Some(WorkflowObject)
    else None
  }

  // ---------------------------------------------------------------------
  // The organization maps, as the constructor's loop fills them
  // ---------------------------------------------------------------------

  /** Organization name to DN; a later organization with the same name overwrites. */
  function OrgMap(orgs: seq<Organization>): map<string, string> {
    if orgs == [] then map[]
    else OrgMap(orgs[..|orgs| - 1])[orgs[|orgs| - 1].name := orgs[|orgs| - 1].itimDN]
  }

  /** DN to organization name; a later organization with the same DN overwrites. */
  function DnMap(orgs: seq<Organization>): map<string, string> {
    if orgs == [] then map[]
    else DnMap(orgs[..|orgs| - 1])[orgs[|orgs| - 1].itimDN := orgs[|orgs| - 1].name]
  }

  /** The iteration order of the DN map: DNs in order of first insertion. */
  function DnOrder(orgs: seq<Organization>): seq<string> {
    if orgs == [] then []
    else
      var prefix := DnOrder(orgs[..|orgs| - 1]);
      if orgs[|orgs| - 1].itimDN in prefix then prefix else prefix + [orgs[|orgs| - 1].itimDN]
  }

  /** Every organization is in the name map, with the DN of the last organization of that name. */
  lemma {:induction false} OrgMapLastWins(orgs: seq<Organization>, i: int)
    requires 0 <= i < |orgs|
    requires forall j :: i < j < |orgs| ==> orgs[j].name != orgs[i].name
    ensures orgs[i].name in OrgMap(orgs) && OrgMap(orgs)[orgs[i].name] == orgs[i].itimDN
    decreases |orgs|
  {
    if i < |orgs| - 1 {
      var init := orgs[..|orgs| - 1];
      assert forall j :: i < j < |init| ==> init[j] == orgs[j];
      OrgMapLastWins(init, i);
      assert init[i] == orgs[i];
    }
  }

  /** Every organization is in the DN map, with the name of the last organization with that DN. */
  lemma {:induction false} DnMapLastWins(orgs: seq<Organization>, i: int)
    requires 0 <= i < |orgs|
    requires forall j :: i < j < |orgs| ==> orgs[j].itimDN != orgs[i].itimDN
    ensures orgs[i].itimDN in DnMap(orgs) && DnMap(orgs)[orgs[i].itimDN] == orgs[i].name
    decreases |orgs|
  {
    if i < |orgs| - 1 {
      var init := orgs[..|orgs| - 1];
      assert forall j :: i < j < |init| ==> init[j] == orgs[j];
      DnMapLastWins(init, i);
      assert init[i] == orgs[i];
    }
  }

  /** The DN order lists exactly the DN map's keys, and every organization name in the DN map is in the name map. */
  lemma {:induction false} MapsConsistent(orgs: seq<Organization>)
    ensures forall d :: d in DnMap(orgs) <==> d in DnOrder(orgs)
    ensures forall d :: d in DnMap(orgs) ==> DnMap(orgs)[d] in OrgMap(orgs)
    decreases |orgs|
  {
    if orgs != [] {
      var init := orgs[..|orgs| - 1];
      var last := orgs[|orgs| - 1];
      MapsConsistent(init);
      assert DnMap(orgs) == DnMap(init)[last.itimDN := last.name];
      assert OrgMap(orgs) == OrgMap(init)[last.name := last.itimDN];
      assert DnOrder(orgs) == if last.itimDN in DnOrder(init) then DnOrder(init) else DnOrder(init) + [last.itimDN];
    }
  }

  /** Every organization's name and DN are keys of the maps. */
  lemma {:induction false} MapsCoverOrganizations(orgs: seq<Organization>)
    ensures forall i :: 0 <= i < |orgs| ==> orgs[i].name in OrgMap(orgs) && orgs[i].itimDN in DnMap(orgs)
    decreases |orgs|
  {
    if orgs != [] {
      var init := orgs[..|orgs| - 1];
      MapsCoverOrganizations(init);
      assert forall i :: 0 <= i < |init| ==> init[i] == orgs[i];
    }
  }

  /** The maps hold no name and no DN that no organization has. */
  lemma {:induction false} MapsOnlyOrganizations(orgs: seq<Organization>)
    ensures forall n :: n in OrgMap(orgs) ==> exists i :: 0 <= i < |orgs| && orgs[i].name == n
    ensures forall d :: d in DnMap(orgs) ==> exists i :: 0 <= i < |orgs| && orgs[i].itimDN == d
    decreases |orgs|
  {
    if orgs != [] {
      var init := orgs[..|orgs| - 1];
      MapsOnlyOrganizations(init);
      assert OrgMap(orgs) == OrgMap(init)[orgs[|orgs| - 1].name := orgs[|orgs| - 1].itimDN];
      assert DnMap(orgs) == DnMap(init)[orgs[|orgs| - 1].itimDN := orgs[|orgs| - 1].name];
      forall n | n in OrgMap(orgs)
        ensures exists i :: 0 <= i < |orgs| && orgs[i].name == n
      {
        if n != orgs[|orgs| - 1].name {
          var i :| 0 <= i < |init| && init[i].name == n;
          assert orgs[i] == init[i];
        }
      }
      forall d | d in DnMap(orgs)
        ensures exists i :: 0 <= i < |orgs| && orgs[i].itimDN == d
      {
        if d != orgs[|orgs| - 1].itimDN {
          var i :| 0 <= i < |init| && init[i].itimDN == d;
          assert orgs[i] == init[i];
        }
      }
    }
  }

  /** The first DN in `order` that `dn` ends with. */
  function FirstSuffix(dn: string, order: seq<string>): (r: Option<string>)
    ensures r.None? <==> forall i :: 0 <= i < |order| ==> !EndsWith(dn, order[i])
    ensures r.Some? ==> exists i :: 0 <= i < |order| && order[i] == r.value && EndsWith(dn, r.value)
                                    && forall j :: 0 <= j < i ==> !EndsWith(dn, order[j])
  {
    if order == [] then None
    else if EndsWith(dn, order[0]) then Some(order[0])
    else
      var r := FirstSuffix(dn, order[1..]);
      assert forall i :: 1 <= i < |order| ==> order[i] == order[1..][i - 1];
      if r.Some? then
        var i :| 0 <= i < |order| - 1 && order[1..][i] == r.value && EndsWith(dn, r.value)
                  && forall j :: 0 <= j < i ==> !EndsWith(dn, order[1..][j]);
        assert order[i + 1] == r.value && forall j :: 0 <= j < i + 1 ==> !EndsWith(dn, order[j]);
        r
      else r
  }

  /** The filter that finds the object a DN names: by erglobalid, and for non-people under the organization. */
  function DecodeFilter(t: ObjectType, erglobalid: string, orgDn: string): string {
    if t != PersonObject then "(&(erglobalid=" + erglobalid + ")(erparent=" + orgDn + "))"
    else "(erglobalid=" + erglobalid + ")"
  }

  /** The search category and the attribute holding the object's name. */
  function DecodeSearch(t: ObjectType, filter: string): SearchArguments {
    match t
    case RoleObject => SearchArguments("Role", "erRoleName", filter, "org")
    case PersonObject => SearchArguments("Person", "uid", filter, "org")
    case ServiceObject => SearchArguments("Service", "erServiceName", filter, "org")
    case WorkflowObject => SearchArguments("Workflow", "erProcessName", filter, "org")
  }

  /** The search that finds an object of type `t` by name, returning its erglobalid. */
  function EncodeSearch(t: ObjectType, name: string, orgDn: string): SearchArguments {
    match t
    case RoleObject => SearchArguments("Role", "erglobalid", "(&(erRoleName=" + name + ")(erparent=" + orgDn + "))", "org")
    case PersonObject => SearchArguments("Person", "erglobalid", "(uid=" + name + ")", "org")
    case ServiceObject => SearchArguments("Service", "erglobalid", "(&(erServiceName=" + name + ")(erparent=" + orgDn + "))", "org")
    case WorkflowObject => SearchArguments("Workflow", "erglobalid", "(&(erProcessName=" + name + ")(erparent=" + orgDn + "))", "org")
  }

  /** The single value a search must return; none or several raise ValueError, as does a nonzero rc. */
  function UniqueResult(reply: SearchReply): (r: Result<string>)
    ensures r.Ok? <==> reply.rc == 0 && |reply.data| == 1
    ensures r.Ok? ==> r.value == reply.data[0]
    ensures r.Err? ==> r.error == ValueError
  {
    if reply.rc != 0 then Err(ValueError)
    else if |reply.data| == 0 then Err(ValueError)
    else if |reply.data| > 1 then Err(ValueError)
    else Ok(reply.data[0])
  }

  class DNEncoder {
    /** Organization name to organization DN. */
    var organizationMap: map<string, string>
    /** Organization DN to organization name. */
    var dnMap: map<string, string>
    /** The keys of `dnMap` in insertion order, the order in which they are tried as suffixes. */
    var dnOrder: seq<string>

    ghost predicate Valid()
      reads this
    {
      (forall d :: d in dnMap <==> d in dnOrder)
      && (forall d :: d in dnMap ==> dnMap[d] in organizationMap)
    }

    /** Record every organization in both maps, one organization at a time. */
    constructor (organizations: seq<Organization>)
      ensures organizationMap == OrgMap(organizations)
      ensures dnMap == DnMap(organizations)
      ensures dnOrder == DnOrder(organizations)
      ensures Valid()
    {
      organizationMap := map[];
      dnMap := map[];
      dnOrder := [];
      new;
      for i := 0 to |organizations|
        invariant organizationMap == OrgMap(organizations[..i])
        invariant dnMap == DnMap(organizations[..i])
        invariant dnOrder == DnOrder(organizations[..i])
      {
        var org := organizations[i];
        assert organizations[..i + 1][..i] == organizations[..i];
        organizationMap := organizationMap[org.name := org.itimDN];
        MapsConsistent(organizations[..i]);
        if org.itimDN !in dnMap {
          dnOrder := dnOrder + [org.itimDN];
        }
        dnMap := dnMap[org.itimDN := org.name];
      }
      assert organizations[..|organizations|] == organizations;
      MapsConsistent(organizations);
    }

    /**
     * The organization, type and erglobalid a DN names: the first organization
     * DN it ends with is stripped along with the comma before it, the type is
     * read from the `ou` component that ends the rest, and the erglobalid is the
     * first comma-separated component without its 11-character prefix.
     */
    function ParseIsimDn(dn: string): (r: Result<ParsedDn>)
      reads this
      requires Valid()
      ensures FirstSuffix(dn, dnOrder).None? ==> r == Err(ValueError)
      ensures r.Err? ==> r.error == ValueError
      ensures r.Ok? ==> r.value.organizationName in organizationMap
                        && EndsWith(DropLast(dn, |FirstSuffix(dn, dnOrder).value| + 1), OuComponent(r.value.objectType))
    {
      match FirstSuffix(dn, dnOrder)
      case None => Err(ValueError)
      case Some(orgComponent) =>
        var nonOrg := DropLast(dn, |orgComponent| + 1);
        match TypeOfComponent(nonOrg)
        case None => Err(ValueError)
        case Some(t) => Ok(ParsedDn(dnMap[orgComponent], t, DropFirst(Split(nonOrg, ",")[0], 11)))
    }

    /** The search `decode_from_isim_dn` makes for a parsed DN. */
    function DecodeArguments(parsed: ParsedDn): SearchArguments
      reads this
      requires parsed.organizationName in organizationMap
    {
      DecodeSearch(parsed.objectType, DecodeFilter(parsed.objectType, parsed.erglobalid, organizationMap[parsed.organizationName]))
    }

    /**
     * decode_from_isim_dn, as a value: find the organization, fetch the
     * search arguments type, read the type and the erglobalid, search, and
     * require a unique result, which is the object's name.
     */
    function Decode(dn: string, server: Server): (r: Result<DecodedObject>)
      reads this
      requires Valid()
      ensures FirstSuffix(dn, dnOrder).None? ==> r == Err(ValueError)
      ensures FirstSuffix(dn, dnOrder).Some? && server.argumentsType.Err? ==> r == Err(server.argumentsType.error)
      ensures r.Ok? <==> ParseIsimDn(dn).Ok? && server.argumentsType == Ok(0)
                         && server.search(DecodeArguments(ParseIsimDn(dn).value)).Ok?
                         && UniqueResult(server.search(DecodeArguments(ParseIsimDn(dn).value)).value).Ok?
      ensures r.Ok? ==> r.value == DecodedObject(ParseIsimDn(dn).value.organizationName,
                                                 TypeName(ParseIsimDn(dn).value.objectType),
                                                 server.search(DecodeArguments(ParseIsimDn(dn).value)).value.data[0])
      ensures r.Err? ==> r.error == ValueError || server.argumentsType == Err(r.error)
                         || (ParseIsimDn(dn).Ok? && server.search(DecodeArguments(ParseIsimDn(dn).value)) == Err(r.error))
    {
      if FirstSuffix(dn, dnOrder).None? then Err(ValueError)
      else
        var typeRc :- server.argumentsType;
        if typeRc != 0 then Err(ValueError)
        else
          var parsed :- ParseIsimDn(dn);
          var reply :- server.search(DecodeArguments(parsed));
          var name :- UniqueResult(reply);
          Ok(DecodedObject(parsed.organizationName, TypeName(parsed.objectType), name))
    }

    /** `decode_from_isim_dn`: the loop over the organization DNs stops at the first suffix. */
    method DecodeFromIsimDn(dn: string, server: Server) returns (r: Result<DecodedObject>)
      requires Valid()
      ensures r == Decode(dn, server)
    {
      var nonOrgComponent: Option<string> := None;
      var organizationName: Option<string> := None;
      ghost var matched := "";
      var i := 0;
      while i < |dnOrder|
        invariant 0 <= i <= |dnOrder|
        invariant organizationName.None? && nonOrgComponent.None?
        invariant FirstSuffix(dn, dnOrder) == FirstSuffix(dn, dnOrder[i..])
      {
        var orgComponent := dnOrder[i];
        if EndsWith(dn, orgComponent) {
          nonOrgComponent := Some(DropLast(dn, |orgComponent| + 1));
          organizationName := Some(dnMap[orgComponent]);
          matched := orgComponent;
          assert FirstSuffix(dn, dnOrder) == Some(matched);
          break;
        }
        assert dnOrder[i..][1..] == dnOrder[i + 1..];
        i := i + 1;
      }
      if organizationName.None? {
        assert FirstSuffix(dn, dnOrder[|dnOrder|..]) == None;
        return Err(ValueError);
      }
      assert FirstSuffix(dn, dnOrder) == Some(matched);
      var searchArgumentsTypeResponse :- server.argumentsType;
      if searchArgumentsTypeResponse != 0 {
        return Err(ValueError);
      }
      var nonOrg := nonOrgComponent.value;
      var objectType := TypeOfComponent(nonOrg);
      if objectType.None? {
        assert ParseIsimDn(dn) == Err(ValueError);
        return Err(ValueError);
      }
      var erglobalid := DropFirst(Split(nonOrg, ",")[0], 11);
      assert ParseIsimDn(dn) == Ok(ParsedDn(organizationName.value, objectType.value, erglobalid));
      var filter := DecodeFilter(objectType.value, erglobalid, organizationMap[organizationName.value]);
      assert DecodeSearch(objectType.value, filter) == DecodeArguments(ParseIsimDn(dn).value);
      var response :- server.search(DecodeSearch(objectType.value, filter));
      if response.rc != 0 {
        return Err(ValueError);
      }
      if |response.data| == 0 {
        return Err(ValueError);
      } else if |response.data| > 1 {
        return Err(ValueError);
      }
      r := Ok(DecodedObject(organizationName.value, TypeName(objectType.value), response.data[0]));
    }

    /**
     * `encode_to_isim_dn`: look up the organization, fetch the search
     * arguments type, read the type, search for the object's erglobalid,
     * and build its DN.
     */
    function EncodeToIsimDn(organization: string, name: string, objectType: string, server: Server): (r: Result<string>)
      reads this
      ensures organization !in organizationMap ==> r == Err(KeyError)
      ensures organization in organizationMap && server.argumentsType.Err? ==> r == Err(server.argumentsType.error)
      ensures organization in organizationMap && server.argumentsType == Ok(0) && TypeOfName(Lower(objectType)).None?
              ==> r == Err(ValueError)
      ensures r.Ok? <==> organization in organizationMap && server.argumentsType == Ok(0) && TypeOfName(Lower(objectType)).Some?
                         && server.search(EncodeSearch(TypeOfName(Lower(objectType)).value, name, organizationMap[organization])).Ok?
                         && UniqueResult(server.search(EncodeSearch(TypeOfName(Lower(objectType)).value, name,
                                                                    organizationMap[organization])).value).Ok?
      ensures r.Err? ==> r.error == KeyError || r.error == ValueError || server.argumentsType == Err(r.error)
                         || (organization in organizationMap && TypeOfName(Lower(objectType)).Some?
                             && server.search(EncodeSearch(TypeOfName(Lower(objectType)).value, name,
                                                           organizationMap[organization])) == Err(r.error))
      ensures r.Ok? ==> StartsWith(r.value, "erglobalid=") && EndsWith(r.value, "," + organizationMap[organization])
    {
      if organization !in organizationMap then Err(KeyError)
      else
        var typeRc :- server.argumentsType;
        if typeRc != 0 then Err(ValueError)
        else
          var orgComponent := organizationMap[organization];
          match TypeOfName(Lower(objectType))
          case None => Err(ValueError)
          case Some(t) =>
            var reply :- server.search(EncodeSearch(t, name, orgComponent));
            var erglobalid :- UniqueResult(reply);
            var rest := PersonLevel(objectType) + OuComponent(t);
            DnAffixes(erglobalid, rest, orgComponent);
            Ok("erglobalid=" + erglobalid + "," + rest + "," + orgComponent)
    }

    /** The DN `EncodeToIsimDn` builds from the erglobalid the search returns. */
    lemma EncodedDn(organization: string, name: string, objectType: string, server: Server, t: ObjectType, id: string)
      requires organization in organizationMap
      requires TypeOfName(Lower(objectType)) == Some(t)
      requires server.argumentsType == Ok(0)
      requires server.search(EncodeSearch(t, name, organizationMap[organization])) == Ok(SearchReply(0, [id]))
      ensures EncodeToIsimDn(organization, name, objectType, server)
              == Ok("erglobalid=" + id + "," + (PersonLevel(objectType) + OuComponent(t)) + "," + organizationMap[organization])
    {
    }

    /**
     * Encoding then decoding gives back the organization, the type and the
     * erglobalid, provided the erglobalid holds no comma and the
     * organization's DN is the first one in the map that the new DN ends with;
     * when the server answers the decoding search with the name that the
     * encoding search was made for, the name comes back as well.
     */
    lemma EncodeDecodeRoundTrip(organization: string, name: string, objectType: string,
                                server: Server, t: ObjectType, id: string, dn: string)
      requires Valid()
      requires organization in organizationMap
      requires TypeOfName(Lower(objectType)) == Some(t)
      requires server.argumentsType == Ok(0)
      requires server.search(EncodeSearch(t, name, organizationMap[organization])) == Ok(SearchReply(0, [id]))
      requires EncodeToIsimDn(organization, name, objectType, server) == Ok(dn)
      requires ',' !in id
      requires FirstSuffix(dn, dnOrder) == Some(organizationMap[organization])
      ensures ParseIsimDn(dn) == Ok(ParsedDn(dnMap[organizationMap[organization]], t, id))
      ensures TypeName(t) == Lower(objectType)
      ensures var parsed := ParsedDn(dnMap[organizationMap[organization]], t, id);
              server.search(DecodeArguments(parsed)) == Ok(SearchReply(0, [name]))
              ==> Decode(dn, server) == Ok(DecodedObject(parsed.organizationName, Lower(objectType), name))
    {
      var orgDn := organizationMap[organization];
      var rest := PersonLevel(objectType) + OuComponent(t);
      var nonOrg := "erglobalid=" + id + "," + rest;
      EncodedDn(organization, name, objectType, server, t, id);
      DropSuffix(nonOrg, orgDn);
      EndsWithConcat("erglobalid=" + id + "," + PersonLevel(objectType), OuComponent(t));
      assert nonOrg == "erglobalid=" + id + "," + PersonLevel(objectType) + OuComponent(t) by {
        SeqAssoc("erglobalid=" + id + ",", PersonLevel(objectType), OuComponent(t));
      }
      TypeOfComponentSuffix(nonOrg, t);
      ErglobalidOfComponent(id, rest);
      ParseOfParts(dn, orgDn, nonOrg, t, id);
    }

    /** `ParseIsimDn` put together from its three steps. */
    lemma ParseOfParts(dn: string, orgDn: string, nonOrg: string, t: ObjectType, id: string)
      requires Valid()
      requires FirstSuffix(dn, dnOrder) == Some(orgDn)
      requires DropLast(dn, |orgDn| + 1) == nonOrg
      requires TypeOfComponent(nonOrg) == Some(t)
      requires DropFirst(Split(nonOrg, ",")[0], 11) == id
      ensures ParseIsimDn(dn) == Ok(ParsedDn(dnMap[orgDn], t, id))
    {
    }

    /** The type name is matched case-insensitively, but only the exact spelling "person" gets the `ou=0` level. */
    lemma PersonCaseQuirk(organization: string, name: string, server: Server, id: string)
      requires organization in organizationMap
      requires server.argumentsType == Ok(0)
      requires server.search(EncodeSearch(PersonObject, name, organizationMap[organization])) == Ok(SearchReply(0, [id]))
      ensures EncodeToIsimDn(organization, name, "person", server) == Ok("erglobalid=" + id + ",ou=0,ou=people," + organizationMap[organization])
      ensures EncodeToIsimDn(organization, name, "Person", server) == Ok("erglobalid=" + id + ",ou=people," + organizationMap[organization])
    {
      var o := organizationMap[organization];
      assert Lower("person") == "person";
      assert Lower("Person") == "person";
      EncodedDn(organization, name, "person", server, PersonObject, id);
      EncodedDn(organization, name, "Person", server, PersonObject, id);
      LiteralDn(id, "ou=0," + "ou=people", o);
      assert "," + ("ou=0," + "ou=people") + "," == ",ou=0,ou=people,";
      LiteralDn(id, "" + "ou=people", o);
      assert "," + ("" + "ou=people") + "," == ",ou=people,";
    }
  }

  /** What comes between the erglobalid's comma and the `ou` component: `ou=0,` for the exact spelling "person". */
  function PersonLevel(objectType: string): string {
    if objectType != "person" then "" else "ou=0,"
  }

  /** The DN as built, and as written in one piece. */
  lemma LiteralDn(id: string, rest: string, o: string)
    ensures "erglobalid=" + id + "," + rest + "," + o == "erglobalid=" + id + ("," + rest + ",") + o
  {
  }

  lemma SeqAssoc(a: string, b: string, c: string)
    ensures a + (b + c) == a + b + c
  {
  }

  /** A built DN starts with `erglobalid=` and ends with its organization's DN. */
  lemma DnAffixes(id: string, rest: string, o: string)
    ensures StartsWith("erglobalid=" + id + "," + rest + "," + o, "erglobalid=")
    ensures EndsWith("erglobalid=" + id + "," + rest + "," + o, "," + o)
  {
    var head := "erglobalid=" + id + "," + rest;
    var s := head + "," + o;
    assert s[..11] == head[..11] == "erglobalid=";
    assert s[|s| - |o| - 1..] == "," + o;
  }

  /** Cutting the comma and the organization DN off leaves the part before them. */
  lemma DropSuffix(a: string, o: string)
    ensures DropLast(a + "," + o, |o| + 1) == a
  {
    if |o| + 1 < |a + "," + o| {
      assert (a + "," + o)[..|a|] == a;
    }
  }

  /** A DN part ending in the `ou` component of `t` is read as type `t`, whatever precedes it. */
  lemma TypeOfComponentSuffix(x: string, t: ObjectType)
    requires EndsWith(x, OuComponent(t))
    ensures TypeOfComponent(x) == Some(t)
  {
    match t {
      case RoleObject =>
      case PersonObject =>
        SuffixMismatch(x, "ou=people", "ou=roles", 1);
      case ServiceObject =>
        SuffixMismatch(x, "ou=services", "ou=roles", 8);
        SuffixMismatch(x, "ou=services", "ou=people", 9);
      case WorkflowObject =>
        SuffixMismatch(x, "ou=workflow", "ou=roles", 1);
        SuffixMismatch(x, "ou=workflow", "ou=people", 1);
        SuffixMismatch(x, "ou=workflow", "ou=services", 1);
    }
  }

  lemma EndsWithConcat(p: string, s: string)
    ensures EndsWith(p + s, s)
  {
    assert (p + s)[|p + s| - |s|..] == s;
  }

  /** A text that ends with `s` does not end with `u` when they differ `k` places from the end. */
  lemma SuffixMismatch(x: string, s: string, u: string, k: nat)
    requires EndsWith(x, s)
    requires 0 < k <= |u| <= |s| && s[|s| - k] != u[|u| - k]
    ensures !EndsWith(x, u)
  {
    assert x[|x| - k] == x[|x| - |s|..][|s| - k];
    if |u| <= |x| {
      assert x[|x| - k] == x[|x| - |u|..][|u| - k];
    }
  }

  /** The erglobalid is read back from a DN part that starts with `erglobalid=<id>,`. */
  lemma ErglobalidOfComponent(id: string, rest: string)
    requires ',' !in id
    ensures DropFirst(Split("erglobalid=" + id + "," + rest, ",")[0], 11) == id
  {
    var a := "erglobalid=" + id;
    assert ',' !in a by {
      forall k | 0 <= k < |a| ensures a[k] != ',' {
        if k >= 11 { assert a[k] == id[k - 11]; }
      }
    }
    SplitFirstPart(a, ",", rest);
    assert a[11..] == id;
  }

  /** With unique names and unique DNs, the two maps are inverse to each other on every organization. */
  lemma MapsInverse(orgs: seq<Organization>, i: int)
    requires 0 <= i < |orgs|
    requires forall j, k :: 0 <= j < k < |orgs| ==> orgs[j].name != orgs[k].name && orgs[j].itimDN != orgs[k].itimDN
    ensures orgs[i].name in OrgMap(orgs) && OrgMap(orgs)[orgs[i].name] in DnMap(orgs)
    ensures DnMap(orgs)[OrgMap(orgs)[orgs[i].name]] == orgs[i].name
  {
    OrgMapLastWins(orgs, i);
    DnMapLastWins(orgs, i);
  }

  /**
   * getOrganizationTree must return rc 0 before the maps are built; a
   * nonzero rc raises ValueError, and what the call raises is passed on.
   */
  method NewDNEncoder(tree: Result<TreeReply>) returns (encoder: DNEncoder?, raised: Option<Error>)
    ensures raised.None? <==> tree.Ok? && tree.value.rc == 0
    ensures tree.Err? ==> raised == Some(tree.error) && encoder == null
    ensures tree.Ok? && tree.value.rc != 0 ==> raised == Some(ValueError) && encoder == null
    ensures raised.None? ==> encoder != null && fresh(encoder) && encoder.Valid()
                             && encoder.organizationMap == OrgMap(tree.value.data)
                             && encoder.dnMap == DnMap(tree.value.data)
                             && encoder.dnOrder == DnOrder(tree.value.data)
  {
    if tree.Err? {
      return null, Some(tree.error);
    }
    var response := tree.value;
    if response.rc != 0 {
      return null, Some(ValueError);
    }
    encoder := new DNEncoder(response.data);
    raised := None;
  }
}
