/**
 * Organizational containers: organizations, organizational units, business
 * partner units, locations and admin domains. `apply` finds the container with
 * a name and profile under a parent, creates it when there is none, and
 * otherwise compares its description and associated people and modifies only
 * what differs.
 */
module Container {
  import opened Common
  import opened Tools
  import opened Reconcile

  // ---------------------------------------------------------------------
  // Profiles
  // ---------------------------------------------------------------------

  datatype Profile = Organization | OrganizationalUnit | BPOrganization | Location | AdminDomain

  /** The profile as it is written by callers. */
  function ProfileName(p: Profile): string {
    match p
    case Organization => "Organization"
    case OrganizationalUnit => "OrganizationalUnit"
    case BPOrganization => "BPOrganization"
    case Location => "Location"
    case AdminDomain => "AdminDomain"
  }

  /** The five profile names are the only ones accepted, compared exactly (case matters). */
  function ParseProfile(profile: string): (r: Option<Profile>)
    ensures r.Some? <==> profile in {"Organization", "OrganizationalUnit", "BPOrganization", "Location", "AdminDomain"}
    ensures r.Some? ==> ProfileName(r.value) == profile
  {
    if profile == "Organization" then Some(Organization)
    else if profile == "OrganizationalUnit" then Some(OrganizationalUnit)
    else if profile == "BPOrganization" then Some(BPOrganization)
    else if profile == "Location" then Some(Location)
    else if profile == "AdminDomain" then Some(AdminDomain)
    else None
  }

  lemma ParseProfileName(p: Profile)
    ensures ParseProfile(ProfileName(p)) == Some(p)
  {
  }

  /** The short form of a profile used in container paths (`ou::name`). */
  function ProfilePrefix(p: Profile): (prefix: string)
    ensures prefix in {"o", "ou", "bp", "lo", "ad"}
  {
    match p
    case Organization => "o"
    case OrganizationalUnit => "ou"
    case BPOrganization => "bp"
    case Location => "lo"
    case AdminDomain => "ad"
  }

  /** Containers of different profiles are looked up under different names. */
  lemma LookupNamesDistinct(p: Profile, q: Profile, name1: string, name2: string)
    requires p != q
    ensures ProfilePrefix(p) + "::" + name1 != ProfilePrefix(q) + "::" + name2
  {
    var a := ProfilePrefix(p) + "::" + name1;
    var b := ProfilePrefix(q) + "::" + name2;
    if |ProfilePrefix(p)| == |ProfilePrefix(q)| {
      assert a[..|ProfilePrefix(p)|] == ProfilePrefix(p);
      assert b[..|ProfilePrefix(q)|] == ProfilePrefix(q);
    } else {
      assert a[1] != b[1];
    }
  }

  /** The profile name a create request uses; two profiles go by other names there. */
  function CreateProfileName(p: Profile): (name: string)
    ensures p == BPOrganization ==> name == "BusinessPartnerOrganization"
    ensures p == AdminDomain ==> name == "SecurityDomain"
    ensures p != BPOrganization && p != AdminDomain ==> name == ProfileName(p)
  {
    if p == BPOrganization then "BusinessPartnerOrganization"
    else if p == AdminDomain then "SecurityDomain"
    else ProfileName(p)
  }

  /** The attribute holding a container's name. */
  function NameAttribute(p: Profile): string {
    match p
    case Organization => "o"
    case Location => "l"
    case _ => "ou"
  }

  /** Business partner units have no description. */
  predicate HasDescription(p: Profile) {
    p != BPOrganization
  }

  /** The attribute holding a container's associated people; an organization has none. */
  function PeopleAttribute(p: Profile): string
    requires p != Organization
  {
    match p
    case BPOrganization => "erSponsor"
    case AdminDomain => "erAdministrator"
    case _ => "erSupervisor"
  }

  // ---------------------------------------------------------------------
  // search
  // ---------------------------------------------------------------------

  /** The arguments of searchContainerByName after the parent container. */
  datatype ContainerSearch = ContainerSearch(parentDn: string, profile: string, containerName: string)

  /** `search`: the same five profile names apply accepts; anything else raises ValueError. */
  function Search(parentDn: string, containerName: string, profile: string): (r: Result<ContainerSearch>)
    ensures r.Ok? <==> ParseProfile(profile).Some?
    ensures r.Err? ==> r.error == ValueError
    ensures r.Ok? ==> r.value.profile == profile && r.value.containerName == containerName
  {
    if !(profile == "Organization" || profile == "OrganizationalUnit" || profile == "Location"
         || profile == "AdminDomain" || profile == "BPOrganization")
    then Err(ValueError)
    else Ok(ContainerSearch(parentDn, profile, containerName))
  }

  // ---------------------------------------------------------------------
  // The change list
  // ---------------------------------------------------------------------

  /** The arguments of `apply`; None is an optional argument left out. */
  datatype ContainerRequest = ContainerRequest(
    parentContainerPath: string,
    profile: string,
    name: string,
    description: Option<string>,
    associatedPeople: Option<seq<NamedEntry>>)

  predicate ValidRequest(req: ContainerRequest) {
    req.parentContainerPath != "" && req.profile != "" && req.name != ""
  }

  /** The values `_build_container_attributes_list` receives; None means no change. */
  datatype ContainerChanges = ContainerChanges(
    name: Option<string>,
    description: Option<string>,
    peopleDns: Option<seq<string>>)

  /**
   * The associated-people field: every DN for an admin domain, the first DN
   * as supervisor or sponsor otherwise, so an empty list raises IndexError.
   */
  function PeopleField(p: Profile, dns: Option<seq<string>>): (r: Result<Field>)
    requires p != Organization
    ensures r.Err? <==> p != AdminDomain && dns == Some([])
    ensures r.Err? ==> r.error == IndexError
    ensures r.Ok? ==> r.value.name == PeopleAttribute(p) && (r.value.values.None? <==> dns.None?)
    ensures r.Ok? && dns.Some? && p == AdminDomain ==> r.value.values == Some(Strs(dns.value))
    ensures r.Ok? && dns.Some? && p != AdminDomain ==> r.value.values == Some([Str(dns.value[0])])
  {
    if dns.None? then Ok(Field(PeopleAttribute(p), None))
    else if p == AdminDomain then Ok(Field(PeopleAttribute(p), Some(Strs(dns.value))))
    else if dns.value == [] then Err(IndexError)
    else Ok(Field(PeopleAttribute(p), Some([Str(dns.value[0])])))
  }

  /** The fields of a container change list: name, description, then associated people. */
  function Fields(p: Profile, c: ContainerChanges): (r: Result<seq<Field>>)
    ensures r.Err? <==> p !in {Organization, AdminDomain} && c.peopleDns == Some([])
    ensures r.Ok? ==> |r.value| == (if p == Organization then 2 else 3)
  {
    var nameField := NameField(p, c.name);
    var descriptionField := TextField("description", if HasDescription(p) then c.description else None);
    if p == Organization then Ok([nameField, descriptionField])
    else
      var peopleField :- PeopleField(p, c.peopleDns);
      Ok([nameField, descriptionField, peopleField])
  }

  /** The change list for a container of profile p. */
  function Attributes(p: Profile, c: ContainerChanges): Result<seq<Attribute>> {
    var fields :- Fields(p, c);
    Ok(ChangeList(fields))
  }

  /** The attribute names of each profile are distinct, ignoring case. */
  lemma FieldNamesDistinct(p: Profile, c: ContainerChanges)
    requires Fields(p, c).Ok?
    ensures DistinctNames(Fields(p, c).value)
  {
    var f := Fields(p, c).value;
    assert Lower("description") == "description";
    assert Lower(NameAttribute(p)) == NameAttribute(p);
    if p == Organization {
      DistinctLoweredNames(f, [NameAttribute(p), "description"]);
    } else {
      PeopleAttributeLowered(p);
      DistinctLoweredNames(f, [NameAttribute(p), "description", Lower(PeopleAttribute(p))]);
    }
  }

  /** The people attribute, lower-cased, is none of the name attributes and not the description. */
  lemma PeopleAttributeLowered(p: Profile)
    requires p != Organization
    ensures Lower(PeopleAttribute(p)) in {"ersupervisor", "ersponsor", "eradministrator"}
  {
    if p == BPOrganization {
      assert Lower("erSponsor") == "ersponsor";
    } else if p == AdminDomain {
      assert Lower("erAdministrator") == "eradministrator";
    } else {
      assert Lower("erSupervisor") == "ersupervisor";
    }
  }

  /** The name field: the attribute the profile keeps its name in. */
  function NameField(p: Profile, name: Option<string>): Field {
    Field(NameAttribute(p), if name.None? then None else Some([Str(name.value)]))
  }

  /** The name block of the builder. */
  method AppendName(attributeList: seq<Attribute>, p: Profile, name: Option<string>) returns (r: seq<Attribute>)
    ensures r == attributeList + Emit(NameField(p, name))
  {
    r := attributeList;
    if name.Some? {
      if p == Organization {
        r := r + [BuildAttribute("o", [Str(name.value)])];
      } else if p == OrganizationalUnit || p == BPOrganization || p == AdminDomain {
        r := r + [BuildAttribute("ou", [Str(name.value)])];
      } else {
        r := r + [BuildAttribute("l", [Str(name.value)])];
      }
    }
  }

  /** The associated-people block of the builder, for a profile that has people. */
  method AppendPeople(attributeList: seq<Attribute>, p: Profile, dns: Option<seq<string>>) returns (r: Result<seq<Attribute>>)
    requires p != Organization
    ensures PeopleField(p, dns).Err? ==> r == Err(IndexError)
    ensures PeopleField(p, dns).Ok? ==> r == Ok(attributeList + Emit(PeopleField(p, dns).value))
  {
    if dns.None? {
      assert attributeList + [] == attributeList;
      return Ok(attributeList);
    }
    if p == OrganizationalUnit || p == Location {
      if dns.value == [] {
        return Err(IndexError);
      }
      return Ok(attributeList + [BuildAttribute("erSupervisor", [Str(dns.value[0])])]);
    } else if p == BPOrganization {
      if dns.value == [] {
        return Err(IndexError);
      }
      return Ok(attributeList + [BuildAttribute("erSponsor", [Str(dns.value[0])])]);
    }
    return Ok(attributeList + [BuildAttribute("erAdministrator", Strs(dns.value))]);
  }

  /** `_build_container_attributes_list` for a validated profile. */
  method BuildAttributes(p: Profile, c: ContainerChanges) returns (r: Result<seq<Attribute>>)
    ensures r == Attributes(p, c)
  {
    ghost var nameField := NameField(p, c.name);
    ghost var descriptionField := TextField("description", if HasDescription(p) then c.description else None);
    var attributeList := AppendName([], p, c.name);
    var description := if p == Organization || p == OrganizationalUnit || p == Location || p == AdminDomain
                       then c.description else None;
    attributeList := AppendTextField(attributeList, "description", description);
    if p == Organization {
      ChangeListOfPair(nameField, descriptionField);
      return Ok(attributeList);
    }
    attributeList :- AppendPeople(attributeList, p, c.peopleDns);
    ChangeListOfTriple(nameField, descriptionField, PeopleField(p, c.peopleDns).value);
    return Ok(attributeList);
  }

  /** The change list of two fields is what each emits, in order. */
  lemma ChangeListOfPair(a: Field, b: Field)
    ensures ChangeList([a, b]) == [] + Emit(a) + Emit(b)
  {
    assert [a, b][1..] == [b] && [b][1..] == [];
  }

  /** The change list of three fields is what each emits, in order. */
  lemma ChangeListOfTriple(a: Field, b: Field, c: Field)
    ensures ChangeList([a, b, c]) == [] + Emit(a) + Emit(b) + Emit(c)
  {
    assert [a, b, c][1..] == [b, c];
    ChangeListOfPair(b, c);
  }

  // ---------------------------------------------------------------------
  // apply
  // ---------------------------------------------------------------------

  /** The first DN, or '' for none. */
  function FirstOrEmpty(dns: seq<string>): (s: string)
    ensures dns == [] ==> s == ""
    ensures dns != [] ==> s == dns[0]
  {
    if dns == [] then "" else dns[0]
  }

  /**
   * Whether the associated people differ: the supervisor or sponsor is the
   * first DN compared as text, administrators are compared as a multiset,
   * and an organization never differs.
   */
  function PeopleDiffers(p: Profile, attrs: seq<Attribute>, dns: seq<string>): (r: Result<bool>)
    ensures p == Organization ==> r == Ok(false)
    ensures p == AdminDomain ==> r == Ok(ListDiffers(AttributeValues(attrs, "erAdministrator"), dns))
    ensures p in {OrganizationalUnit, Location, BPOrganization} ==>
              r == TextDiffers(AttributeValues(attrs, PeopleAttribute(p)), FirstOrEmpty(dns))
  {
    match p
    case Organization => Ok(false)
    case AdminDomain => Ok(ListDiffers(AttributeValues(attrs, "erAdministrator"), dns))
    case BPOrganization => TextDiffers(AttributeValues(attrs, "erSponsor"), FirstOrEmpty(dns))
    case _ => TextDiffers(AttributeValues(attrs, "erSupervisor"), FirstOrEmpty(dns))
  }

  /** The comparison with an existing container; a field that does not differ is not sent. */
  function Diff(existing: SoapObject, p: Profile, description: string, dns: seq<string>): (r: Result<ContainerChanges>)
    ensures r.Err? ==> r.error == IndexError
    ensures r.Ok? ==> r.value.name.None?
    ensures r.Ok? && !HasDescription(p) ==> r.value.description.None?
    ensures r.Ok? && p == Organization ==> r.value.peopleDns.None?
  {
    var attrs := existing.attributes;
    var descriptionDiffers :- if HasDescription(p) then TextDiffers(AttributeValues(attrs, "description"), description)
                              else Ok(false);
    var peopleDiffer :- PeopleDiffers(p, attrs, dns);
    Ok(ContainerChanges(None, SendIf(descriptionDiffers, description), SendIf(peopleDiffer, dns)))
  }

  /** `modify_required`: some field is sent. */
  predicate Changed(c: ContainerChanges) {
    c.name.Some? || c.description.Some? || c.peopleDns.Some?
  }

  /** The existing container already has the desired description and people. */
  predicate InSync(existing: SoapObject, p: Profile, description: string, dns: seq<string>) {
    (HasDescription(p) ==> TextDiffers(AttributeValues(existing.attributes, "description"), description) == Ok(false))
    && PeopleDiffers(p, existing.attributes, dns) == Ok(false)
  }

  /** What `apply` does with an existing container. */
  function Decide(existing: SoapObject, p: Profile, description: string, dns: seq<string>, checkMode: bool): Result<Action> {
    var c :- Diff(existing, p, description, dns);
    if !Changed(c) then Ok(Respond(false, []))
    else if checkMode then Ok(Respond(true, []))
    else
      var attrs :- Attributes(p, c);
      Ok(Modify(existing.itimDN, attrs))
  }

  /** `_create`: the container's name and the create-time profile name, with every field sent. */
  function CreateDecision(parentDn: string, p: Profile, name: string, description: string, dns: seq<string>): (r: Result<Action>)
    ensures r.Err? <==> p !in {Organization, AdminDomain} && dns == []
    ensures r.Err? ==> r.error == IndexError
    ensures r.Ok? ==> r.value.Create? && r.value.parent == parentDn
                      && r.value.fields == [("name", name), ("profileName", CreateProfileName(p))]
  {
    var attrs :- Attributes(p, ContainerChanges(Some(name), Some(description), Some(dns)));
    Ok(Create(parentDn, [("name", name), ("profileName", CreateProfileName(p))], attrs))
  }

  /** `apply`, as a function of the resolver's answers. */
  function Decision(resolver: Resolver, req: ContainerRequest, checkMode: bool, force: bool): (r: Result<Action>)
    ensures !ValidRequest(req) || ParseProfile(req.profile).None? ==> r == Err(ValueError)
    ensures r.Ok? && r.value.Modify? ==> !checkMode
  {
    if !ValidRequest(req) then Err(ValueError)
    else match ParseProfile(req.profile)
      case None => Err(ValueError)
      case Some(p) =>
        var description := if req.description.None? then "" else req.description.value;
        var people := if req.associatedPeople.None? then [] else req.associatedPeople.value;
        var parentDn :- resolver.containerPathToDn(req.parentContainerPath);
        var dns :- if p != Organization then EncodeAll(resolver, people, "person") else Ok([]);
        var existing :- resolver.getUniqueObject(req.parentContainerPath, ProfilePrefix(p) + "::" + req.name, "container");
        if existing.None? || force then
          if checkMode then Ok(Respond(true, []))
          else CreateDecision(parentDn, p, req.name, description, dns)
        else Decide(existing.value, p, description, dns, checkMode)
  }

  /** Diff succeeds with the changes of the two comparisons when both succeed. */
  lemma DiffFromFields(existing: SoapObject, p: Profile, description: string, dns: seq<string>, c: ContainerChanges)
    requires HasDescription(p) ==> TextDiffers(AttributeValues(existing.attributes, "description"), description).Ok?
    requires PeopleDiffers(p, existing.attributes, dns).Ok?
    requires c.name.None?
    requires c.description == SendIf(HasDescription(p) && TextDiffers(AttributeValues(existing.attributes, "description"), description).value, description)
    requires c.peopleDns == SendIf(PeopleDiffers(p, existing.attributes, dns).value, dns)
    ensures Diff(existing, p, description, dns) == Ok(c)
  {
  }

  /** The comparison block of `apply`. */
  method Compare(container: SoapObject, p: Profile, description: string, dns: seq<string>)
    returns (r: Result<ContainerChanges>, modifyRequired: bool)
    ensures r == Diff(container, p, description, dns)
    ensures r.Ok? ==> modifyRequired == Changed(r.value)
  {
    modifyRequired := false;
    var newDescription: Option<string> := Some(description);
    var newPeopleDns: Option<seq<string>> := Some(dns);

    var existingDescription := GetSoapAttribute(container, "description");
    if p == Organization || p == OrganizationalUnit || p == Location || p == AdminDomain {
      if existingDescription.None? {
        if description != "" {
          modifyRequired := true;
        } else {
          newDescription := None;
        }
      } else if existingDescription.value == [] {
        assert Diff(container, p, description, dns) == Err(IndexError);
        return Err(IndexError), modifyRequired;
      } else if Str(description) != existingDescription.value[0] {
        modifyRequired := true;
      } else {
        newDescription := None;
      }
    } else {
      newDescription := None;
    }
    ghost var descriptionDiffers := HasDescription(p) && TextDiffers(AttributeValues(container.attributes, "description"), description).value;
    assert newDescription == SendIf(descriptionDiffers, description);
    assert modifyRequired == newDescription.Some?;

    var existingSupervisor := GetSoapAttribute(container, "erSupervisor");
    var existingSponsor := GetSoapAttribute(container, "erSponsor");
    var existingAdministrators := GetSoapAttribute(container, "erAdministrator");

    if p == OrganizationalUnit || p == Location {
      var newSupervisor := if dns == [] then "" else dns[0];
      if existingSupervisor.None? {
        if newSupervisor != "" {
          modifyRequired := true;
        } else {
          newPeopleDns := None;
        }
      } else if existingSupervisor.value == [] {
        assert Diff(container, p, description, dns) == Err(IndexError);
        return Err(IndexError), modifyRequired;
      } else if Str(newSupervisor) != existingSupervisor.value[0] {
        modifyRequired := true;
      } else {
        newPeopleDns := None;
      }
    } else if p == BPOrganization {
      var newSponsor := if dns == [] then "" else dns[0];
      if existingSponsor.None? {
        if newSponsor != "" {
          modifyRequired := true;
        } else {
          newPeopleDns := None;
        }
      } else if existingSponsor.value == [] {
        assert Diff(container, p, description, dns) == Err(IndexError);
        return Err(IndexError), modifyRequired;
      } else if Str(newSponsor) != existingSponsor.value[0] {
        modifyRequired := true;
      } else {
        newPeopleDns := None;
      }
    } else if p == AdminDomain {
      if existingAdministrators.None? {
        if dns != [] {
          modifyRequired := true;
        } else {
          newPeopleDns := None;
        }
      } else if multiset(Strs(dns)) != multiset(existingAdministrators.value) {
        modifyRequired := true;
      } else {
        newPeopleDns := None;
      }
    } else {
      newPeopleDns := None;
    }
    assert newPeopleDns == SendIf(PeopleDiffers(p, container.attributes, dns).value, dns);

    DiffFromFields(container, p, description, dns, ContainerChanges(None, newDescription, newPeopleDns));
    r := Ok(ContainerChanges(None, newDescription, newPeopleDns));
  }

  /** `apply`: validate, fill in empties, resolve DNs, then create or compare. */
  method Apply(resolver: Resolver, req: ContainerRequest, checkMode: bool, force: bool) returns (r: Result<Action>)
    ensures r == Decision(resolver, req, checkMode, force)
  {
    if !(req.parentContainerPath != "" && req.profile != "" && req.name != "") {
      return Err(ValueError);
    }
    var parsed := ParseProfile(req.profile);
    if parsed.None? {
      return Err(ValueError);
    }
    var p := parsed.value;
    var profilePrefix := ProfilePrefix(p);

    var description: string := if req.description.None? then "" else req.description.value;
    var associatedPeople: seq<NamedEntry> := if req.associatedPeople.None? then [] else req.associatedPeople.value;

    var parentDn :- resolver.containerPathToDn(req.parentContainerPath);
    var associatedPeopleDns: seq<string> := [];
    if p != Organization {
      associatedPeopleDns :- EncodeEach(resolver, associatedPeople, "person");
    }

    var existingContainer :- resolver.getUniqueObject(req.parentContainerPath, profilePrefix + "::" + req.name, "container");

    if existingContainer.None? || force {
      if checkMode {
        return Ok(Respond(true, []));
      }
      var attributeList :- BuildAttributes(p, ContainerChanges(Some(req.name), Some(description), Some(associatedPeopleDns)));
      return Ok(Create(parentDn, [("name", req.name), ("profileName", CreateProfileName(p))], attributeList));
    }

    var container := existingContainer.value;
    var changes, modifyRequired := Compare(container, p, description, associatedPeopleDns);
    if changes.Err? {
      return Err(changes.error);
    }
    if modifyRequired {
      if checkMode {
        return Ok(Respond(true, []));
      }
      var attributeList :- BuildAttributes(p, changes.value);
      return Ok(Modify(container.itimDN, attributeList));
    }
    return Ok(Respond(false, []));
  }

  // ---------------------------------------------------------------------
  // Properties
  // ---------------------------------------------------------------------

  /** An existing container is left alone exactly when description and people are in sync. */
  lemma NoChangeIffInSync(existing: SoapObject, p: Profile, description: string, dns: seq<string>, checkMode: bool)
    ensures Decide(existing, p, description, dns, checkMode) == Ok(Respond(false, [])) <==> InSync(existing, p, description, dns)
  {
  }

  /**
   * Once the server has applied the modification a run asked for, a second
   * run with the same arguments finds nothing to change.
   */
  lemma SecondRunNoChange(existing: SoapObject, p: Profile, description: string, dns: seq<string>,
                          dn: string, mods: seq<Attribute>)
    requires Decide(existing, p, description, dns, false) == Ok(Modify(dn, mods))
    ensures InSync(existing.(attributes := ApplyModifications(existing.attributes, mods)), p, description, dns)
  {
    var c := Diff(existing, p, description, dns).value;
    var f := Fields(p, c).value;
    var attrs := existing.attributes;
    assert mods == ChangeList(f);
    FieldNamesDistinct(p, c);
    var after := ApplyModifications(attrs, mods);
    if HasDescription(p) {
      FieldAfterModifications(attrs, f, 1);
      TextFieldSettles(AttributeValues(attrs, "description"), "description", description);
    }
    if p != Organization {
      FieldAfterModifications(attrs, f, 2);
      if p == AdminDomain {
        ListFieldSettles(AttributeValues(attrs, "erAdministrator"), "erAdministrator", dns);
        assert f[2] == ListField("erAdministrator", c.peopleDns);
      } else if c.peopleDns.Some? {
        assert AttributeValues(after, PeopleAttribute(p)) == Some([Str(dns[0])]);
      }
    }
  }

  /**
   * Creating a unit, location or business partner unit without associated
   * people raises IndexError: the builder reads the first DN of an empty list.
   */
  lemma CreateWithoutPeopleRaises(parentDn: string, p: Profile, name: string, description: string)
    requires p in {OrganizationalUnit, Location, BPOrganization}
    ensures CreateDecision(parentDn, p, name, description, []) == Err(IndexError)
  {
  }

  /**
   * Removing the last associated person of a unit, location or business
   * partner unit that has a supervisor or sponsor raises IndexError instead of
   * clearing it.
   */
  lemma ClearingPeopleRaises(existing: SoapObject, p: Profile, description: string, v: Value, vs: seq<Value>)
    requires p in {OrganizationalUnit, Location, BPOrganization}
    requires AttributeValues(existing.attributes, PeopleAttribute(p)) == Some([v] + vs) && v != Str("")
    requires HasDescription(p) ==> TextDiffers(AttributeValues(existing.attributes, "description"), description).Ok?
    ensures Decide(existing, p, description, [], false) == Err(IndexError)
  {
  }

  /** An organization has no associated people: the people given, and their resolution, do not matter. */
  lemma OrganizationIgnoresPeople(resolver: Resolver, req: ContainerRequest, people: Option<seq<NamedEntry>>,
                                  checkMode: bool, force: bool)
    requires ParseProfile(req.profile) == Some(Organization)
    ensures Decision(resolver, req, checkMode, force)
            == Decision(resolver, req.(associatedPeople := people), checkMode, force)
  {
  }

  /** A create names the container in the attribute its profile uses. */
  lemma CreateSetsName(parentDn: string, p: Profile, name: string, description: string, dns: seq<string>)
    requires CreateDecision(parentDn, p, name, description, dns).Ok?
    ensures CreateDecision(parentDn, p, name, description, dns).value.attributes[0]
            == BuildAttribute(NameAttribute(p), [Str(name)])
  {
    var f := Fields(p, ContainerChanges(Some(name), Some(description), Some(dns))).value;
    assert ChangeList(f) == Emit(f[0]) + ChangeList(f[1..]);
  }
}
