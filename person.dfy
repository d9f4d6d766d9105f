/**
 * Applying a person: find the person with a uid in a container, create it
 * when there is none, otherwise compare full name, surname, aliases, password
 * and roles with the existing person and modify only the fields that differ.
 */
module Person {
  import opened Common
  import opened Tools
  import opened Reconcile

  /** The arguments of `apply`; None is an optional argument left out. */
  datatype PersonRequest = PersonRequest(
    containerPath: string,
    uid: string,
    profile: string,
    fullName: string,
    surname: string,
    aliases: Option<seq<string>>,
    password: Option<string>,
    roles: Option<seq<NamedEntry>>)

  /** The compulsory arguments are non-empty. */
  predicate ValidRequest(req: PersonRequest) {
    req.containerPath != "" && req.uid != "" && req.profile != "" && req.fullName != "" && req.surname != ""
  }

  /** The values `_build_person_attributes_list` receives; None means no change. */
  datatype PersonChanges = PersonChanges(
    uid: Option<string>,
    fullName: Option<string>,
    surname: Option<string>,
    aliases: Option<seq<string>>,
    password: Option<string>,
    roleDns: Option<seq<string>>)

  function Fields(c: PersonChanges): (fields: seq<Field>)
    ensures |fields| == 6
  {
    [TextField("uid", c.uid),
     TextField("cn", c.fullName),
     TextField("sn", c.surname),
     ListField("eraliases", c.aliases),
     TextField("erpersonpassword", c.password),
     ListField("erroles", c.roleDns)]
  }

  /** The change list for a person. */
  function Attributes(c: PersonChanges): seq<Attribute> {
    ChangeList(Fields(c))
  }

  /** The six attribute names are distinct, ignoring case. */
  lemma FieldNamesDistinct(c: PersonChanges)
    ensures DistinctNames(Fields(c))
  {
    var f := Fields(c);
    forall j | 0 <= j < |f| ensures Lower(f[j].name) == f[j].name {
    }
    DistinctLowerCaseNames(f);
  }

  /** `_build_person_attributes_list`: one append per field that is not None, in field order. */
  method BuildAttributes(c: PersonChanges) returns (attributeList: seq<Attribute>)
    ensures attributeList == Attributes(c)
  {
    ghost var f := Fields(c);
    attributeList := AppendTextField([], "uid", c.uid);
    assert attributeList == ChangeListUpTo(f, 1);
    attributeList := AppendTextField(attributeList, "cn", c.fullName);
    assert attributeList == ChangeListUpTo(f, 2);
    attributeList := AppendTextField(attributeList, "sn", c.surname);
    assert attributeList == ChangeListUpTo(f, 3);
    attributeList := AppendListField(attributeList, "eraliases", c.aliases);
    assert attributeList == ChangeListUpTo(f, 4);
    attributeList := AppendTextField(attributeList, "erpersonpassword", c.password);
    assert attributeList == ChangeListUpTo(f, 5);
    attributeList := AppendListField(attributeList, "erroles", c.roleDns);
    assert attributeList == ChangeListUpTo(f, 6);
    assert f[..6] == f;
  }

  /**
   * The comparison with an existing person: cn and sn always differ when
   * absent; aliases and roles are multisets; the password is compared as
   * text. A field that does not differ is not sent (None).
   */
  function Diff(existing: SoapObject, fullName: string, surname: string, aliases: seq<string>,
                password: string, roleDns: seq<string>): (r: Result<PersonChanges>)
    ensures r.Err? ==> r.error == IndexError
    ensures r.Ok? ==> r.value.uid.None?
  {
    var attrs := existing.attributes;
    var cn :- TextDiffersStrict(AttributeValues(attrs, "cn"), fullName);
    var sn :- TextDiffersStrict(AttributeValues(attrs, "sn"), surname);
    var al := ListDiffers(AttributeValues(attrs, "eraliases"), aliases);
    var pw :- TextDiffers(AttributeValues(attrs, "erpersonpassword"), password);
    var rl := ListDiffers(AttributeValues(attrs, "erroles"), roleDns);
    Ok(PersonChanges(None, SendIf(cn, fullName), SendIf(sn, surname), SendIf(al, aliases),
                     SendIf(pw, password), SendIf(rl, roleDns)))
  }

  /** Diff succeeds with the changes of the five per-field comparisons when the text comparisons succeed. */
  lemma DiffFromFields(existing: SoapObject, fullName: string, surname: string, aliases: seq<string>,
                       password: string, roleDns: seq<string>, c: PersonChanges)
    requires TextDiffersStrict(AttributeValues(existing.attributes, "cn"), fullName).Ok?
    requires TextDiffersStrict(AttributeValues(existing.attributes, "sn"), surname).Ok?
    requires TextDiffers(AttributeValues(existing.attributes, "erpersonpassword"), password).Ok?
    requires c.uid.None?
    requires c.fullName == SendIf(TextDiffersStrict(AttributeValues(existing.attributes, "cn"), fullName).value, fullName)
    requires c.surname == SendIf(TextDiffersStrict(AttributeValues(existing.attributes, "sn"), surname).value, surname)
    requires c.aliases == SendIf(ListDiffers(AttributeValues(existing.attributes, "eraliases"), aliases), aliases)
    requires c.password == SendIf(TextDiffers(AttributeValues(existing.attributes, "erpersonpassword"), password).value, password)
    requires c.roleDns == SendIf(ListDiffers(AttributeValues(existing.attributes, "erroles"), roleDns), roleDns)
    ensures Diff(existing, fullName, surname, aliases, password, roleDns) == Ok(c)
  {
  }

  /** `modify_required`: some field is sent. */
  predicate Changed(c: PersonChanges) {
    c.uid.Some? || c.fullName.Some? || c.surname.Some? || c.aliases.Some? || c.password.Some? || c.roleDns.Some?
  }

  /** The existing person already has every desired value but, perhaps, the password. */
  predicate InSyncExceptPassword(existing: SoapObject, fullName: string, surname: string, aliases: seq<string>,
                                 roleDns: seq<string>)
  {
    var attrs := existing.attributes;
    TextDiffersStrict(AttributeValues(attrs, "cn"), fullName) == Ok(false)
    && TextDiffersStrict(AttributeValues(attrs, "sn"), surname) == Ok(false)
    && !ListDiffers(AttributeValues(attrs, "eraliases"), aliases)
    && !ListDiffers(AttributeValues(attrs, "erroles"), roleDns)
  }

  /** The existing person already has every desired value. */
  predicate InSync(existing: SoapObject, fullName: string, surname: string, aliases: seq<string>,
                   password: string, roleDns: seq<string>)
  {
    InSyncExceptPassword(existing, fullName, surname, aliases, roleDns)
    && TextDiffers(AttributeValues(existing.attributes, "erpersonpassword"), password) == Ok(false)
  }

  /** What `apply` does with an existing person. */
  function Decide(existing: SoapObject, fullName: string, surname: string, aliases: seq<string>,
                  password: string, roleDns: seq<string>, checkMode: bool): Result<Action>
  {
    var c :- Diff(existing, fullName, surname, aliases, password, roleDns);
    if !Changed(c) then Ok(Respond(false, []))
    else if checkMode then Ok(Respond(true, []))
    else Ok(Modify(existing.itimDN, Attributes(c)))
  }

  /** `_create`: the profile must be "person" ignoring case and is sent as "Person". */
  function CreateDecision(containerDn: string, uid: string, profile: string, fullName: string, surname: string,
                          aliases: seq<string>, password: string, roleDns: seq<string>): (r: Result<Action>)
    ensures r.Err? <==> Lower(profile) != "person"
    ensures r.Err? ==> r.error == ValueError
    ensures r.Ok? ==> r.value.Create? && r.value.parent == containerDn && r.value.fields == [("profileName", "Person")]
  {
    if Lower(profile) != "person" then Err(ValueError)
    else
      var c := PersonChanges(Some(uid), Some(fullName), Some(surname), Some(aliases), Some(password), Some(roleDns));
      Ok(Create(containerDn, [("profileName", "Person")], Attributes(c)))
  }

  /** `apply`, as a function of the resolver's answers. */
  function Decision(resolver: Resolver, req: PersonRequest, checkMode: bool, force: bool): (r: Result<Action>)
    ensures !ValidRequest(req) ==> r == Err(ValueError)
    ensures r.Ok? && r.value.Modify? ==> !checkMode
    ensures r.Ok? ==> !r.value.Forward?
  {
    if !ValidRequest(req) then Err(ValueError)
    else
      var aliases := if req.aliases.None? then [] else req.aliases.value;
      var password := if req.password.None? then "" else req.password.value;
      var roles := if req.roles.None? then [] else req.roles.value;
      var containerDn :- resolver.containerPathToDn(req.containerPath);
      var roleDns :- EncodeAll(resolver, roles, "role");
      var existing :- resolver.getUniqueObject(req.containerPath, req.uid, "person");
      if existing.None? || force then
        if checkMode then Ok(Respond(true, []))
        else CreateDecision(containerDn, req.uid, req.profile, req.fullName, req.surname, aliases, password, roleDns)
      else
        Decide(existing.value, req.fullName, req.surname, aliases, password, roleDns, checkMode)
  }

  /** The comparison block of `apply`: each field is compared and set to None when it already matches. */
  method Compare(person: SoapObject, fullName: string, surname: string, aliases: seq<string>,
                 password: string, roleDns: seq<string>) returns (r: Result<PersonChanges>, modifyRequired: bool)
    ensures r == Diff(person, fullName, surname, aliases, password, roleDns)
    ensures r.Ok? ==> modifyRequired == Changed(r.value)
  {
    var existing := GetSoapAttribute(person, "cn");
    var fullNameDiffers := CompareTextStrict(existing, fullName);
    if fullNameDiffers.Err? {
      return Err(fullNameDiffers.error), false;
    }
    existing := GetSoapAttribute(person, "sn");
    var surnameDiffers := CompareTextStrict(existing, surname);
    if surnameDiffers.Err? {
      return Err(surnameDiffers.error), fullNameDiffers.value;
    }
    existing := GetSoapAttribute(person, "eraliases");
    var aliasesDiffer := CompareList(existing, aliases);
    existing := GetSoapAttribute(person, "erpersonpassword");
    var passwordDiffers := CompareText(existing, password);
    if passwordDiffers.Err? {
      return Err(passwordDiffers.error), fullNameDiffers.value || surnameDiffers.value || aliasesDiffer;
    }
    existing := GetSoapAttribute(person, "erroles");
    var rolesDiffer := CompareList(existing, roleDns);

    modifyRequired := fullNameDiffers.value || surnameDiffers.value || aliasesDiffer || passwordDiffers.value || rolesDiffer;
    r := Ok(PersonChanges(None, SendIf(fullNameDiffers.value, fullName), SendIf(surnameDiffers.value, surname),
                          SendIf(aliasesDiffer, aliases), SendIf(passwordDiffers.value, password),
                          SendIf(rolesDiffer, roleDns)));
    DiffFromFields(person, fullName, surname, aliases, password, roleDns, r.value);
  }

  /** `apply`: validate, fill in empties, resolve DNs, then create or compare field by field. */
  method Apply(resolver: Resolver, req: PersonRequest, checkMode: bool, force: bool) returns (r: Result<Action>)
    ensures r == Decision(resolver, req, checkMode, force)
  {
    if !(req.containerPath != "" && req.uid != "" && req.profile != "" && req.fullName != "" && req.surname != "") {
      return Err(ValueError);
    }
    var aliases: seq<string> := if req.aliases.None? then [] else req.aliases.value;
    var password: string := if req.password.None? then "" else req.password.value;
    var roles: seq<NamedEntry> := if req.roles.None? then [] else req.roles.value;

    var containerDn :- resolver.containerPathToDn(req.containerPath);
    var roleDns :- EncodeEach(resolver, roles, "role");
    var existingPerson :- resolver.getUniqueObject(req.containerPath, req.uid, "person");

    if existingPerson.None? || force {
      if checkMode {
        return Ok(Respond(true, []));
      }
      if Lower(req.profile) != "person" {
        return Err(ValueError);
      }
      var attributeList := BuildAttributes(PersonChanges(Some(req.uid), Some(req.fullName), Some(req.surname),
                                                         Some(aliases), Some(password), Some(roleDns)));
      return Ok(Create(containerDn, [("profileName", "Person")], attributeList));
    }

    var person := existingPerson.value;
    var changes, modifyRequired := Compare(person, req.fullName, req.surname, aliases, password, roleDns);
    if changes.Err? {
      return Err(changes.error);
    }
    if modifyRequired {
      if checkMode {
        return Ok(Respond(true, []));
      }
      var attributeList := BuildAttributes(changes.value);
      return Ok(Modify(person.itimDN, attributeList));
    }
    return Ok(Respond(false, []));
  }

  // ---------------------------------------------------------------------
  // Properties
  // ---------------------------------------------------------------------

  /** An existing person is left alone exactly when every field is already in sync. */
  lemma NoChangeIffInSync(existing: SoapObject, fullName: string, surname: string, aliases: seq<string>,
                          password: string, roleDns: seq<string>, checkMode: bool)
    ensures Decide(existing, fullName, surname, aliases, password, roleDns, checkMode) == Ok(Respond(false, []))
            <==> InSync(existing, fullName, surname, aliases, password, roleDns)
  {
  }

  /**
   * The server's handling of a person modification: every attribute but the
   * password holds what the change list says. A password is kept encrypted,
   * so what the server holds for it is left open.
   */
  ghost predicate StoredExceptPassword(before: seq<Attribute>, mods: seq<Attribute>, after: seq<Attribute>) {
    forall key :: !EqualsIgnoreCase(key, "erpersonpassword") ==>
      AttributeValues(after, key) == AttributeValues(ApplyModifications(before, mods), key)
  }

  /**
   * Once the server has applied the modification a run asked for, a second
   * run with the same arguments finds full name, surname, aliases and roles
   * in sync; the password is in sync too only if the server kept it as sent.
   */
  lemma SecondRunNoChange(existing: SoapObject, fullName: string, surname: string, aliases: seq<string>,
                          password: string, roleDns: seq<string>, dn: string, mods: seq<Attribute>,
                          after: seq<Attribute>)
    requires fullName != "" && surname != ""
    requires Decide(existing, fullName, surname, aliases, password, roleDns, false) == Ok(Modify(dn, mods))
    requires StoredExceptPassword(existing.attributes, mods, after)
    ensures InSyncExceptPassword(existing.(attributes := after), fullName, surname, aliases, roleDns)
    ensures AttributeValues(after, "erpersonpassword")
            == AttributeValues(ApplyModifications(existing.attributes, mods), "erpersonpassword")
            ==> InSync(existing.(attributes := after), fullName, surname, aliases, password, roleDns)
  {
    var c := Diff(existing, fullName, surname, aliases, password, roleDns).value;
    var f := Fields(c);
    var attrs := existing.attributes;
    assert mods == ChangeList(f);
    FieldNamesDistinct(c);
    FieldAfterModifications(attrs, f, 1);
    StrictTextFieldSettles(AttributeValues(attrs, "cn"), "cn", fullName);
    FieldAfterModifications(attrs, f, 2);
    StrictTextFieldSettles(AttributeValues(attrs, "sn"), "sn", surname);
    FieldAfterModifications(attrs, f, 3);
    ListFieldSettles(AttributeValues(attrs, "eraliases"), "eraliases", aliases);
    FieldAfterModifications(attrs, f, 4);
    TextFieldSettles(AttributeValues(attrs, "erpersonpassword"), "erpersonpassword", password);
    FieldAfterModifications(attrs, f, 5);
    ListFieldSettles(AttributeValues(attrs, "erroles"), "erroles", roleDns);
    assert !EqualsIgnoreCase("cn", "erpersonpassword") && !EqualsIgnoreCase("sn", "erpersonpassword");
    assert !EqualsIgnoreCase("eraliases", "erpersonpassword") && !EqualsIgnoreCase("erroles", "erpersonpassword");
  }

  /**
   * A stored password whose first value is not the requested text is sent
   * again, so the person is never left alone: the run modifies it, reports
   * it changed in check mode, or raises. As the server keeps passwords
   * encrypted, this holds on every run that names a non-empty password.
   */
  lemma PasswordAlwaysResent(existing: SoapObject, fullName: string, surname: string, aliases: seq<string>,
                             password: string, roleDns: seq<string>, checkMode: bool, stored: seq<Value>)
    requires AttributeValues(existing.attributes, "erpersonpassword") == Some(stored)
    requires stored != [] && stored[0] != Str(password)
    ensures Diff(existing, fullName, surname, aliases, password, roleDns).Ok? ==>
            Diff(existing, fullName, surname, aliases, password, roleDns).value.password == Some(password)
    ensures Decide(existing, fullName, surname, aliases, password, roleDns, checkMode) != Ok(Respond(false, []))
  {
  }

  /** A create sends every field, so each attribute ends up set or cleared as requested. */
  lemma CreateSendsEveryField(containerDn: string, uid: string, profile: string, fullName: string, surname: string,
                              aliases: seq<string>, password: string, roleDns: seq<string>)
    requires Lower(profile) == "person"
    ensures CreateDecision(containerDn, uid, profile, fullName, surname, aliases, password, roleDns).value.attributes
            == [BuildAttribute("uid", TextValues(uid)), BuildAttribute("cn", TextValues(fullName)),
                BuildAttribute("sn", TextValues(surname)), BuildAttribute("eraliases", Strs(aliases)),
                BuildAttribute("erpersonpassword", TextValues(password)), BuildAttribute("erroles", Strs(roleDns))]
  {
    ChangeListAllSent(Fields(PersonChanges(Some(uid), Some(fullName), Some(surname), Some(aliases), Some(password), Some(roleDns))));
  }
}
