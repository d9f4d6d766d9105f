# isimws reconciliation core, modelled in Dafny

This project models the client side of the IBM Security Identity Manager
(ISIM) web-services library `isimws` and the Ansible filter that ships with
it. The library's entity modules offer an idempotent `apply`. It looks up an
object on the identity server and creates it when it is missing. Otherwise it
compares each requested field with the stored one and sends a modification
holding only the fields that differ. When nothing differs, it reports
`changed = false`.

The model covers:

- the attribute codec (`build_attribute`, `get_soap_attribute`,
  `list_soap_attribute_keys`, `strip_zeep_element_data`): module `Tools`;
- the response envelope, the version gate (`version_compare` and its
  doc-comment table), the change hint, and the handling of connection
  errors and SOAP faults: module `IsimApplication`;
- the DN encoder, which maps between ISIM DNs and container paths, and the
  workflow DN parser and filters: modules `DnEncoder` and `Workflow`;
- the reconciliation engines:
  - the shared three-way field comparison and the change-list builder:
    module `Reconcile`;
  - account services and identity feeds, with their configuration
    dictionary: modules `ServiceConfig`, `Service`, `AccountService` and
    `IdentityFeed`;
  - roles in both generations of the module: `Role` is the newer one and
    `RoleLegacy` the older, stricter one;
  - containers and people: modules `Container` and `Person`;
- the encoding and validation tables of provisioning-policy creation:
  module `ProvisioningPolicy`;
- the `include_only` list and dict filter: module `IncludeOnly`.

Each `apply` is stated twice:

- as a pure function that returns the decision: raise, respond,
  forward a failed lookup, create, or modify with a given change list;
- as a method that follows the code's sequence of comparisons and is proved
  to return that decision.

The lemmas state what the code promises:

- an object is left alone exactly when every field is in sync;
- once the server has applied the modification a run asked for, a second run
  with the same arguments finds nothing to change (for a person, nothing but
  the password, which the server keeps encrypted and which is sent again on
  every run);
- the error paths, the check-mode behaviour and each module's quirks.

Remote calls are inputs to the model. A search answer, a lookup of a DN by
container path, and the server's handling of a modification are function
parameters or explicit functions, so every statement holds for any server
answer. The server is assumed to replace each attribute a modification
names with the values sent, and to clear it when the list is empty
(`Reconcile.ApplyModifications`). The second-run lemmas depend on this
assumption. A person's password is the exception: the server keeps it
encrypted, so the person lemmas leave what it stores for it open.

Where the doc-comments and the code disagree, the model follows the code:

- `include_only` KEEPS the elements whose first item equals `b`; the
  docstring's first line says it removes them, but its examples agree with
  the code;
- `create_return_object` never sets a `fault` key, so `IBMResponse.succeeded`
  is false on a fresh envelope;
- a container builder asked to clear the supervisor or sponsor reads the
  first of no people and raises IndexError, which is what the model does;
- the older role module looks attributes up by exact, case-sensitive name;
  the newer helpers ignore case.

## Model

| member | source | states |
|---|---|---|
| Tools.Strs | isimws/utilities/tools.py:20 | the string values are sent one for one, in order |
| Tools.StrsInjective | isimws/utilities/tools.py:20 | different string lists give different value lists |
| Tools.BuildAttribute | isimws/utilities/tools.py:8-21 | the record carries the given name and values, a replace operation (0), and is not encoded |
| Tools.AttributeValuesFirstMatch | isimws/utilities/tools.py:35-41 | the lookup `AttributeValues` behind `get_soap_attribute` yields the values of the first attribute whose name equals the key ignoring case, and None exactly when no attribute matches |
| Tools.AttributeValuesIgnoresCase | isimws/utilities/tools.py:38 | two keys equal up to case find the same values |
| Tools.GetSoapAttribute | isimws/utilities/tools.py:24-41 | the scan returns the specified lookup |
| Tools.ListSoapAttributeKeys | isimws/utilities/tools.py:44-58 | one lower-cased name per attribute, in order |
| Tools.ListedKeysAreFound | isimws/utilities/tools.py:38-39 | every listed key is found by the lookup |
| Tools.StripElement | isimws/utilities/tools.py:75 | the element loses the raw-data key and keeps every other key and value |
| Tools.StripNode | isimws/utilities/tools.py:74-75 | every child element is stripped, and the number of children stays the same |
| Tools.StripResults | isimws/utilities/tools.py:73-75 | every result of a list is stripped, in order |
| Tools.StripChildren | isimws/utilities/tools.py:74-75 | stripping a node's children raises KeyError exactly when a child lacks the raw-data key, and otherwise gives the stripped node; on KeyError the children before the first one without the key are already stripped and the rest are as they were |
| Tools.StripEach | isimws/utilities/tools.py:72-75 | stripping a result list raises KeyError exactly when some child lacks the key, and otherwise gives every result stripped; on KeyError the results before the failing one are stripped, the failing one up to its first child without the key, and the rest are as they were |
| Tools.StripZeepElementData | isimws/utilities/tools.py:61-80 | the same response comes back, its data stripped in place for a list or a single record and left alone otherwise; on KeyError the deletions made before the failing element stay made; rc, changed, warnings and fault are untouched |
| IsimApplication.IBMResponse.CreateReturnObject | isimws/application/isimapplication.py:77-90 | the response holds the given rc, data, changed and warnings and no fault key, so it reports failed and not succeeded |
| IsimApplication.DigitRun | isimws/application/isimapplication.py:127 | the run of digits before a position is maximal |
| IsimApplication.BuildEnd | isimws/application/isimapplication.py:127 | the version text left once a trailing build marker `_b<digits>` is cut off |
| IsimApplication.ZeroRun | isimws/application/isimapplication.py:128 | the run of '0' characters before a position is maximal |
| IsimApplication.ZeroGroupsEnd | isimws/application/isimapplication.py:128 | the end of the text once trailing `.0…` groups are cut off |
| IsimApplication.NextDot | isimws/application/isimapplication.py:128 | the next '.' at or after a position, or the end |
| IsimApplication.ParseComponents | isimws/application/isimapplication.py:128 | each dot-separated component goes through `int`; a parse yields at least one integer, and any failure is ValueError |
| IsimApplication.LexCompare | isimws/application/isimapplication.py:130-135 | Python's list ordering yields -1, 0 or 1 |
| IsimApplication.LexCompareAntisymmetric | isimws/application/isimapplication.py:130-135 | swapping the lists negates the comparison |
| IsimApplication.LexCompareZeroIffEqual | isimws/application/isimapplication.py:130 | the comparison is 0 exactly when the lists are equal |
| IsimApplication.LexCompareCommonPrefix | isimws/application/isimapplication.py:130-135 | a common prefix does not change the comparison |
| IsimApplication.VersionCompare | isimws/application/isimapplication.py:93-135 | the result is -1, 0 or 1, and it is an error exactly when a version does not normalize |
| IsimApplication.VersionCompareAntisymmetric | isimws/application/isimapplication.py:93-135 | swapping the versions negates the result |
| IsimApplication.VersionCompareZero | isimws/application/isimapplication.py:130-131 | the result is 0 exactly when both versions have the same normal form |
| IsimApplication.BuildMarkerIgnored | isimws/application/isimapplication.py:127 | a trailing build marker does not change the normal form |
| IsimApplication.ZeroGroupIgnored | isimws/application/isimapplication.py:128 | a trailing '.0' group does not change the normal form |
| IsimApplication.ParseComponentsPrefix | isimws/application/isimapplication.py:128 | parsing a range ignores the text after it |
| IsimApplication.VersionCompareCase1 | isimws/application/isimapplication.py:103 | "1" equals "1" |
| IsimApplication.VersionCompareCase2 | isimws/application/isimapplication.py:104 | "2.1" is below "2.2" |
| IsimApplication.VersionCompareCase3 | isimws/application/isimapplication.py:105 | "3.0.4.10" is above "3.0.4.2" |
| IsimApplication.VersionCompareCase4 | isimws/application/isimapplication.py:106 | "4.08" is below "4.08.01" |
| IsimApplication.VersionCompareCase5 | isimws/application/isimapplication.py:107 | "3.2.1.9.8144" is above "3.2" |
| IsimApplication.VersionCompareCase6 | isimws/application/isimapplication.py:108 | "3.2" is below "3.2.1.9.8144" |
| IsimApplication.VersionCompareCase7 | isimws/application/isimapplication.py:109 | "1.2" is below "2.1" |
| IsimApplication.VersionCompareCase8 | isimws/application/isimapplication.py:110 | "2.1" is above "1.2" |
| IsimApplication.VersionCompareCase9 | isimws/application/isimapplication.py:111 | "5.6.7" equals "5.6.7" |
| IsimApplication.VersionCompareCase10 | isimws/application/isimapplication.py:112 | "1.01.1" equals "1.1.1" |
| IsimApplication.VersionCompareCase11 | isimws/application/isimapplication.py:113 | "1.1.1" equals "1.01.1" |
| IsimApplication.VersionCompareCase12 | isimws/application/isimapplication.py:114 | "1" equals "1.0" |
| IsimApplication.VersionCompareCase13 | isimws/application/isimapplication.py:115 | "1.0" equals "1" |
| IsimApplication.VersionCompareCase14 | isimws/application/isimapplication.py:116 | "1.0" is below "1.0.1" |
| IsimApplication.VersionCompareCase15 | isimws/application/isimapplication.py:117 | "1.0.1" is above "1.0" |
| IsimApplication.VersionCompareCase16 | isimws/application/isimapplication.py:118 | "1.0.2.0" equals "1.0.2" |
| IsimApplication.VersionCompareCase17 | isimws/application/isimapplication.py:119 | "10.0" is above "9.0.3" |
| IsimApplication.ComponentsReadByInt | isimws/application/isimapplication.py:128 | components are read by `int`, so a sign or surrounding white space in a component does not change the comparison: "1.+1" and "1. 1 " equal "1.1" |
| IsimApplication.StartsWithAny | isimws/application/isimapplication.py:317 | true exactly when the text starts with one of the prefixes |
| IsimApplication.ChangedHint | isimws/application/isimapplication.py:316-318 | an operation counts as a change exactly when its lower-cased name starts with none of the read-only prefixes |
| IsimApplication.ChangedHintExamples | isimws/application/isimapplication.py:317-318 | a search does not count as a change and a modify does |
| IsimApplication.ISIMApplication.constructor | isimws/application/isimapplication.py:208-210 | the version is the reported version and the fix-pack level joined by a dot |
| IsimApplication.ISIMApplication.IsVersionSupported | isimws/application/isimapplication.py:375-384 | an unknown version or no requirement is supported; otherwise the version is supported exactly when it is not below the requirement, and a malformed version raises |
| IsimApplication.ISIMApplication.CheckVersion | isimws/application/isimapplication.py:355-373 | a supported version changes nothing; an unsupported one raises IBMError, or with ignore_error sets rc to 1 |
| IsimApplication.ISIMApplication.ProcessConnectionError | isimws/application/isimapplication.py:386-397 | raises IBMError, or with ignore_error sets rc to 502 |
| IsimApplication.ISIMApplication.ProcessResponse | isimws/application/isimapplication.py:399-469 | a response with rc already set is untouched. Without a fault, rc is 0 and the data is stored. A fault sets rc to 500. An invalid-session fault raises IBMFatal, and any other fault raises IBMError unless ignored; an ignored fault forces changed to False |
| IsimApplication.ISIMApplication.InvokeSoapRequest | isimws/application/isimapplication.py:257-326 | an unsupported version raises IBMError, or with ignore_error returns rc 1 before the call is made. A returned call gives rc 0 with the data, and changed set exactly for operations that are not read-only. A failed connection raises IBMError, or gives rc 502. A fault gives rc 500 and raises IBMFatal or IBMError, unless it is an ignored ordinary fault, which forces changed to False. Without ignore_error a call that returns has rc 0 |
| DnEncoder.TypeOfName | isimws/utilities/dnencoder.py:142-163 | exactly 'role', 'person', 'service' and 'workflow' name a type, each its own |
| DnEncoder.TypeOfComponent | isimws/utilities/dnencoder.py:62-80 | a type is read exactly when the DN part ends with one of the four `ou` components, tried in the code's order |
| DnEncoder.TypeOfComponentSuffix | isimws/utilities/dnencoder.py:62-77 | a DN part that ends in a type's `ou` component is read as that type, whatever precedes it |
| DnEncoder.OrgMapLastWins | isimws/utilities/dnencoder.py:24-25 | every organization's name maps to the DN of the last organization of that name |
| DnEncoder.DnMapLastWins | isimws/utilities/dnencoder.py:24-26 | every organization's DN maps to the name of the last organization with that DN |
| DnEncoder.MapsConsistent | isimws/utilities/dnencoder.py:24-26 | the suffix order lists exactly the DN map's keys, and every name in the DN map is in the name map |
| DnEncoder.MapsCoverOrganizations | isimws/utilities/dnencoder.py:24-26 | every organization's name and DN are keys of the maps |
| DnEncoder.MapsOnlyOrganizations | isimws/utilities/dnencoder.py:24-26 | the maps hold no name and no DN that no organization has |
| DnEncoder.MapsInverse | isimws/utilities/dnencoder.py:24-26 | with unique names and DNs, the two maps are inverse on every organization |
| DnEncoder.FirstSuffix | isimws/utilities/dnencoder.py:39-43 | the first organization DN in order that the DN ends with, and None exactly when there is none |
| DnEncoder.UniqueResult | isimws/utilities/dnencoder.py:101-110 | a value is read exactly when the search returns rc 0 and one result, and it is that result; otherwise ValueError |
| DnEncoder.DNEncoder.constructor | isimws/utilities/dnencoder.py:10-26 | the maps and the suffix order are those of the organization list |
| DnEncoder.NewDNEncoder | isimws/utilities/dnencoder.py:10-26 | the encoder is built exactly when getOrganizationTree returns rc 0, with the maps of the returned organizations; a raised IBMError or IBMFatal is passed on, and a nonzero rc raises ValueError |
| DnEncoder.DNEncoder.ParseIsimDn | isimws/utilities/dnencoder.py:36-83 | a DN under no known organization raises ValueError; a parsed DN names a known organization |
| DnEncoder.DNEncoder.Decode | isimws/utilities/dnencoder.py:28-112 | a DN under no known organization raises ValueError; the object is decoded exactly when the DN parses, the SOAP type lookup returns rc 0, the search returns and finds one result, and it is that result under the parsed organization and type; every error is a ValueError or one raised by a remote call |
| DnEncoder.DNEncoder.DecodeFromIsimDn | isimws/utilities/dnencoder.py:28-112 | the loop over the organization DNs stops at the first suffix and returns exactly `Decode` |
| DnEncoder.DNEncoder.EncodeToIsimDn | isimws/utilities/dnencoder.py:114-193 | an unknown organization raises KeyError and an unsupported type ValueError; a DN is built exactly when the organization is known, the type supported and both remote calls succeed with one result; every other error is one raised by a remote call; a built DN starts with `erglobalid=` and ends with the organization's DN |
| DnEncoder.DNEncoder.EncodeDecodeRoundTrip | isimws/utilities/dnencoder.py:28-193 | a DN built by the encoder parses back into its organization, type and erglobalid, and when the server finds the object by that erglobalid, decoding it returns the organization, the lower-cased type and the name that was encoded |
| DnEncoder.DNEncoder.PersonCaseQuirk | isimws/utilities/dnencoder.py:142-192 | for a found person the type is matched ignoring case, but only the exact spelling 'person' gets the `ou=0` level |
| DnEncoder.ErglobalidOfComponent | isimws/utilities/dnencoder.py:83 | the erglobalid is read back from a DN part starting with `erglobalid=<id>,` |
| Workflow.ParseWorkflowDn | isimws/isim/workflow.py:30-41 | a DN that does not split into two parts around `,ou=workflow,`, or whose first part is not `erglobalid=<value>`, raises ValueError |
| Workflow.ParseWorkflowDnRebuilds | isimws/isim/workflow.py:30-41 | whatever parses is exactly `erglobalid=` + erglobalid + `,ou=workflow,` + organization DN |
| Workflow.MissingSeparatorRejected | isimws/isim/workflow.py:31-33 | a DN without `,ou=workflow,` is rejected with ValueError |
| Workflow.WrongAttributeRejected | isimws/isim/workflow.py:37-39 | a DN whose own part names an attribute other than erglobalid is rejected with ValueError |
| Workflow.WorkflowDnRoundTrip | isimws/isim/workflow.py:30-53 | a DN built from an erglobalid without `=` (commas allowed) and an organization DN without `,ou=workflow,` parses back into both, and the search filter names the erglobalid and the organization under erparent |
| Workflow.SeparatorOnlyAtJunction | isimws/isim/workflow.py:31 | `,ou=workflow,` cannot start inside `p + x` when `p` holds no comma and `x` no `=` |
| Workflow.DefaultSearch | isimws/isim/workflow.py:56-76 | with the default filter and attribute, the search returns the erglobalid of every workflow process directly under the container |
| Workflow.GetAttributeByFilter | isimws/isim/workflow.py:79-115 | the search is in category Workflow, with base global, for the requested attribute and exactly the given filter |
| Workflow.GetAttribute | isimws/isim/workflow.py:14-53 | fails exactly when the DN does not parse; otherwise a Workflow search for the requested attribute |
| Workflow.SearchAttribute | isimws/isim/workflow.py:56-76 | the filter starts with the caller's filter and ends by restricting erparent to the container DN |
| Reconcile.EncodeAll | isimws/isim/service.py:203-216 | every entry is resolved to a DN, in order; a resolved list has one DN per entry |
| Reconcile.EncodeAllPrefixFailure | isimws/isim/service.py:203-216 | a name that fails to resolve makes the whole resolution fail with that error, whatever follows it |
| Reconcile.EncodeEach | isimws/isim/service.py:203-216 | the resolution loop returns exactly `EncodeAll`: every name resolved in order, or the first error |
| Reconcile.BadgeString | isimws/isim/service.py:1202-1206 | a badge is sent as its text, a tilde, and its colour |
| Reconcile.BadgeStrings | isimws/isim/service.py:407-411 | one badge string per badge, in the same order |
| Reconcile.EncodeBadges | isimws/isim/service.py:407-411 | the badge loop produces exactly one `text~colour` string per badge, in order |
| Reconcile.TextDiffers | isimws/isim/service.py:273-282 | an absent attribute differs exactly when the desired value is not ''; a present one differs exactly when its first value is not the desired value; a present attribute with no values raises IndexError |
| Reconcile.TextDiffersStrict | isimws/isim/role.py:491-497 | an absent attribute always differs; a present one is compared as for a text field |
| Reconcile.ListDiffers | isimws/isim/service.py:385-394 | an absent attribute differs exactly when the desired list is not empty; a present one differs exactly when the two value lists are different multisets |
| Reconcile.ListDiffersStrict | isimws/isim/role.py:483-489 | an absent attribute always differs; a present one is compared as multisets |
| Reconcile.ListDiffersIgnoresOrder | isimws/isim/service.py:385-394 | two desired lists with the same elements in another order compare the same way against any stored value |
| Reconcile.StrsMultiset | isimws/isim/service.py:391 | lists with equal multisets of strings give equal multisets of values |
| Reconcile.StrsCount | isimws/isim/service.py:391 | each value occurs among the sent values as often as its string occurs in the desired list |
| Reconcile.StrsConcat | isimws/isim/service.py:391 | converting two lists in a row is converting each of them |
| Reconcile.CompareText | isimws/isim/service.py:273-282 | the text comparison returns exactly `TextDiffers`, or IndexError |
| Reconcile.CompareTextStrict | isimws/isim/role.py:491-497 | the comparison of a text field that must be present returns exactly `TextDiffersStrict` |
| Reconcile.CompareList | isimws/isim/service.py:385-394 | the list comparison returns exactly the multiset verdict |
| Reconcile.CompareListStrict | isimws/isim/role.py:483-489 | the comparison of a list field that must be present returns exactly `ListDiffersStrict` |
| Reconcile.SendIf | isimws/isim/service.py:279-282 | a field is sent exactly when it differs, and then with its desired value; otherwise it is None, meaning no change |
| Reconcile.AccessCategory | isimws/isim/service.py:1174-1185 | exactly application, sharedfolder, emailgroup and role are access types, ignoring case, stored as Application, SharedFolder, MailGroup and AccessRole |
| Reconcile.AccessCategoryInjective | isimws/isim/service.py:1174-1185 | two access types stored under the same category are the same type, ignoring case |
| Reconcile.AccessTypeDiffers | isimws/isim/service.py:329-361 | an absent attribute differs exactly when a type is requested; when present, an unknown type raises ValueError and a known one differs exactly when the stored category is not its name |
| Reconcile.CompareAccessType | isimws/isim/service.py:329-361 | the access type comparison returns exactly `AccessTypeDiffers`, or ValueError |
| Reconcile.RoleClassification | isimws/isim/role.py:589-597 | exactly application and business are classifications, ignoring case, stored as role.classification.application and role.classification.business |
| Reconcile.ClassificationDiffers | isimws/isim/role.py:391-407 | an absent classification always differs; when present, an unknown classification raises ValueError and a known one differs exactly when the stored value is not its name |
| Reconcile.RoleAccessCode | isimws/isim/role.py:428-440 | access disabled is option 1, enabled without common access 2, enabled with common access 3 |
| Reconcile.TextValues | isimws/isim/service.py:1119-1123 | '' is sent as an empty value list, which clears the attribute; any other text as a one-element list |
| Reconcile.TextField | isimws/isim/service.py:1119-1129 | None sends nothing, '' clears the attribute, a value sets it |
| Reconcile.ListField | isimws/isim/service.py:1193-1194 | None sends nothing; a list is sent as it is |
| Reconcile.Emit | isimws/isim/service.py:1119-1123 | a field adds at most one attribute, and none exactly when its value is None |
| Reconcile.ChangeList | isimws/isim/service.py:1115-1221 | the change list holds at most one attribute per field, in field order |
| Reconcile.ChangeListUpTo | isimws/isim/service.py:1115-1221 | appending one field at a time builds the change list of the fields so far |
| Reconcile.Without | isimws/isim/service.py:1090-1093 | the attributes left hold none with the given name, ignoring case |
| Reconcile.AttributeValuesConcat | isimws/utilities/tools.py:24-41 | the first match of a name in two lists in a row is the first match in the first list, else in the second |
| Reconcile.AttributeValuesWithout | isimws/utilities/tools.py:24-41 | removing an attribute's entries hides it and leaves every other attribute's value as it was |
| Reconcile.AttributeValuesReplace | isimws/isim/service.py:1090-1093 | replacing an attribute changes that attribute only, and an empty value list removes it |
| Reconcile.LookupAfterModifications | isimws/isim/service.py:1090-1093 | after a change list is applied, an attribute holds what its last change says, or what it held before |
| Reconcile.ApplyModifications | isimws/isim/service.py:1090-1093 | the server model: a change list applied in order, each attribute replaced by the values sent or removed for an empty list; it adds no attribute that was neither there nor sent |
| Reconcile.EffectOfConcat | isimws/isim/service.py:1090-1093 | in two change lists in a row, the later change to an attribute wins |
| Reconcile.TextFieldEffect | isimws/isim/service.py:1090-1093 | None leaves the attribute unchanged, '' clears it and a value replaces it |
| Reconcile.EmitEffect | isimws/isim/service.py:1090-1093 | a field changes its own attribute and no other |
| Reconcile.ChangeListUntouched | isimws/isim/service.py:1090-1093 | an attribute no field names is left unchanged by the change list |
| Reconcile.ChangeListEffect | isimws/isim/service.py:1090-1093 | when exactly one field names an attribute, the change list does to it what that field says |
| Reconcile.ChangeListLastEffect | isimws/isim/service.py:1118-1140 | the last field that names an attribute and carries values decides what happens to that attribute |
| Reconcile.ChangeListSnoc | isimws/isim/service.py:1115-1221 | appending a field appends exactly what that field contributes |
| Reconcile.ChangeListConcat | isimws/isim/service.py:1115-1221 | the change list of two field lists in a row is their two change lists in a row |
| Reconcile.ChangeListPrefix | isimws/isim/service.py:1115-1221 | each further field extends the change list by what it contributes |
| Reconcile.AppendTextField | isimws/isim/service.py:1124-1128 | the builders' text step appends exactly the field's contribution |
| Reconcile.AppendListField | isimws/isim/service.py:1193-1194 | the builders' list step appends exactly the field's contribution |
| Reconcile.ChangeListAllSent | isimws/isim/service.py:1115-1221 | when every field carries values, the change list holds one attribute per field, in field order |
| Reconcile.DistinctLowerCaseNames | isimws/isim/service.py:1115-1221 | distinct lower-case attribute names are distinct ignoring case |
| Reconcile.DistinctLoweredNames | isimws/isim/service.py:1115-1221 | names whose lower-case forms are distinct are distinct ignoring case |
| Reconcile.FieldAfterModifications | isimws/isim/service.py:1090-1093 | when field names are distinct, each field's attribute holds what that field says once the change list is applied, or what it held before |
| Reconcile.Stored | isimws/isim/service.py:1090-1093 | the server keeps nothing for an empty value list and keeps any other list as sent |
| Reconcile.SentFieldStored | isimws/isim/service.py:1090-1093 | after a field with values is applied, its attribute holds what was stored |
| Reconcile.TextSettles | isimws/isim/service.py:273-282 | a stored text value compares equal to itself, and so does a strict field's non-empty text |
| Reconcile.ListSettles | isimws/isim/service.py:385-394 | a stored list compares equal to itself, and so does a strict field's non-empty list |
| Reconcile.TextFieldSettles | isimws/isim/service.py:273-282 | a text field sent only when it differed compares equal once the server has applied it |
| Reconcile.StrictTextFieldSettles | isimws/isim/role.py:491-497 | the same holds for a field whose absence always differs, when its value is not '' |
| Reconcile.ListFieldSettles | isimws/isim/service.py:385-394 | a list field sent only when it differed compares equal once the server has applied it |
| Reconcile.AccessTypeSettles | isimws/isim/service.py:329-361 | a stored access category compares equal to the type it was stored for |
| ServiceConfig.LowerEach | isimws/isim/service.py:189-194 | one lower-case key per key, in order |
| ServiceConfig.RemoveKey | isimws/isim/service.py:194 | the key list without the deleted key, still without repeats |
| ServiceConfig.DistinctCons | isimws/isim/service.py:193 | a new key in front of distinct keys keeps them distinct |
| ServiceConfig.Put | isimws/isim/service.py:193 | assigning a key sets its value and appends it to the key order only when it is new |
| ServiceConfig.Delete | isimws/isim/service.py:194 | deleting a key removes it from the values and from the key order |
| ServiceConfig.Filled | isimws/isim/service.py:185-187 | every None value becomes '', every other value and every key is kept |
| ServiceConfig.LowerStep | isimws/isim/service.py:191-194 | one step of the key loop keeps the dictionary well formed |
| ServiceConfig.LowerAll | isimws/isim/service.py:189-194 | the key loop over the listed keys keeps the dictionary well formed |
| ServiceConfig.LowerFormDiffers | isimws/isim/service.py:192 | a key that is not lower case is never the lower-case form of any key |
| ServiceConfig.LowerAllKeeps | isimws/isim/service.py:189-194 | a key that is not lower case and not yet visited keeps its value |
| ServiceConfig.LowerAllNotLowerOnlyOriginal | isimws/isim/service.py:189-194 | a key that is not lower case remains exactly when it was there and has not been visited |
| ServiceConfig.LowerAllKeepsLowerCase | isimws/isim/service.py:189-194 | a lower-case key is never removed |
| ServiceConfig.LowerAllHasLowerForm | isimws/isim/service.py:189-194 | every visited key has its lower-case form in the result |
| ServiceConfig.LowerAllOrigin | isimws/isim/service.py:189-194 | every key of the result was there and unvisited, or is the lower-case form of a visited key |
| ServiceConfig.LowerKeysAreLowerCase | isimws/isim/service.py:189-194 | after the loop every key is lower case and comes from a key of the input, and every input key's lower-case form is present |
| ServiceConfig.LowerAllValueKept | isimws/isim/service.py:189-194 | with no two keys equal ignoring case, an unvisited key keeps its value |
| ServiceConfig.LowerAllValueMoved | isimws/isim/service.py:189-194 | with no two keys equal ignoring case, a visited key's value moves to its lower-case form |
| ServiceConfig.LowerKeysKeepValues | isimws/isim/service.py:189-194 | with no two keys equal ignoring case, every value is found under its key's lower-case form |
| ServiceConfig.RenameOntoLaterLower | isimws/isim/service.py:192-194 | renaming a key onto its lower-case form that is listed after it leaves that form alone in the dict, holding the renamed key's value |
| ServiceConfig.RenameOntoEarlierLower | isimws/isim/service.py:192-194 | the same when the lower-case form is listed before the renamed key |
| ServiceConfig.LowerKeysCollision | isimws/isim/service.py:189-194 | a key and its lower-case form collapse into the lower-case form holding the value of the key that was not lower case, so the other value is lost |
| ServiceConfig.LowerKeysCollisionReversed | isimws/isim/service.py:189-194 | the key that was not lower case wins as well when its lower-case form comes first |
| ServiceConfig.ConfigValueDiffers | isimws/isim/service.py:452-468 | IndexError exactly when the attribute is present with no values and the value is not a list; an absent attribute differs exactly when the value is neither '' nor [] |
| ServiceConfig.MarkAll | isimws/isim/service.py:448-468 | the loop over the listed keys keeps the key set and key order |
| ServiceConfig.MarkStep | isimws/isim/service.py:448-468 | one step changes only its own key, and once an error is raised it stays raised |
| ServiceConfig.MarkErrorSticks | isimws/isim/service.py:448-468 | after a key raises, the remaining keys change nothing |
| ServiceConfig.MarkPrefixOutcome | isimws/isim/service.py:448-468 | after the first n keys nothing has raised exactly when none of them raises, and no modification is needed exactly when none of them differs |
| ServiceConfig.MarkPrefixKeyUntouched | isimws/isim/service.py:448-468 | a key not yet visited keeps its value |
| ServiceConfig.MarkKeysValue | isimws/isim/service.py:448-468 | after comparing distinct keys without error, each of them that does not differ is None and every other key keeps its value |
| ServiceConfig.MarkValues | isimws/isim/service.py:448-468 | when the whole loop does not raise, exactly the keys that do not differ are None afterwards |
| ServiceConfig.MarkOutcome | isimws/isim/service.py:448-468 | the loop raises exactly when some key raises, needs no modification exactly when no key differs, and sets exactly the unchanged keys to None |
| ServiceConfig.ClearAll | isimws/isim/service.py:474-478 | clearing keeps the dictionary well formed and its existing key order as a prefix |
| ServiceConfig.ClearAllEffect | isimws/isim/service.py:474-478 | every existing key outside the skip list is set to '', and every other key keeps its value |
| ServiceConfig.ConvertPaths | isimws/isim/service.py:595-598 | one entry per path; no error exactly when every path converts, and then each entry is its path's DN |
| ServiceConfig.ConvertPathsFrom | isimws/isim/service.py:595-598 | after paths that convert, the rest of the conversion is that of the remaining paths |
| ServiceConfig.ConvertEach | isimws/isim/service.py:595-598 | the index loop returns exactly `ConvertPaths`: every path converted in order, or the first error |
| ServiceConfig.NamingContexts | isimws/isim/service.py:595-598 | without ernamingcontexts nothing changes; otherwise only that key changes, it fails exactly when some path fails, and a success holds the DNs in order |
| ServiceConfig.Configuration.constructor | isimws/isim/service.py:80-141 | the object holds the caller's dictionary |
| ServiceConfig.Configuration.Set | isimws/isim/service.py:193 | the dictionary after a key is assigned |
| ServiceConfig.Configuration.Remove | isimws/isim/service.py:194 | the dictionary after a key is deleted |
| ServiceConfig.Configuration.FillEmpty | isimws/isim/service.py:185-187 | the dictionary after every None is replaced by '' in place |
| ServiceConfig.Configuration.LowerKeys | isimws/isim/service.py:189-194 | the dictionary after its keys are lowered in place |
| ServiceConfig.Configuration.RenameToLower | isimws/isim/service.py:192-194 | one rename in place: the value moves under the lower-case form and the original key goes |
| ServiceConfig.Configuration.MarkKey | isimws/isim/service.py:449-468 | the dictionary and verdict after one key is compared |
| ServiceConfig.Configuration.MarkUnchanged | isimws/isim/service.py:446-468 | the dictionary and verdict after the whole comparison loop |
| ServiceConfig.Configuration.ClearExtras | isimws/isim/service.py:474-478 | the dictionary after the existing keys that were not checked are set to '' |
| ServiceConfig.Configuration.ConvertNamingContexts | isimws/isim/service.py:595-598 | the dictionary and raised error after the naming contexts are converted in place |
| Service.ExactMatches | isimws/isim/service.py:229-234 | every kept result has exactly the searched name, and no more results than the search returned |
| Service.ExactMatchesCount | isimws/isim/service.py:229-234 | a result is kept as often as it was returned when its name is the searched name, and never otherwise |
| Service.FindExactMatches | isimws/isim/service.py:231-234 | the filtering loop keeps exactly the results named as searched, in order |
| Service.Organization | isimws/isim/service.py:200-201 | the organization is the second part of the container path split on '//'; a path with no '//' raises IndexError |
| Service.OrganizationOfPath | isimws/isim/service.py:200-201 | a path '//org//rest' names organization org |
| Service.OrganizationOfTopLevel | isimws/isim/service.py:200-201 | a path '//org' names organization org |
| Service.NoOrganizationWithoutSeparator | isimws/isim/service.py:200-201 | a path without '//' raises IndexError |
| Service.AttributeKeys | isimws/utilities/tools.py:44-58 | one lower-case key per existing attribute, in order |
| Service.ConfigField | isimws/isim/service.py:1131-1140 | None is not sent, a list is sent as it is, '' clears the attribute and any other text is sent as a one-element list |
| Service.ConfigFields | isimws/isim/service.py:1131-1140 | one field per configuration key, in the dictionary's key order |
| Service.AccessOptionField | isimws/isim/service.py:1155-1160 | defining access sends eraccessoption 2, not defining it clears the attribute, None sends nothing |
| Service.CategoryField | isimws/isim/service.py:1174-1185 | an unknown access type raises ValueError; a known one sends its stored category name; None sends nothing |
| Service.FlagField | isimws/isim/service.py:1209-1213 | a flag is sent as a one-element boolean list; None sends nothing |
| Service.BadgeField | isimws/isim/service.py:1202-1206 | badges are sent as their `text~colour` strings; None sends nothing |
| Service.OwnershipFields | isimws/isim/service.py:1143-1166 | owner, prerequisite, access option and access name |
| Service.AccessFields | isimws/isim/service.py:1168-1206 | access description, category, image URI, search terms, additional information and badges |
| Service.FeedFields | isimws/isim/service.py:1208-1219 | use-workflow, evaluate-SoD and placement rule |
| Service.Fields | isimws/isim/service.py:1115-1221 | fails exactly for an unknown access type; otherwise fifteen fields plus one per configuration key |
| Service.Attributes | isimws/isim/service.py:1072-1221 | the change list fails with ValueError exactly for an unknown access type |
| Service.ConfigSendsEveryKey | isimws/isim/service.py:1131-1140 | once no value is None, every configuration key is sent, in key order, with its value |
| Service.AppendConfigEntry | isimws/isim/service.py:1132-1140 | one configuration entry appends exactly its field's contribution |
| Service.AppendHeadAndConfiguration | isimws/isim/service.py:1115-1140 | the name, the description and then the configuration entries, in key order |
| Service.AppendAccessOption | isimws/isim/service.py:1155-1160 | appends exactly the access option field's contribution |
| Service.AppendCategory | isimws/isim/service.py:1174-1185 | raises ValueError for an unknown access type and otherwise appends the category field |
| Service.AppendBadges | isimws/isim/service.py:1202-1206 | appends exactly the badge field's contribution |
| Service.AppendFlag | isimws/isim/service.py:1209-1213 | appends exactly the flag field's contribution |
| Service.AppendOwnership | isimws/isim/service.py:1143-1166 | extends the change list by the ownership fields |
| Service.AppendAccess | isimws/isim/service.py:1168-1206 | extends the change list by the access fields, or raises ValueError |
| Service.AppendFeed | isimws/isim/service.py:1208-1219 | extends the change list by the identity feed fields |
| Service.BuildAttributes | isimws/isim/service.py:1072-1221 | the builder returns exactly the change list `Attributes`, or ValueError |
| Service.Prepared | isimws/isim/service.py:185-194 | filling the None values and lowering the keys keeps the dictionary well formed |
| Service.PreparedKeys | isimws/isim/service.py:185-194 | after preparation every key is lower case, and every caller key's lower-case form is present |
| Service.PreparedValues | isimws/isim/service.py:185-194 | with no two keys equal ignoring case, each caller value is found under its lower-case key, None as '' |
| AccountService.DnOf | isimws/isim/service.py:203-216 | an empty name stays ''; any other name is encoded to the DN of a person or service in the organization |
| AccountService.Resolve | isimws/isim/service.py:196-216 | the container DN is the resolver's; a path without '//' raises IndexError once the container has resolved |
| AccountService.ResolveNames | isimws/isim/service.py:196-216 | the resolution steps return exactly `Resolve` |
| AccountService.AccountFieldDiff | isimws/isim/service.py:273-423 | raises exactly when some comparison raises; otherwise a modify is needed exactly when some field differs |
| AccountService.CreateDecision | isimws/isim/service.py:766-851 | a create fails with ValueError exactly when the access type is not known; otherwise it creates a service of the requested type in the container |
| AccountService.DecideExisting | isimws/isim/service.py:258-503 | a modify is issued only outside check mode, and on the existing service's DN; the one-match branch never creates |
| AccountService.Decision | isimws/isim/service.py:80-509 | an invalid request raises ValueError; create and modify happen only outside check mode |
| AccountService.CompareGeneral | isimws/isim/service.py:273-304 | the description, owner and prerequisite checks return exactly `GeneralComparisons` |
| AccountService.CompareAccess | isimws/isim/service.py:306-423 | the access checks return exactly `AccessComparisons` |
| AccountService.CompareAccountFields | isimws/isim/service.py:273-423 | the field comparisons return exactly `AccountFieldDiff` |
| AccountService.CreateAccountService | isimws/isim/service.py:766-851 | the create call is exactly `CreateDecision` |
| AccountService.UpdateAccountService | isimws/isim/service.py:258-503 | the one-match branch returns the action of `DecideExisting` and leaves the dictionary as it says |
| AccountService.ApplyAccountService | isimws/isim/service.py:80-509 | the apply call returns the action of `Decision` and leaves the caller's dictionary as it says |
| AccountService.GeneralNoDifferenceIffInSync | isimws/isim/service.py:273-304 | no general field differs exactly when every general field is in sync |
| AccountService.AccessNoDifferenceIffInSync | isimws/isim/service.py:306-423 | no access field differs exactly when every access field is in sync |
| AccountService.FieldsNoDifferenceIffInSync | isimws/isim/service.py:273-423 | the comparisons need no modify exactly when the service is in sync |
| AccountService.DecideExistingSteps | isimws/isim/service.py:258-503 | a field error raises with the dict untouched, a configuration error raises after marking, and otherwise the extras are cleared and nothing changes exactly when no field and no configuration entry differs |
| AccountService.NoChangeIffInSync | isimws/isim/service.py:258-503 | with a matching service type, nothing is changed exactly when every field and every configuration entry is in sync |
| AccountService.ListOrderIgnored | isimws/isim/service.py:385-423 | reordering the search terms or the badges does not change any comparison |
| AccountService.OwnerFieldDecides | isimws/isim/service.py:1143-1147 | the owner field alone decides what the change list does to the owner attribute |
| AccountService.AbsentOwnerChange | isimws/isim/service.py:284-289 | with no owner on the service and none requested, the owner is not a difference, yet the change set still carries it as '' |
| AccountService.AbsentOwnerIsCleared | isimws/isim/service.py:284-293 | with no owner on the service and none requested, the owner is not counted as a difference but is still sent as '', so a modify clears it |
| AccountService.ExtraAttributesCleared | isimws/isim/service.py:470-478 | every existing attribute outside the fixed fields and the configuration is set to '' in the dict, and the configuration keeps what the comparison left |
| AccountService.Routing | isimws/isim/service.py:196-509 | a failed resolution raises, a search that raises makes the call raise, a search with a nonzero rc is passed back, no exact match or force creates, one match is compared, several warn and change nothing |
| AccountService.ServiceTypeMismatchWarns | isimws/isim/service.py:264-271 | a different service type is never changed: the call warns and changes nothing |
| AccountService.DecideExistingKeysLowerCase | isimws/isim/service.py:448-478 | the one-match branch leaves only lower-case keys in the dict |
| AccountService.ConfigurationKeysLowerCase | isimws/isim/service.py:189-194 | every key of the caller's dict is lower case after the call |
| AccountService.CreateWithoutAccessTypeRaises | isimws/isim/service.py:167-168 | creating without an access type raises ValueError, because '' is not a known type |
| IdentityFeed.FeedFieldDiff | isimws/isim/service.py:648-688 | raises exactly when some comparison raises; otherwise a modify is needed exactly when some feed field differs; no access type is ever sent |
| IdentityFeed.CreateChanges | isimws/isim/service.py:934-1005 | a new feed never sends an access type |
| IdentityFeed.CreateDecision | isimws/isim/service.py:934-1005 | a new feed is always created, in the container, with the requested service type |
| IdentityFeed.DecideExisting | isimws/isim/service.py:633-757 | a modify is issued only outside check mode, and on the existing feed's DN; the one-match branch never creates |
| IdentityFeed.Decision | isimws/isim/service.py:512-763 | an invalid request raises ValueError; create and modify happen only outside check mode |
| IdentityFeed.CompareFeedFields | isimws/isim/service.py:648-688 | the feed comparisons return exactly `FeedFieldDiff` |
| IdentityFeed.CreateIdentityFeed | isimws/isim/service.py:934-1005 | the create call is exactly `CreateDecision` |
| IdentityFeed.UpdateIdentityFeed | isimws/isim/service.py:633-757 | the one-match branch returns the action of `DecideExisting` and leaves the dictionary as it says |
| IdentityFeed.ApplyIdentityFeed | isimws/isim/service.py:512-763 | the apply call returns the action of `Decision` and leaves the caller's dictionary as it says |
| IdentityFeed.FieldsNoDifferenceIffInSync | isimws/isim/service.py:648-688 | the comparisons need no modify exactly when the feed is in sync |
| IdentityFeed.DecideExistingSteps | isimws/isim/service.py:633-757 | a field error raises with the dict untouched, a configuration error raises after marking, and otherwise the extras are cleared and nothing changes exactly when no field and no configuration entry differs |
| IdentityFeed.NoChangeIffInSync | isimws/isim/service.py:633-757 | with a matching service type, nothing is changed exactly when every field and every configuration entry is in sync |
| IdentityFeed.AbsentFlagForcesModify | isimws/isim/service.py:659-677 | a feed missing eruseworkflow or erevaluatesod is always reported changed: in check mode the answer is changed, otherwise a modify is issued |
| IdentityFeed.FeedBuilderNeverRaises | isimws/isim/service.py:1043-1069 | the feed's change lists never raise, because a feed sends no access type |
| IdentityFeed.NamingContextsConverted | isimws/isim/service.py:595-598 | a naming context path that fails to convert makes the call raise; a created feed carries the converted DNs in order |
| IdentityFeed.Routing | isimws/isim/service.py:591-763 | a failed container or naming-context conversion raises, a search that raises makes the call raise, a search with a nonzero rc is passed back, no exact match or force creates, one match is compared, several warn and change nothing |
| Role.Search | isimws/isimws/isim/role.py:18-65 | without a container the filter is run everywhere; with one, within that container; the filter is passed unchanged |
| Role.ClassificationField | isimws/isimws/isim/role.py:638-646 | an unknown classification raises ValueError; a known one is sent as its stored name; None sends nothing |
| Role.OwnerField | isimws/isimws/isim/role.py:648-653 | owners are sent as the role owners followed by the user owners; nothing is sent when both are None |
| Role.AccessOptionCode | isimws/isimws/isim/role.py:655-662 | with both flags set, the code is 1, 2 or 3 as access is disabled, enabled, or enabled and common; no flag sends nothing |
| Role.AccessTypeField | isimws/isimws/isim/role.py:664-675 | an unknown access type raises ValueError; a known one is sent as its category; None sends nothing |
| Role.FieldList | isimws/isimws/isim/role.py:628-701 | the builder's fields, one per attribute name, in the builder's order |
| Role.Fields | isimws/isimws/isim/role.py:628-701 | the builder raises ValueError exactly when the classification or the access type is unknown |
| Role.FieldNamesDifferIgnoringCase | isimws/isimws/isim/role.py:628-701 | no two attribute names the builder sends are equal ignoring case |
| Role.FieldNamesDistinct | isimws/isimws/isim/role.py:628-701 | the builder's fields have distinct names |
| Role.AppendClassification | isimws/isimws/isim/role.py:638-646 | raises ValueError for an unknown classification and otherwise appends the classification field |
| Role.AppendOwners | isimws/isimws/isim/role.py:648-653 | appends exactly the owner field's contribution |
| Role.AppendAccessOption | isimws/isimws/isim/role.py:655-662 | appends exactly the access option field's contribution |
| Role.AppendAccessType | isimws/isimws/isim/role.py:664-675 | raises ValueError for an unknown access type and otherwise appends the access type field |
| Role.BuildAttributes | isimws/isimws/isim/role.py:592-701 | the builder returns exactly the change list `Attributes`, or ValueError |
| Role.DescriptionDiffers | isimws/isimws/isim/role.py:251-260 | an absent description differs exactly when the desired one is not ''; a present one differs when either the role's description or the attribute's first value is not the desired one |
| Role.CompareClassification | isimws/isimws/isim/role.py:233-249 | returns exactly the classification verdict, or ValueError for an unknown classification |
| Role.CompareDescription | isimws/isimws/isim/role.py:251-260 | returns exactly the description verdict |
| Role.CompareAccessOption | isimws/isimws/isim/role.py:278-290 | the access option differs when absent or when its first value is not the code of the requested flags |
| Role.CreateDecision | isimws/isimws/isim/role.py:206-227 | a create raises ValueError exactly when the classification or the access type is unknown; otherwise it creates the role in the container |
| Role.Decision | isimws/isimws/isim/role.py:91-407 | an invalid request raises ValueError; a modify happens only outside check mode; nothing is passed back unchanged |
| Role.CompareGeneral | isimws/isimws/isim/role.py:233-276 | the classification, description and owner checks return exactly `GeneralComparisons` |
| Role.CompareAccess | isimws/isimws/isim/role.py:278-382 | the access checks return exactly `AccessComparisons` |
| Role.Compare | isimws/isimws/isim/role.py:231-382 | returns exactly `Diff`, and a modify is required exactly when some field is sent |
| Role.Apply | isimws/isimws/isim/role.py:91-407 | the apply call returns exactly `Decision` |
| Role.NoChangeIffInSync | isimws/isimws/isim/role.py:231-407 | an existing role is left alone exactly when every value is already in sync |
| Role.IncomparableRaises | isimws/isimws/isim/role.py:247-249 | a comparison that raises makes the call raise, in check mode too |
| Role.CreateWithoutAccessTypeRaises | isimws/isimws/isim/role.py:166-167 | a role cannot be created without an access type: '' is not one of the four types, so the builder raises ValueError |
| Role.ClassificationSettles | isimws/isimws/isim/role.py:233-249 | a classification sent because it differed compares equal once stored |
| Role.AccessTypeSettles | isimws/isimws/isim/role.py:292-322 | an access type sent because it differed compares equal once stored |
| Role.AccessOptionSettles | isimws/isimws/isim/role.py:278-290 | an access option sent because it differed compares equal once stored |
| Role.OwnersSettle | isimws/isimws/isim/role.py:262-276 | owners sent because they differed compare equal once stored |
| Role.DescriptionSettles | isimws/isimws/isim/role.py:251-260 | a description sent because it differed compares equal once stored, when the role's own description mirrors the attribute |
| Role.SecondRunNoChange | isimws/isimws/isim/role.py:384-405 | once the server has applied the requested modification, a second run with the same request finds the role in sync |
| Role.ModificationSettles | isimws/isimws/isim/role.py:384-405 | every field of the change list settles, so the role is in sync afterwards |
| Role.GeneralFieldsApplied | isimws/isimws/isim/role.py:630-653 | after the change list, description, classification and owners hold what their fields say |
| Role.AccessFieldsApplied | isimws/isimws/isim/role.py:655-699 | after the change list, each access attribute holds what its field says |
| Role.ComparisonsParts | isimws/isimws/isim/role.py:231-382 | a successful comparison is made of successful general and access comparisons |
| Role.DecidedModification | isimws/isimws/isim/role.py:384-405 | a modify outside check mode sends exactly the change list of the fields that differ |
| Role.SettlesGeneral | isimws/isimws/isim/role.py:233-276 | after the change is applied, description, classification and owners compare equal |
| Role.SettlesAccess | isimws/isimws/isim/role.py:278-333 | after the change is applied, access option, access type and image URI compare equal |
| Role.SettlesAccessDetails | isimws/isimws/isim/role.py:335-382 | after the change is applied, search terms, additional information, badges and assignment attributes compare equal |
| RoleLegacy.LookupFilter | isimws/isim/role.py:355-360 | the search filter is `(errolename=` + the name + `)` |
| RoleLegacy.RoleAttributeFirstMatch | isimws/isim/role.py:652-668 | no value exactly when no attribute has the exact name; otherwise the values of the first one that has |
| RoleLegacy.GetRoleAttribute | isimws/isim/role.py:652-668 | the lookup loop returns exactly the first exact-name match |
| RoleLegacy.RoleAttributeAgrees | isimws/isim/role.py:652-668 | with lower-case names and a lower-case key, the exact lookup agrees with the case-insensitive one |
| RoleLegacy.CaseSensitiveLookup | isimws/isim/role.py:663-664 | an attribute named Description is not found under description, unlike the case-insensitive lookup |
| RoleLegacy.StricterThanNewer | isimws/isim/role.py:391-518 | against the newer module, the only disagreements are on an absent attribute with an empty desired value, which this one counts as different |
| RoleLegacy.ValueField | isimws/isim/role.py:586-587 | a value is always sent as a one-element list, even ''; None sends nothing |
| Common.DecimalText | isimws/isim/role.py:606-613 | the decimal text of a number reads back as that number |
| Common.PyInt | isimws/application/isimapplication.py:128 | Python's `int` in base 10; its only error is ValueError |
| Common.PyIntOfDigits | isimws/application/isimapplication.py:128 | `int` of a digit string is its decimal value, and `int` of the empty string raises ValueError |
| Common.PyIntOfSignedDigits | isimws/application/isimapplication.py:128 | a leading '-' negates the digits after it and a leading '+' keeps them |
| Common.PyIntStripsLeadingSpace | isimws/application/isimapplication.py:128 | leading white space does not change what `int` reads |
| Common.PyIntUnderscores | isimws/application/isimapplication.py:128 | single underscores between digits are skipped; a doubled, leading or trailing one raises ValueError |
| Common.PyIntOfDecimalText | isimws/isim/role.py:606-613 | `int` reads back the decimal text of every natural number |
| Common.Lower | isimws/utilities/tools.py:38 | `str.lower` for ASCII: the text keeps its length; LowerIdempotent and LowerConcat state that lowering twice is lowering once and that lowering distributes over concatenation |
| Common.FindFrom | isimws/isim/workflow.py:31 | the first position at or after the start where the separator occurs, with no occurrence before it, and None exactly when there is no occurrence at or after the start |
| Common.Split | isimws/isim/workflow.py:31 | `str.split` with a non-empty separator yields at least one part |
| Common.JoinSplit | isimws/isim/workflow.py:31-37 | joining the parts of a split with the separator gives back the string |
| Common.SplitAtJunction | isimws/isim/workflow.py:31-35 | `a + sep + b` splits into exactly `a` and `b` when no occurrence of the separator starts inside `a` and none lies in `b` |
| Common.StripStart | isimws/application/isimapplication.py:128 | the start of the text once the white space `int` strips is skipped, within the range |
| Common.StripEnd | isimws/application/isimapplication.py:128 | the end of the text once trailing white space is cut, within the range |
| RoleLegacy.AccessOptionNumber | isimws/isim/role.py:606-613 | the access option is sent as the integer 1, 2 or 3 whose decimal text is the code the comparison reads |
| RoleLegacy.FieldList | isimws/isim/role.py:584-649 | the builder's fields, one per attribute name, in the builder's order |
| RoleLegacy.Fields | isimws/isim/role.py:584-649 | the builder raises ValueError exactly when the classification or the access type is unknown |
| RoleLegacy.DescriptionSentTwice | isimws/isim/role.py:586-616 | the description is sent both as description and as eraccessdescription, and '' is sent as [''] rather than cleared |
| RoleLegacy.FieldNamesDifferIgnoringCase | isimws/isim/role.py:584-649 | no two attribute names the builder sends are equal ignoring case |
| RoleLegacy.FieldNamesDistinct | isimws/isim/role.py:584-649 | the builder's fields have distinct names |
| RoleLegacy.AppendValueField | isimws/isim/role.py:586-587 | appends exactly the value field's contribution |
| RoleLegacy.AppendAccessOption | isimws/isim/role.py:606-613 | appends exactly the integer access option field's contribution |
| RoleLegacy.ChangeListWrittenOut | isimws/isim/role.py:584-649 | the change list is the eleven fields' contributions, in order |
| RoleLegacy.BuildAttributes | isimws/isim/role.py:547-649 | the builder returns exactly the change list `Attributes`, or ValueError |
| RoleLegacy.CreateDecision | isimws/isim/role.py:366-384 | a create raises ValueError exactly when the classification or the access type is unknown; otherwise it creates the role in the container |
| RoleLegacy.Decision | isimws/isim/role.py:269-544 | an invalid request raises; a search that raises makes the call raise; a search with a nonzero rc is passed back; a create needs no result and a modify exactly one; several results raise ValueError |
| RoleLegacy.CompareDescription | isimws/isim/role.py:409-415 | returns exactly the description verdict, where an absent attribute always differs |
| RoleLegacy.CompareAccessType | isimws/isim/role.py:442-469 | returns exactly the access type verdict, where an absent attribute always differs |
| RoleLegacy.CompareGeneral | isimws/isim/role.py:391-426 | the description and owner checks return exactly `GeneralComparisons` |
| RoleLegacy.CompareAccess | isimws/isim/role.py:428-518 | the access checks return exactly `AccessComparisons` |
| RoleLegacy.Compare | isimws/isim/role.py:388-518 | returns exactly `Diff`, and a modify is required exactly when some field is sent |
| RoleLegacy.Apply | isimws/isim/role.py:269-544 | the apply call returns exactly `Decision` |
| RoleLegacy.NoChangeIffInSync | isimws/isim/role.py:385-540 | an existing role is left alone exactly when every value is already in sync |
| RoleLegacy.AbsentForcesModify | isimws/isim/role.py:409-518 | a role missing a description, owners, search terms, badges or assignment keys is always modified, or the call raises, even when the desired value is empty |
| RoleLegacy.EmptyAccessTypeRaises | isimws/isim/role.py:442-469 | without an access type the call raises whenever the search returns rc 0, and a search that raises is passed on |
| RoleLegacy.EmptyAccessTypeDecideRaises | isimws/isim/role.py:442-469 | comparing a role with an empty access type raises, or the modification it asks for does |
| RoleLegacy.StoredValues | isimws/isim/role.py:606-613 | the server stores each sent value, integers as their decimal text |
| RoleLegacy.AsStored | isimws/isim/role.py:606-613 | storing keeps one attribute per sent attribute |
| RoleLegacy.StoredField | isimws/isim/role.py:606-613 | storing keeps a field's name and whether it sends anything |
| RoleLegacy.StoredFields | isimws/isim/role.py:606-613 | storing converts each field, in order |
| RoleLegacy.AsStoredConcat | isimws/isim/role.py:606-613 | storing two change lists in a row is storing each |
| RoleLegacy.AsStoredChangeList | isimws/isim/role.py:606-613 | storing a change list is the change list of the stored fields |
| RoleLegacy.StoredStringField | isimws/isim/role.py:586-587 | a field of text values is stored as sent |
| RoleLegacy.ChangeListNames | isimws/isim/role.py:584-649 | fields with lower-case names give a change list with lower-case names |
| RoleLegacy.WithoutKeeps | isimws/isim/role.py:652-668 | removing an attribute keeps only attributes that were there |
| RoleLegacy.LowerCaseNamesKept | isimws/isim/role.py:652-668 | applying lower-case modifications to lower-case attributes leaves lower-case attributes |
| RoleLegacy.LowerOfLowerCase | isimws/isim/role.py:652-668 | a name with no upper-case letter is its own lower-case form |
| RoleLegacy.FieldNamesLowerCase | isimws/isim/role.py:584-649 | every attribute name the builder sends is lower case |
| RoleLegacy.StoredFieldApplied | isimws/isim/role.py:523-538 | after the stored change list, each field's attribute holds what its stored field says |
| RoleLegacy.StringFieldApplied | isimws/isim/role.py:523-538 | a text field's attribute holds what was sent once stored |
| RoleLegacy.DecidedModification | isimws/isim/role.py:520-538 | a modify sends exactly the change list of the fields that differ |
| RoleLegacy.ComparisonsParts | isimws/isim/role.py:391-518 | a successful comparison is made of successful general and access comparisons |
| RoleLegacy.GeneralFieldsApplied | isimws/isim/role.py:586-604 | after the stored change list, description, classification and owners hold what their fields say |
| RoleLegacy.AccessOptionApplied | isimws/isim/role.py:606-613 | after the stored change list, the access option holds the decimal text of the sent integer |
| RoleLegacy.AccessFieldsApplied | isimws/isim/role.py:618-632 | after the stored change list, the access type and image hold what their fields say |
| RoleLegacy.AccessDetailFieldsApplied | isimws/isim/role.py:634-647 | after the stored change list, search terms, information, badges and assignment keys hold what their fields say |
| RoleLegacy.ValueFieldSettles | isimws/isim/role.py:491-497 | a one-element text value sent because it differed compares equal once stored, even '' |
| RoleLegacy.StrictListFieldSettles | isimws/isim/role.py:483-489 | a list sent because it differed compares equal once stored, unless it is empty |
| RoleLegacy.AccessOptionSettles | isimws/isim/role.py:428-440 | an access option sent because it differed compares equal once stored as text |
| RoleLegacy.AccessOptionVerbatimDiffers | isimws/isim/role.py:606-613 | stored verbatim, the integer access option never equals the text code the comparison reads |
| RoleLegacy.AccessTypeSettles | isimws/isim/role.py:442-469 | an access type sent because it differed compares equal once stored |
| RoleLegacy.OwnersSettle | isimws/isim/role.py:417-426 | owners sent because they differed compare equal once stored, unless there are none |
| RoleLegacy.DescriptionSettles | isimws/isim/role.py:409-415 | a description sent because it differed compares equal once stored, with the description mirrored |
| RoleLegacy.SettlesGeneral | isimws/isim/role.py:391-426 | description, classification and owners settle once their fields are stored |
| RoleLegacy.SettlesAccess | isimws/isim/role.py:428-481 | the access option, access type and image settle once their fields are stored |
| RoleLegacy.AccessDetailFlags | isimws/isim/role.py:483-518 | what the access comparisons found for search terms, information, badges and assignment keys |
| RoleLegacy.SettlesAccessDetails | isimws/isim/role.py:483-497 | search terms and additional information settle once stored, when there are search terms |
| RoleLegacy.SettlesBadgesAndAssignment | isimws/isim/role.py:499-518 | badges and assignment keys settle once stored, when there are some |
| RoleLegacy.GeneralSettlesAfterStore | isimws/isim/role.py:391-426 | the general part of a stored modification settles its comparisons |
| RoleLegacy.AccessSettlesAfterStore | isimws/isim/role.py:428-481 | the access option, type and image of a stored modification settle their comparisons |
| RoleLegacy.DetailsSettleAfterStore | isimws/isim/role.py:483-518 | the search terms, information, badges and assignment keys of a stored modification settle, when not empty |
| RoleLegacy.DecidedFields | isimws/isim/role.py:520-538 | the comparisons behind a decided modification, and its fields one by one |
| RoleLegacy.SettlesAfterStore | isimws/isim/role.py:388-538 | every comparison settles once the fields of the changes are stored, when no desired list is empty |
| RoleLegacy.SecondRunNoChange | isimws/isim/role.py:385-540 | once the server has stored the modification a run asked for, a second run finds the role in sync, provided no desired list is empty |
| RoleLegacy.EmptyOwnersNeverSettle | isimws/isim/role.py:417-426 | a role without owners, asked to have none, is sent an empty owner list that stores as no attribute, so the next run modifies it again |
| Container.ParseProfile | isimws/isim/container.py:54-60 | exactly the five profile names Organization, OrganizationalUnit, BPOrganization, Location and AdminDomain are accepted, each as itself |
| Container.ParseProfileName | isimws/isim/container.py:54-60 | every profile's name parses back to that profile |
| Container.ProfilePrefix | isimws/isim/container.py:166-178 | every profile has one of the prefixes o, ou, bp, lo and ad |
| Container.LookupNamesDistinct | isimws/isim/container.py:203-205 | containers of different profiles are looked up under different `prefix::name` names |
| Container.CreateProfileName | isimws/isim/container.py:376-383 | a create sends BusinessPartnerOrganization for BPOrganization, SecurityDomain for AdminDomain, and the profile name otherwise |
| Container.Search | isimws/isim/container.py:18-75 | an unknown profile raises ValueError; otherwise the search is for that profile and name |
| Container.PeopleField | isimws/isim/container.py:532-543 | an admin domain sends every administrator; the other profiles send the first person only, and an empty list raises IndexError |
| Container.Fields | isimws/isim/container.py:504-545 | raises IndexError exactly when people are to be cleared on a profile that sends the first one; an organization sends two fields, the others three |
| Container.FieldNamesDistinct | isimws/isim/container.py:504-545 | the builder's fields have distinct names |
| Container.AppendName | isimws/isim/container.py:506-515 | appends exactly the name field's contribution |
| Container.AppendPeople | isimws/isim/container.py:532-543 | raises IndexError when the first person of an empty list is read, and otherwise appends the people field |
| Container.BuildAttributes | isimws/isim/container.py:477-545 | the builder returns exactly the change list `Attributes`, or IndexError |
| Container.FirstOrEmpty | isimws/isim/container.py:251-254 | the first person's DN, or '' when there is none |
| Container.PeopleDiffers | isimws/isim/container.py:244-294 | an organization never differs on people; an admin domain compares administrators as multisets; the other profiles compare only the first person |
| Container.Diff | isimws/isim/container.py:223-294 | the name is never changed, the description only for profiles that have one, and people never for an organization; the only error is IndexError |
| Container.DiffFromFields | isimws/isim/container.py:223-294 | the changes are the description and people values sent exactly when each differs |
| Container.Compare | isimws/isim/container.py:223-294 | returns exactly `Diff`, and a modify is required exactly when some field is sent |
| Container.CreateDecision | isimws/isim/container.py:313-403 | a create raises IndexError exactly when a profile that sends the first person has none; otherwise it creates under the parent |
| Container.Decision | isimws/isim/container.py:115-310 | an invalid request or an unknown profile raises ValueError; a modify happens only outside check mode |
| Container.Apply | isimws/isim/container.py:115-310 | the apply call returns exactly `Decision` |
| Container.NoChangeIffInSync | isimws/isim/container.py:223-310 | an existing container is left alone exactly when its description and people are in sync |
| Container.SecondRunNoChange | isimws/isim/container.py:296-308 | once the server has applied the requested modification, a second run finds the container in sync |
| Container.CreateWithoutPeopleRaises | isimws/isim/container.py:535-538 | a unit, location or business partner organization cannot be created without a person: the builder reads the first of none |
| Container.ClearingPeopleRaises | isimws/isim/container.py:251-264 | removing the supervisor or sponsor of a unit, location or business partner organization raises IndexError |
| Container.OrganizationIgnoresPeople | isimws/isim/container.py:193-200 | an organization's people are never resolved, so they do not change the outcome |
| Container.CreateSetsName | isimws/isim/container.py:506-512 | a create sends the container's name under the profile's naming attribute first |
| Person.Fields | isimws/isimws/isim/person.py:409-442 | the builder considers the six attributes uid, cn, sn, eraliases, erpersonpassword and erroles |
| Person.FieldNamesDistinct | isimws/isimws/isim/person.py:409-442 | the six attribute names are distinct |
| Person.BuildAttributes | isimws/isimws/isim/person.py:388-442 | the builder returns exactly the change list `Attributes`: a field left as None is not sent, an empty text value is sent as an empty list |
| Person.Diff | isimws/isimws/isim/person.py:163-220 | a uid is never changed; reading the first value of an empty existing full name, surname or password raises IndexError |
| Person.DiffFromFields | isimws/isimws/isim/person.py:163-220 | full name and surname are sent when absent or different, aliases and roles when they differ as multisets, and the password when it differs |
| Person.CreateDecision | isimws/isimws/isim/person.py:295-302 | a create raises ValueError exactly when the profile is not 'person' ignoring case, and otherwise creates a Person in the container |
| Person.Decision | isimws/isimws/isim/person.py:72-238 | a request with an empty compulsory argument raises ValueError; a modify happens only outside check mode; nothing is forwarded elsewhere |
| Person.Compare | isimws/isimws/isim/person.py:163-220 | returns exactly `Diff`, and a modify is required exactly when some field is sent |
| Person.Apply | isimws/isimws/isim/person.py:72-238 | the apply call returns exactly `Decision` |
| Person.NoChangeIffInSync | isimws/isimws/isim/person.py:163-238 | an existing person is left alone exactly when every field is in sync |
| Person.SecondRunNoChange | isimws/isimws/isim/person.py:198-235 | once the server has applied the requested modification, keeping every attribute but the password as sent, a second run finds full name, surname, aliases and roles in sync; the password is in sync as well only when the server kept it as sent |
| Person.PasswordAlwaysResent | isimws/isimws/isim/person.py:85-86 | a stored password that is not the requested text, as an encrypted one is not, is sent again, and the person is never left alone: the run modifies it, reports a change in check mode, or raises |
| Person.CreateSendsEveryField | isimws/isimws/isim/person.py:241-330 | a create sends every field, set or cleared as requested |
| ProvisioningPolicy.TargetOf | isimws/isim/provisioningpolicy.py:192-212 | 'all' targets every service with type 2, 'type' a profile with 0, 'policy' a selection policy with 3 and 'specific' a service DN with 1; another target type or a missing key raises ValueError |
| ProvisioningPolicy.OwnershipOf | isimws/isim/provisioningpolicy.py:224-236 | the five ownership names are accepted ignoring case and mapped to '*', Device, Individual, System and Vendor; any other name raises ValueError |
| ProvisioningPolicy.EncodeEntitlement | isimws/isim/provisioningpolicy.py:174-238 | an entitlement encodes exactly when its keys are present and its target and ownership are valid; automatic gives provisioning type 1, manual 0, and the workflow is sent as its text |
| ProvisioningPolicy.EncodeAll | isimws/isim/provisioningpolicy.py:168-240 | every entitlement dict encodes, one entitlement each and in order, or ValueError is raised |
| ProvisioningPolicy.RoleMemberships | isimws/isim/provisioningpolicy.py:260-268 | one membership per listed role |
| ProvisioningPolicy.MembershipOf | isimws/isim/provisioningpolicy.py:243-272 | 'all' gives one membership of type 2, 'other' one of type 4, 'roles' one of type 3 per role and raises when there is none; any other type raises ValueError |
| ProvisioningPolicy.ScopeOf | isimws/isim/provisioningpolicy.py:279-282 | the scope is 2 exactly when the policy is available to subunits, and 1 otherwise |
| ProvisioningPolicy.Policy | isimws/isim/provisioningpolicy.py:50-298 | the first lookup that raises makes the call raise, the first that returns a nonzero rc is passed back; the only other error is ValueError; a sent policy follows lookups that all returned rc 0, and has priority at least 1 |
| ProvisioningPolicy.FirstFailure | isimws/isim/provisioningpolicy.py:104-150 | the first lookup that did not return rc 0, every lookup before it having returned rc 0, and none exactly when all did |
| ProvisioningPolicy.EncodeAllPrefixFails | isimws/isim/provisioningpolicy.py:171-179 | once one entitlement fails, the loop over any longer prefix fails |
| ProvisioningPolicy.EncodeAllStep | isimws/isim/provisioningpolicy.py:171-238 | each pass of the loop appends the next entitlement's encoding |
| ProvisioningPolicy.EncodeEntitlements | isimws/isim/provisioningpolicy.py:168-240 | the loop returns exactly `EncodeAll` |
| ProvisioningPolicy.EncodeMembership | isimws/isim/provisioningpolicy.py:241-272 | the membership code returns exactly `MembershipOf` |
| ProvisioningPolicy.CreatePolicy | isimws/isim/provisioningpolicy.py:50-298 | create returns exactly `Policy` |
| ProvisioningPolicy.PolicySentIff | isimws/isim/provisioningpolicy.py:104-276 | once the lookups return rc 0, a policy is sent exactly when there is an entitlement, every entitlement encodes, the membership is valid and the priority is at least 1 |
| ProvisioningPolicy.SentPolicyContents | isimws/isim/provisioningpolicy.py:158-285 | a sent policy holds one encoded entitlement per dict, the membership, priority, scope, container and the given descriptive fields |
| ProvisioningPolicy.OwnershipIgnoresCase | isimws/isim/provisioningpolicy.py:224-236 | the ownership type is compared without regard to case |
| ProvisioningPolicy.TargetTypeIsCaseSensitive | isimws/isim/provisioningpolicy.py:192-212 | the target type is compared with case, so 'All' raises ValueError |
| ProvisioningPolicy.MissingWorkflowSentAsNone | isimws/isim/provisioningpolicy.py:222 | a missing workflow is sent as the text 'None' |
| IncludeOnly.Kept | roles/start_config/filter_plugins/include_only.py:23-29 | the filter definition: the elements whose first item is `b`, or every non-empty element when `b` is '', in their order; its own contract bounds the length, and KeptMembers and KeptConcat state membership and order |
| IncludeOnly.FirstEmpty | roles/start_config/filter_plugins/include_only.py:24-25 | the walk reaches the first empty element after every element before it has been tested |
| IncludeOnly.Filter | roles/start_config/filter_plugins/include_only.py:18-30 | filtering a list raises exactly when some element is empty, and the error is IndexError |
| IncludeOnly.Remove | roles/start_config/filter_plugins/include_only.py:27 | `list.remove` succeeds exactly when the element is present, and the list gets one element shorter |
| IncludeOnly.RemoveOneOccurrence | roles/start_config/filter_plugins/include_only.py:27 | a successful `list.remove` takes away exactly one occurrence of the element and nothing else |
| IncludeOnly.KeptMembers | roles/start_config/filter_plugins/include_only.py:23-29 | an element is kept exactly when it is in the list and its first item is `b` or `b` is empty |
| IncludeOnly.KeptConcat | roles/start_config/filter_plugins/include_only.py:24-29 | filtering keeps the order of the elements |
| IncludeOnly.EmptyPatternKeepsAll | roles/start_config/filter_plugins/include_only.py:25 | an empty `b` keeps every element |
| IncludeOnly.KeepsAllPrefix | roles/start_config/filter_plugins/include_only.py:25 | with an empty `b` no element is removed |
| IncludeOnly.KeptIdempotent | roles/start_config/filter_plugins/include_only.py:23-29 | filtering twice with the same `b` is filtering once |
| IncludeOnly.ExampleTest | roles/start_config/filter_plugins/include_only.py:9 | `b`='test' keeps only the test element |
| IncludeOnly.ExampleEmpty | roles/start_config/filter_plugins/include_only.py:10 | an empty `b` keeps both elements |
| IncludeOnly.ExampleValue | roles/start_config/filter_plugins/include_only.py:11 | `b`='value' keeps nothing, as the first items are compared |
| IncludeOnly.ExampleAnother | roles/start_config/filter_plugins/include_only.py:12 | `b`='another' keeps only the other element |
| IncludeOnly.KeptPair | roles/start_config/filter_plugins/include_only.py:23-29 | a two-element list keeps each element exactly when it passes the test |
| IncludeOnly.EmptyElementRaises | roles/start_config/filter_plugins/include_only.py:24-25 | a list with an empty element raises IndexError |
| IncludeOnly.RemoveAfterPrefix | roles/start_config/filter_plugins/include_only.py:26-27 | removing an element that equals none before it removes that very occurrence |
| IncludeOnly.WalkStep | roles/start_config/filter_plugins/include_only.py:24-29 | each pass of the walk over the copy filters one more element of the list |
| IncludeOnly.RemoveUnmatched | roles/start_config/filter_plugins/include_only.py:23-29 | the loop leaves the list, and raises, exactly as `Filter` says |
| IncludeOnly.MutableList.constructor | roles/start_config/filter_plugins/include_only.py:18 | a list holds the given elements |
| IncludeOnly.MutableList.IncludeOnly | roles/start_config/filter_plugins/include_only.py:18-30 | filters the list in place as `Filter` says and returns the same list |
| IncludeOnly.FilterEntries | roles/start_config/filter_plugins/include_only.py:19-22 | filtering a dict keeps its keys |
| IncludeOnly.FilterEntriesEffect | roles/start_config/filter_plugins/include_only.py:19-22 | when nothing raises, each list entry is filtered and every other entry is unchanged |
| IncludeOnly.MutableDict.constructor | roles/start_config/filter_plugins/include_only.py:18 | a new dict is empty |
| IncludeOnly.MutableDict.IncludeOnly | roles/start_config/filter_plugins/include_only.py:18-30 | filters each list entry of the dict in place, in key order, and returns the same dict |
| IncludeOnly.EntriesStep | roles/start_config/filter_plugins/include_only.py:20-22 | each pass of the loop over the keys filters one more entry |
| IncludeOnly.FilterEntriesStops | roles/start_config/filter_plugins/include_only.py:20-22 | the first entry that raises stops the loop, leaving later entries unfiltered |
| IncludeOnly.DictFilteredEntryByEntry | roles/start_config/filter_plugins/include_only.py:19-22 | when no list entry holds an empty element, every list entry is filtered and the rest are unchanged |
| IncludeOnly.NoRaiseWithoutEmpty | roles/start_config/filter_plugins/include_only.py:19-22 | a dict whose list entries have no empty element never raises |

## Left out

- SOAP transport, sessions, zeep client construction, SSL-warning suppression and logging are I/O. The call made by `invoke_soap_request` is a parameter holding its outcome. Every remote call the entity modules and the DN encoder make (a search, a SOAP type lookup, a container lookup, the organization tree) is a parameter of type `Result`: `Err` is the IBMError or IBMFatal the call raises, and `Ok` is the response it returns, whose nonzero rc is handled as the code does.
- The path-to-DN resolver (`container_path_to_dn`, `get_unique_object`, `dn_to_container_path`) is not part of this model. It is the `Reconcile.Resolver` parameter: any function of the path, name and type.
- The bodies of `search`, `get`, `_create` and `_modify` only marshal arguments for one remote call. The model keeps the attribute lists they build, the profile checks in `_create`, and their outcome as the `Create` or `Modify` decision.
- The Ansible entry point, the manual test driver, packaging, the credential holder, the newer `organization.py` and the older `person.py` are not part of this model.
- Python dict iteration order is modelled as insertion order: a `seq` of keys beside a `map`. This applies to the configuration dictionary, the DN map walked by `decode_from_isim_dn`, and the dict given to `include_only`.
- IncludeOnly.MutableDict.IncludeOnly: the dict's values are modelled by value. A list object shared between two entries, or with the caller, is not modelled, so aliasing between entries is left out.
- IncludeOnly: elements are lists of strings. A string or tuple element, whose first item Python also reads with `[0]`, is not modelled.
- ProvisioningPolicy.Policy: the four SOAP-type lookups and the container lookup are a sequence of outcomes, tried in order. What each lookup returns on success (the zeep types and the container record) is not modelled; the container is given by its DN.
- ProvisioningPolicy: the SOAP object types are records; zeep's own type checks on assignment are not modelled.
- IsimApplication: a SOAP fault is modelled by its code and message only; other zeep exception types are not modelled.
- Integers are unbounded, as in Python; no width or wrap-around applies.
- Reconcile.Badge: a badge is a record with a text and a colour. A badge dict without `text` or `colour`, which raises KeyError at isimws/isim/service.py:410 and isimws/isim/service.py:1205, is not modelled.
- IsimApplication.ParseComponents / IsimApplication.VersionCompare: `int` is modelled for ASCII text only. Non-ASCII decimal digits and non-ASCII white space, which Python's `int` also accepts, raise ValueError in the model. The regular expressions' `\d` is likewise ASCII only, and a `$` that matches before a final newline is not modelled.
- Common.Lower: folds the ASCII letters A-Z only, where Python's `str.lower` folds every cased Unicode letter. This affects its users wherever a key or name holds a non-ASCII letter: `get_soap_attribute` and `list_soap_attribute_keys` (Tools), the lower-casing of configuration keys (isimws/isim/service.py:189-194, ServiceConfig), the case-insensitive field names of the change list (Reconcile), and the matching of access types, classifications and ownership types (Role, RoleLegacy, ProvisioningPolicy).
- ServiceConfig.ConfigValue: a configuration value is None, a string or a list of strings. An int or bool value is not modelled. In Python such a value never equals the stored string at isimws/isim/service.py:465, so it always asks for a modification, and it is sent as a one-element list at isimws/isim/service.py:1140. The model treats every scalar as its text.
