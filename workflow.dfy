/**
 * Workflow lookups. There is no SOAP call that reads a workflow, so a
 * workflow's attribute is fetched with an LDAP filter search; the filter is
 * built from the workflow's DN or from a caller filter and a container DN.
 * The package ships two identical copies of this code; this module models both.
 */
module Workflow {
  import opened Common
  import opened DnEncoder

  /** The component that separates a workflow's own part from its organization's DN. */
  const WorkflowSeparator := ",ou=workflow,"

  /** The pieces of a workflow DN: its erglobalid and its organization's DN. */
  datatype WorkflowDn = WorkflowDn(erglobalid: string, organizationDn: string)

  /**
   * The DN must split into exactly two parts around `,ou=workflow,`, and the
   * first part must split into exactly `erglobalid` and a value around `=`.
   */
  function ParseWorkflowDn(workflowDn: string): (r: Result<WorkflowDn>)
    ensures r.Err? ==> r.error == ValueError
  {
    var dnComponents := Split(workflowDn, WorkflowSeparator);
    if |dnComponents| != 2 then Err(ValueError)
    else
      var nonOrgComponents := Split(dnComponents[0], "=");
      if |nonOrgComponents| != 2 || nonOrgComponents[0] != "erglobalid" then Err(ValueError)
      else Ok(WorkflowDn(nonOrgComponents[1], dnComponents[1]))
  }

  /** Whatever parses is exactly `erglobalid=` + erglobalid + `,ou=workflow,` + organization DN. */
  lemma ParseWorkflowDnRebuilds(workflowDn: string, w: WorkflowDn)
    requires ParseWorkflowDn(workflowDn) == Ok(w)
    ensures "erglobalid=" + w.erglobalid + WorkflowSeparator + w.organizationDn == workflowDn
  {
    var dnComponents := Split(workflowDn, WorkflowSeparator);
    SplitInTwo(workflowDn, WorkflowSeparator);
    SplitInTwo(dnComponents[0], "=");
  }

  /** Without the separator the DN does not split, so it is rejected. */
  lemma MissingSeparatorRejected(workflowDn: string, attributeName: string)
    requires !Contains(workflowDn, WorkflowSeparator)
    ensures GetAttribute(workflowDn, attributeName) == Err(ValueError)
  {
    SplitNoOccurrence(workflowDn, WorkflowSeparator);
  }

  /** `_get_attribute_by_filter`: the search arguments sent to findSearchFilterObjects. */
  function GetAttributeByFilter(searchFilter: string, attributeName: string): (r: SearchArguments)
    ensures r.category == "Workflow" && r.base == "global"
    ensures r.returnedAttributeName == attributeName && r.filter == searchFilter
  {
    SearchArguments("Workflow", attributeName, searchFilter, "global")
  }

  /**
   * `get_attribute`: the workflow is found by its erglobalid among entries whose
   * erparent contains the organization DN.
   */
  function GetAttribute(workflowDn: string, attributeName: string): (r: Result<SearchArguments>)
    ensures r.Err? <==> ParseWorkflowDn(workflowDn).Err?
    ensures r.Ok? ==> r.value.category == "Workflow" && r.value.base == "global" && r.value.returnedAttributeName == attributeName
  {
    var parsed :- ParseWorkflowDn(workflowDn);
    var searchFilter := "(&(erglobalid=" + parsed.erglobalid + ")(erparent=*" + parsed.organizationDn + "))";
    Ok(GetAttributeByFilter(searchFilter, attributeName))
  }

  /** `search_attribute`: the caller's filter restricted to direct children of the container. */
  function SearchAttribute(containerDn: string, ldapFilter: string, attributeName: string): (r: SearchArguments)
    ensures StartsWith(r.filter, "(&" + ldapFilter) && EndsWith(r.filter, "(erparent=" + containerDn + "))")
    ensures r.category == "Workflow" && r.base == "global" && r.returnedAttributeName == attributeName
  {
    var searchFilter := "(&" + ldapFilter + "(erparent=" + containerDn + "))";
    assert searchFilter == ("(&" + ldapFilter) + ("(erparent=" + containerDn + "))");
    GetAttributeByFilter(searchFilter, attributeName)
  }

  /** The default arguments of `search_attribute`. */
  const DefaultLdapFilter := "(erprocessname=*)"
  const DefaultAttributeName := "erglobalid"

  /** Called with the defaults, the search asks for the erglobalid of every workflow process directly under the container. */
  lemma DefaultSearch(containerDn: string)
    ensures SearchAttribute(containerDn, DefaultLdapFilter, DefaultAttributeName)
            == SearchArguments("Workflow", "erglobalid", "(&(erprocessname=*)(erparent=" + containerDn + "))", "global")
  {
    var head: string := "(&" + DefaultLdapFilter + "(erparent=";
    assert head == "(&(erprocessname=*)(erparent=";
    assert "(&" + DefaultLdapFilter + "(erparent=" + containerDn + "))" == head + containerDn + "))";
  }

  /**
   * `,ou=workflow,` cannot start inside `p + x` when `p` holds no comma and
   * `x` no `=`: an occurrence starting in `x` would need the `=` three places
   * on, which is neither in `x` nor among the separator's own first three
   * characters.
   */
  lemma SeparatorOnlyAtJunction(p: string, x: string, o: string)
    requires ',' !in p && '=' !in x
    ensures forall j: nat :: j < |p + x| ==> !OccursAt(p + x + WorkflowSeparator + o, WorkflowSeparator, j)
  {
    var a := p + x;
    var s := a + WorkflowSeparator + o;
    forall j: nat | j < |a|
      ensures !OccursAt(s, WorkflowSeparator, j)
    {
      var window := s[j..j + 13];
      if j < |p| {
        assert window[0] == p[j] != WorkflowSeparator[0];
      } else if j + 3 < |a| {
        assert window[3] == x[j + 3 - |p|] != WorkflowSeparator[3];
      } else {
        var k := |a| - j;
        assert window[k] == s[|a|] == ',' != WorkflowSeparator[k];
      }
    }
  }

  /**
   * A DN built as `erglobalid=X,ou=workflow,O` is parsed back into X and O, and
   * the filter names both, when X holds no `=` and O does not contain
   * `,ou=workflow,`.
   */
  lemma WorkflowDnRoundTrip(x: string, o: string, attributeName: string)
    requires '=' !in x
    requires !Contains(o, WorkflowSeparator)
    ensures ParseWorkflowDn("erglobalid=" + x + WorkflowSeparator + o) == Ok(WorkflowDn(x, o))
    ensures GetAttribute("erglobalid=" + x + WorkflowSeparator + o, attributeName)
            == Ok(SearchArguments("Workflow", attributeName, "(&(erglobalid=" + x + ")(erparent=*" + o + "))", "global"))
  {
    SeparatorOnlyAtJunction("erglobalid=", x, o);
    SplitAtJunction("erglobalid=" + x, WorkflowSeparator, o);
    assert !Contains(x, "=") by {
      forall i: nat | i <= |x| ensures !OccursAt(x, "=", i) {
        if i + 1 <= |x| { assert x[i..i + 1][0] == x[i]; }
      }
    }
    assert "erglobalid=" + x == "erglobalid" + "=" + x;
    SplitTwoParts("erglobalid", "=", x);
  }

  /** A DN whose own part is not `erglobalid=<value>` is rejected. */
  lemma WrongAttributeRejected(name: string, x: string, o: string, attributeName: string)
    requires ',' !in name && '=' !in name && '=' !in x
    requires name != "erglobalid"
    requires !Contains(o, WorkflowSeparator)
    ensures GetAttribute(name + "=" + x + WorkflowSeparator + o, attributeName) == Err(ValueError)
  {
    var p := name + "=";
    assert ',' !in p by {
      forall k | 0 <= k < |p| ensures p[k] != ',' {
        if k < |name| { assert p[k] == name[k]; }
      }
    }
    SeparatorOnlyAtJunction(p, x, o);
    SplitAtJunction(p + x, WorkflowSeparator, o);
    assert !Contains(x, "=") by {
      forall i: nat | i <= |x| ensures !OccursAt(x, "=", i) {
        if i + 1 <= |x| { assert x[i..i + 1][0] == x[i]; }
      }
    }
    assert p + x == name + "=" + x;
    SplitTwoParts(name, "=", x);
  }
}
