/**
 * The attribute records exchanged with the identity server, and the helpers
 * that build them, look them up by name and list their names; plus the
 * removal of raw element data from a response.
 */
module Tools {
  import opened Common
  import opened IsimApplication

  /** An attribute value: the server returns strings; some builders send integers or booleans. */
  datatype Value = Str(s: string) | Int(i: int) | Bool(b: bool)

  /** A WSAttribute record. */
  datatype Attribute = Attribute(name: string, operation: int, isEncoded: bool, values: seq<Value>)

  /** An object (service, role, person, container) as returned by a search or lookup. */
  datatype SoapObject = SoapObject(
    name: string,
    itimDN: string,
    profileName: string,
    description: string,
    attributes: seq<Attribute>)

  /** String values as attribute values. */
  function Strs(xs: seq<string>): (vs: seq<Value>)
    ensures |vs| == |xs| && forall i :: 0 <= i < |xs| ==> vs[i] == Str(xs[i])
  {
    seq(|xs|, i requires 0 <= i < |xs| => Str(xs[i]))
  }

  lemma StrsInjective(xs: seq<string>, ys: seq<string>)
    requires Strs(xs) == Strs(ys)
    ensures xs == ys
  {
    assert |xs| == |ys|;
    forall i | 0 <= i < |xs| ensures xs[i] == ys[i] {
      assert Strs(xs)[i] == Strs(ys)[i];
    }
  }

  /** `build_attribute`: a replace operation (0), not encoded, carrying the values unchanged. */
  function BuildAttribute(key: string, valueList: seq<Value>): (attr: Attribute)
    ensures attr.name == key && attr.values == valueList
    ensures attr.operation == 0 && !attr.isEncoded
  {
    Attribute(key, 0, false, valueList)
  }

  /** The name of attribute `a` equals `key` when case is ignored. */
  predicate NameMatches(a: Attribute, key: string) {
    Lower(a.name) == Lower(key)
  }

  /**
   * The values of the first attribute whose name matches `key` ignoring case,
   * or None when there is none. A present attribute with no values yields
   * Some([]), which is not None.
   */
  function AttributeValues(attrs: seq<Attribute>, key: string): (r: Option<seq<Value>>)
    decreases |attrs|
  {
    if attrs == [] then None
    else if NameMatches(attrs[0], key) then Some(attrs[0].values)
    else AttributeValues(attrs[1..], key)
  }

  /** The lookup finds the first attribute whose name matches, and finds nothing only when none matches. */
  lemma {:induction false} AttributeValuesFirstMatch(attrs: seq<Attribute>, key: string)
    ensures AttributeValues(attrs, key).None? <==> forall i :: 0 <= i < |attrs| ==> !NameMatches(attrs[i], key)
    ensures AttributeValues(attrs, key).Some? ==>
              exists i :: 0 <= i < |attrs| && NameMatches(attrs[i], key) && AttributeValues(attrs, key).value == attrs[i].values
                          && forall j :: 0 <= j < i ==> !NameMatches(attrs[j], key)
    decreases |attrs|
  {
    if attrs != [] && !NameMatches(attrs[0], key) {
      AttributeValuesFirstMatch(attrs[1..], key);
      assert forall i :: 1 <= i < |attrs| ==> attrs[i] == attrs[1..][i - 1];
      var r := AttributeValues(attrs[1..], key);
      if r.Some? {
        var i :| 0 <= i < |attrs| - 1 && NameMatches(attrs[1..][i], key) && r.value == attrs[1..][i].values
                  && forall j :: 0 <= j < i ==> !NameMatches(attrs[1..][j], key);
        assert NameMatches(attrs[i + 1], key) && forall j :: 0 <= j < i + 1 ==> !NameMatches(attrs[j], key);
      }
    }
  }

  /** The lookup only depends on the key up to case. */
  lemma AttributeValuesIgnoresCase(attrs: seq<Attribute>, key1: string, key2: string)
    requires Lower(key1) == Lower(key2)
    ensures AttributeValues(attrs, key1) == AttributeValues(attrs, key2)
  {
    if attrs != [] {
      AttributeValuesIgnoresCase(attrs[1..], key1, key2);
    }
  }

  /** `get_soap_attribute`: scan the attribute list for the first case-insensitive match. */
  method GetSoapAttribute(returnedObject: SoapObject, key: string) returns (values: Option<seq<Value>>)
    ensures values == AttributeValues(returnedObject.attributes, key)
  {
    var attributes := returnedObject.attributes;
    var i := 0;
    while i < |attributes|
      invariant 0 <= i <= |attributes|
      invariant AttributeValues(attributes, key) == AttributeValues(attributes[i..], key)
    {
      if Lower(attributes[i].name) == Lower(key) {
        return Some(attributes[i].values);
      }
      assert attributes[i..][1..] == attributes[i + 1..];
      i := i + 1;
    }
    return None;
  }

  /** `list_soap_attribute_keys`: the lower-cased attribute names, one per attribute, in order. */
  method ListSoapAttributeKeys(returnedObject: SoapObject) returns (keys: seq<string>)
    ensures |keys| == |returnedObject.attributes|
    ensures forall i :: 0 <= i < |keys| ==> keys[i] == Lower(returnedObject.attributes[i].name)
  {
    var attributes := returnedObject.attributes;
    keys := [];
    for i := 0 to |attributes|
      invariant |keys| == i
      invariant forall j :: 0 <= j < i ==> keys[j] == Lower(attributes[j].name)
    {
      keys := keys + [Lower(attributes[i].name)];
    }
  }

  /** Every listed key is found by the lookup. */
  lemma ListedKeysAreFound(attrs: seq<Attribute>, i: int)
    requires 0 <= i < |attrs|
    ensures AttributeValues(attrs, Lower(attrs[i].name)).Some?
  {
    LowerIdempotent(attrs[i].name);
    assert NameMatches(attrs[i], Lower(attrs[i].name));
    AttributeValuesFirstMatch(attrs, Lower(attrs[i].name));
  }

  // ---------------------------------------------------------------------
  // Raw element data in responses
  // ---------------------------------------------------------------------

  /** The key under which the raw, unserializable element data is kept. */
  const RawElementsKey := "_raw_elements"

  /** A child element of a returned object, key to (serialized) value. */
  type Element = map<string, string>

  /** A returned object, reduced to its `children` items. */
  datatype ZeepNode = ZeepNode(children: seq<Element>)

  /** The shapes `data` can take: a list of results, a single ordered record, or anything else. */
  datatype ZeepData = ResultList(results: seq<ZeepNode>) | Ordered(node: ZeepNode) | OtherData

  function StripElement(e: Element): (r: Element)
    ensures r.Keys == e.Keys - {RawElementsKey}
    ensures forall k :: k in r ==> r[k] == e[k]
  {
    e - {RawElementsKey}
  }

  function StripNode(n: ZeepNode): (r: ZeepNode)
    ensures |r.children| == |n.children|
    ensures forall i :: 0 <= i < |n.children| ==> r.children[i] == StripElement(n.children[i])
  {
    ZeepNode(seq(|n.children|, i requires 0 <= i < |n.children| => StripElement(n.children[i])))
  }

  predicate NodeHasRaw(n: ZeepNode) {
    forall i :: 0 <= i < |n.children| ==> RawElementsKey in n.children[i]
  }

  /** Every element the strip visits carries the raw data key (otherwise `del` raises KeyError). */
  predicate Strippable(d: Option<ZeepData>) {
    match d
    case Some(ResultList(results)) => forall i :: 0 <= i < |results| ==> NodeHasRaw(results[i])
    case Some(Ordered(node)) => NodeHasRaw(node)
    case _ => true
  }

  /** The data with the raw key removed from every child element; other data is untouched. */
  function Stripped(d: Option<ZeepData>): Option<ZeepData> {
    match d
    case Some(ResultList(results)) => Some(ResultList(StripResults(results)))
    case Some(Ordered(node)) => Some(Ordered(StripNode(node)))
    case _ => d
  }

  /**
   * `r` is `n` as the element loop leaves it when element `j` is the first
   * without the raw key: the elements before `j` stripped, the rest as they were.
   */
  predicate NodeStoppedAt(n: ZeepNode, r: ZeepNode, j: int) {
    && 0 <= j < |n.children| && |r.children| == |n.children|
    && RawElementsKey !in n.children[j]
    && (forall k :: 0 <= k < j ==> RawElementsKey in n.children[k] && r.children[k] == StripElement(n.children[k]))
    && (forall k :: j <= k < |n.children| ==> r.children[k] == n.children[k])
  }

  /** Remove the raw key from the children of `n`, one element at a time, as a `del` per element. */
  method StripChildren(n: ZeepNode) returns (r: ZeepNode, raised: Option<Error>)
    ensures raised.None? <==> NodeHasRaw(n)
    ensures raised.None? ==> r == StripNode(n)
    ensures raised.Some? ==> raised == Some(KeyError) && exists j :: NodeStoppedAt(n, r, j)
  {
    var children := n.children;
    for j := 0 to |children|
      invariant |children| == |n.children|
      invariant forall k :: 0 <= k < j ==> RawElementsKey in n.children[k] && children[k] == StripElement(n.children[k])
      invariant forall k :: j <= k < |children| ==> children[k] == n.children[k]
    {
      if RawElementsKey !in children[j] {
        assert NodeStoppedAt(n, ZeepNode(children), j);
        return ZeepNode(children), Some(KeyError);
      }
      children := children[j := StripElement(children[j])];
    }
    return ZeepNode(children), None;
  }

  /** The result list with every node's children stripped. */
  function StripResults(results: seq<ZeepNode>): (r: seq<ZeepNode>)
    ensures |r| == |results| && forall i :: 0 <= i < |results| ==> r[i] == StripNode(results[i])
  {
    seq(|results|, i requires 0 <= i < |results| => StripNode(results[i]))
  }

  /**
   * `partial` is the result list as the loop leaves it when node `i` is the
   * first with an element lacking the raw key: the nodes before it stripped,
   * node `i` stripped up to that element, the rest as they were.
   */
  predicate ResultsStoppedAt(results: seq<ZeepNode>, partial: seq<ZeepNode>, i: int) {
    && 0 <= i < |results| && |partial| == |results|
    && (forall k :: 0 <= k < i ==> NodeHasRaw(results[k]) && partial[k] == StripNode(results[k]))
    && (exists j :: 0 <= j < |results[i].children| && NodeStoppedAt(results[i], partial[i], j))
    && (forall k :: i < k < |results| ==> partial[k] == results[k])
  }

  /**
   * Strip every node of a result list in turn. On a missing key the
   * deletions already made stay made (they happen in place), which
   * `partial` reports.
   */
  method StripEach(results: seq<ZeepNode>) returns (partial: seq<ZeepNode>, raised: Option<Error>)
    ensures raised.None? <==> forall i :: 0 <= i < |results| ==> NodeHasRaw(results[i])
    ensures raised.Some? ==> raised == Some(KeyError) && exists i :: ResultsStoppedAt(results, partial, i)
    ensures raised.None? ==> partial == StripResults(results)
    ensures |partial| == |results|
  {
    partial := results;
    for i := 0 to |results|
      invariant |partial| == |results|
      invariant forall k :: 0 <= k < i ==> NodeHasRaw(results[k]) && partial[k] == StripNode(results[k])
      invariant forall k :: i <= k < |results| ==> partial[k] == results[k]
    {
      var node, err := StripChildren(partial[i]);
      if err.Some? {
        ghost var j :| NodeStoppedAt(results[i], node, j);
        partial := partial[i := node];
        assert 0 <= j < |results[i].children| && NodeStoppedAt(results[i], partial[i], j);
        assert ResultsStoppedAt(results, partial, i);
        return partial, err;
      }
      partial := partial[i := node];
    }
    return partial, None;
  }

  /**
   * `strip_zeep_element_data`: remove the raw element key from every child
   * element of the response data, in place, and return the same response.
   */
  method StripZeepElementData(response: IBMResponse<ZeepData>) returns (r: IBMResponse<ZeepData>, raised: Option<Error>)
    modifies response
    ensures r == response
    ensures raised.None? <==> Strippable(old(response.data))
    ensures raised.Some? ==> raised == Some(KeyError)
    ensures raised.None? ==> response.data == Stripped(old(response.data))
    ensures raised.Some? && old(response.data).Some? && old(response.data).value.ResultList? ==>
              response.data.Some? && response.data.value.ResultList?
              && exists i :: ResultsStoppedAt(old(response.data).value.results, response.data.value.results, i)
    ensures raised.Some? && old(response.data).Some? && old(response.data).value.Ordered? ==>
              response.data.Some? && response.data.value.Ordered?
              && exists j :: NodeStoppedAt(old(response.data).value.node, response.data.value.node, j)
    ensures response.rc == old(response.rc) && response.changed == old(response.changed)
    ensures response.warnings == old(response.warnings) && response.fault == old(response.fault)
  {
    r := response;
    raised := None;
    match response.data {
      case Some(ResultList(results)) =>
        var partial, err := StripEach(results);
        response.data := Some(ResultList(partial));
        raised := err;
      case Some(Ordered(node)) =>
        var stripped, err := StripChildren(node);
        response.data := Some(Ordered(stripped));
        raised := err;
      case _ =>
    }
  }
}
