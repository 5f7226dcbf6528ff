/** The five namespaces of a CWMP envelope and the prefixes a sender binds them to. */
module Namespaces {
  import opened Wrappers

  datatype NamespaceId = SOAPENV | SOAPENC | XSI | XSD | CWMP

  datatype Namespace = Namespace(prefix: string, url: string)

  type NamespaceMap = map<NamespaceId, Namespace>

  const SOAPENV_NS_URL := "http://schemas.xmlsoap.org/soap/envelope/"
  const SOAPENC_NS_URL := "http://schemas.xmlsoap.org/soap/encoding/"
  const XSI_NS_URL := "http://www.w3.org/2001/XMLSchema-instance"
  const XSD_NS_URL := "http://www.w3.org/2001/XMLSchema"
  const CWMP_1_0_NS_URL := "urn:dslforum-org:cwmp-1-0"
  const CWMP_1_1_NS_URL := "urn:dslforum-org:cwmp-1-1"
  const CWMP_1_2_NS_URL := "urn:dslforum-org:cwmp-1-2"

  function IdOfUrl(url: string): Option<NamespaceId> {
    if url == SOAPENV_NS_URL then Some(SOAPENV)
    else if url == SOAPENC_NS_URL then Some(SOAPENC)
    else if url == XSI_NS_URL then Some(XSI)
    else if url == XSD_NS_URL then Some(XSD)
    else if url == CWMP_1_0_NS_URL || url == CWMP_1_1_NS_URL || url == CWMP_1_2_NS_URL then Some(CWMP)
    else None
  }

  predicate IsComplete(m: NamespaceMap) {
    SOAPENV in m && SOAPENC in m && XSD in m && XSI in m && CWMP in m
  }

  /** m picks, for every namespace some declaration binds, one of the declarations that bind it. */
  ghost predicate Summarises(m: NamespaceMap, declared: map<string, string>) {
    && (forall id :: id in m ==>
          && m[id].prefix in declared
          && declared[m[id].prefix] == m[id].url
          && IdOfUrl(m[id].url) == Some(id))
    && (forall p :: p in declared && IdOfUrl(declared[p]).Some? ==> IdOfUrl(declared[p]).value in m)
  }

  /** The declarations are visited in no particular order, so of two for one namespace either may win. */
  method BuildNamespaceMap(declared: map<string, string>) returns (m: NamespaceMap)
    ensures Summarises(m, declared)
  {
    m := map[];
    var left := declared.Keys;
    while left != {}
      invariant left <= declared.Keys
      invariant Summarises(m, map p | p in declared && p !in left :: declared[p])
      decreases left
    {
      var prefix :| prefix in left;
      match IdOfUrl(declared[prefix]) {
        case Some(id) => m := m[id := Namespace(prefix, declared[prefix])];
        case None =>
      }
      left := left - {prefix};
    }
    assert (map p | p in declared && p !in left :: declared[p]) == declared;
  }

  /** Different namespaces never share a prefix. */
  lemma PrefixesAreDistinct(m: NamespaceMap, declared: map<string, string>, a: NamespaceId, b: NamespaceId)
    requires Summarises(m, declared) && a in m && b in m && a != b
    ensures m[a].prefix != m[b].prefix
  {
    assert declared[m[a].prefix] == m[a].url && declared[m[b].prefix] == m[b].url;
  }

  /** When no namespace is declared twice, the outcome does not depend on the order of the visit. */
  lemma SummaryIsUnique(m: NamespaceMap, n: NamespaceMap, declared: map<string, string>)
    requires Summarises(m, declared) && Summarises(n, declared)
    requires forall p, q | p in declared && q in declared && IdOfUrl(declared[p]).Some? ::
               IdOfUrl(declared[p]) == IdOfUrl(declared[q]) ==> p == q
    ensures m == n
  {
    forall id | id in m
      ensures id in n && n[id] == m[id]
    {
      assert IdOfUrl(declared[m[id].prefix]).value in n;
    }
    forall id | id in n
      ensures id in m
    {
      assert IdOfUrl(declared[n[id].prefix]).value in m;
    }
  }
}
