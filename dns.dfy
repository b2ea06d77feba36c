/** The DNS probe (scanner/plugins_dns.go): host extraction, and the shape of the
    record map. The resolver is an input. Its four lookups run concurrently, each
    writing its own key under a mutex, so the map is the one a loop over the four
    kinds builds in any order. */
module DnsPlugin {
  import opened Text
  import opened Http
  import opened Registry
  import Scanner

  /** The target with one leading "http://", then one leading "https://", removed. */
  function StripScheme(url: string): string {
    TrimPrefix(TrimPrefix(url, "http://"), "https://")
  }

  /** extractDomain: the longest prefix of the scheme-stripped target that holds
      neither '/' nor ':' (the path and the port are cut off). */
  function ExtractDomain(url: string): (host: string)
    ensures '/' !in host && ':' !in host
    ensures HasPrefix(StripScheme(url), host)
    ensures |host| == |StripScheme(url)| || StripScheme(url)[|host|] in {'/', ':'}
  {
    var d := StripScheme(url);
    CutAtPathAndPort(d);
    Split(Split(d, ['/'])[0], [':'])[0]
  }

  /** Cutting at the first '/' and then at the first ':' leaves the prefix before the first of either. */
  lemma CutAtPathAndPort(d: string)
    ensures var host := Split(Split(d, ['/'])[0], [':'])[0];
      && '/' !in host && ':' !in host
      && HasPrefix(d, host)
      && (|host| == |d| || d[|host|] in {'/', ':'})
  {
    var first := Split(d, ['/'])[0];
    SplitFirst(d, '/');
    var host := Split(first, [':'])[0];
    SplitFirst(first, ':');
    assert host == d[..|host|];
    assert '/' !in host by {
      forall i | 0 <= i < |host| ensures host[i] != '/' {
        assert host[i] == first[i];
      }
    }
    if |host| < |first| {
      assert d[|host|] == first[|host|];
    }
  }

  /** The host is empty exactly when the stripped target is empty or starts with '/' or ':'. */
  lemma EmptyHost(url: string)
    ensures ExtractDomain(url) == "" <==>
      StripScheme(url) == "" || StripScheme(url)[0] in {'/', ':'}
  {
    var d := StripScheme(url);
    var h := ExtractDomain(url);
    if h != "" && d != "" {
      assert d[0] == h[0];
    }
  }

  /** Hosts without a path or a port survive normalisation and extraction unchanged. */
  lemma {:induction false} ExtractAfterNormalize(h: string)
    requires h != "" && '/' !in h && ':' !in h
    ensures ExtractDomain(Scanner.NormalizeURL(h)) == h
  {
    assert |h| >= 7 ==> h[..7][4] == h[4] != ':';
    assert |h| >= 8 ==> h[..8][5] == h[5] != ':';
    var u := "http://" + h;
    assert !Scanner.HasScheme(h);
    TrimRightByExact(u, {'/'}, |u|);
    assert Scanner.NormalizeURL(h) == u;
    assert u[..7] == "http://" && u[7..] == h;
    assert StripScheme(u) == h;
    ExtractUpTo(u, |h|);
  }

  /** The host is pinned down by where the first '/' or ':' of the stripped target is. */
  lemma ExtractUpTo(url: string, n: nat)
    requires n <= |StripScheme(url)|
    requires forall i :: 0 <= i < n ==> StripScheme(url)[i] !in {'/', ':'}
    requires n == |StripScheme(url)| || StripScheme(url)[n] in {'/', ':'}
    ensures ExtractDomain(url) == StripScheme(url)[..n]
  {
  }

  /** Degenerate targets give an empty host. */
  lemma EmptyHostExamples()
    ensures ExtractDomain("http://") == ""
    ensures ExtractDomain("http:///x") == ""
    ensures ExtractDomain(":80") == ""
  {
    assert TrimPrefix("http://", "http://") == "";
    assert StripScheme("http://") == "";
    assert TrimPrefix("http:///x", "http://") == "/x";
    assert StripScheme("http:///x") == "/x";
    assert StripScheme(":80") == ":80";
    EmptyHost("http://");
    EmptyHost("http:///x");
    EmptyHost(":80");
  }

  /** Scheme, port and path are all cut off: an https target with a port keeps only its host. */
  lemma PortAndPathCut(h: string, rest: string)
    requires '/' !in h && ':' !in h
    ensures ExtractDomain("https://" + h + ":" + rest) == h
  {
    var s := "https://" + h + ":" + rest;
    assert s[4] == 's';
    assert !HasPrefix(s, "http://");
    assert s[..8] == "https://";
    var d := s[8..];
    assert d == h + ":" + rest;
    assert StripScheme(s) == d;
    assert d[|h|] == ':';
    ExtractUpTo(s, |h|);
    assert d[..|h|] == h;
  }

  /** The empty target normalises to "http:", whose host is "http". */
  lemma EmptyTargetHost()
    ensures ExtractDomain(Scanner.NormalizeURL("")) == "http"
  {
    assert !Scanner.HasScheme("");
    TrimRightByExact("http://", {'/'}, 5);
    assert Scanner.NormalizeURL("") == "http:";
    assert StripScheme("http:") == "http:";
    ExtractUpTo("http:", 4);
  }

  /** What one lookup gave: an error, or the records as strings in the order returned. */
  datatype Lookup = LookupFailed | Records(records: seq<string>)

  /** The resolver: the answer to a lookup of one record kind for one host. */
  type Resolver = (string, string) -> Lookup

  /** The result keys, one per lookup. */
  const RecordKinds: set<string> := {"A/AAAA", "MX", "NS", "TXT"}

  const InvalidDomain := "Invalid domain"

  /** What checkDNSPlugin returns for `url`. */
  function DnsOutcome(url: string, resolve: Resolver): (v: Value)
    ensures ExtractDomain(url) == "" ==> v == ErrorMap(InvalidDomain)
    ensures ExtractDomain(url) != "" ==> v.Fields? && v.entries.Keys <= RecordKinds
    ensures ExtractDomain(url) != "" ==> forall k :: k in RecordKinds ==>
      (k in v.entries <==> resolve(k, ExtractDomain(url)).Records?)
    ensures ExtractDomain(url) != "" ==> forall k :: k in v.entries ==>
      v.entries[k] == SliceOf(resolve(k, ExtractDomain(url)).records)
  {
    var domain := ExtractDomain(url);
    if domain == "" then ErrorMap(InvalidDomain)
    else Fields(map k | k in RecordKinds && resolve(k, domain).Records? :: SliceOf(resolve(k, domain).records))
  }

  /** An invalid domain is reported without consulting the resolver. */
  lemma InvalidDomainIssuesNoLookup(url: string, r1: Resolver, r2: Resolver)
    requires ExtractDomain(url) == ""
    ensures DnsOutcome(url, r1) == DnsOutcome(url, r2) == ErrorMap(InvalidDomain)
  {
  }

  /** Only the extracted host is looked up: resolvers that agree on it give the same map. */
  lemma OnlyHostIsLookedUp(url: string, r1: Resolver, r2: Resolver)
    requires forall k :: k in RecordKinds ==> r1(k, ExtractDomain(url)) == r2(k, ExtractDomain(url))
    ensures DnsOutcome(url, r1) == DnsOutcome(url, r2)
  {
    var d := ExtractDomain(url);
    if d != "" {
      var m1 := DnsOutcome(url, r1).entries;
      var m2 := DnsOutcome(url, r2).entries;
      forall k | k in m1 ensures k in m2 && m1[k] == m2[k] {
        assert r1(k, d) == r2(k, d);
      }
      forall k | k in m2 ensures k in m1 {
        assert r1(k, d) == r2(k, d);
      }
    }
  }

  /** checkDNSPlugin: the host guard, then one task per record kind; each task that
      gets records copies them into a fresh list and files it under its kind. */
  method CheckDNS(url: string, resolve: Resolver) returns (v: Value)
    ensures v == DnsOutcome(url, resolve)
  {
    var domain := ExtractDomain(url);
    if domain == "" {
      return ErrorMap(InvalidDomain);
    }
    var results: map<string, Value> := map[];
    var pending := RecordKinds;
    while pending != {}
      invariant pending <= RecordKinds
      invariant results.Keys == set k | k in RecordKinds - pending && resolve(k, domain).Records?
      invariant forall k :: k in results ==> results[k] == SliceOf(resolve(k, domain).records)
      decreases pending
    {
      var kind :| kind in pending;
      var lookup := resolve(kind, domain);
      if lookup.Records? {
        var strs := CopyRecords(lookup.records);
        results := results[kind := SliceOf(strs)];
      }
      pending := pending - {kind};
    }
    v := Fields(results);
  }

  /** The per-kind copy of the records into a fresh string list. */
  method CopyRecords(records: seq<string>) returns (strs: seq<string>)
    ensures strs == records
  {
    strs := [];
    for i := 0 to |records|
      invariant strs == records[..i]
    {
      strs := strs + [records[i]];
    }
  }

  const DnsDescription := "Retrieves A, AAAA, MX, NS, and TXT records"

  function DnsProbe(resolve: Resolver): Check {
    url => Returned(DnsOutcome(url, resolve))
  }

  /** init: registers dns_records. */
  method Init(registry: CheckRegistry, resolve: Resolver)
    requires registry.Valid()
    modifies registry
    ensures registry.Valid()
    ensures registry.checks == old(registry.checks)["dns_records" := CheckDefinition("dns_records", DnsDescription, DnsProbe(resolve))]
  {
    registry.Register("dns_records", DnsDescription, DnsProbe(resolve));
  }
}
