/** The two original probes (scanner/plugins_core.go): missing security
    headers, and sensitive files left reachable on the web server. */
module CorePlugins {
  import opened Text
  import opened Http
  import opened Registry

  const SecurityHeaders: seq<string> := ["X-Frame-Options", "Content-Security-Policy", "Strict-Transport-Security"]

  const SensitivePaths: seq<string> := ["/.env", "/.git/config", "/docker-compose.yml", "/backup.sql"]

  const HostUnreachable := "Host Unreachable"

  /** The security headers the response leaves empty, in the order they are checked. */
  function MissingHeaders(r: Fetch): seq<string>
    requires r.Response?
  {
    Filter(SecurityHeaders, h => HeaderValue(r, h) == "")
  }

  /** The missing-header list is the in-order selection of the three names whose value is empty. */
  lemma MissingHeadersSpec(r: Fetch)
    requires r.Response?
    ensures Subsequence(MissingHeaders(r), SecurityHeaders)
    ensures Distinct(MissingHeaders(r)) && |MissingHeaders(r)| <= 3
    ensures forall h :: h in MissingHeaders(r) <==> h in SecurityHeaders && HeaderValue(r, h) == ""
  {
    var keep := h => HeaderValue(r, h) == "";
    FilterIsSubsequence(SecurityHeaders, keep);
    FilterDistinct(SecurityHeaders, keep);
  }

  /** The missing-header list, written out header by header. */
  lemma MissingHeadersUnfold(r: Fetch)
    requires r.Response?
    ensures MissingHeaders(r) ==
      (if HeaderValue(r, "X-Frame-Options") == "" then ["X-Frame-Options"] else [])
      + (if HeaderValue(r, "Content-Security-Policy") == "" then ["Content-Security-Policy"] else [])
      + (if HeaderValue(r, "Strict-Transport-Security") == "" then ["Strict-Transport-Security"] else [])
  {
    FilterThree("X-Frame-Options", "Content-Security-Policy", "Strict-Transport-Security", h => HeaderValue(r, h) == "");
  }

  /** What checkHeadersPlugin returns for the response to its GET of the target. */
  function HeadersOutcome(r: Fetch): Value {
    match r
    case RequestFailed => Nil
    case Unreachable => Strings([HostUnreachable])
    case Response(_, _, _, _) => SliceOf(MissingHeaders(r))
  }

  /** A failed request gives a nil list, an unreachable host a one-entry list; a
      response gives the in-order list of exactly the security headers it leaves empty,
      and nil when it sets all three. */
  lemma HeadersOutcomeSpec(r: Fetch)
    ensures r.RequestFailed? ==> HeadersOutcome(r) == Nil
    ensures r.Unreachable? ==> HeadersOutcome(r) == Strings([HostUnreachable])
    ensures r.Response? ==> |Items(HeadersOutcome(r))| <= 3 && Subsequence(Items(HeadersOutcome(r)), SecurityHeaders)
    ensures r.Response? ==> forall h :: h in Items(HeadersOutcome(r)) <==> h in SecurityHeaders && HeaderValue(r, h) == ""
    ensures r.Response? ==> (HeadersOutcome(r) == Nil <==> forall h :: h in SecurityHeaders ==> HeaderValue(r, h) != "")
  {
    if r.Response? {
      MissingHeadersSpec(r);
    }
  }

  /** checkHeadersPlugin: grows the list by one conditional append per header. */
  method CheckHeaders(r: Fetch) returns (v: Value)
    ensures v == HeadersOutcome(r)
  {
    var missing: seq<string> := [];
    match r {
      case RequestFailed =>
        v := SliceOf(missing);
      case Unreachable =>
        v := Strings(missing + [HostUnreachable]);
      case Response(_, _, _, _) =>
        var noFrame := HeaderValue(r, "X-Frame-Options") == "";
        var noPolicy := HeaderValue(r, "Content-Security-Policy") == "";
        var noTransport := HeaderValue(r, "Strict-Transport-Security") == "";
        if noFrame {
          missing := missing + ["X-Frame-Options"];
        }
        if noPolicy {
          missing := missing + ["Content-Security-Policy"];
        }
        if noTransport {
          missing := missing + ["Strict-Transport-Security"];
        }
        assert missing == (if noFrame then ["X-Frame-Options"] else [])
          + (if noPolicy then ["Content-Security-Policy"] else [])
          + (if noTransport then ["Strict-Transport-Security"] else []);
        MissingHeadersUnfold(r);
        v := SliceOf(missing);
    }
  }

  /** A response with none of the three headers reports all three, in order. */
  lemma AllHeadersMissing(r: Fetch)
    requires r.Response? && r.header == map[]
    ensures HeadersOutcome(r) == Strings(SecurityHeaders)
  {
    assert forall h :: HeaderValue(r, h) == "";
    FilterThree("X-Frame-Options", "Content-Security-Policy", "Strict-Transport-Security", h => HeaderValue(r, h) == "");
  }

  /** A 200 response whose body, lower-cased, reveals an HTML page is a homepage
      served in place of the file, not the file. */
  predicate LooksLikePage(content: string) {
    Contains(ToLower(content), "<html") || Contains(ToLower(content), "<body")
  }

  /** The probe counts a sensitive path as exposed: status 200, the first 512 bytes
      read without error, and no HTML marker among them. */
  predicate IsExposedHit(r: Fetch) {
    && r.Response?
    && r.status == 200
    && ReadAtMost(r, 512).ok
    && !LooksLikePage(ReadAtMost(r, 512).data)
  }

  /** The paths found exposed below `baseURL`, in the order they are listed. */
  function ExposedPaths(baseURL: string, net: Network): seq<string> {
    Filter(SensitivePaths, p => IsExposedHit(net(Get(baseURL + p))))
  }

  /** The value registered for exposed_files: the hits in path order, one of the orders the goroutines can produce. */
  function ExposedOutcome(baseURL: string, net: Network): Value {
    SliceOf(ExposedPaths(baseURL, net))
  }

  /** checkSensitiveFilesPlugin: one task per path, each appending its own path
      when it is a hit. The tasks finish in any order, so the loop takes the
      paths in an arbitrary order and the result is promised only up to order. */
  method CheckSensitiveFiles(baseURL: string, net: Network) returns (v: Value)
    ensures v == SliceOf(Items(v))
    ensures Distinct(Items(v))
    ensures forall p :: p in Items(v) <==> p in SensitivePaths && IsExposedHit(net(Get(baseURL + p)))
    ensures multiset(Items(v)) == multiset(Items(ExposedOutcome(baseURL, net)))
  {
    var exposed: seq<string> := [];
    var pending := set p | p in SensitivePaths;
    while pending != {}
      invariant pending <= set p | p in SensitivePaths
      invariant Distinct(exposed)
      invariant forall p :: p in exposed <==>
        p in SensitivePaths && p !in pending && IsExposedHit(net(Get(baseURL + p)))
      decreases pending
    {
      var p :| p in pending;
      var r := net(Get(baseURL + p));
      if IsExposedHit(r) {
        exposed := exposed + [p];
      }
      pending := pending - {p};
    }
    v := SliceOf(exposed);
    var keep := p => IsExposedHit(net(Get(baseURL + p)));
    assert Distinct(SensitivePaths);
    FilterDistinct(SensitivePaths, keep);
    DistinctSameElements(exposed, ExposedPaths(baseURL, net));
  }

  /** A body without '<' cannot carry an HTML marker. */
  lemma NoAngleNoPage(content: string)
    requires '<' !in content
    ensures !LooksLikePage(content)
  {
    var l := ToLower(content);
    assert '<' !in l by {
      forall i | 0 <= i < |l| ensures l[i] != '<' {
        assert content[i] != '<';
      }
    }
    forall i, m: string | |m| > 0 && m[0] == '<' ensures !OccursAt(l, m, i) {
      if 0 <= i && i + |m| <= |l| {
        assert l[i..i + |m|][0] == l[i];
      }
    }
  }

  /** A body that opens with "<html" is taken for a page. */
  lemma HtmlPrefixIsPage(content: string)
    requires HasPrefix(content, "<html")
    ensures LooksLikePage(content)
  {
    var l := ToLower(content);
    forall i | 0 <= i < 5 ensures l[i] == "<html"[i] {
      assert content[i] == "<html"[i];
    }
    assert l[..5] == "<html";
    assert OccursAt(l, "<html", 0);
  }

  /** A `.env` file served as plain text with status 200 is reported. */
  lemma EnvFileReported(r: Fetch)
    requires r == Response(200, map[], "DB_PASSWORD=secret", false)
    ensures IsExposedHit(r)
  {
    var rd := ReadAtMost(r, 512);
    assert rd.data == r.body;
    NoAngleNoPage(rd.data);
  }

  /** The same path answered by an HTML page is not reported. */
  lemma HtmlPageSuppressed(page: Fetch)
    requires page == Response(200, map[], "<html><body>home</body></html>", false)
    ensures !IsExposedHit(page)
  {
    var rd := ReadAtMost(page, 512);
    assert rd.data == page.body;
    HtmlPrefixIsPage(rd.data);
  }

  const HeadersDescription := "Checks for missing critical security headers"
  const ExposedDescription := "Checks for commonly exposed sensitive files"

  function HeadersProbe(net: Network): Check {
    url => Returned(HeadersOutcome(net(Get(url))))
  }

  function ExposedProbe(net: Network): Check {
    url => Returned(ExposedOutcome(url, net))
  }

  /** init: registers missing_headers and exposed_files, and nothing else. */
  method Init(registry: CheckRegistry, net: Network)
    requires registry.Valid()
    modifies registry
    ensures registry.Valid()
    ensures registry.checks == old(registry.checks)
      ["missing_headers" := CheckDefinition("missing_headers", HeadersDescription, HeadersProbe(net))]
      ["exposed_files" := CheckDefinition("exposed_files", ExposedDescription, ExposedProbe(net))]
    ensures registry.checks.Keys == old(registry.checks.Keys) + {"missing_headers", "exposed_files"}
    ensures registry.checks["missing_headers"] == CheckDefinition("missing_headers", HeadersDescription, HeadersProbe(net))
    ensures registry.checks["exposed_files"] == CheckDefinition("exposed_files", ExposedDescription, ExposedProbe(net))
    ensures forall k :: k in old(registry.checks) && k !in {"missing_headers", "exposed_files"} ==>
      registry.checks[k] == old(registry.checks)[k]
  {
    registry.Register("missing_headers", HeadersDescription, HeadersProbe(net));
    registry.Register("exposed_files", ExposedDescription, ExposedProbe(net));
  }
}
