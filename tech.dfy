/** The technology fingerprint probe (scanner/plugins_tech.go): a `stack` map filled
    from three response headers and from markers in the first 2048 body bytes, then
    printed as "key: value" lines in Go's unspecified map order. */
module TechPlugin {
  import opened Text
  import opened Http
  import opened Registry

  const ReadLimit := 2048
  const CreateFailed := "Failed to create request"
  const ReachFailed := "Failed to reach host"

  /** The keys the stack can hold, in the order the source fills them. */
  const TechKeys: seq<string> := ["Server", "Powered-By", "ASP.NET", "CMS", "Frontend"]

  /** The lower-cased body bytes the probe inspects; a read error is ignored and what was read is kept. */
  function Content(r: Fetch): string
    requires r.Response?
  {
    ToLower(ReadAtMost(r, ReadLimit).data)
  }

  /** The content-management system the body betrays, WordPress taking precedence over Shopify. */
  function CmsOf(content: string): (cms: Option<string>)
    ensures cms == Some("WordPress") <==> Contains(content, "wp-content") || Contains(content, "wordpress")
    ensures cms == Some("Shopify") <==>
      !Contains(content, "wp-content") && !Contains(content, "wordpress") && Contains(content, "shopify")
    ensures cms.None? || cms == Some("WordPress") || cms == Some("Shopify")
  {
    if Contains(content, "wp-content") || Contains(content, "wordpress") then Some("WordPress")
    else if Contains(content, "shopify") then Some("Shopify")
    else None
  }

  /** The front-end framework the body betrays, React taking precedence over Angular. */
  function FrontendOf(content: string): (fw: Option<string>)
    ensures fw == Some("React") <==> Contains(content, "react")
    ensures fw == Some("Angular") <==>
      !Contains(content, "react") && (Contains(content, "ng-app") || Contains(content, "angular"))
    ensures fw.None? || fw == Some("React") || fw == Some("Angular")
  {
    ReactrootSubsumed(content);
    if Contains(content, "react") || Contains(content, "data-reactroot") then Some("React")
    else if Contains(content, "ng-app") || Contains(content, "angular") then Some("Angular")
    else None
  }

  /** "data-reactroot" contains "react", so the second React marker never decides anything. */
  lemma ReactrootSubsumed(content: string)
    ensures Contains(content, "data-reactroot") ==> Contains(content, "react")
  {
    if Contains(content, "data-reactroot") {
      assert OccursAt("data-reactroot", "react", 5);
      ContainsTransitive(content, "data-reactroot", "react");
    }
  }

  /** A header value, when it is not empty. */
  function NonEmpty(val: string): Option<string> {
    if val != "" then Some(val) else None
  }

  /** Header.Get canonicalises the name the probe passes, so a server's
      X-AspNet-Version header is found under "X-Aspnet-Version". */
  lemma AspNetHeaderKey()
    ensures CanonicalHeaderKey("X-AspNet-Version") == "X-Aspnet-Version"
  {
    var name := "X-AspNet-Version";
    assert IsToken(name) by {
      forall i | 0 <= i < |name| ensures TokenChar(name[i]) {
      }
    }
    var key := CanonicalHeaderKey(name);
    CanonicalHeaderKeySpec(name);
    forall i | 0 <= i < |name| ensures key[i] == "X-Aspnet-Version"[i] {
      assert key[i] == (if i == 0 || name[i - 1] == '-' then Upper(name[i]) else Lower(name[i]));
      assert i == 0 || i == 2 || i == 6 || i == 9 || i == 1 || i == 8 || (i > 0 && name[i - 1] != '-');
    }
  }

  /** A response carrying the ASP.NET version header has it in the stack. */
  lemma AspNetReported(r: Fetch, version: string)
    requires r.Response? && r.header == map["X-Aspnet-Version" := version] && version != ""
    ensures "ASP.NET" in Stack(r) && Stack(r)["ASP.NET"] == version
  {
    AspNetHeaderKey();
    StackEntries(r);
  }

  /** A conditional write into the stack. */
  function Put(stack: map<string, string>, key: string, found: Option<string>): map<string, string> {
    if found.Some? then stack[key := found.value] else stack
  }

  /** The stack map the probe fills for a response, one conditional write per finding. */
  function Stack(r: Fetch): (stack: map<string, string>)
    requires r.Response?
    ensures forall k :: k in stack ==> k in TechKeys
  {
    Put(Put(HeaderStack(r), "CMS", CmsOf(Content(r))), "Frontend", FrontendOf(Content(r)))
  }

  /** Each stack entry is present exactly when its header is non-empty or its marker
      is found, and holds the header value verbatim or the detected name. */
  lemma StackEntries(r: Fetch)
    requires r.Response?
    ensures "Server" in Stack(r) <==> HeaderValue(r, "Server") != ""
    ensures "Server" in Stack(r) ==> Stack(r)["Server"] == HeaderValue(r, "Server")
    ensures "Powered-By" in Stack(r) <==> HeaderValue(r, "X-Powered-By") != ""
    ensures "Powered-By" in Stack(r) ==> Stack(r)["Powered-By"] == HeaderValue(r, "X-Powered-By")
    ensures "ASP.NET" in Stack(r) <==> HeaderValue(r, "X-AspNet-Version") != ""
    ensures "ASP.NET" in Stack(r) ==> Stack(r)["ASP.NET"] == HeaderValue(r, "X-AspNet-Version")
    ensures "CMS" in Stack(r) <==> CmsOf(Content(r)).Some?
    ensures "CMS" in Stack(r) ==> Stack(r)["CMS"] == CmsOf(Content(r)).value
    ensures "Frontend" in Stack(r) <==> FrontendOf(Content(r)).Some?
    ensures "Frontend" in Stack(r) ==> Stack(r)["Frontend"] == FrontendOf(Content(r)).value
  {
    HeaderStackEntries(r);
  }

  /** The header part of the stack: an entry per non-empty header, holding its value. */
  lemma HeaderStackEntries(r: Fetch)
    requires r.Response?
    ensures HeaderStack(r).Keys <= {"Server", "Powered-By", "ASP.NET"}
    ensures "Server" in HeaderStack(r) <==> HeaderValue(r, "Server") != ""
    ensures "Server" in HeaderStack(r) ==> HeaderStack(r)["Server"] == HeaderValue(r, "Server")
    ensures "Powered-By" in HeaderStack(r) <==> HeaderValue(r, "X-Powered-By") != ""
    ensures "Powered-By" in HeaderStack(r) ==> HeaderStack(r)["Powered-By"] == HeaderValue(r, "X-Powered-By")
    ensures "ASP.NET" in HeaderStack(r) <==> HeaderValue(r, "X-AspNet-Version") != ""
    ensures "ASP.NET" in HeaderStack(r) ==> HeaderStack(r)["ASP.NET"] == HeaderValue(r, "X-AspNet-Version")
  {
  }

  /** fmt.Sprintf("%s: %s", k, v). */
  function Format(key: string, val: string): string {
    key + ": " + val
  }

  /** Lines of keys without ':' are told apart by their key, and then by their value. */
  lemma FormatInjective(k1: string, v1: string, k2: string, v2: string)
    requires ':' !in k1 && ':' !in k2
    requires Format(k1, v1) == Format(k2, v2)
    ensures k1 == k2 && v1 == v2
  {
    var s := Format(k1, v1);
    assert s[|k1|] == ':' && s[|k2|] == ':';
    assert forall i :: 0 <= i < |k1| ==> s[i] == k1[i];
    assert forall i :: 0 <= i < |k2| ==> s[i] == k2[i];
    assert |k1| == |k2|;
    assert k1 == s[..|k1|] == k2;
    assert v1 == s[|k1| + 2..] == v2;
  }

  /** The stack as lines, keys in the order the source fills them: one order Go may print. */
  function Lines(stack: map<string, string>, keys: seq<string>): (lines: seq<string>)
    ensures |lines| <= |keys|
    ensures (forall k :: k in keys ==> k !in stack) ==> lines == []
  {
    if keys == [] then []
    else (if keys[0] in stack then [Format(keys[0], stack[keys[0]])] else []) + Lines(stack, keys[1..])
  }

  /** Every line formats an entry under one of the keys, and every such entry has its line. */
  lemma {:induction false} LinesSpec(stack: map<string, string>, keys: seq<string>)
    ensures forall s :: s in Lines(stack, keys) ==> exists k :: k in keys && k in stack && s == Format(k, stack[k])
    ensures forall k :: k in keys && k in stack ==> Format(k, stack[k]) in Lines(stack, keys)
  {
    if keys != [] {
      LinesSpec(stack, keys[1..]);
      var rest := Lines(stack, keys[1..]);
      forall s | s in Lines(stack, keys) ensures exists k :: k in keys && k in stack && s == Format(k, stack[k]) {
        if s !in rest {
          assert s == Format(keys[0], stack[keys[0]]);
        } else {
          var k :| k in keys[1..] && k in stack && s == Format(k, stack[k]);
          assert k in keys;
        }
      }
      forall k | k in keys && k in stack ensures Format(k, stack[k]) in Lines(stack, keys) {
        if k != keys[0] {
          assert k in keys[1..];
        }
      }
    }
  }

  /** With distinct keys free of ':', the lines are distinct. */
  lemma {:induction false} LinesDistinct(stack: map<string, string>, keys: seq<string>)
    requires Distinct(keys) && forall i :: 0 <= i < |keys| ==> ':' !in keys[i]
    ensures Distinct(Lines(stack, keys))
  {
    if keys != [] {
      LinesDistinct(stack, keys[1..]);
      LinesSpec(stack, keys[1..]);
      var k := keys[0];
      if k in stack {
        var rest := Lines(stack, keys[1..]);
        if Format(k, stack[k]) in rest {
          var k2 :| k2 in keys[1..] && k2 in stack && Format(k, stack[k]) == Format(k2, stack[k2]);
          FormatInjective(k, stack[k], k2, stack[k2]);
          assert false;
        }
      }
    }
  }

  /** The fill-order lines of a stack are distinct and are exactly its formatted entries. */
  lemma LinesOfStack(stack: map<string, string>)
    requires forall k :: k in stack ==> k in TechKeys
    ensures Distinct(Lines(stack, TechKeys))
    ensures forall s :: s in Lines(stack, TechKeys) <==> exists k :: k in stack && s == Format(k, stack[k])
  {
    assert ':' !in "Server" && ':' !in "Powered-By" && ':' !in "ASP.NET" && ':' !in "CMS" && ':' !in "Frontend";
    LinesDistinct(stack, TechKeys);
    LinesSpec(stack, TechKeys);
  }

  /** What checkTechPlugin returns, with the lines in the fill order. */
  function TechOutcome(r: Fetch): Value {
    match r
    case RequestFailed => ErrorMap(CreateFailed)
    case Unreachable => ErrorMap(ReachFailed)
    case Response(_, _, _, _) => SliceOf(Lines(Stack(r), TechKeys))
  }

  /** The two failures give their error maps; a response gives at most five distinct
      lines, exactly one "key: value" line per stack entry. */
  lemma TechOutcomeSpec(r: Fetch)
    ensures r.RequestFailed? ==> TechOutcome(r) == ErrorMap(CreateFailed)
    ensures r.Unreachable? ==> TechOutcome(r) == ErrorMap(ReachFailed)
    ensures r.Response? ==> TechOutcome(r) == SliceOf(Items(TechOutcome(r)))
    ensures r.Response? ==> |Items(TechOutcome(r))| <= |TechKeys| && Distinct(Items(TechOutcome(r)))
    ensures r.Response? ==> forall s :: s in Items(TechOutcome(r)) <==>
      exists k :: k in Stack(r) && s == Format(k, Stack(r)[k])
  {
    if r.Response? {
      LinesOfStack(Stack(r));
    }
  }

  /** A response with neither fingerprint headers nor markers gives a nil list. */
  lemma NothingRecognised(r: Fetch)
    requires r.Response? && r.header == map[] && Content(r) == ""
    ensures TechOutcome(r) == Nil
  {
    assert Stack(r) == map[];
    assert forall k :: k in TechKeys ==> k !in Stack(r);
  }

  /** checkTechPlugin: conditional writes into the stack, then one line per entry
      in an arbitrary order; the lines are promised only up to order. */
  method CheckTech(r: Fetch) returns (v: Value)
    ensures !r.Response? ==> v == TechOutcome(r)
    ensures r.Response? ==> v == SliceOf(Items(v)) && multiset(Items(v)) == multiset(Items(TechOutcome(r)))
  {
    if r.RequestFailed? {
      return ErrorMap(CreateFailed);
    }
    if r.Unreachable? {
      return ErrorMap(ReachFailed);
    }
    var stack := FillStack(r);
    var results := FormatAll(stack);
    v := SliceOf(results);
    LinesOfStack(stack);
    DistinctSameElements(results, Lines(stack, TechKeys));
  }

  /** The stack entries taken from the three response headers. */
  function HeaderStack(r: Fetch): map<string, string>
    requires r.Response?
  {
    Put(Put(Put(map[],
      "Server", NonEmpty(HeaderValue(r, "Server"))),
      "Powered-By", NonEmpty(HeaderValue(r, "X-Powered-By"))),
      "ASP.NET", NonEmpty(HeaderValue(r, "X-AspNet-Version")))
  }

  /** The fingerprinting half of checkTechPlugin: one conditional write per finding. */
  method FillStack(r: Fetch) returns (stack: map<string, string>)
    requires r.Response?
    ensures stack == Stack(r)
  {
    stack := FillFromHeaders(r);
    var content := ToLower(ReadAtMost(r, ReadLimit).data);
    assert content == Content(r);
    ghost var headers := stack;
    var wordPress := Contains(content, "wp-content") || Contains(content, "wordpress");
    var shopify := Contains(content, "shopify");
    if wordPress {
      stack := stack["CMS" := "WordPress"];
    } else if shopify {
      stack := stack["CMS" := "Shopify"];
    }
    assert stack == Put(headers, "CMS", CmsOf(content));
    ghost var withCms := stack;
    var react := Contains(content, "react") || Contains(content, "data-reactroot");
    var angular := Contains(content, "ng-app") || Contains(content, "angular");
    if react {
      stack := stack["Frontend" := "React"];
    } else if angular {
      stack := stack["Frontend" := "Angular"];
    }
    assert stack == Put(withCms, "Frontend", FrontendOf(content));
  }

  /** The header writes of checkTechPlugin. */
  method FillFromHeaders(r: Fetch) returns (stack: map<string, string>)
    requires r.Response?
    ensures stack == HeaderStack(r)
  {
    stack := map[];
    var server := HeaderValue(r, "Server");
    if server != "" {
      stack := stack["Server" := server];
    }
    var poweredBy := HeaderValue(r, "X-Powered-By");
    if poweredBy != "" {
      stack := stack["Powered-By" := poweredBy];
    }
    var asp := HeaderValue(r, "X-AspNet-Version");
    if asp != "" {
      stack := stack["ASP.NET" := asp];
    }
  }

  /** The line of a key still pending is not among the lines of the keys already visited. */
  lemma FreshLine(stack: map<string, string>, pending: set<string>, results: seq<string>, k: string)
    requires forall j :: j in stack ==> j in TechKeys
    requires k in pending && pending <= stack.Keys
    requires forall s :: s in results <==> exists j :: j in stack && j !in pending && s == Format(j, stack[j])
    ensures Format(k, stack[k]) !in results
  {
    if Format(k, stack[k]) in results {
      var j :| j in stack && j !in pending && Format(k, stack[k]) == Format(j, stack[j]);
      assert ':' !in "Server" && ':' !in "Powered-By" && ':' !in "ASP.NET" && ':' !in "CMS" && ':' !in "Frontend";
      FormatInjective(k, stack[k], j, stack[j]);
    }
  }

  /** The formatting loop over the stack, visiting its keys in an arbitrary order. */
  method FormatAll(stack: map<string, string>) returns (results: seq<string>)
    requires forall k :: k in stack ==> k in TechKeys
    ensures Distinct(results)
    ensures forall s :: s in results <==> exists k :: k in stack && s == Format(k, stack[k])
  {
    results := [];
    var pending := stack.Keys;
    while pending != {}
      invariant pending <= stack.Keys
      invariant Distinct(results)
      invariant forall s :: s in results <==> exists k :: k in stack && k !in pending && s == Format(k, stack[k])
      decreases pending
    {
      var k :| k in pending;
      var line := Format(k, stack[k]);
      FreshLine(stack, pending, results, k);
      results := results + [line];
      pending := pending - {k};
    }
  }

  const TechDescription := "Guesses the backend technology stack from HTTP headers and meta tags"

  function TechProbe(net: Network): Check {
    url => Returned(TechOutcome(net(Get(url))))
  }

  /** init: registers tech_stack. */
  method Init(registry: CheckRegistry, net: Network)
    requires registry.Valid()
    modifies registry
    ensures registry.Valid()
    ensures registry.checks == old(registry.checks)["tech_stack" := CheckDefinition("tech_stack", TechDescription, TechProbe(net))]
  {
    registry.Register("tech_stack", TechDescription, TechProbe(net));
  }
}
