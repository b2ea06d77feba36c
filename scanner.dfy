/** The command-line engine (scanner.go): target normalisation, and the two
    checks the worker runs on each target, which report by printing. The
    printed findings are modelled as the values the checks return. */
module Scanner {
  import opened Text
  import opened Http
  import CorePlugins

  const HttpScheme := "http://"
  const HttpsScheme := "https://"

  /** The target already names one of the two schemes (case-sensitive). */
  predicate HasScheme(url: string) {
    HasPrefix(url, HttpScheme) || HasPrefix(url, HttpsScheme)
  }

  /** The target with the default scheme put in front when it names neither. */
  function WithScheme(url: string): (u: string)
    ensures HasScheme(url) ==> u == url
    ensures !HasScheme(url) ==> u == HttpScheme + url
    ensures HasScheme(u)
  {
    if HasScheme(url) then url else HttpScheme + url
  }

  /** normalizeURL: the scheme-qualified target with every trailing '/' cut. */
  function NormalizeURL(url: string): (target: string)
    ensures HasPrefix(WithScheme(url), target)
    ensures forall i :: |target| <= i < |WithScheme(url)| ==> WithScheme(url)[i] == '/'
    ensures |target| >= 5 && target[|target| - 1] != '/'
    ensures HasPrefix(target, "http:") || HasPrefix(target, "https:")
  {
    var u := WithScheme(url);
    var target := TrimRightBy(u, {'/'});
    assert |target| >= 5 && (HasPrefix(target, "http:") || HasPrefix(target, "https:")) by {
      if HasPrefix(u, HttpScheme) {
        assert u[4] == ':';
        assert target[..5] == u[..5];
      } else {
        assert u[..|HttpsScheme|] == HttpsScheme;
        assert u[5] == ':';
        assert target[..6] == u[..6];
      }
    }
    target
  }

  /** Normalising again changes nothing as long as the result still carries a full scheme. */
  lemma NormalizeIdempotent(url: string)
    requires HasScheme(NormalizeURL(url))
    ensures NormalizeURL(NormalizeURL(url)) == NormalizeURL(url)
  {
    var t := NormalizeURL(url);
    TrimRightByExact(t, {'/'}, |t|);
  }

  /** Inputs without a host collapse onto "http:", which is not a fixed point. */
  lemma NormalizeNotAlwaysIdempotent()
    ensures NormalizeURL("") == "http:"
    ensures NormalizeURL("http://") == "http:"
    ensures NormalizeURL("http:") == "http://http:"
  {
    assert !HasScheme("");
    assert HttpScheme + "" == "http://";
    assert HasScheme("http://");
    TrimRightByExact("http://", {'/'}, 5);
    assert !HasScheme("http:");
    assert HttpScheme + "http:" == "http://http:";
    TrimRightByExact("http://http:", {'/'}, 12);
  }

  /** A bare host gets the default scheme. */
  lemma NormalizeBareHost()
    ensures NormalizeURL("example.com") == "http://example.com"
  {
    assert !HasScheme("example.com") by {
      assert "example.com"[0] != HttpScheme[0];
      assert "example.com"[0] != HttpsScheme[0];
    }
    assert HttpScheme + "example.com" == "http://example.com";
    TrimRightByExact("http://example.com", {'/'}, 18);
  }

  /** A trailing slash is cut and the https scheme kept. */
  lemma NormalizeTrailingSlash()
    ensures NormalizeURL("https://example.com/") == "https://example.com"
  {
    assert HasScheme("https://example.com/");
    TrimRightByExact("https://example.com/", {'/'}, 19);
  }

  /** Every trailing slash is cut, not just one. */
  lemma NormalizeTrailingSlashes()
    ensures NormalizeURL("http://example.com///") == "http://example.com"
  {
    assert HasScheme("http://example.com///");
    TrimRightByExact("http://example.com///", {'/'}, 18);
  }

  /** checkHeaders: the header names it prints as missing; nothing is printed
      (the empty list) when the request cannot be made or fails. */
  method CheckHeaders(r: Fetch) returns (missing: seq<string>)
    ensures !r.Response? ==> missing == []
    ensures r.Response? ==> missing == Items(CorePlugins.HeadersOutcome(r))
  {
    missing := [];
    if !r.Response? {
      return;
    }
    var noFrame := HeaderValue(r, "X-Frame-Options") == "";
    var noPolicy := HeaderValue(r, "Content-Security-Policy") == "";
    var noTransport := HeaderValue(r, "Strict-Transport-Security") == "";
    if noFrame {
      missing := missing + ["X-Frame-Options"];
    }
    if noPolicy {
      missing := missing + ["Content-Security-Policy"];
    }
    if noTransport {
      missing := missing + ["Strict-Transport-Security"];
    }
    assert missing == (if noFrame then ["X-Frame-Options"] else [])
      + (if noPolicy then ["Content-Security-Policy"] else [])
      + (if noTransport then ["Strict-Transport-Security"] else []);
    CorePlugins.MissingHeadersUnfold(r);
  }

  /** Each path put after `baseURL`. */
  function Targets(baseURL: string, paths: seq<string>): (targets: seq<string>)
    ensures |targets| == |paths|
    ensures forall i :: 0 <= i < |paths| ==> targets[i] == baseURL + paths[i]
  {
    seq(|paths|, i requires 0 <= i < |paths| => baseURL + paths[i])
  }

  /** The targets checkSensitiveFiles prints as exposed, in path order. */
  function ExposedTargets(baseURL: string, net: Network): seq<string> {
    Targets(baseURL, CorePlugins.ExposedPaths(baseURL, net))
  }

  /** Distinct paths give distinct targets. */
  lemma TargetsDistinct(baseURL: string, paths: seq<string>)
    requires Distinct(paths)
    ensures Distinct(Targets(baseURL, paths))
  {
    var targets := Targets(baseURL, paths);
    forall i, j | 0 <= i < j < |targets| ensures targets[i] != targets[j] {
      assert paths[i] == targets[i][|baseURL|..];
      assert paths[j] == targets[j][|baseURL|..];
    }
  }

  /** No target is reported twice. */
  lemma ExposedTargetsDistinct(baseURL: string, net: Network)
    ensures |ExposedTargets(baseURL, net)| <= |CorePlugins.SensitivePaths|
    ensures Distinct(ExposedTargets(baseURL, net))
  {
    assert Distinct(CorePlugins.SensitivePaths);
    FilterDistinct(CorePlugins.SensitivePaths, p => CorePlugins.IsExposedHit(net(Get(baseURL + p))));
    TargetsDistinct(baseURL, CorePlugins.ExposedPaths(baseURL, net));
  }

  /** A target is reported exactly when it is `baseURL` followed by a sensitive path that is a hit. */
  lemma ExposedTargetsExact(baseURL: string, net: Network, p: string)
    requires p in CorePlugins.SensitivePaths
    ensures baseURL + p in ExposedTargets(baseURL, net) <==> CorePlugins.IsExposedHit(net(Get(baseURL + p)))
  {
    var paths := CorePlugins.ExposedPaths(baseURL, net);
    var targets := ExposedTargets(baseURL, net);
    if CorePlugins.IsExposedHit(net(Get(baseURL + p))) {
      var k :| 0 <= k < |CorePlugins.SensitivePaths| && CorePlugins.SensitivePaths[k] == p;
      assert p in paths;
      var i :| 0 <= i < |paths| && paths[i] == p;
      assert targets[i] == baseURL + p;
    }
  }

  /** Every reported target is `baseURL` followed by a sensitive path. */
  lemma ExposedTargetsSound(baseURL: string, net: Network, t: string)
    requires t in ExposedTargets(baseURL, net)
    ensures exists p :: p in CorePlugins.SensitivePaths && t == baseURL + p
  {
    var paths := CorePlugins.ExposedPaths(baseURL, net);
    var i :| 0 <= i < |paths| && ExposedTargets(baseURL, net)[i] == t;
    assert paths[i] in CorePlugins.SensitivePaths;
  }

  /** Filtering one more path extends the targets by that path's target when it is kept. */
  lemma TargetsFilterSnoc(baseURL: string, xs: seq<string>, x: string, keep: string -> bool)
    ensures Targets(baseURL, Filter(xs + [x], keep)) ==
      Targets(baseURL, Filter(xs, keep)) + (if keep(x) then [baseURL + x] else [])
  {
    FilterSnoc(xs, x, keep);
  }

  /** checkSensitiveFiles: visits the paths in order, skipping a path on any error,
      and reports `baseURL + path` for each hit. */
  method CheckSensitiveFiles(baseURL: string, net: Network) returns (reported: seq<string>)
    ensures reported == ExposedTargets(baseURL, net)
  {
    reported := [];
    var paths := CorePlugins.SensitivePaths;
    ghost var keep := p => CorePlugins.IsExposedHit(net(Get(baseURL + p)));
    for i := 0 to |paths|
      invariant reported == Targets(baseURL, Filter(paths[..i], keep))
    {
      var target := baseURL + paths[i];
      var r := net(Get(target));
      assert paths[..i + 1] == paths[..i] + [paths[i]];
      TargetsFilterSnoc(baseURL, paths[..i], paths[i], keep);
      assert keep(paths[i]) == CorePlugins.IsExposedHit(r);
      if !r.Response? {
        continue;
      }
      if r.status == 200 {
        var rd := ReadAtMost(r, 512);
        if !rd.ok {
          continue;
        }
        if !CorePlugins.LooksLikePage(rd.data) {
          reported := reported + [target];
        }
      }
    }
    assert paths[..|paths|] == paths;
  }
}
