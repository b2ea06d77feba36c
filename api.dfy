/** The scan entry point the web server calls (scanner/api.go). */
module Api {
  import opened Http
  import opened Registry
  import opened Scanner

  /** API_ScanURL: normalise the target, run every registered check on it, and
      put the normalised target itself under "url". The registry is only read. */
  method ScanURL(registry: CheckRegistry, url: string) returns (results: map<string, Value>)
    ensures results.Keys == registry.checks.Keys + {"url"}
    ensures results["url"] == Str(NormalizeURL(url))
    ensures forall k :: k in registry.checks && k != "url" ==>
      results[k] == Outcomes(registry.checks, NormalizeURL(url))[k]
  {
    var target := NormalizeURL(url);
    results := registry.RunAll(target);
    results := results["url" := Str(target)];
  }
}
