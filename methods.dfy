/** The HTTP methods probe (scanner/plugins_methods.go): an OPTIONS request and the
    server's Allow header. */
module MethodsPlugin {
  import opened Http
  import opened Registry

  const NoAllowHeader := "Not explicitly defined (No Allow header)"

  /** The request the probe sends. */
  function Options(url: string): Request {
    Request("OPTIONS", url)
  }

  /** What checkMethodsPlugin returns for the response to its OPTIONS request. */
  function MethodsOutcome(r: Fetch): (v: Value)
    ensures r.RequestFailed? ==> v == ErrorMap("Request failed")
    ensures r.Unreachable? ==> v == ErrorMap("Host unreachable")
    ensures r.Response? ==> v.Fields? && v.entries.Keys == {"Allowed Methods"}
    ensures r.Response? && HeaderValue(r, "Allow") == "" ==> v.entries["Allowed Methods"] == Str(NoAllowHeader)
    ensures r.Response? && HeaderValue(r, "Allow") != "" ==> v.entries["Allowed Methods"] == Str(HeaderValue(r, "Allow"))
  {
    match r
    case RequestFailed => ErrorMap("Request failed")
    case Unreachable => ErrorMap("Host unreachable")
    case Response(_, _, _, _) =>
      var allow := HeaderValue(r, "Allow");
      if allow == "" then Single("Allowed Methods", NoAllowHeader)
      else Single("Allowed Methods", allow)
  }

  /** A successful answer is never an error map and never reports an empty method list. */
  lemma ResponseNeverEmpty(r: Fetch)
    requires r.Response?
    ensures "error" !in MethodsOutcome(r).entries
    ensures MethodsOutcome(r).entries["Allowed Methods"] != Str("")
  {
  }

  const MethodsDescription := "Identifies allowed HTTP methods"

  function MethodsProbe(net: Network): Check {
    url => Returned(MethodsOutcome(net(Options(url))))
  }

  /** init: registers http_methods. */
  method Init(registry: CheckRegistry, net: Network)
    requires registry.Valid()
    modifies registry
    ensures registry.Valid()
    ensures registry.checks == old(registry.checks)["http_methods" := CheckDefinition("http_methods", MethodsDescription, MethodsProbe(net))]
  {
    registry.Register("http_methods", MethodsDescription, MethodsProbe(net));
  }
}
