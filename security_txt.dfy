/** The security.txt probe (scanner/plugins_security_txt.go): a decision tree over
    the response to `baseURL + "/.well-known/security.txt"`. */
module SecurityTxtPlugin {
  import opened Text
  import opened Http
  import opened Registry

  const PolicyPath := "/.well-known/security.txt"
  const ReadLimit := 2048
  const SnippetLength := 100
  const Ellipsis := "..."

  /** Go's min on two ints, as the file defines it. */
  function Min(a: int, b: int): (m: int)
    ensures m <= a && m <= b
    ensures m == a || m == b
  {
    if a < b then a else b
  }

  /** The first (at most) 100 bytes of the policy followed by "...". */
  function Snippet(content: string): (snippet: string)
    ensures |Ellipsis| <= |snippet| <= SnippetLength + |Ellipsis|
    ensures HasPrefix(content, snippet[..|snippet| - |Ellipsis|])
    ensures snippet[|snippet| - |Ellipsis|..] == Ellipsis
    ensures |content| <= SnippetLength ==> snippet == content + Ellipsis
  {
    content[..Min(|content|, SnippetLength)] + Ellipsis
  }

  /** The one-entry map every failure branch returns. */
  function Verdict(found: string): Value {
    Fields(map["Policy Found" := Str(found)])
  }

  /** What checkSecurityTxtPlugin returns for the response to its GET of the policy. */
  function SecurityTxtOutcome(r: Fetch): (v: Value)
    ensures v.Fields? && "Policy Found" in v.entries
    ensures r.RequestFailed? ==> v == Verdict("No")
    ensures r.Unreachable? ==> v == Verdict("Connection Failed")
    ensures r.Response? && r.status != 200 ==> v == Verdict("No (404/Denied)")
    ensures r.Response? && r.status == 200 && !ReadAtMost(r, ReadLimit).ok ==> v == Verdict("Read Error")
    ensures r.Response? && r.status == 200 && ReadAtMost(r, ReadLimit).ok && MentionsHtml(ReadAtMost(r, ReadLimit).data) ==>
      v == Verdict("No (Redirected to HTML)")
    ensures v.entries["Policy Found"] == Str("Yes") <==>
      r.Response? && r.status == 200 && ReadAtMost(r, ReadLimit).ok && !MentionsHtml(ReadAtMost(r, ReadLimit).data)
    ensures v.entries["Policy Found"] == Str("Yes") ==>
      && v.entries.Keys == {"Policy Found", "Path", "Snippet"}
      && v.entries["Path"] == Str(PolicyPath)
      && v.entries["Snippet"] == Str(Snippet(ReadAtMost(r, ReadLimit).data))
    ensures v.entries["Policy Found"] != Str("Yes") ==> v.entries.Keys == {"Policy Found"}
  {
    match r
    case RequestFailed => Verdict("No")
    case Unreachable => Verdict("Connection Failed")
    case Response(status, _, _, _) =>
      if status != 200 then Verdict("No (404/Denied)")
      else
        var rd := ReadAtMost(r, ReadLimit);
        if !rd.ok then Verdict("Read Error")
        else if MentionsHtml(rd.data) then Verdict("No (Redirected to HTML)")
        else Fields(map["Policy Found" := Str("Yes"), "Path" := Str(PolicyPath), "Snippet" := Str(Snippet(rd.data))])
  }

  /** A policy longer than 100 bytes is cut to exactly 103 bytes of snippet. */
  lemma LongPolicyCut(content: string)
    requires |content| > SnippetLength
    ensures Snippet(content) == content[..SnippetLength] + Ellipsis
    ensures |Snippet(content)| == SnippetLength + |Ellipsis|
  {
  }

  const SecurityTxtDescription := "Checks for a standard security.txt policy file"

  function SecurityTxtProbe(net: Network): Check {
    baseURL => Returned(SecurityTxtOutcome(net(Get(baseURL + PolicyPath))))
  }

  /** init: registers security_txt. */
  method Init(registry: CheckRegistry, net: Network)
    requires registry.Valid()
    modifies registry
    ensures registry.Valid()
    ensures registry.checks == old(registry.checks)["security_txt" := CheckDefinition("security_txt", SecurityTxtDescription, SecurityTxtProbe(net))]
  {
    registry.Register("security_txt", SecurityTxtDescription, SecurityTxtProbe(net));
  }
}
