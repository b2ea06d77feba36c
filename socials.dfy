/** The social-link probe (scanner/plugins_socials.go): candidate links are cut out
    of the homepage around `href="`, kept when they name a social network, and
    reported once each, in discovery order, at most ten. */
module SocialsPlugin {
  import opened Text
  import opened Http
  import opened Registry

  const SocialDomains: seq<string> :=
    ["twitter.com", "github.com", "linkedin.com", "facebook.com", "instagram.com", "youtube.com"]
  const HrefMarker := "href=\""
  const ReadLimit := 50000
  const MaxLinks := 10

  /** containsDomain: a linear search for `item` that stops at the first match. */
  method ContainsDomain(slice: seq<string>, item: string) returns (found: bool)
    ensures found <==> item in slice
  {
    for i := 0 to |slice|
      invariant item !in slice[..i]
    {
      if slice[i] == item {
        return true;
      }
    }
    assert slice[..|slice|] == slice;
    return false;
  }

  /** The text of a segment up to its first double quote, when it has one. */
  function Candidate(segment: string): (link: Option<string>)
    ensures link.Some? ==> HasPrefix(segment, link.value) && '"' !in link.value
    ensures link.Some? ==> |link.value| < |segment| && segment[|link.value|] == '"'
    ensures link.Some? <==> '"' in segment
  {
    var idx := Index(segment, "\"");
    ContainsSingleton(segment, '"');
    if idx > -1 then
      assert !Contains(segment[..idx], "\"") by {
        if Contains(segment[..idx], "\"") {
          var j :| 0 <= j <= idx - 1 && OccursAt(segment[..idx], "\"", j);
          OccursInPrefix(segment, idx, "\"", j);
        }
      }
      ContainsSingleton(segment[..idx], '"');
      assert segment[idx..idx + 1] == "\"";
      Some(segment[..idx])
    else None
  }

  /** The link names one of the social networks. */
  predicate IsSocial(link: string) {
    exists k | 0 <= k < |SocialDomains| :: Contains(link, SocialDomains[k])
  }

  /** The social links of `segments`, each once, in the order first met. */
  function Gather(segments: seq<string>): (links: seq<string>)
    ensures Distinct(links)
    ensures forall i :: 0 <= i < |links| ==> IsSocial(links[i]) && '"' !in links[i]
  {
    if segments == [] then []
    else
      var front := Gather(segments[..|segments| - 1]);
      var c := Candidate(segments[|segments| - 1]);
      if c.Some? && IsSocial(c.value) && c.value !in front then front + [c.value] else front
  }

  /** Every gathered link is the social candidate of some segment. */
  lemma {:induction false} GatherSound(segments: seq<string>, link: string)
    requires link in Gather(segments)
    ensures IsSocial(link)
    ensures exists i :: 0 <= i < |segments| && Candidate(segments[i]) == Some(link)
    decreases |segments|
  {
    var n := |segments| - 1;
    var front := Gather(segments[..n]);
    if link in front {
      GatherSound(segments[..n], link);
      var i :| 0 <= i < n && Candidate(segments[..n][i]) == Some(link);
      assert segments[..n][i] == segments[i];
    } else {
      assert Candidate(segments[n]) == Some(link);
    }
  }

  /** Every social candidate of a segment is gathered. */
  lemma {:induction false} GatherComplete(segments: seq<string>, i: nat)
    requires i < |segments| && Candidate(segments[i]).Some? && IsSocial(Candidate(segments[i]).value)
    ensures Candidate(segments[i]).value in Gather(segments)
    decreases |segments|
  {
    var n := |segments| - 1;
    var front := Gather(segments[..n]);
    assert front <= Gather(segments);
    if i < n {
      assert segments[..n][i] == segments[i];
      GatherComplete(segments[..n], i);
    }
  }

  /** Later segments only add links after the ones already found. */
  lemma {:induction false} GatherGrows(segments: seq<string>, n: nat)
    requires n <= |segments|
    ensures Gather(segments[..n]) <= Gather(segments)
    decreases |segments| - n
  {
    if n < |segments| {
      GatherGrows(segments, n + 1);
      assert segments[..n + 1][..n] == segments[..n];
    } else {
      assert segments[..n] == segments;
    }
  }

  /** Text before the first `href="` is scanned too: a page without any `href="` can
      still yield the link its first quote closes. */
  lemma LeadingTextScanned(content: string)
    requires !Contains(content, HrefMarker)
    requires Candidate(content).Some? && IsSocial(Candidate(content).value)
    ensures Gather(Split(content, HrefMarker)) == [Candidate(content).value]
  {
    assert Split(content, HrefMarker) == [content];
    assert [content][..0] == [];
  }

  /** The homepage as the probe reads it, when it reads it at all (the status is not checked). */
  function HomePage(r: Fetch): Option<string> {
    if !r.Response? then None
    else
      var rd := ReadAtMost(r, ReadLimit);
      if rd.ok then Some(rd.data) else None
  }

  /** What checkSocialsPlugin returns for the response to its GET of the target. */
  function SocialsOutcome(r: Fetch): (v: Value)
    ensures HomePage(r).None? ==> v == Strings([])
    ensures HomePage(r).Some? ==> v == SliceOf(Take(Gather(Split(HomePage(r).value, HrefMarker)), MaxLinks))
    ensures |Items(v)| <= MaxLinks && Distinct(Items(v))
    ensures forall i :: 0 <= i < |Items(v)| ==> IsSocial(Items(v)[i]) && '"' !in Items(v)[i]
  {
    match HomePage(r)
    case None => Strings([])
    case Some(content) =>
      var links := Gather(Split(content, HrefMarker));
      SliceOf(Take(links, MaxLinks))
  }

  /** The outer loop: one pass over the segments, and for each candidate one pass over
      the domains that appends it on the first domain it contains, unless already listed. */
  method GatherLinks(segments: seq<string>) returns (links: seq<string>)
    ensures links == Gather(segments)
  {
    links := [];
    for i := 0 to |segments|
      invariant links == Gather(segments[..i])
    {
      assert segments[..i + 1][..i] == segments[..i];
      var c := Candidate(segments[i]);
      if c.Some? {
        var link := c.value;
        ghost var before := links;
        for j := 0 to |SocialDomains|
          invariant links == if link !in before && exists k | 0 <= k < j :: Contains(link, SocialDomains[k])
            then before + [link] else before
        {
          var listed := ContainsDomain(links, link);
          if Contains(link, SocialDomains[j]) && !listed {
            links := links + [link];
          }
        }
      }
    }
    assert segments[..|segments|] == segments;
  }

  /** checkSocialsPlugin: the error gates, the scan, the cut to ten. */
  method CheckSocials(r: Fetch) returns (v: Value)
    ensures v == SocialsOutcome(r)
  {
    if !r.Response? {
      return Strings([]);
    }
    var rd := ReadAtMost(r, ReadLimit);
    if !rd.ok {
      return Strings([]);
    }
    var links := GatherLinks(Split(rd.data, HrefMarker));
    if |links| > MaxLinks {
      links := links[..MaxLinks];
    }
    v := SliceOf(links);
  }

  const SocialsDescription := "Finds potential social media profiles linked on the homepage"

  function SocialsProbe(net: Network): Check {
    url => Returned(SocialsOutcome(net(Get(url))))
  }

  /** init: registers social_links. */
  method Init(registry: CheckRegistry, net: Network)
    requires registry.Valid()
    modifies registry
    ensures registry.Valid()
    ensures registry.checks == old(registry.checks)["social_links" := CheckDefinition("social_links", SocialsDescription, SocialsProbe(net))]
  {
    registry.Register("social_links", SocialsDescription, SocialsProbe(net));
  }
}
