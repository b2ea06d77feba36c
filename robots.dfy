/** The robots.txt probe (scanner/plugins_robots.go): which responses are read,
    which lines count as Disallow rules, and the cap on what is reported. */
module RobotsPlugin {
  import opened Text
  import opened Http
  import opened Registry

  const RobotsPath := "/robots.txt"
  const ReadLimit := 10240
  const MaxEntries := 15
  const MoreSentinel := "... (more hidden paths found in file)"
  const DisallowField := "disallow:"

  /** A lower-case string stays lower-case once its ends are trimmed. */
  lemma TrimmedLower(s: string)
    requires IsLower(s)
    ensures IsLower(TrimSpace(s))
  {
    var t := TrimSpace(s);
    var i :| 0 <= i <= |s| - |t| && OccursAt(s, t, i);
    InfixOfLower(s, i, i + |t|);
  }

  /** A path worth reporting: not empty and not the site root, and lower-case. */
  predicate Reportable(p: string) {
    p != "" && p != "/" && IsLower(p)
  }

  /** The path one robots.txt line disallows: the line is trimmed and lower-cased, must
      start with "disallow:", and what follows, trimmed, must be neither "" nor "/". */
  function DisallowEntry(line: string): Option<string> {
    var lowered := ToLower(TrimSpace(line));
    if !HasPrefix(lowered, DisallowField) then None
    else
      var path := TrimSpace(TrimPrefix(lowered, DisallowField));
      if path != "" && path != "/" then Some(path) else None
  }

  /** A kept path is reportable, and it is what follows the field name of a "disallow:"
      line with the surrounding whitespace trimmed. */
  lemma DisallowEntrySpec(line: string)
    ensures DisallowEntry(line).Some? ==> Reportable(DisallowEntry(line).value)
    ensures DisallowEntry(line).Some? ==> HasPrefix(ToLower(TrimSpace(line)), DisallowField)
    ensures DisallowEntry(line).Some? ==>
      exists a :: TrimmedAt(ToLower(TrimSpace(line))[|DisallowField|..], AsciiSpace, a, DisallowEntry(line).value)
  {
    var lowered := ToLower(TrimSpace(line));
    if HasPrefix(lowered, DisallowField) {
      LowerIsLower(TrimSpace(line));
      InfixOfLower(lowered, |DisallowField|, |lowered|);
      assert TrimPrefix(lowered, DisallowField) == lowered[|DisallowField|..];
      TrimmedLower(lowered[|DisallowField|..]);
      TrimByTrims(lowered[|DisallowField|..], AsciiSpace);
    }
  }

  /** Conversely, a "disallow:" line whose value, trimmed, is neither "" nor "/"
      yields exactly that value. */
  lemma DisallowEntryComplete(line: string, a: int, p: string)
    requires HasPrefix(ToLower(TrimSpace(line)), DisallowField)
    requires TrimmedAt(ToLower(TrimSpace(line))[|DisallowField|..], AsciiSpace, a, p)
    requires p != "" && p != "/"
    ensures DisallowEntry(line) == Some(p)
  {
    var lowered := ToLower(TrimSpace(line));
    assert TrimPrefix(lowered, DisallowField) == lowered[|DisallowField|..];
    TrimByExact(lowered[|DisallowField|..], AsciiSpace, a, p);
  }

  /** The Disallow paths of `lines`, in file order, duplicates kept. */
  function Collect(lines: seq<string>): seq<string> {
    FilterMap(lines, DisallowEntry)
  }

  /** Collecting is line by line: the paths of a file split in two are those of
      the first part followed by those of the second. */
  lemma CollectAppend(a: seq<string>, b: seq<string>)
    ensures Collect(a + b) == Collect(a) + Collect(b)
  {
    FilterMapAppend(a, b, DisallowEntry);
  }

  /** Every collected path comes from a Disallow line of the file. */
  lemma CollectFromLines(lines: seq<string>, p: string)
    requires p in Collect(lines)
    ensures exists i :: 0 <= i < |lines| && DisallowEntry(lines[i]) == Some(p)
  {
    FilterMapSource(lines, DisallowEntry, p);
  }

  /** Nothing is lost: the path of every Disallow line is collected. */
  lemma CollectComplete(lines: seq<string>, i: int)
    requires 0 <= i < |lines| && DisallowEntry(lines[i]).Some?
    ensures DisallowEntry(lines[i]).value in Collect(lines)
  {
    FilterMapComplete(lines, DisallowEntry, i);
  }

  /** Every collected path is reportable. */
  lemma CollectReportable(lines: seq<string>)
    ensures forall i :: 0 <= i < |Collect(lines)| ==> Reportable(Collect(lines)[i])
  {
    forall i | 0 <= i < |Collect(lines)| ensures Reportable(Collect(lines)[i]) {
      CollectFromLines(lines, Collect(lines)[i]);
      var j :| 0 <= j < |lines| && DisallowEntry(lines[j]) == Some(Collect(lines)[i]);
      DisallowEntrySpec(lines[j]);
    }
  }

  /** At most 15 paths, with a sentinel marking that more were cut. */
  function Cap(paths: seq<string>): (shown: seq<string>)
    ensures |shown| <= MaxEntries + 1 && |shown| <= |paths| + 1
    ensures forall i :: 0 <= i < |shown| ==> shown[i] == MoreSentinel || (i < |paths| && shown[i] == paths[i])
    ensures |paths| <= MaxEntries ==> shown == paths
    ensures |paths| > MaxEntries ==>
      |shown| == MaxEntries + 1 && shown[..MaxEntries] == paths[..MaxEntries] && shown[MaxEntries] == MoreSentinel
  {
    if |paths| > MaxEntries then paths[..MaxEntries] + [MoreSentinel] else paths
  }

  /** The robots.txt body as the probe reads it, when it reads it at all. */
  function RobotsBody(r: Fetch): Option<string> {
    if !r.Response? || r.status != 200 then None
    else
      var rd := ReadAtMost(r, ReadLimit);
      if !rd.ok || MentionsHtml(rd.data) then None else Some(rd.data)
  }

  /** What checkRobotsPlugin returns for the response to its GET of `baseURL + "/robots.txt"`. */
  function RobotsOutcome(r: Fetch): Value {
    match RobotsBody(r)
    case None => Strings([])
    case Some(content) => SliceOf(Cap(Collect(Split(content, "\n"))))
  }

  /** An unread file gives an empty, non-nil list; a read one gives its capped Disallow
      paths, nil when there are none; every item is the sentinel or a reportable path. */
  lemma RobotsOutcomeSpec(r: Fetch)
    ensures RobotsBody(r).None? ==> RobotsOutcome(r) == Strings([])
    ensures RobotsBody(r).Some? ==> Items(RobotsOutcome(r)) == Cap(Collect(Split(RobotsBody(r).value, "\n")))
    ensures RobotsBody(r).Some? ==> (RobotsOutcome(r) == Nil <==> Collect(Split(RobotsBody(r).value, "\n")) == [])
    ensures |Items(RobotsOutcome(r))| <= MaxEntries + 1
    ensures forall i :: 0 <= i < |Items(RobotsOutcome(r))| ==>
      Items(RobotsOutcome(r))[i] == MoreSentinel || Reportable(Items(RobotsOutcome(r))[i])
  {
    if RobotsBody(r).Some? {
      CollectReportable(Split(RobotsBody(r).value, "\n"));
    }
  }

  /** Responses that are not a readable, non-HTML 200 are reported as an empty, non-nil list. */
  lemma GatedResponses(r: Fetch)
    ensures !r.Response? ==> RobotsOutcome(r) == Strings([])
    ensures r.Response? && r.status != 200 ==> RobotsOutcome(r) == Strings([])
    ensures r.Response? && r.status == 200 && !ReadAtMost(r, ReadLimit).ok ==> RobotsOutcome(r) == Strings([])
    ensures r.Response? && ReadAtMost(r, ReadLimit).ok && MentionsHtml(ReadAtMost(r, ReadLimit).data) ==>
      RobotsOutcome(r) == Strings([])
  {
  }

  /** The line loop of checkRobotsPlugin: trim, lower-case, test the field name, keep the path. */
  method DisallowedPaths(lines: seq<string>) returns (disallowed: seq<string>)
    ensures disallowed == Collect(lines)
  {
    disallowed := [];
    for i := 0 to |lines|
      invariant disallowed == Collect(lines[..i])
    {
      ghost var entry := DisallowEntry(lines[i]);
      assert lines[..i + 1][..i] == lines[..i];
      assert Collect(lines[..i + 1]) == disallowed + (if entry.Some? then [entry.value] else []);
      var line := TrimSpace(lines[i]);
      if HasPrefix(ToLower(line), DisallowField) {
        var path := TrimSpace(TrimPrefix(ToLower(line), DisallowField));
        if path != "" && path != "/" {
          disallowed := disallowed + [path];
        }
      }
    }
    assert lines[..|lines|] == lines;
  }

  /** checkRobotsPlugin: the response gates, then one pass over the lines appending
      each Disallow path, then the cap. */
  method CheckRobots(r: Fetch) returns (v: Value)
    ensures v == RobotsOutcome(r)
  {
    if !r.Response? {
      return Strings([]);
    }
    if r.status != 200 {
      return Strings([]);
    }
    var rd := ReadAtMost(r, ReadLimit);
    if !rd.ok {
      return Strings([]);
    }
    var content := rd.data;
    if MentionsHtml(content) {
      return Strings([]);
    }
    assert RobotsBody(r) == Some(content);
    var disallowed := DisallowedPaths(Split(content, "\n"));
    if |disallowed| > MaxEntries {
      disallowed := disallowed[..MaxEntries];
      disallowed := disallowed + [MoreSentinel];
    }
    v := SliceOf(disallowed);
  }

  const RobotsDescription := "Extracts disallowed or hidden paths from robots.txt"

  function RobotsProbe(net: Network): Check {
    baseURL => Returned(RobotsOutcome(net(Get(baseURL + RobotsPath))))
  }

  /** init: registers robots_txt. */
  method Init(registry: CheckRegistry, net: Network)
    requires registry.Valid()
    modifies registry
    ensures registry.Valid()
    ensures registry.checks == old(registry.checks)["robots_txt" := CheckDefinition("robots_txt", RobotsDescription, RobotsProbe(net))]
  {
    registry.Register("robots_txt", RobotsDescription, RobotsProbe(net));
  }
}
