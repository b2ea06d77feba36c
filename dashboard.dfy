/** The dashboard's pure helpers (web/public/app.js): the scan-input guard, the
    module metadata lookup, the key-to-title transform, the three-colour status
    rule and the sidebar order. The page works on the scan result as decoded
    JSON; `Json` is that value. */
module Dashboard {
  import opened Text
  import opened Http
  import Registry
  import Scanner
  import Plugins

  /** A decoded JSON value (numbers are integers here). */
  datatype Json =
    | JNull
    | JBool(b: bool)
    | JNumber(n: int)
    | JString(s: string)
    | JArray(elems: seq<Json>)
    | JObject(fields: map<string, Json>)

  /** encoding/json's rendering of a check's value: a nil slice is `null`. */
  function Encode(v: Value): (j: Json)
    ensures v.Nil? <==> j.JNull?
    ensures v.Strings? ==> j == JArray(seq(|v.items|, i requires 0 <= i < |v.items| => JString(v.items[i])))
    ensures v.Str? ==> j == JString(v.s)
    ensures v.Fields? ==> j.JObject? && j.fields.Keys == v.entries.Keys
  {
    match v
    case Nil => JNull
    case Strings(xs) => JArray(seq(|xs|, i requires 0 <= i < |xs| => JString(xs[i])))
    case Str(s) => JString(s)
    case Fields(m) => JObject(map k | k in m :: Encode(m[k]))
  }

  /** JavaScript truthiness. */
  predicate Truthy(j: Json) {
    match j
    case JNull => false
    case JBool(b) => b
    case JNumber(n) => n != 0
    case JString(s) => s != ""
    case JArray(_) => true
    case JObject(_) => true
  }

  /** `Object.keys(j).length` for a value that is not null: a string has one key per
      character, an array one per element, numbers and booleans none. */
  function KeyCount(j: Json): nat {
    match j
    case JString(s) => |s|
    case JArray(elems) => |elems|
    case JObject(fields) => |fields|
    case _ => 0
  }

  /** `j.error` is truthy: only objects have an own "error" property. */
  predicate HasError(j: Json) {
    j.JObject? && "error" in j.fields && Truthy(j.fields["error"])
  }

  datatype Status = Green | Yellow | Red

  /** determineStatus: blank values are green before anything else, errors are yellow,
      and the rest is classified by module key. */
  function DetermineStatus(key: string, val: Json): (status: Status)
    ensures !Truthy(val) || KeyCount(val) == 0 ==> status == Green
    ensures Truthy(val) && KeyCount(val) > 0 && HasError(val) ==> status == Yellow
    ensures status == Red <==>
      Truthy(val) && KeyCount(val) > 0 && !HasError(val) && (key == "exposed_files" || key == "open_ports")
    ensures status == Yellow <==>
      Truthy(val) && KeyCount(val) > 0 && (HasError(val) || key == "missing_headers")
  {
    if !Truthy(val) || (val.JArray? && |val.elems| == 0) || KeyCount(val) == 0 then Green
    else if HasError(val) then Yellow
    else if key == "exposed_files" || key == "open_ports" then Red
    else if key == "missing_headers" then Yellow
    else Green
  }

  /** A check that found nothing (a nil or an empty list) shows green, whatever its key. */
  lemma BlankIsGreen(key: string)
    ensures DetermineStatus(key, Encode(Nil)) == Green
    ensures DetermineStatus(key, Encode(Strings([]))) == Green
  {
  }

  /** A check that crashed shows yellow, whatever its key. */
  lemma CrashIsYellow(key: string, detail: string)
    ensures DetermineStatus(key, Encode(Registry.Settle(Registry.Panicked(detail)))) == Yellow
  {
    var j := Encode(ErrorMap(Registry.CrashPrefix + detail));
    assert j.fields["error"] == JString(Registry.CrashPrefix + detail);
    assert |j.fields| == 1 by {
      assert j.fields.Keys == {"error"};
    }
  }

  /** The injected target entry always shows green. */
  lemma TargetIsGreen(url: string)
    ensures DetermineStatus("url", Encode(Str(Scanner.NormalizeURL(url)))) == Green
  {
  }

  /** An exposed-file list with at least one entry shows red. */
  lemma ExposureIsRed(paths: seq<string>)
    requires paths != []
    ensures DetermineStatus("exposed_files", Encode(Strings(paths))) == Red
  {
  }

  /** Each word with its first character upper-cased. */
  function CapitalizeAll(words: seq<string>): (caps: seq<string>)
    ensures |caps| == |words|
    ensures forall i :: 0 <= i < |words| ==> caps[i] == Capitalize(words[i])
  {
    seq(|words|, i requires 0 <= i < |words| => Capitalize(words[i]))
  }

  /** formatKeyAsTitle: split on '_', capitalise each word, join with ' '. */
  function FormatKeyAsTitle(key: string): string {
    Join(CapitalizeAll(Split(key, "_")), " ")
  }

  /** The title character by character: '_' becomes ' ', a character at the start
      or after a '_' is upper-cased, and every other character is kept. */
  function TitleChar(key: string, i: nat): char
    requires i < |key|
  {
    if key[i] == '_' then ' '
    else if i == 0 || key[i - 1] == '_' then Upper(key[i])
    else key[i]
  }

  /** A key without '_' is a single word. */
  lemma TitleOfWord(key: string)
    requires Index(key, "_") < 0
    ensures FormatKeyAsTitle(key) == Capitalize(key)
  {
    assert Split(key, "_") == [key];
  }

  /** A key with a '_' is its first word, a space, and the title of the rest. */
  lemma TitleOfWords(key: string)
    requires Index(key, "_") >= 0
    ensures var idx := Index(key, "_");
      FormatKeyAsTitle(key) == Capitalize(key[..idx]) + " " + FormatKeyAsTitle(key[idx + 1..])
  {
    var idx := Index(key, "_");
    var rest := CapitalizeAll(Split(key[idx + 1..], "_"));
    assert Split(key, "_") == [key[..idx]] + Split(key[idx + 1..], "_");
    var caps := CapitalizeAll(Split(key, "_"));
    assert caps == [Capitalize(key[..idx])] + rest;
    assert caps[1..] == rest;
  }

  /** The split-map-join title agrees with the character-by-character description. */
  lemma {:induction false} TitlePointwise(key: string)
    ensures |FormatKeyAsTitle(key)| == |key|
    ensures forall i :: 0 <= i < |key| ==> FormatKeyAsTitle(key)[i] == TitleChar(key, i)
    decreases |key|
  {
    var idx := Index(key, "_");
    if idx < 0 {
      TitleOfWord(key);
      ContainsSingleton(key, '_');
    } else {
      var head := key[..idx];
      var rest := key[idx + 1..];
      TitleOfWords(key);
      TitlePointwise(rest);
      SplitFirst(key, '_');
      SplitHead(key, "_");
      assert key[idx] == '_';
      assert key == head + "_" + rest;
      TitleConcat(head, rest, FormatKeyAsTitle(rest));
    }
  }

  /** The title of `head + "_" + rest` from the title of `rest`, character by character. */
  lemma TitleConcat(head: string, rest: string, restTitle: string)
    requires '_' !in head
    requires |restTitle| == |rest| && forall i :: 0 <= i < |rest| ==> restTitle[i] == TitleChar(rest, i)
    ensures var key := head + "_" + rest;
      forall i :: 0 <= i < |key| ==> (Capitalize(head) + " " + restTitle)[i] == TitleChar(key, i)
  {
    var key := head + "_" + rest;
    var title := Capitalize(head) + " " + restTitle;
    forall i | 0 <= i < |key| ensures title[i] == TitleChar(key, i) {
      if i > |head| {
        assert title[i] == restTitle[i - |head| - 1];
        assert key[i] == rest[i - |head| - 1];
        if i - 1 > |head| {
          assert key[i - 1] == rest[i - |head| - 2];
        }
      } else if i < |head| {
        assert key[i] == head[i];
      }
    }
  }

  /** The presentation of a module in the sidebar. */
  datatype Meta = Meta(icon: string, color: string, title: string)

  /** The table of known modules. */
  const Rules: map<string, Meta> := map[
    "url" := Meta("globe", "blue", "Target Overview"),
    "missing_headers" := Meta("shield-alert", "yellow", "Security Headers"),
    "exposed_files" := Meta("file-warning", "red", "Sensitive Files"),
    "dns_records" := Meta("network", "blue", "DNS Records"),
    "whois_info" := Meta("book", "yellow", "WHOIS Registration"),
    "open_ports" := Meta("radio-tower", "red", "Open Ports"),
    "tech_stack" := Meta("cpu", "blue", "Technology Stack"),
    "robots_txt" := Meta("bot", "yellow", "Robots.txt Paths"),
    "geolocation" := Meta("map-pin", "blue", "Geolocation"),
    "ssl_certificate" := Meta("lock", "green", "SSL Certificate"),
    "security_txt" := Meta("file-lock", "yellow", "Security.txt Policy"),
    "http_methods" := Meta("arrow-right-left", "blue", "HTTP Methods"),
    "wayback_machine" := Meta("history", "blue", "Wayback Archive"),
    "social_links" := Meta("share-2", "blue", "Social Links"),
    "subdomain_enum" := Meta("git-branch", "purple", "Subdomain Discovery"),
    "historical_urls" := Meta("archive", "yellow", "Historical URLs & Archives"),
    "leaked_credentials" := Meta("user-x", "red", "Leaked Credentials Check"),
    "api_endpoints" := Meta("webhook", "blue", "API Endpoint Discovery"),
    "cors_policy" := Meta("shield-question", "yellow", "CORS Policy Analysis"),
    "cookie_security" := Meta("cookie", "yellow", "Cookie Security"),
    "tls_cipher_suites" := Meta("key", "green", "TLS Cipher Suites"),
    "content_security" := Meta("shield-check", "green", "Content Security Policy"),
    "cms_plugins" := Meta("plug", "blue", "CMS & Plugins"),
    "js_libraries" := Meta("package", "blue", "JavaScript Libraries"),
    "server_info" := Meta("server", "blue", "Server Information"),
    "ai_risk_summary" := Meta("brain", "pink", "AI Risk Summary \U{2B50}"),
    "osint_graph" := Meta("git-graph", "purple", "Attack Surface Graph \U{1F680}"),
    "monitoring" := Meta("bell", "yellow", "Real-Time Monitoring"),
    "dns_server" := Meta("server", "teal", "DNS Server Info"),
    "ip_info" := Meta("globe", "indigo", "IP Address Details"),
    "traceroute" := Meta("route", "orange", "Network Traceroute"),
    "server_status" := Meta("activity", "cyan", "Server Status & Uptime"),
    "carbon_footprint" := Meta("leaf", "green", "Carbon Footprint Analysis")
  ]

  /** The properties every plain object literal inherits from Object.prototype. */
  const PrototypeMembers: set<string> := {
    "constructor", "__proto__", "hasOwnProperty", "isPrototypeOf", "propertyIsEnumerable",
    "toString", "toLocaleString", "valueOf",
    "__defineGetter__", "__defineSetter__", "__lookupGetter__", "__lookupSetter__"
  }

  /** What `rules[key] || fallback` evaluates to: a table entry, an inherited
      function (truthy, so the fallback is skipped), or the fallback. */
  datatype MetaLookup = Entry(meta: Meta) | Inherited(member: string)

  /** The fallback for a key the table does not know. */
  function Fallback(key: string): (meta: Meta)
    ensures meta.icon == "server" && meta.color == "pink"
    ensures |meta.title| == |key|
  {
    TitlePointwise(key);
    Meta("server", "pink", FormatKeyAsTitle(key))
  }

  /** getModuleMeta as written: the lookup on the object literal also finds the members
      it inherits. */
  function ModuleMetaAsWritten(key: string): (found: MetaLookup)
    ensures key in Rules ==> found == Entry(Rules[key])
    ensures key !in Rules && key in PrototypeMembers ==> found == Inherited(key)
    ensures key !in Rules && key !in PrototypeMembers ==> found == Entry(Fallback(key))
  {
    if key in Rules then Entry(Rules[key])
    else if key in PrototypeMembers then Inherited(key)
    else Entry(Fallback(key))
  }

  /** A key named like an inherited member gets no metadata at all. */
  lemma ConstructorKeyHasNoMeta()
    ensures ModuleMetaAsWritten("constructor") == Inherited("constructor")
  {
    assert "constructor" !in Rules;
  }

  /** getModuleMeta as intended: own table entries, and the fallback for every other key. */
  function ModuleMeta(key: string): (meta: Meta)
    ensures key in Rules ==> meta == Rules[key]
    ensures key !in Rules ==> meta == Fallback(key)
  {
    if key in Rules then Rules[key] else Fallback(key)
  }

  /** Off the inherited names the two lookups agree. */
  lemma MetaAgrees(key: string)
    requires key !in PrototypeMembers
    ensures ModuleMetaAsWritten(key) == Entry(ModuleMeta(key))
  {
  }

  /** Every key a scan result can hold has a table entry of its own. */
  lemma ScanKeysHaveMeta()
    ensures forall k :: k in ScanKeys ==> k in Rules
  {
  }

  /** The keys a scan returns once every plugin is registered: their names and "url". */
  const ScanKeys: set<string> := Plugins.PluginNames + {"url"}

  /** The sidebar comparator: "url" before everything, every other pair a tie. */
  function Compare(a: string, b: string): int {
    if a == "url" then -1 else if b == "url" then 1 else 0
  }

  /** The key order a stable sort with `Compare` gives distinct keys: "url" first, the rest as they came. */
  function SidebarOrder(keys: seq<string>): (order: seq<string>) {
    (if "url" in keys then ["url"] else []) + Filter(keys, k => k != "url")
  }

  /** The order is sorted by the comparator, keeps the other keys in their original
      order, and is a permutation of the distinct keys Object.keys gives. */
  lemma SidebarOrderIsStableSort(keys: seq<string>)
    requires Distinct(keys)
    ensures "url" in keys ==> SidebarOrder(keys)[0] == "url"
    ensures forall i, j :: 0 <= i < j < |SidebarOrder(keys)| ==> Compare(SidebarOrder(keys)[i], SidebarOrder(keys)[j]) <= 0
    ensures Subsequence(Filter(keys, k => k != "url"), SidebarOrder(keys))
    ensures multiset(SidebarOrder(keys)) == multiset(keys)
  {
    var other := k => k != "url";
    var front: seq<string> := if "url" in keys then ["url"] else [];
    var back := Filter(keys, other);
    var order := SidebarOrder(keys);
    FilterDistinct(keys, other);
    SubsequenceOfSuffix(front, back);
    forall i, j | 0 <= i < j < |order| ensures order[i] != order[j] {
      if i < |front| {
        assert order[j] == back[j - |front|];
      }
    }
    forall x ensures x in order <==> x in keys {
      if x in keys && x != "url" {
        var i :| 0 <= i < |keys| && keys[i] == x;
        assert keys[i] in back;
      }
    }
    DistinctSameElements(order, keys);
  }

  /** Putting elements in front keeps a subsequence a subsequence. */
  lemma {:induction false} SubsequenceOfSuffix(front: seq<string>, back: seq<string>)
    ensures Subsequence(back, front + back)
    decreases |front|
  {
    if front == [] {
      assert front + back == back;
      SubsequenceRefl(back);
    } else {
      SubsequenceOfSuffix(front[1..], back);
      assert front + back == [front[0]] + (front[1..] + back);
      SubsequenceSkip(back, front[0], front[1..] + back);
    }
  }

  lemma {:induction false} SubsequenceRefl(xs: seq<string>)
    ensures Subsequence(xs, xs)
    decreases |xs|
  {
    if xs != [] {
      SubsequenceRefl(xs[1..]);
    }
  }

  /** The whitespace String.prototype.trim removes. */
  const JsWhitespace: set<char> := {
    '\t', '\n', '\U{B}', '\U{C}', '\r', ' ', '\U{A0}', '\U{1680}',
    '\U{2000}', '\U{2001}', '\U{2002}', '\U{2003}', '\U{2004}', '\U{2005}', '\U{2006}',
    '\U{2007}', '\U{2008}', '\U{2009}', '\U{200A}',
    '\U{2028}', '\U{2029}', '\U{202F}', '\U{205F}', '\U{3000}', '\U{FEFF}'
  }

  /** initiateScan's guard: the trimmed input, or nothing when no request is to be sent. */
  function ScanQuery(input: string): (query: Option<string>)
    ensures query.None? <==> forall i :: 0 <= i < |input| ==> input[i] in JsWhitespace
    ensures query.Some? ==> query.value != "" && exists a :: TrimmedAt(input, JsWhitespace, a, query.value)
  {
    var url := TrimBy(input, JsWhitespace);
    TrimByTrims(input, JsWhitespace);
    if url == "" then None else Some(url)
  }

  /** The query sent is the input with its leading and trailing whitespace removed,
      whatever way that trimming is found. */
  lemma ScanQueryIsTrim(input: string, a: int, query: string)
    requires TrimmedAt(input, JsWhitespace, a, query) && query != ""
    ensures ScanQuery(input) == Some(query)
  {
    TrimByExact(input, JsWhitespace, a, query);
  }
}
