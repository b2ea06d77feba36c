# URLHawk scanner: a verified model of its decision logic

URLHawk is a reconnaissance scanner. Given a target URL, it runs a set of probes
and reports what each one finds. The probes cover missing security headers,
exposed files, DNS records, robots.txt paths, social links, the technology
stack, security.txt and allowed HTTP methods. Four more probes ask outside
services for the server's location, its TLS certificate, its archived snapshots
and its domain registration. A web dashboard then renders the result map.

This project models the logic underneath the I/O:

- Normalising the target and extracting its host.
- The check registry and the orchestrator that runs every registered check
  (a panic in a check itself becomes an error entry).
- The scan entry point, which injects the `"url"` key.
- Each probe's decision tree, filter, parser and cap. The HTTP response, or the
  DNS answer, is an input.
- The dashboard's pure helpers: the status colour, the key-to-title transform,
  the module metadata lookup, the sidebar order and the empty-input guard.

Files, one per source file plus three shared ones:

| file | models |
|---|---|
| `text.dfy` | Go/JS string and sequence operations (`HasPrefix`, `TrimPrefix`, `Index`, `Split`, `Join`, `TrimRight`, `TrimSpace`, `ToLower`, `Contains`) and list helpers |
| `http.dfy` | probe answers (`Value`: nil slice, slice, string, map), requests, responses (`Fetch`), `Header.Get`, `io.ReadAll(io.LimitReader(..))` |
| `registry.dfy` | scanner/registry.go |
| `scanner.dfy` | scanner.go |
| `api.dfy` | scanner/api.go |
| `core_plugins.dfy` | scanner/plugins_core.go |
| `dns.dfy` | scanner/plugins_dns.go |
| `robots.dfy` | scanner/plugins_robots.go |
| `socials.dfy` | scanner/plugins_socials.go |
| `tech.dfy` | scanner/plugins_tech.go |
| `security_txt.dfy` | scanner/plugins_security_txt.go |
| `methods.dfy` | scanner/plugins_methods.go |
| `plugins.dfy` | the `init` functions of the scanner/plugins_*.go files, run together at start-up |
| `dashboard.dfy` | web/public/app.js |

Modelling choices:

- **Network.** The network is a function from `Request` to `Fetch`. A `Fetch` is
  one of:
  - `RequestFailed`: `http.NewRequest*` returned an error.
  - `Unreachable`: the client's `Do` returned an error.
  - `Response(status, header, body, readFails)`: reading the first `n` bytes
    succeeds unless the connection breaks (`readFails`) before `n` bytes
    arrive.
- **DNS.** The resolver is a function from (record kind, host) to a failure or
  a list of records.
- **Nil versus empty slices.** Go's `var xs []string` stays nil until the first
  append, and encodes as `null`. `[]string{}` encodes as `[]`. The model keeps
  the two apart (`Nil`, `Strings([])`), so the error paths of robots_txt and
  social_links (empty) differ from an empty header or file list (nil).
- **Concurrency.** The orchestrator, the DNS probe and the exposed-files probe
  start one goroutine per item. Each goroutine writes its own key, or appends,
  under a mutex. They are modelled as loops that take the items in an arbitrary
  order (`:|`). A map result is therefore exact. A list whose order depends on
  the schedule (exposed_files), or on Go's map iteration (tech_stack), is
  specified up to order: same elements, no duplicates, and the same multiset as
  one reference order.
- **Printing.** In scanner.go, `checkHeaders` and `checkSensitiveFiles` report by
  printing. Their methods return the list they would print.

Two branches of the source never decide anything:

- `extractDomain`'s `return ""` (scanner/plugins_dns.go:99) can never run,
  because `strings.Split` always returns at least one element. The model has no
  such branch. An empty host arises only from an empty host part
  (`DnsPlugin.EmptyHost`).
- The `"data-reactroot"` test of the tech probe never decides anything, because
  that marker contains `"react"` (`TechPlugin.ReactrootSubsumed`).

## Model

| member | source | states |
|---|---|---|
| Http.SliceOf | scanner/plugins_core.go:61-101 | a list grown by appends from a nil slice holds exactly the appended items, and is nil exactly when nothing was appended |
| Http.CanonicalHeaderKeySpec | scanner/plugins_tech.go:31-37 | `Header.Get` looks names up in canonical form: same length; a name of token characters has its first letter and each letter after `-` upper-cased and every other letter lower-cased; any other name is unchanged |
| Http.CanonicalIdempotent | scanner/plugins_tech.go:31-37 | a canonical key is its own canonical form, so looking up an already canonical name reads that very key |
| Http.ReadAtMost | scanner/plugins_core.go:83 | the bytes read are a prefix of the body of at most `limit` bytes; the read succeeds iff the connection holds or `limit` bytes arrived, and then it is the first `limit` bytes |
| Registry.Outcomes | scanner/registry.go:45-70 | the result map has exactly the registry's keys; a returning check's value is stored unchanged, a panicking check's entry is `{"error": "Plugin execution crashed: <detail>"}` |
| Registry.CrashIsIsolated | scanner/registry.go:51-57 | replacing one check by one that panics changes that key's entry to the crash map and leaves every other entry and the key set as they were |
| Registry.ReRegisterKeepsSize | scanner/registry.go:27 | registering a name already present overwrites it without growing the registry |
| Registry.CheckRegistry.constructor | scanner/registry.go:23 | the registry starts empty, with every entry filed under its own name (vacuously) |
| Registry.CheckRegistry.Register | scanner/registry.go:26-32 | after registering, the name maps to `{name, description, check}`, every other entry is unchanged, and every definition is still filed under its own name |
| Plugins.RegisterGeo | scanner/plugins_geo.go:11-13 | init files the given check under `geolocation` with the source's description, and changes no other entry |
| Plugins.RegisterSsl | scanner/plugins_ssl.go:11-13 | init files the given check under `ssl_certificate` with the source's description, and changes no other entry |
| Plugins.RegisterWayback | scanner/plugins_wayback.go:10-12 | init files the given check under `wayback_machine` with the source's description, and changes no other entry |
| Plugins.RegisterWhois | scanner/plugins_whois.go:10-12 | init files the given check under `whois_info` with the source's description, and changes no other entry |
| Plugins.RegisterAll | scanner/registry.go:23-32 | running the init functions of all eleven plugin files in file-name order on the empty registry leaves a valid registry equal to `StartupChecks`: exactly the twelve plugin names, each of the eight modelled names running its own plugin's probe |
| Plugins.StartupNames | scanner/registry.go:23-32 | after start-up the registry holds exactly the twelve names the plugin files register |
| Plugins.StartupProbes | scanner/plugins_core.go:29-32 | after start-up `missing_headers`, `exposed_files`, `dns_records`, `http_methods`, `robots_txt`, `security_txt`, `social_links` and `tech_stack` each run their plugin's probe; no later registration overwrites an earlier one |
| Plugins.StartupForeign | scanner/plugins_geo.go:11-13 | after start-up the four outside probes are filed under their names and descriptions with the checks given |
| Registry.CheckRegistry.RunAll | scanner/registry.go:35-73 | the concurrent run, taken in any order, builds exactly `Outcomes` for the same url; the registry is not modified |
| Api.ScanURL | scanner/api.go:5-15 | the keys are the registry's plus `"url"`; `"url"` holds the normalised target even if a check was registered under that name; every other entry is that check's outcome on the normalised target, not on the raw input |
| Scanner.WithScheme | scanner.go:70-72 | an input starting with `http://` or `https://` (case-sensitive) is kept; any other input gets `http://` in front; the result always has a scheme |
| Scanner.NormalizeURL | scanner.go:69-74 | the result is a prefix of the scheme-qualified input, everything cut from it is `/`, it does not end with `/`, and it starts with `http:` or `https:` |
| Scanner.NormalizeIdempotent | scanner.go:69-74 | normalising twice equals normalising once whenever the result still begins with `http://` or `https://` |
| Scanner.NormalizeNotAlwaysIdempotent | scanner.go:69-74 | `""` and `"http://"` normalise to `"http:"`, which normalises to `"http://http:"`, so they are not fixed points |
| Scanner.NormalizeBareHost | scanner.go:70-72 | `"example.com"` becomes `"http://example.com"` |
| Scanner.NormalizeTrailingSlash | scanner.go:73 | `"https://example.com/"` becomes `"https://example.com"` |
| Scanner.NormalizeTrailingSlashes | scanner.go:73 | `"http://example.com///"` becomes `"http://example.com"`: every trailing slash goes, not just one |
| Scanner.CheckHeaders | scanner.go:76-99 | nothing is reported when the request cannot be made or fails; otherwise the list is the plugin's missing-header list (the in-order headers left empty) |
| Scanner.TargetsDistinct | scanner.go:108-109 | distinct paths give distinct `baseURL + path` targets |
| Scanner.ExposedTargetsDistinct | scanner.go:108-139 | at most four targets are reported, none twice |
| Scanner.ExposedTargetsExact | scanner.go:121-135 | `baseURL + p`, for a sensitive path `p`, is reported iff its response is 200, the first 512 bytes are read, and they contain neither `<html` nor `<body` (lower-cased) |
| Scanner.ExposedTargetsSound | scanner.go:108-109 | every reported target is `baseURL` followed by a sensitive path |
| Scanner.CheckSensitiveFiles | scanner.go:107-140 | the loop with its early `continue`s reports exactly the hits, in `sensitivePaths` order |
| CorePlugins.MissingHeadersSpec | scanner/plugins_core.go:48-57 | the missing list is an in-order subsequence of the three header names, without duplicates, at most 3 long, and holds a name iff its header value is empty |
| CorePlugins.MissingHeadersUnfold | scanner/plugins_core.go:48-57 | the missing list is the three conditional appends, in source order |
| CorePlugins.HeadersOutcomeSpec | scanner/plugins_core.go:34-58 | a request error gives nil, a transport error exactly `["Host Unreachable"]`, a response the in-order list of exactly its empty security headers, nil iff all three are set |
| CorePlugins.CheckHeaders | scanner/plugins_core.go:34-58 | the successive appends build exactly the specified outcome |
| CorePlugins.AllHeadersMissing | scanner/plugins_core.go:48-57 | a response without headers reports all three names, in order |
| CorePlugins.CheckSensitiveFiles | scanner/plugins_core.go:60-102 | in any task order: the result is a nil-or-non-empty list of bare paths without duplicates; a path is in it iff it is a sensitive path whose response is a 200 with a readable first 512 bytes holding no `<html`/`<body`; it is a permutation of the in-order hit list |
| CorePlugins.NoAngleNoPage | scanner/plugins_core.go:89 | a body without `<` is never taken for an HTML page |
| CorePlugins.HtmlPrefixIsPage | scanner/plugins_core.go:89 | a body opening with `<html` is taken for an HTML page |
| CorePlugins.EnvFileReported | scanner/plugins_core.go:82-95 | a plain-text 200 response counts as an exposed file |
| CorePlugins.HtmlPageSuppressed | scanner/plugins_core.go:82-95 | a 200 response that is an HTML page does not count |
| CorePlugins.Init | scanner/plugins_core.go:29-32 | init adds exactly `missing_headers` and `exposed_files` with their descriptions and checks, and leaves other entries alone |
| DnsPlugin.ExtractDomain | scanner/plugins_dns.go:91-100 | the host has no `/` and no `:`, is a prefix of the target after one `http://` and then one `https://` are trimmed, and stops at the end or at the first `/` or `:` |
| DnsPlugin.CutAtPathAndPort | scanner/plugins_dns.go:94-97 | splitting at `/` and then at `:` and taking the first parts leaves the prefix before the first `/` or `:` |
| DnsPlugin.EmptyHost | scanner/plugins_dns.go:94-99 | the host is empty iff the stripped target is empty or starts with `/` or `:` |
| DnsPlugin.ExtractUpTo | scanner/plugins_dns.go:91-100 | the host is determined by the position of the first `/` or `:` of the stripped target |
| DnsPlugin.ExtractAfterNormalize | scanner/plugins_dns.go:91-100 | for a non-empty `h` without `/` or `:`, the host of `normalizeURL(h)` is `h` |
| DnsPlugin.EmptyHostExamples | scanner/plugins_dns.go:91-100 | `"http://"`, `"http:///x"` and `":80"` have an empty host |
| DnsPlugin.PortAndPathCut | scanner/plugins_dns.go:92-97 | for a host `h` without `/` or `:`, the host of `"https://" + h + ":" + rest` is `h` |
| DnsPlugin.EmptyTargetHost | scanner/plugins_dns.go:91-100 | the empty target normalises to `"http:"`, whose host is `"http"` |
| DnsPlugin.DnsOutcome | scanner/plugins_dns.go:14-89 | an empty host gives exactly `{"error": "Invalid domain"}`; otherwise the keys lie in `{A/AAAA, MX, NS, TXT}`, a key is present iff its lookup succeeded, and it holds the records in the order returned, as a slice that is nil iff there are none |
| DnsPlugin.InvalidDomainIssuesNoLookup | scanner/plugins_dns.go:15-18 | with an empty host the answer does not depend on the resolver at all |
| DnsPlugin.OnlyHostIsLookedUp | scanner/plugins_dns.go:31-79 | resolvers that agree on the extracted host give the same map: only that host is looked up |
| DnsPlugin.CopyRecords | scanner/plugins_dns.go:33-36 | the per-record append loop copies the records in order |
| DnsPlugin.CheckDNS | scanner/plugins_dns.go:14-89 | the four tasks, in any order, build exactly the specified map |
| DnsPlugin.Init | scanner/plugins_dns.go:10-12 | init registers `dns_records` |
| RobotsPlugin.TrimmedLower | scanner/plugins_robots.go:47 | trimming a lower-case string keeps it lower-case |
| RobotsPlugin.DisallowEntrySpec | scanner/plugins_robots.go:45-50 | a kept path is not `""` nor `"/"`, is lower-case, and is exactly what follows `disallow:` in the trimmed, lower-cased line, with its own surrounding whitespace trimmed |
| RobotsPlugin.DisallowEntryComplete | scanner/plugins_robots.go:45-50 | conversely, a line that, trimmed and lower-cased, starts with `disallow:` and whose value, trimmed, is neither `""` nor `"/"` yields exactly that value |
| RobotsPlugin.CollectComplete | scanner/plugins_robots.go:43-52 | the path of every Disallow line of the file is collected |
| RobotsPlugin.CollectAppend | scanner/plugins_robots.go:43-52 | paths are collected line by line in file order, duplicates kept |
| RobotsPlugin.CollectFromLines | scanner/plugins_robots.go:43-50 | every collected path is the entry of some line |
| RobotsPlugin.CollectReportable | scanner/plugins_robots.go:45-50 | every collected path is reportable |
| RobotsPlugin.Cap | scanner/plugins_robots.go:55-58 | at most 15 paths are kept; more than 15 keeps the first 15 and adds the sentinel; 15 or fewer are returned as is |
| RobotsPlugin.RobotsOutcomeSpec | scanner/plugins_robots.go:14-61 | an unread file gives an empty, non-nil list; a read file gives its capped Disallow paths, nil iff none; at most 16 items, each the sentinel or a reportable path |
| RobotsPlugin.GatedResponses | scanner/plugins_robots.go:16-40 | a request or transport error, a non-200 status, a read error or an HTML body each give an empty list |
| RobotsPlugin.DisallowedPaths | scanner/plugins_robots.go:42-52 | the line loop appends exactly the collected paths |
| RobotsPlugin.CheckRobots | scanner/plugins_robots.go:14-61 | the gates, the loop and the reslice-and-append cap return exactly the specified list |
| RobotsPlugin.Init | scanner/plugins_robots.go:10-12 | init registers `robots_txt`, probing `baseURL + "/robots.txt"` |
| SocialsPlugin.ContainsDomain | scanner/plugins_socials.go:56-63 | true iff the item equals some element of the slice |
| SocialsPlugin.Candidate | scanner/plugins_socials.go:39-40 | a segment with a `"` yields the text before its first `"`: a prefix with no `"`, followed in the segment by a `"`; a segment without one yields nothing |
| SocialsPlugin.Gather | scanner/plugins_socials.go:37-47 | the gathered links are distinct, each names a social domain and holds no `"` |
| SocialsPlugin.GatherSound | scanner/plugins_socials.go:37-47 | every gathered link is the social candidate of some segment |
| SocialsPlugin.GatherComplete | scanner/plugins_socials.go:37-47 | every social candidate of every segment is gathered |
| SocialsPlugin.GatherGrows | scanner/plugins_socials.go:37-47 | later segments only append: links keep discovery order |
| SocialsPlugin.LeadingTextScanned | scanner/plugins_socials.go:37-40 | the text before the first `href="` is scanned as well |
| SocialsPlugin.SocialsOutcome | scanner/plugins_socials.go:14-54 | a request, transport or read error gives an empty, non-nil list; otherwise the slice of the first 10 gathered links, nil iff none was found; at most 10, distinct, each social |
| SocialsPlugin.GatherLinks | scanner/plugins_socials.go:37-47 | the nested segment/domain loop appends a link at most once, on its first matching domain, giving exactly the gathered links |
| SocialsPlugin.CheckSocials | scanner/plugins_socials.go:14-54 | the gates, the scan and the cut to ten return exactly the specified list |
| SocialsPlugin.Init | scanner/plugins_socials.go:10-12 | init registers `social_links` |
| TechPlugin.CmsOf | scanner/plugins_tech.go:45-49 | WordPress iff `wp-content` or `wordpress` occurs; Shopify iff it does not and `shopify` does; otherwise no CMS |
| TechPlugin.FrontendOf | scanner/plugins_tech.go:51-55 | React iff `react` occurs; Angular iff it does not and `ng-app` or `angular` does; otherwise none |
| TechPlugin.ReactrootSubsumed | scanner/plugins_tech.go:51 | `data-reactroot` occurring implies `react` occurs |
| TechPlugin.Stack | scanner/plugins_tech.go:28-55 | the stack's keys lie among Server, Powered-By, ASP.NET, CMS, Frontend |
| TechPlugin.HeaderStackEntries | scanner/plugins_tech.go:31-39 | the header part has only the three header keys; each is present iff its header (looked up by canonical name) is non-empty, and holds its value verbatim |
| TechPlugin.AspNetHeaderKey | scanner/plugins_tech.go:37 | `Header.Get("X-AspNet-Version")` reads the canonical key `X-Aspnet-Version` |
| TechPlugin.AspNetReported | scanner/plugins_tech.go:37-39 | a response whose only header is `X-Aspnet-Version: v`, `v` non-empty, has `ASP.NET` mapped to `v` in the stack |
| TechPlugin.StackEntries | scanner/plugins_tech.go:31-55 | each header entry is present iff its header, looked up by canonical name, is non-empty, and holds it verbatim; CMS and Frontend are present iff detected and hold the detected name |
| TechPlugin.FormatInjective | scanner/plugins_tech.go:60 | `"k: v"` lines of keys without `:` determine key and value |
| TechPlugin.Lines | scanner/plugins_tech.go:58-61 | at most one line per key, none when no key is in the stack |
| TechPlugin.LinesSpec | scanner/plugins_tech.go:58-61 | every line formats a stack entry and every stack entry has its line |
| TechPlugin.LinesDistinct | scanner/plugins_tech.go:58-61 | lines of distinct keys are distinct |
| TechPlugin.LinesOfStack | scanner/plugins_tech.go:58-61 | the lines are distinct and are exactly the formatted stack entries |
| TechPlugin.TechOutcomeSpec | scanner/plugins_tech.go:15-64 | the two failures give `{"error": "Failed to create request"}` and `{"error": "Failed to reach host"}`; a response gives a slice, nil iff the stack is empty, of at most 5 distinct lines, one `"key: value"` per stack entry |
| TechPlugin.NothingRecognised | scanner/plugins_tech.go:28-63 | no fingerprint headers and no markers give a nil list |
| TechPlugin.CheckTech | scanner/plugins_tech.go:15-64 | the failures are exact; a response's list is, in map-iteration order, a permutation of the specified lines |
| TechPlugin.FillStack | scanner/plugins_tech.go:28-55 | the conditional writes build exactly the specified stack |
| TechPlugin.FillFromHeaders | scanner/plugins_tech.go:31-39 | the three header writes, each reading its header through the canonical lookup, build exactly the header part of the stack |
| TechPlugin.FormatAll | scanner/plugins_tech.go:58-61 | the formatting loop, in any key order, yields distinct lines that are exactly the formatted entries |
| TechPlugin.Init | scanner/plugins_tech.go:11-13 | init registers `tech_stack` |
| SecurityTxtPlugin.Min | scanner/plugins_security_txt.go:49-54 | the minimum is at most both arguments and equals one of them |
| SecurityTxtPlugin.Snippet | scanner/plugins_security_txt.go:45 | 3 to 103 bytes: a prefix of the policy followed by `...`, and the whole policy when it has at most 100 bytes |
| SecurityTxtPlugin.SecurityTxtOutcome | scanner/plugins_security_txt.go:14-47 | "Policy Found" is always present and is No, Connection Failed, No (404/Denied), Read Error or No (Redirected to HTML) on the five failure branches; Yes iff 200, read and not HTML, and then the keys are exactly Policy Found, Path and Snippet |
| SecurityTxtPlugin.LongPolicyCut | scanner/plugins_security_txt.go:45 | a policy over 100 bytes gives its first 100 bytes plus `...`, 103 bytes |
| SecurityTxtPlugin.Init | scanner/plugins_security_txt.go:10-12 | init registers `security_txt`, probing `baseURL + "/.well-known/security.txt"` |
| MethodsPlugin.MethodsOutcome | scanner/plugins_methods.go:12-29 | the two failures give `{"error": "Request failed"}` and `{"error": "Host unreachable"}`; a response gives the single key "Allowed Methods", holding the fixed notice for an empty Allow header and the header verbatim otherwise |
| MethodsPlugin.ResponseNeverEmpty | scanner/plugins_methods.go:24-28 | an answer is never an error map and never reports an empty method list |
| MethodsPlugin.Init | scanner/plugins_methods.go:8-10 | init registers `http_methods`, probing with OPTIONS |
| Dashboard.Encode | web/server.go:69 | a nil list becomes `null` and nothing else does; lists become arrays of strings, maps objects with the same keys |
| Dashboard.DetermineStatus | web/public/app.js:132-144 | falsy or empty values are green before any other rule; red iff non-empty, no error and key `exposed_files` or `open_ports`; yellow iff non-empty and an error or key `missing_headers` |
| Dashboard.BlankIsGreen | web/public/app.js:133-135 | a nil or empty list is green whatever the key |
| Dashboard.CrashIsYellow | web/public/app.js:137 | a crashed check's entry is yellow whatever the key |
| Dashboard.TargetIsGreen | web/public/app.js:143 | the injected `url` entry is green |
| Dashboard.ExposureIsRed | web/public/app.js:140 | a non-empty exposed-file list is red |
| Dashboard.TitleOfWord | web/public/app.js:129 | a key without `_` is one capitalised word |
| Dashboard.TitleOfWords | web/public/app.js:129 | a key with `_` is its capitalised first word, a space, and the title of the rest |
| Dashboard.TitlePointwise | web/public/app.js:128-130 | the title has the key's length; each `_` becomes a space, the first character and each one after `_` is upper-cased, the others are kept |
| Dashboard.Fallback | web/public/app.js:125 | the fallback has icon `server`, colour `pink` and a title as long as the key |
| Dashboard.ModuleMetaAsWritten | web/public/app.js:83-126 | a table key gets its entry; a name inherited from Object.prototype gets that member; any other key the fallback |
| Dashboard.ConstructorKeyHasNoMeta | web/public/app.js:125 | the key `constructor` gets an inherited function, not metadata |
| Dashboard.ModuleMeta | web/public/app.js:83-126 | a table key gets its entry, every other key the fallback |
| Dashboard.MetaAgrees | web/public/app.js:125 | off the inherited names, the lookup as written and the corrected one agree |
| Dashboard.ScanKeysHaveMeta | web/public/app.js:84-98 | every key a scan returns once all twelve plugins are registered (their names and `url`) has its own table entry |
| Dashboard.SidebarOrderIsStableSort | web/public/app.js:150-154 | `url` comes first when present, the order is sorted by the comparator, the other keys keep their relative order, and it is a permutation of the keys |
| Dashboard.ScanQuery | web/public/app.js:26-34 | no request iff the input is all whitespace; otherwise the query is non-empty and is the input with exactly its leading and trailing whitespace removed |
| Dashboard.ScanQueryIsTrim | web/public/app.js:26 | any non-empty string obtained by cutting only whitespace from both ends of the input, down to non-whitespace ends, is the query sent |

## Left out

- Goroutines, `sync.WaitGroup`, mutexes and `context` deadlines: each task writes its own key or appends under a lock, so the loops take the items in arbitrary order instead. Cancellation timing is not modelled.
- `RunScan` and its worker pool (scanner.go:33-67), and all coloured console output: concurrency plumbing and printing.
- The real network, TLS and DNS resolution: responses and lookup answers are inputs. So are the `User-Agent` header and the timeouts of the clients.
- The ports probe, and the substance of the geolocation, ssl, wayback and whois probes: foreign I/O or libraries. The last four are registered (`Plugins.RegisterGeo`, `RegisterSsl`, `RegisterWayback`, `RegisterWhois`) with their checks as parameters.
- The HTTP handlers in web/server.go and api/scan.go, main.go, the root api.go and the older public/app.js: wrappers, flag parsing, or older duplicates of modelled code. `Dashboard.Encode` models only the JSON encoding of a result.
- The DOM work of web/public/app.js: rendering, icons, timers, the `fetch` call and its error alert.
- Header canonicalisation happens on receipt too: the header map of a response holds canonical names only, and `HeaderValue` canonicalises the name it is asked for. Repeated headers are not modelled: a name maps to its first value.
- Bytes: a string is a sequence of characters, one per byte. `ToLower` and `TrimSpace` act on ASCII only. Multi-byte UTF-8 is not modelled.
- TitlePointwise: JavaScript's `toUpperCase` is Unicode-aware and can change length (`"ß"` becomes `"SS"`). `Upper` maps ASCII letters only and keeps every other character. The title is therefore modelled for ASCII keys only, which every key the scanner emits is.
- CrashIsIsolated: the deferred `recover` of scanner/registry.go:51-57 only covers the goroutine that runs the check itself. A panic inside a goroutine that a check starts on its own ends the whole process. Examples are the per-path tasks of scanner/plugins_core.go:67-96 and the per-kind lookups of scanner/plugins_dns.go:29-85. The model lets a check panic only as a whole.
- `DnsPlugin.DnsOutcome`: the TXT entry stores the resolver's slice as is, and Go's resolver can return an empty non-nil slice. The model treats an empty TXT answer as nil, like the other three kinds.
- `Dashboard.Encode`: JSON numbers are integers, and the map case states only the key set.
- `CorePlugins.CheckSensitiveFiles`: the result is specified up to order, because the order depends on which goroutine appends first.
- `TechPlugin.CheckTech`: the result is specified up to order, because it follows Go's map iteration.
- `Dashboard.SidebarOrderIsStableSort`: states the result of a stable sort with the comparator. It does not model the sorting algorithm. It assumes distinct keys, which `Object.keys` guarantees.

## Findings

| source | as written | input that shows it | evidently intended | confidence | as-written member | corrected member |
|---|---|---|---|---|---|---|
| web/public/app.js:125 | `rules[key] \|\| fallback` also finds the members every object literal inherits from Object.prototype. It returns that function, which has no icon, colour or title. | a result key `"constructor"` (or `"toString"`, `"valueOf"`, …) | the fallback metadata for every key the table does not list itself | not executed; no current probe uses such a key | Dashboard.ModuleMetaAsWritten, Dashboard.ConstructorKeyHasNoMeta | Dashboard.ModuleMeta, Dashboard.MetaAgrees |
