/** What a probe sees of the network, and what it hands back.

    The network is an input: a `Network` maps each request the scanner would
    send to what came of it. A probe's answer is a `Value`, the shapes Go's
    `interface{}` results take here (and what encoding/json makes of them). */
module Http {
  import opened Text

  /** A value a check returns. Go distinguishes a nil slice (encoded as `null`)
      from an empty one (encoded as `[]`); so does the model. */
  datatype Value =
    | Nil                                  // a nil []string
    | Strings(items: seq<string>)          // a non-nil []string
    | Str(s: string)                       // a plain string (the injected "url")
    | Fields(entries: map<string, Value>)  // a map[string]string or map[string]interface{}

  /** The elements of a string-slice value. */
  function Items(v: Value): seq<string> {
    match v
    case Strings(xs) => xs
    case _ => []
  }

  /** The slice obtained by appending `xs`, one by one, to a nil slice. */
  function SliceOf(xs: seq<string>): (v: Value)
    ensures Items(v) == xs
    ensures v == Nil <==> xs == []
  {
    if xs == [] then Nil else Strings(xs)
  }

  /** `map[string]string{"error": msg}`. */
  function ErrorMap(msg: string): Value {
    Fields(map["error" := Str(msg)])
  }

  /** A one-entry `map[string]string`. */
  function Single(key: string, val: string): Value {
    Fields(map[key := Str(val)])
  }

  /** An HTTP request the scanner sends: a verb and the target URL. */
  datatype Request = Request(verb: string, target: string)

  function Get(target: string): Request {
    Request("GET", target)
  }

  /** What came of one request.
      `RequestFailed`: http.NewRequestWithContext rejected the target.
      `Unreachable`: the client's round trip failed.
      `Response`: a status, the canonical header map, and the body bytes the server
      delivered; `readFails` says the connection broke after those bytes. */
  datatype Fetch =
    | RequestFailed
    | Unreachable
    | Response(status: int, header: map<string, string>, body: string, readFails: bool)

  type Network = Request -> Fetch

  /** A byte allowed in a header field name (an HTTP token character). */
  predicate TokenChar(c: char) {
    || 'a' <= c <= 'z' || 'A' <= c <= 'Z' || '0' <= c <= '9'
    || c in {'!', '#', '$', '%', '&', '\'', '*', '+', '-', '.', '^', '_', '`', '|', '~'}
  }

  /** A name made only of token characters. */
  predicate IsToken(name: string) {
    forall i :: 0 <= i < |name| ==> TokenChar(name[i])
  }

  /** The letter-case pass of the canonical form: a letter at the start or after '-'
      is upper-cased, every other letter lower-cased. */
  function CaseWords(name: string, upper: bool): (key: string)
    ensures |key| == |name|
    ensures forall i :: 0 <= i < |name| ==>
      key[i] == (if (if i == 0 then upper else name[i - 1] == '-') then Upper(name[i]) else Lower(name[i]))
  {
    if name == [] then []
    else [if upper then Upper(name[0]) else Lower(name[0])] + CaseWords(name[1..], name[0] == '-')
  }

  /** textproto.CanonicalMIMEHeaderKey: a name made only of token characters is
      put in canonical case; any other name is left as it is. */
  function CanonicalHeaderKey(name: string): string {
    if IsToken(name) then CaseWords(name, true) else name
  }

  /** The canonical key has the name's length; a name of token characters has each
      letter at the start or after '-' upper-cased and every other letter lower-cased;
      any other name is kept. */
  lemma CanonicalHeaderKeySpec(name: string)
    ensures |CanonicalHeaderKey(name)| == |name|
    ensures !IsToken(name) ==> CanonicalHeaderKey(name) == name
    ensures IsToken(name) ==> forall i :: 0 <= i < |name| ==>
      CanonicalHeaderKey(name)[i] == (if i == 0 || name[i - 1] == '-' then Upper(name[i]) else Lower(name[i]))
  {
  }

  /** Case changes keep a character a token character, and '-' stays '-'. */
  lemma CaseKeepsToken(c: char)
    ensures TokenChar(c) ==> TokenChar(Upper(c)) && TokenChar(Lower(c))
    ensures Upper(c) == '-' <==> c == '-'
    ensures Lower(c) == '-' <==> c == '-'
    ensures Upper(Lower(c)) == Upper(c) && Lower(Upper(c)) == Lower(c)
    ensures Upper(Upper(c)) == Upper(c) && Lower(Lower(c)) == Lower(c)
  {
  }

  /** A canonical key is its own canonical form. */
  lemma CanonicalIdempotent(name: string)
    ensures CanonicalHeaderKey(CanonicalHeaderKey(name)) == CanonicalHeaderKey(name)
  {
    var key := CanonicalHeaderKey(name);
    CanonicalHeaderKeySpec(name);
    CanonicalHeaderKeySpec(key);
    if IsToken(name) {
      forall i | 0 <= i < |name| ensures TokenChar(key[i]) && (key[i] == '-' <==> name[i] == '-') {
        CaseKeepsToken(name[i]);
        assert key[i] == (if i == 0 || name[i - 1] == '-' then Upper(name[i]) else Lower(name[i]));
      }
      var again := CanonicalHeaderKey(key);
      forall i | 0 <= i < |key| ensures again[i] == key[i] {
        CaseKeepsToken(name[i]);
        assert i > 0 ==> (key[i - 1] == '-' <==> name[i - 1] == '-');
      }
    }
  }

  /** Go's `resp.Header.Get(name)`: the value stored under the canonical form of
      `name`, or "" when the header is absent. The map holds canonical keys only,
      as Go's client stores the headers it receives. */
  function HeaderValue(r: Fetch, name: string): string
    requires r.Response?
  {
    var key := CanonicalHeaderKey(name);
    if key in r.header then r.header[key] else ""
  }

  /** What io.ReadAll(io.LimitReader(resp.Body, limit)) returns: the bytes read, and whether no error came with them. */
  datatype Read = Read(data: string, ok: bool)

  function ReadAtMost(r: Fetch, limit: nat): (rd: Read)
    requires r.Response?
    ensures |rd.data| <= limit && HasPrefix(r.body, rd.data)
    ensures rd.ok <==> !r.readFails || limit <= |r.body|
    ensures rd.ok ==> rd.data == Take(r.body, limit)
  {
    if limit <= |r.body| then Read(r.body[..limit], true)
    else Read(r.body, !r.readFails)
  }

  /** A body that the scanner takes for an HTML page (a homepage served in place of the file asked for). */
  predicate MentionsHtml(content: string) {
    Contains(ToLower(content), "<html")
  }
}
