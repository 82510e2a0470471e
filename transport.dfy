/**
 * The request plumbing every API call goes through (internal.go): folding the
 * caller's setters into parameters and inputs, building the request URL,
 * encoding the input object, authenticating the request, and turning the
 * server's reply into either the callback's result or an error.
 *
 * The HTTP client, `http.NewRequest` and JSON decoding are not part of the
 * model; they are oracles carried by the `Freckle` value (`Net` and `Json`),
 * so every statement below holds for every decoder and for every server whose
 * reply depends only on the request.
 */
module Transport {
  import opened Wrappers
  import Assoc
  import Query
  import opened Records

  type Bytes = seq<bv8>

  /** One field-level complaint inside a service error. */
  datatype FreckleErrorDetail = FreckleErrorDetail(code: string, field: string, resource: string)

  /** The error object the service sends with a status of 400 or more. */
  datatype FreckleError = FreckleError(message: string, errors: seq<FreckleErrorDetail>)

  /** The errors a call can return. */
  datatype Error =
    | TransportError(reason: string)    // from http.NewRequest, the HTTP client or reading the body
    | DecodeError(reason: string)       // from json.Unmarshal
    | EncodeError                       // json.Marshal met a value it cannot encode
    | Service(failure: FreckleError)    // the service's own error object

  /** The text `Error()` gives; a service error reads as its message. */
  function Message(e: Error): string
  {
    match e
    case TransportError(reason) => reason
    case DecodeError(reason) => reason
    case EncodeError => "json: unsupported type"
    case Service(failure) => failure.message
  }

  /** A Go pair of a value and an error; `value` is meaningful whatever the error. */
  datatype Outcome<R> = Outcome(value: R, error: Option<Error>)

  /** `json.Unmarshal` into a fresh variable: what it leaves there, and its error. */
  type Decoder<R> = Bytes -> Outcome<R>

  /** The decoders the client uses, one per target type. */
  datatype Json = Json(
    freckleError: Decoder<FreckleError>,
    entries: Decoder<seq<Entry>>,
    entry: Decoder<Entry>,
    projects: Decoder<seq<Project>>,
    project: Decoder<Project>,
    invoices: Decoder<seq<Invoice>>,
    participants: Decoder<seq<Participant>>)

  /** The values the input setters and the operations put into an input object. */
  datatype Value =
    | Text(text: string)
    | Number(number: int)
    | Numbers(numbers: seq<int>)
    | Null                              // a nil slice, which json.Marshal writes as null
    | Flag(flag: bool)
    | Unencodable                       // a value json.Marshal rejects (a channel, a function, ...)

  /**
   * The ids of a variadic `ids ...int` argument: a call passing none receives
   * a nil slice, which encodes as null; any other call a list of the ids.
   */
  function IdList(ids: Option<seq<int>>): (v: Value)
    ensures v.Null? <==> ids.None?
    ensures v.Numbers? ==> v.numbers == ids.value
    ensures Encodable(map["ids" := v])
  {
    match ids
    case None => Null
    case Some(xs) => Numbers(xs)
  }

  type Parameters = map<string, string>

  type Inputs = map<string, Value>

  /** A request header: canonical names to their values in the order added. */
  type Header = map<string, seq<string>>

  datatype Request = Request(verb: string, url: string, header: Header, body: Option<Inputs>)

  /** What the client reads from a response: its status code and its `Link` header. */
  datatype Response = Response(status: int, link: string)

  /** Either a failure to get a response (or its body), or the response and its body. */
  datatype Reply = Failed(error: Error) | Replied(response: Response, body: Bytes)

  /**
   * The network: `reject` is the error `http.NewRequest` reports for a URL
   * (None when it accepts it), `send` what the HTTP client gets back.
   */
  datatype Net = Net(reject: string -> Option<Error>, send: Request -> Reply)

  /** A client: account subdomain, API token, base URL and its two oracles. */
  datatype Freckle = Freckle(subdomain: string, key: string, base: string, net: Net, json: Json)

  /** The callback a call hands to the transport: the value it produces, and its error. */
  type Handler<R> = (Bytes, Response) -> Outcome<R>

  // ---------------------------------------------------------------- setters

  /** A parameter or input setter: it may add, overwrite or remove entries. */
  type Setter<!V> = map<string, V> -> map<string, V>

  /** The map after the setters ran in order, starting from `m`. */
  function Applied<V>(fns: seq<Setter<V>>, m: map<string, V>): map<string, V>
  {
    if fns == [] then m else fns[|fns| - 1](Applied(fns[..|fns| - 1], m))
  }

  /**
   * `parameters` and `inputs`: a fresh map that every setter updates in turn.
   */
  method ApplySetters<V>(fns: seq<Setter<V>>) returns (result: map<string, V>)
    ensures result == Applied(fns, map[])
  {
    result := map[];
    for i := 0 to |fns|
      invariant result == Applied(fns[..i], map[])
    {
      assert fns[..i + 1][..i] == fns[..i];
      result := fns[i](result);
    }
    assert fns[..|fns|] == fns;
  }

  /** Running two lists of setters one after the other is running their concatenation. */
  lemma {:induction false} AppliedConcat<V>(a: seq<Setter<V>>, b: seq<Setter<V>>, m: map<string, V>)
    ensures Applied(a + b, m) == Applied(b, Applied(a, m))
    decreases |b|
  {
    if b == [] {
      assert a + b == a;
    } else {
      assert (a + b)[..|a + b| - 1] == a + b[..|b| - 1];
      AppliedConcat(a, b[..|b| - 1], m);
    }
  }

  /** The setter that assigns `v` to `k`, as `p[k] = v` in a setter does. */
  function Assign<V>(k: string, v: V): Setter<V>
  {
    m => m[k := v]
  }

  /** One assigning setter per pair. */
  function Assignments<V>(ps: seq<(string, V)>): (fns: seq<Setter<V>>)
    ensures |fns| == |ps|
  {
    seq(|ps|, i requires 0 <= i < |ps| => Assign(ps[i].0, ps[i].1))
  }

  /**
   * Setters that only assign build the map of their pairs: every assigned key
   * is present and holds the value of its last assignment.
   */
  lemma {:induction false} AssignmentsBuildPairs<V>(ps: seq<(string, V)>)
    ensures Applied(Assignments(ps), map[]) == Assoc.FromPairs(ps)
  {
    if ps != [] {
      var init := ps[..|ps| - 1];
      assert Assignments(ps)[..|ps| - 1] == Assignments(init);
      AssignmentsBuildPairs(init);
    }
  }

  // ------------------------------------------------------------------- URLs

  /** The URL `api` builds: base and path, then the encoded parameters if there are any. */
  function Url(base: string, path: string, ps: Option<Parameters>): string
  {
    if ps.None? || |ps.value| == 0 then base + path
    else base + path + "?" + Query.Encode(Query.Singletons(ps.value))
  }

  /** `api`: copies the parameters into URL values one key at a time and encodes them. */
  method Api(f: Freckle, path: string, ps: Option<Parameters>) returns (u: string)
    ensures u == Url(f.base, path, ps)
  {
    u := f.base + path;
    if ps.Some? && |ps.value| > 0 {
      var v: map<string, seq<string>> := map[];
      var rest := ps.value.Keys;
      while rest != {}
        invariant rest <= ps.value.Keys
        invariant v == map k | k in ps.value.Keys - rest :: [ps.value[k]]
        decreases |rest|
      {
        var key :| key in rest;
        v := v[key := [ps.value[key]]];
        rest := rest - {key};
      }
      assert v == Query.Singletons(ps.value);
      u := u + "?" + Query.Encode(v);
    }
  }

  /** Without parameters, or with none set, the URL is base and path. */
  lemma UrlWithoutParameters(base: string, path: string, ps: Option<Parameters>)
    requires ps.None? || |ps.value| == 0
    ensures Url(base, path, ps) == base + path
  {
  }

  /**
   * With parameters, the URL is base and path, `?`, and one `key=value` piece
   * per parameter, both parts escaped, in increasing key order, joined with `&`.
   */
  lemma UrlQueryPieces(base: string, path: string, ps: Parameters)
    requires |ps| > 0
    ensures var ks := Query.SortedKeys(ps.Keys);
      Url(base, path, Some(ps)) ==
        base + path + "?" + Query.Join(seq(|ks|, i requires 0 <= i < |ks| => Query.Escape(ks[i]) + "=" + Query.Escape(ps[ks[i]])), '&')
  {
    var v := Query.Singletons(ps);
    assert v.Keys == ps.Keys;
    Query.ParameterPieces(ps);
    assert Url(base, path, Some(ps)) == base + path + "?" + Query.Join(Query.Pieces(v, Query.SortedKeys(ps.Keys)), '&');
  }

  /** Whether `url.QueryEscape` leaves the text as it is. */
  predicate Plain(s: string)
  {
    forall c :: c in s ==> Query.Unreserved(c)
  }

  /**
   * Two parameters whose names and values need no escaping appear as
   * `name=value` pairs, in name order, joined by `&`, after a single `?`.
   */
  lemma UrlTwoPlainParameters(base: string, path: string, a: string, x: string, b: string, y: string)
    requires Query.LessEq(a, b) && a != b
    requires Plain(a) && Plain(x) && Plain(b) && Plain(y)
    ensures Url(base, path, Some(map[a := x, b := y])) == base + path + "?" + ((a + "=" + x) + "&" + (b + "=" + y))
  {
    var ps := map[a := x, b := y];
    EncodeTwoPlain(ps, a, x, b, y);
    assert a in ps;
  }

  /** The encoding of two plain parameters: the smaller key first, joined by `&`. */
  lemma EncodeTwoPlain(ps: Parameters, a: string, x: string, b: string, y: string)
    requires ps == map[a := x, b := y]
    requires Query.LessEq(a, b) && a != b
    requires Plain(a) && Plain(x) && Plain(b) && Plain(y)
    ensures Query.Encode(Query.Singletons(ps)) == (a + "=" + x) + "&" + (b + "=" + y)
  {
    var v := Query.Singletons(ps);
    assert v.Keys == {a, b};
    Query.SortedPair(a, b);
    Query.EncodeInOrder(v, [a, b]);
    PlainPieces(ps, a, x, b, y);
    Query.JoinPair(a + "=" + x, b + "=" + y, '&');
  }

  lemma PlainPieces(ps: Parameters, a: string, x: string, b: string, y: string)
    requires ps == map[a := x, b := y] && a != b
    requires Plain(a) && Plain(x) && Plain(b) && Plain(y)
    ensures Query.Pieces(Query.Singletons(ps), [a, b]) == [a + "=" + x, b + "=" + y]
  {
    var v := Query.Singletons(ps);
    assert v[a] == [x] && v[b] == [y];
    assert Query.KeyPieces(a, [x]) == [a + "=" + x];
    assert Query.KeyPieces(b, [y]) == [b + "=" + y];
    assert Query.Pieces(v, [b]) == [b + "=" + y] by {
      assert [b][1..] == [];
    }
    assert [a, b][1..] == [b];
  }

  /** The query adds exactly one `?` to the URL: no escaped key or value contains one. */
  lemma UrlOneQuestionMark(base: string, path: string, ps: Parameters)
    requires |ps| > 0
    ensures Query.Count('?', Url(base, path, Some(ps))) == Query.Count('?', base + path) + 1
  {
    var q := Query.Encode(Query.Singletons(ps));
    Query.EncodeAlphabet(Query.Singletons(ps));
    assert '?' !in q by {
      assert !Query.Escaped('?');
    }
    Query.CountAbsent('?', q);
    Query.CountAppend('?', base + path + "?", q);
    Query.CountAppend('?', base + path, "?");
    assert Query.Count('?', "?") == 1;
  }

  // ----------------------------------------------------------------- inputs

  /** Whether `json.Marshal` can encode the input object. */
  predicate Encodable(ins: Inputs)
  {
    forall k :: k in ins ==> !ins[k].Unencodable?
  }

  // ---------------------------------------------------------------- headers

  /** Bytes a header field name may consist of. */
  predicate TokenChar(c: char)
  {
    ('a' <= c <= 'z') || ('A' <= c <= 'Z') || ('0' <= c <= '9') || c in "!#$%&'*+-.^_`|~"
  }

  /** Upper case at the start and after each `-`, lower case elsewhere. */
  function Recased(s: string): (r: string)
    ensures |r| == |s|
  {
    seq(|s|, i requires 0 <= i < |s| =>
      var c := s[i];
      var upper := i == 0 || s[i - 1] == '-';
      if upper && 'a' <= c <= 'z' then (c as int - 32) as char
      else if !upper && 'A' <= c <= 'Z' then (c as int + 32) as char
      else c)
  }

  /** `textproto.CanonicalMIMEHeaderKey`: names with a non-token byte are left as they are. */
  function Canonical(k: string): string
  {
    if forall i :: 0 <= i < |k| ==> TokenChar(k[i]) then Recased(k) else k
  }

  /** Appends a value under a name taken as it is. */
  function Put(h: Header, k: string, v: string): Header
  {
    h[k := (if k in h then h[k] else []) + [v]]
  }

  /** `Header.Add`: appends a value under the canonical name. */
  function AddHeader(h: Header, k: string, v: string): Header
  {
    Put(h, Canonical(k), v)
  }

  /** `Header.Get`: the first value under the canonical name, or "". */
  function GetHeader(h: Header, k: string): string
  {
    var ck := Canonical(k);
    if ck in h && |h[ck]| > 0 then h[ck][0] else ""
  }

  /**
   * The request with the account's `User-Agent` and `X-FreckleToken` headers
   * added, under the canonical names `Header.Add` files them under (see
   * `AuthenticateAddsHeaders`).
   */
  function Authenticate(f: Freckle, req: Request): Request
  {
    req.(header := Put(Put(req.header, "User-Agent", f.subdomain), "X-Freckletoken", f.key))
  }

  /** `Authenticate` is the two `Header.Add` calls of `doHttpRequest`. */
  lemma AuthenticateAddsHeaders(f: Freckle, req: Request)
    ensures Authenticate(f, req).header == AddHeader(AddHeader(req.header, "User-Agent", f.subdomain), "X-FreckleToken", f.key)
  {
    CanonicalUserAgent();
    CanonicalToken();
  }

  /**
   * A request made with an empty header reaches the server carrying the
   * subdomain as `User-Agent` and the token as `X-FreckleToken`, under their
   * canonical names and nothing else; method, URL and body are untouched.
   */
  lemma AuthenticationHeaders(f: Freckle, req: Request)
    requires req.header == map[]
    ensures var sent := Authenticate(f, req);
      && GetHeader(sent.header, "User-Agent") == f.subdomain
      && GetHeader(sent.header, "X-FreckleToken") == f.key
      && sent.header == map["User-Agent" := [f.subdomain], "X-Freckletoken" := [f.key]]
      && sent.verb == req.verb && sent.url == req.url && sent.body == req.body
  {
    CanonicalUserAgent();
    CanonicalToken();
    var h := Put(req.header, "User-Agent", f.subdomain);
    assert [] + [f.subdomain] == [f.subdomain];
    assert h == map["User-Agent" := [f.subdomain]];
    assert "X-Freckletoken" !in h;
    assert [] + [f.key] == [f.key];
    assert Put(h, "X-Freckletoken", f.key) == h["X-Freckletoken" := [f.key]];
  }

  lemma CanonicalUserAgent()
    ensures Canonical("User-Agent") == "User-Agent"
  {
    var k := "User-Agent";
    assert forall i :: 0 <= i < |k| ==> TokenChar(k[i]);
    assert Recased(k) == k;
  }

  lemma CanonicalToken()
    ensures Canonical("X-FreckleToken") == "X-Freckletoken"
  {
    var k := "X-FreckleToken";
    assert forall i :: 0 <= i < |k| ==> TokenChar(k[i]);
    assert Recased(k) == "X-Freckletoken";
  }

  // -------------------------------------------------------------- responses

  /** `parseError`: the service's error object if the body decodes, else the decoding error. */
  function ParseError(json: Json, data: Bytes): (e: Error)
    ensures json.freckleError(data).error.None? ==> e == Service(json.freckleError(data).value) && Message(e) == json.freckleError(data).value.message
    ensures json.freckleError(data).error.Some? ==> Some(e) == json.freckleError(data).error
  {
    var decoded := json.freckleError(data);
    if decoded.error.None? then Service(decoded.value) else decoded.error.value
  }

  /** Whether the reply is a response the callback gets to see. */
  predicate Accepted(reply: Reply)
  {
    reply.Replied? && reply.response.status < 400
  }

  /** What `doHttpRequest` makes of the reply, starting from the caller's value `init`. */
  function Respond<R>(json: Json, reply: Reply, init: R, fn: Handler<R>): Outcome<R>
  {
    match reply
    case Failed(e) => Outcome(init, Some(e))
    case Replied(resp, data) =>
      if resp.status >= 400 then Outcome(init, Some(ParseError(json, data)))
      else fn(data, resp)
  }

  /** `doHttpRequest` as a function of the request. */
  function Exchange<R>(f: Freckle, req: Request, init: R, fn: Handler<R>): Outcome<R>
  {
    Respond(f.json, f.net.send(Authenticate(f, req)), init, fn)
  }

  /**
   * The callback runs exactly when a response with a status below 400 came
   * back; otherwise the caller's value stays as it was and an error is
   * returned. A status of 400 or more always yields an error: the service's
   * error object when its body decodes, whose message is then the error text.
   */
  lemma RespondDispatch<R>(json: Json, reply: Reply, init: R, fn: Handler<R>)
    ensures Accepted(reply) ==> Respond(json, reply, init, fn) == fn(reply.body, reply.response)
    ensures !Accepted(reply) ==> Respond(json, reply, init, fn).value == init && Respond(json, reply, init, fn).error.Some?
    ensures reply.Failed? ==> Respond(json, reply, init, fn).error == Some(reply.error)
    ensures reply.Replied? && reply.response.status >= 400 && json.freckleError(reply.body).error.None? ==>
      var e := Respond(json, reply, init, fn).error;
      e == Some(Service(json.freckleError(reply.body).value)) && Message(e.value) == json.freckleError(reply.body).value.message
    ensures reply.Replied? && reply.response.status >= 400 && json.freckleError(reply.body).error.Some? ==>
      Respond(json, reply, init, fn).error == json.freckleError(reply.body).error
  {
  }

  /** A callback that only reports success makes the call succeed exactly when the reply is accepted. */
  lemma IgnoredBodySucceedsIffAccepted(json: Json, reply: Reply)
    ensures Respond(json, reply, (), (data, resp) => Outcome((), None)).error.None? <==> Accepted(reply)
  {
    if !Accepted(reply) {
      RespondDispatch(json, reply, (), (data: Bytes, resp: Response) => Outcome((), None));
    }
  }

  /** `doHttpRequest`: authenticates the request, sends it, and dispatches on the reply. */
  method DoHttpRequest<R>(f: Freckle, req: Request, init: R, fn: Handler<R>) returns (out: Outcome<R>)
    ensures out == Exchange(f, req, init, fn)
  {
    var header := req.header;
    header := AddHeader(header, "User-Agent", f.subdomain);
    header := AddHeader(header, "X-FreckleToken", f.key);
    AuthenticateAddsHeaders(f, req);
    assert req.(header := header) == Authenticate(f, req);
    var reply := f.net.send(req.(header := header));
    if reply.Failed? {
      return Outcome(init, Some(reply.error));
    }
    if reply.response.status >= 400 {
      return Outcome(init, Some(ParseError(f.json, reply.body)));
    }
    out := fn(reply.body, reply.response);
  }

  // ------------------------------------------------------------------- calls

  /** The request `do` sends, before authentication. */
  function Outgoing(f: Freckle, verb: string, path: string, ps: Option<Parameters>, ins: Option<Inputs>): Request
  {
    Request(verb, Url(f.base, path, ps), map[], ins)
  }

  /** Whether `do` gets as far as sending: the inputs encode and the URL is accepted. */
  predicate Reaches(f: Freckle, path: string, ps: Option<Parameters>, ins: Option<Inputs>)
  {
    (ins.None? || Encodable(ins.value)) && f.net.reject(Url(f.base, path, ps)).None?
  }

  /** `do`: builds the URL, encodes the inputs, makes the request and performs it. */
  function Perform<R>(f: Freckle, verb: string, path: string, ps: Option<Parameters>, ins: Option<Inputs>,
                      init: R, fn: Handler<R>): Outcome<R>
  {
    var u := Url(f.base, path, ps);
    if ins.Some? && !Encodable(ins.value) then Outcome(init, Some(EncodeError))
    else match f.net.reject(u)
      case Some(e) => Outcome(init, Some(e))
      case None => Exchange(f, Request(verb, u, map[], ins), init, fn)
  }

  /**
   * A call that gets as far as sending sends exactly one authenticated request
   * (the given method, the built URL, the inputs as body) and its outcome is
   * what the reply makes of it; a call that does not leaves the caller's value
   * alone and fails, with `EncodeError` when the inputs cannot be encoded.
   */
  lemma PerformSends<R>(f: Freckle, verb: string, path: string, ps: Option<Parameters>, ins: Option<Inputs>,
                        init: R, fn: Handler<R>)
    ensures Reaches(f, path, ps, ins) ==>
      Perform(f, verb, path, ps, ins, init, fn) == Respond(f.json, f.net.send(Authenticate(f, Outgoing(f, verb, path, ps, ins))), init, fn)
    ensures !Reaches(f, path, ps, ins) ==>
      Perform(f, verb, path, ps, ins, init, fn).value == init && Perform(f, verb, path, ps, ins, init, fn).error.Some?
    ensures ins.Some? && !Encodable(ins.value) ==> Perform(f, verb, path, ps, ins, init, fn).error == Some(EncodeError)
  {
  }

  /** `do`. */
  method Do<R>(f: Freckle, verb: string, path: string, ps: Option<Parameters>, ins: Option<Inputs>,
               init: R, fn: Handler<R>) returns (out: Outcome<R>)
    ensures out == Perform(f, verb, path, ps, ins, init, fn)
  {
    var u := Api(f, path, ps);
    if ins.Some? && !Encodable(ins.value) {
      return Outcome(init, Some(EncodeError));
    }
    var rejected := f.net.reject(u);
    if rejected.Some? {
      return Outcome(init, rejected);
    }
    out := DoHttpRequest(f, Request(verb, u, map[], ins), init, fn);
  }

  /** The callback of the calls that only report an error: the body is not looked at. */
  function Ignoring(): Handler<()>
  {
    (data, resp) => Outcome((), None)
  }

  /** The callback of the calls that unmarshal the body into their result. */
  function Decoding<R>(decode: Decoder<R>): Handler<R>
  {
    (data, resp) => decode(data)
  }

  /**
   * A call that only reports an error succeeds exactly when its request is
   * sent and answered with a status below 400.
   */
  lemma ErrorOnlyCall(f: Freckle, verb: string, path: string, ps: Option<Parameters>, ins: Option<Inputs>)
    ensures Perform(f, verb, path, ps, ins, (), Ignoring()).error.None? <==>
      Reaches(f, path, ps, ins) && Accepted(f.net.send(Authenticate(f, Outgoing(f, verb, path, ps, ins))))
  {
    PerformSends(f, verb, path, ps, ins, (), Ignoring());
    IgnoredBodySucceedsIffAccepted(f.json, f.net.send(Authenticate(f, Outgoing(f, verb, path, ps, ins))));
  }

  /**
   * A call that decodes the body returns what the decoder makes of an
   * accepted response; otherwise it returns the zero value and an error.
   */
  lemma DecodingCall<R>(f: Freckle, verb: string, path: string, ps: Option<Parameters>, ins: Option<Inputs>,
                        zero: R, decode: Decoder<R>)
    ensures var out := Perform(f, verb, path, ps, ins, zero, Decoding(decode));
      var reply := f.net.send(Authenticate(f, Outgoing(f, verb, path, ps, ins)));
      if Reaches(f, path, ps, ins) && Accepted(reply) then out == decode(reply.body)
      else out.value == zero && out.error.Some?
  {
    var reply := f.net.send(Authenticate(f, Outgoing(f, verb, path, ps, ins)));
    PerformSends(f, verb, path, ps, ins, zero, Decoding(decode));
    RespondDispatch(f.json, reply, zero, Decoding(decode));
  }

  // ----------------------------------------------------------------- paths

  function DigitChar(d: nat): (c: char)
    requires d < 10
    ensures '0' <= c <= '9'
  {
    "0123456789"[d]
  }

  /** The decimal digits of `n`, most significant first, without leading zeros. */
  function Digits(n: nat): (s: string)
    ensures |s| > 0
    ensures forall i :: 0 <= i < |s| ==> '0' <= s[i] <= '9'
  {
    if n < 10 then [DigitChar(n)] else Digits(n / 10) + [DigitChar(n % 10)]
  }

  /** The number a string of decimal digits denotes. */
  function DigitsValue(s: string): int
  {
    if s == [] then 0 else 10 * DigitsValue(s[..|s| - 1]) + (s[|s| - 1] as int - '0' as int)
  }

  /** `%d`: a sign for negative numbers, then the digits of the magnitude. */
  function Decimal(n: int): string
  {
    if n < 0 then "-" + Digits(-n) else Digits(n)
  }

  /** Reading the digits back gives the number. */
  lemma {:induction false} DigitsRoundTrip(n: nat)
    ensures DigitsValue(Digits(n)) == n
  {
    if n >= 10 {
      var s := Digits(n);
      assert s[..|s| - 1] == Digits(n / 10);
      DigitsRoundTrip(n / 10);
    }
  }

  /** Reads back what `Decimal` writes: an optional sign, then digits. */
  function ParseDecimal(s: string): int
  {
    if |s| > 0 && s[0] == '-' then 0 - DigitsValue(s[1..]) else DigitsValue(s)
  }

  /** `Decimal` writes an optional sign followed by one or more digits. */
  lemma DecimalFormat(n: int)
    ensures var s := Decimal(n);
      && |s| > 0 && (s[0] == '-' <==> n < 0)
      && (forall i :: 0 <= i < |s| && (i > 0 || n >= 0) ==> '0' <= s[i] <= '9')
  {
    if n < 0 {
      var d := Digits(-n);
      assert Decimal(n) == "-" + d;
      forall i | 0 < i < |Decimal(n)| ensures '0' <= Decimal(n)[i] <= '9' {
        assert Decimal(n)[i] == d[i - 1];
      }
    }
  }

  /** The decimal text of a number reads back as that number, so different identifiers give different paths. */
  lemma DecimalRoundTrip(n: int)
    ensures ParseDecimal(Decimal(n)) == n
  {
    if n < 0 {
      NegativeRoundTrip(n);
    } else {
      NaturalRoundTrip(n);
    }
  }

  lemma NegativeRoundTrip(n: int)
    requires n < 0
    ensures ParseDecimal(Decimal(n)) == n
  {
    var d := Digits(-n);
    var s := Decimal(n);
    assert s == "-" + d;
    assert ParseDecimal(s) == 0 - DigitsValue(s[1..]);
    assert s[1..] == d;
    DigitsRoundTrip(-n);
  }

  lemma NaturalRoundTrip(n: nat)
    ensures ParseDecimal(Decimal(n)) == n
  {
    var s := Digits(n);
    assert Decimal(n) == s;
    assert s[0] != '-';
    assert ParseDecimal(s) == DigitsValue(s);
    DigitsRoundTrip(n);
  }
}
