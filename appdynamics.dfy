/**
  The AppDynamics delivery sink: renders one event, wraps it in a JSON
  array envelope, posts it with a fixed vendor content type plus the
  configured headers, and turns the response status into success or an
  error. The results of the calls into code outside this file (the
  layout renderer, `http.NewRequest`, `setupTLS`, `client.Do`,
  `ioutil.ReadAll`) are supplied as inputs, and `Send` reports which of
  those calls it made, in order.
 */
module AppDynamics {
  import opened Wrappers
  import opened GoErrors
  import opened ByteBuffer
  import opened HttpRequest

  const Post: string := "POST"
  const ContentType: string := "Content-Type"
  const MediaType: string := "application/vnd.appd.events+json;v=2"
  const TlsPrefix: string := "failed to setup TLS: "
  const RejectPrefix: string := "not successfull (2xx) response: "

  /** The bytes of "[" and "]". */
  const OpenBracket: byte := 0x5B
  const CloseBracket: byte := 0x5D

  /** The sink's configuration: where to post and which headers to add. */
  datatype AppDynamicsConfig = AppDynamicsConfig(endpoint: string, headers: map<string, string>)

  /** The `*tls.Config` that `setupTLS` builds; its contents are not part of this model. */
  datatype TlsClientConfig = TlsClientConfig(id: nat)

  /** What the foreign calls of one `Send` return. */
  datatype External = External(
    render: Result<seq<byte>, Error>,        // serializeEventWithLayout(cfg.Layout, ev)
    newRequest: Option<Error>,               // the error of http.NewRequest, if any
    tls: Result<TlsClientConfig, Error>,     // setupTLS(&cfg.TLS)
    response: Result<int, Error>,            // client.Do(req): the status code, or the error
    body: Result<seq<byte>, Error>)          // ioutil.ReadAll(resp.Body)

  /** A call `Send` makes to code outside this file. */
  datatype Call =
    | Render
    | NewRequest(verb: string, url: string, body: seq<byte>)
    | SetupTls
    | Do(request: RequestValue, tls: TlsClientConfig)
    | ReadAll
    | CloseBody

  /** The `error` that `Send` returns: nil, or an error value. */
  datatype Outcome = Delivered | Failed(err: Error)

  // ---------------------------------------------------------------- envelope

  /** The request body: the rendered bytes inside a one-element JSON array, by concatenation. */
  function Envelope(rendered: seq<byte>): (body: seq<byte>)
    ensures |body| == |rendered| + 2
    ensures body[0] == OpenBracket && body[|body| - 1] == CloseBracket
    ensures body[1..|body| - 1] == rendered
  {
    [OpenBracket] + rendered + [CloseBracket]
  }

  /** Takes the envelope off again, if there is one. */
  function Unenvelope(body: seq<byte>): (r: Option<seq<byte>>)
    ensures r.Some? <==> |body| >= 2 && body[0] == OpenBracket && body[|body| - 1] == CloseBracket
  {
    if |body| >= 2 && body[0] == OpenBracket && body[|body| - 1] == CloseBracket
    then Some(body[1..|body| - 1])
    else None
  }

  /** The rendered bytes are recovered exactly from the body. */
  lemma EnvelopeRoundTrip(rendered: seq<byte>)
    ensures Unenvelope(Envelope(rendered)) == Some(rendered)
  {
  }

  /** No two renderings share a body. */
  lemma EnvelopeInjective(a: seq<byte>, b: seq<byte>)
    requires Envelope(a) == Envelope(b)
    ensures a == b
  {
    EnvelopeRoundTrip(a);
    EnvelopeRoundTrip(b);
  }

  // ---------------------------------------------------------------- headers

  /**
    The header table after the fixed content type has been added and then
    every entry of `headers`: each key holds the media type first if it is
    `Content-Type`, then the configured value if there is one.
   */
  function ConfiguredHeader(headers: map<string, string>): Header
  {
    map k | k in headers.Keys + {ContentType} ::
      (if k == ContentType then [MediaType] else []) + (if k in headers then [headers[k]] else [])
  }

  /** Adding one more configured entry to the table extends it to the table of the larger configuration. */
  lemma ConfiguredHeaderStep(part: map<string, string>, key: string, value: string)
    requires key !in part
    ensures AddValue(ConfiguredHeader(part), key, value) == ConfiguredHeader(part[key := value])
  {
    var lhs := AddValue(ConfiguredHeader(part), key, value);
    var rhs := ConfiguredHeader(part[key := value]);
    assert lhs.Keys == rhs.Keys;
    forall k | k in lhs
      ensures lhs[k] == rhs[k]
    {
    }
  }

  /** The table before any configured entry: the content type alone. */
  lemma ConfiguredHeaderEmpty()
    ensures ConfiguredHeader(map[]) == AddValue(map[], ContentType, MediaType)
  {
    var lhs := ConfiguredHeader(map[]);
    assert lhs.Keys == {ContentType};
    assert lhs[ContentType] == [MediaType];
  }

  /** The first value under `Content-Type` is always the vendor media type, even with no configured headers. */
  lemma ContentTypeFirst(headers: map<string, string>)
    ensures ContentType in ConfiguredHeader(headers)
    ensures |ConfiguredHeader(headers)[ContentType]| >= 1
    ensures ConfiguredHeader(headers)[ContentType][0] == MediaType
  {
  }

  /** A value is on the wire under a key exactly when it is the fixed content type or that key's configured value. */
  lemma HeaderValues(headers: map<string, string>, key: string, value: string)
    ensures key in ConfiguredHeader(headers) && value in ConfiguredHeader(headers)[key]
        <==> (key == ContentType && value == MediaType) || (key in headers && headers[key] == value)
  {
  }

  /** Every configured entry is present, as the last value under its key. */
  lemma ConfiguredHeadersPresent(headers: map<string, string>, key: string)
    requires key in headers
    ensures key in ConfiguredHeader(headers)
    ensures var vs := ConfiguredHeader(headers)[key]; |vs| >= 1 && vs[|vs| - 1] == headers[key]
  {
  }

  /** The table holds one value per configured entry plus the content type: nothing is replaced. */
  lemma {:induction false} ConfiguredHeaderCount(headers: map<string, string>)
    ensures ValueCount(ConfiguredHeader(headers)) == 1 + |headers|
    decreases |headers|
  {
    if headers == map[] {
      ConfiguredHeaderEmpty();
      AddValueCount(map[], ContentType, MediaType);
      assert ValueCount(map[]) == 0;
    } else {
      var k :| k in headers;
      var rest := headers - {k};
      CardRemove(headers, k);
      ConfiguredHeaderCount(rest);
      assert rest[k := headers[k]] == headers;
      ConfiguredHeaderStep(rest, k, headers[k]);
      AddValueCount(ConfiguredHeader(rest), k, headers[k]);
    }
  }

  /** Adds the configured entries in the order `keys` lists them. */
  function AddInOrder(h: Header, keys: seq<string>, headers: map<string, string>): Header
    requires forall i :: 0 <= i < |keys| ==> keys[i] in headers
    decreases |keys|
  {
    if keys == [] then h
    else AddInOrder(AddValue(h, keys[0], headers[keys[0]]), keys[1..], headers)
  }

  /** Whatever order the configured entries are visited in, the resulting table is the same. */
  lemma AnyOrder(headers: map<string, string>, keys: seq<string>)
    requires forall i, j :: 0 <= i < j < |keys| ==> keys[i] != keys[j]
    requires forall k :: k in headers <==> k in keys
    ensures AddInOrder(AddValue(map[], ContentType, MediaType), keys, headers) == ConfiguredHeader(headers)
  {
    ConfiguredHeaderEmpty();
    AnyOrderFrom(headers, map[], keys);
  }

  /** From a table holding the entries `done`, visiting the remaining keys in any order gives the full table. */
  lemma {:induction false} AnyOrderFrom(headers: map<string, string>, done: map<string, string>, keys: seq<string>)
    requires forall i, j :: 0 <= i < j < |keys| ==> keys[i] != keys[j]
    requires forall i :: 0 <= i < |keys| ==> keys[i] !in done
    requires forall k :: k in headers <==> k in done || k in keys
    requires forall k :: k in done ==> done[k] == headers[k]
    ensures AddInOrder(ConfiguredHeader(done), keys, headers) == ConfiguredHeader(headers)
    decreases |keys|
  {
    if keys == [] {
      assert done.Keys == headers.Keys;
      assert done == headers;
    } else {
      var k := keys[0];
      ConfiguredHeaderStep(done, k, headers[k]);
      var done' := done[k := headers[k]];
      assert forall j :: j in headers <==> j in done' || j in keys[1..] by {
        forall j | j in keys ensures j == k || j in keys[1..] {
          var i :| 0 <= i < |keys| && keys[i] == j;
          if i > 0 { assert keys[1..][i - 1] == j; }
        }
      }
      AnyOrderFrom(headers, done', keys[1..]);
    }
  }

  // ---------------------------------------------------------------- response

  /** `string(body)`: the bytes taken one for one as characters. */
  function AsString(body: seq<byte>): (s: string)
    ensures |s| == |body|
    ensures forall i :: 0 <= i < |body| ==> s[i] as int == body[i] as int
  {
    seq(|body|, i requires 0 <= i < |body| => body[i] as int as char)
  }

  /** The bytes of a string whose characters are all single bytes. */
  function AsBytes(s: string): (b: seq<byte>)
    requires forall i :: 0 <= i < |s| ==> s[i] as int < 256
    ensures |b| == |s|
  {
    seq(|s|, i requires 0 <= i < |s| => s[i] as int as byte)
  }

  /** The body reaches the error message unaltered. */
  lemma AsStringRoundTrip(body: seq<byte>)
    ensures AsBytes(AsString(body)) == body
  {
    var s := AsString(body);
    assert forall i :: 0 <= i < |body| ==> AsBytes(s)[i] == body[i];
  }

  /** The status check: a 2xx status is success, anything else an error carrying the body verbatim. */
  function Classify(status: int, body: seq<byte>): (r: Outcome)
    ensures r == Delivered <==> 200 <= status < 300
    ensures r.Failed? ==> Message(r.err) == RejectPrefix + AsString(body) && Unwrap(r.err) == None
  {
    if 200 <= status < 300 then Delivered
    else Failed(Text(RejectPrefix + AsString(body)))
  }

  // ---------------------------------------------------------------- send

  /** What one `Send` returns and which foreign calls it makes, in order. */
  function Expected(cfg: AppDynamicsConfig, ext: External): (Outcome, seq<Call>)
  {
    match ext.render
    case Failure(e) => (Failed(e), [Render])
    case Success(rendered) =>
      var body := Envelope(rendered);
      var built := [Render, NewRequest(Post, cfg.endpoint, body)];
      if ext.newRequest.Some? then (Failed(ext.newRequest.value), built)
      else
        var set_up := built + [SetupTls];
        match ext.tls
        case Failure(e) => (Failed(Errorf(TlsPrefix, e)), set_up)
        case Success(tc) =>
          var sent := set_up + [Do(RequestValue(Post, cfg.endpoint, body, ConfiguredHeader(cfg.headers)), tc)];
          match ext.response
          case Failure(e) => (Failed(e), sent)
          case Success(status) =>
            var read := sent + [ReadAll, CloseBody];
            match ext.body
            case Failure(e) => (Failed(e), read)
            case Success(b) => (Classify(status, b), read)
  }

  /** Where a call sits in the pipeline: render, build the request, set up TLS, execute, read, close. */
  function Stage(c: Call): nat
  {
    match c
    case Render => 0
    case NewRequest(_, _, _) => 1
    case SetupTls => 2
    case Do(_, _) => 3
    case ReadAll => 4
    case CloseBody => 5
  }

  /** How many times the request is executed. */
  function Attempts(trace: seq<Call>): nat
    decreases |trace|
  {
    if trace == [] then 0 else (if trace[0].Do? then 1 else 0) + Attempts(trace[1..])
  }

  /** A render error is returned as it is, and nothing after the renderer is called. */
  lemma RenderFailureShortCircuits(cfg: AppDynamicsConfig, ext: External)
    requires ext.render.Failure?
    ensures Expected(cfg, ext).0 == Failed(ext.render.error)
    ensures Expected(cfg, ext).1 == [Render]
  {
  }

  /** The calls come in pipeline order, none skipped or repeated; a failure only cuts the sequence short. */
  lemma CallsInOrder(cfg: AppDynamicsConfig, ext: External)
    ensures var trace := Expected(cfg, ext).1;
      1 <= |trace| <= 6 && forall i :: 0 <= i < |trace| ==> Stage(trace[i]) == i
  {
  }

  /** The request is created with the enveloped rendering as its body, and executed with it and the configured headers. */
  lemma RequestCarriesEnvelope(cfg: AppDynamicsConfig, ext: External)
    requires ext.render.Success?
    ensures var trace := Expected(cfg, ext).1;
      |trace| >= 2 && trace[1] == NewRequest(Post, cfg.endpoint, Envelope(ext.render.value))
      && forall i :: 0 <= i < |trace| && trace[i].Do? ==>
           trace[i].request == RequestValue(Post, cfg.endpoint, Envelope(ext.render.value), ConfiguredHeader(cfg.headers))
  {
  }

  /** A failure of `http.NewRequest` is returned as it is, before any header or TLS work. */
  lemma RequestFailureShortCircuits(cfg: AppDynamicsConfig, ext: External)
    requires ext.render.Success? && ext.newRequest.Some?
    ensures Expected(cfg, ext).0 == Failed(ext.newRequest.value)
    ensures |Expected(cfg, ext).1| == 2
  {
  }

  /** A TLS failure is returned wrapped with its prefix, and the request is never executed. */
  lemma TlsFailureWrapped(cfg: AppDynamicsConfig, ext: External)
    requires ext.render.Success? && ext.newRequest.None? && ext.tls.Failure?
    ensures var (outcome, trace) := Expected(cfg, ext);
      && outcome.Failed?
      && Message(outcome.err) == TlsPrefix + Message(ext.tls.error)
      && Unwrap(outcome.err) == Some(ext.tls.error)
      && Attempts(trace) == 0
  {
    ExactlyOneAttempt(cfg, ext);
  }

  /** The request is executed exactly once when rendering, request construction and TLS succeed, and never otherwise: there is no retry. */
  lemma {:induction false} ExactlyOneAttempt(cfg: AppDynamicsConfig, ext: External)
    ensures Attempts(Expected(cfg, ext).1)
         == if ext.render.Success? && ext.newRequest.None? && ext.tls.Success? then 1 else 0
  {
    var trace := Expected(cfg, ext).1;
    CallsInOrder(cfg, ext);
    AttemptsCounted(trace);
  }

  /** In a trace in pipeline order, the execution is counted once if the trace reaches it. */
  lemma {:induction false} AttemptsCounted(trace: seq<Call>)
    requires |trace| <= 6 && forall i :: 0 <= i < |trace| ==> Stage(trace[i]) == i
    ensures Attempts(trace) == if |trace| >= 4 then 1 else 0
  {
    AttemptsFrom(trace, 0);
  }

  lemma {:induction false} AttemptsFrom(trace: seq<Call>, start: nat)
    requires forall i :: 0 <= i < |trace| ==> Stage(trace[i]) == start + i
    ensures Attempts(trace) == if start <= 3 < start + |trace| then 1 else 0
    decreases |trace|
  {
    if trace != [] {
      assert trace[0].Do? <==> start == 3;
      AttemptsFrom(trace[1..], start + 1);
    }
  }

  /** Transport and body-read errors are returned as they are, after the single execution. */
  lemma ExecutionErrorsUnchanged(cfg: AppDynamicsConfig, ext: External)
    requires ext.render.Success? && ext.newRequest.None? && ext.tls.Success?
    ensures ext.response.Failure? ==> Expected(cfg, ext).0 == Failed(ext.response.error)
    ensures ext.response.Success? && ext.body.Failure? ==> Expected(cfg, ext).0 == Failed(ext.body.error)
  {
  }

  /** Once `client.Do` returns a response, its body is read and then closed, whether the read fails, the status is rejected or delivery succeeds. */
  lemma BodyClosedAfterResponse(cfg: AppDynamicsConfig, ext: External)
    requires ext.render.Success? && ext.newRequest.None? && ext.tls.Success? && ext.response.Success?
    ensures var trace := Expected(cfg, ext).1;
      |trace| == 6 && trace[4] == ReadAll && trace[5] == CloseBody
  {
  }

  /** With every call succeeding, the status alone decides: 2xx is delivered, anything else fails with the body in the message. */
  lemma StatusDecides(cfg: AppDynamicsConfig, ext: External)
    requires ext.render.Success? && ext.newRequest.None? && ext.tls.Success?
    requires ext.response.Success? && ext.body.Success?
    ensures var outcome := Expected(cfg, ext).0;
      && (outcome == Delivered <==> 200 <= ext.response.value < 300)
      && (outcome.Failed? ==> Message(outcome.err) == RejectPrefix + AsString(ext.body.value))
  {
  }

  /** Delivery is reported only after the whole pipeline ran and the status was 2xx. */
  lemma DeliveredMeansAccepted(cfg: AppDynamicsConfig, ext: External)
    requires Expected(cfg, ext).0 == Delivered
    ensures |Expected(cfg, ext).1| == 6
    ensures ext.response.Success? && 200 <= ext.response.value < 300
  {
  }

  class AppDynamicsSink {
    const cfg: AppDynamicsConfig

    constructor (cfg: AppDynamicsConfig)
      ensures this.cfg == cfg
    {
      this.cfg := cfg;
    }

    /** The no-op `Close`. */
    method Close()
      ensures unchanged(this)
    {
    }

    /** Delivers one event, given what the foreign calls return. */
    method Send(ext: External) returns (outcome: Outcome, trace: seq<Call>)
      ensures (outcome, trace) == Expected(cfg, ext)
    {
      trace := [Render];
      if ext.render.Failure? {
        return Failed(ext.render.error), trace;
      }
      var serialized := ext.render.value;

      var reqBody := new Buffer();
      reqBody.Write([OpenBracket]);
      reqBody.Write(serialized);
      reqBody.Write([CloseBracket]);
      assert reqBody.data == Envelope(serialized);

      trace := trace + [NewRequest(Post, cfg.endpoint, reqBody.data)];
      assert trace == [Render, NewRequest(Post, cfg.endpoint, Envelope(serialized))];
      if ext.newRequest.Some? {
        return Failed(ext.newRequest.value), trace;
      }
      var req := new Request(Post, cfg.endpoint, reqBody.data);

      req.AddHeader(ContentType, MediaType);
      ConfiguredHeaderEmpty();
      var pending := cfg.headers.Keys;
      while pending != {}
        invariant pending <= cfg.headers.Keys
        invariant req.body == Envelope(serialized) && req.verb == Post && req.url == cfg.endpoint
        invariant req.header == ConfiguredHeader(cfg.headers - pending)
        decreases pending
      {
        var k :| k in pending;
        ghost var done := cfg.headers - pending;
        req.AddHeader(k, cfg.headers[k]);
        ConfiguredHeaderStep(done, k, cfg.headers[k]);
        pending := pending - {k};
        assert done[k := cfg.headers[k]] == cfg.headers - pending;
      }
      assert cfg.headers - pending == cfg.headers;

      trace := trace + [SetupTls];
      if ext.tls.Failure? {
        return Failed(Errorf(TlsPrefix, ext.tls.error)), trace;
      }
      var tlsClientConfig := ext.tls.value;

      trace := trace + [Do(req.Value(), tlsClientConfig)];
      if ext.response.Failure? {
        return Failed(ext.response.error), trace;
      }
      var status := ext.response.value;

      // the deferred resp.Body.Close() runs after ReadAll whichever way Send returns
      trace := trace + [ReadAll, CloseBody];
      if ext.body.Failure? {
        return Failed(ext.body.error), trace;
      }
      outcome := Classify(status, ext.body.value);
    }
  }

  /** `NewAppDynamicsSink`: never fails and keeps the configuration as given. */
  method NewAppDynamicsSink(cfg: AppDynamicsConfig) returns (sink: AppDynamicsSink, err: Option<Error>)
    ensures fresh(sink) && sink.cfg == cfg
    ensures err == None
  {
    sink := new AppDynamicsSink(cfg);
    err := None;
  }
}
