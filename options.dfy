/**
 * Request options. A `DialOption` is a closure that edits the option record
 * `dialOptions` in place; here each option is a value of `DialOption`, its
 * effect on the record is the function `Step`, and the record itself is the
 * class `DialOptions`, whose `Apply` performs one option and is proved to
 * agree with `Step`.
 *
 * The encoders the options call (`url.Values.Encode`, `fmt.Sprint`, the
 * JSON and XML marshallers, and the multipart writer fed from `os.Open`)
 * are given by a `Platform` value, together with `http.DefaultClient`.
 */
module Options {
  import opened Types
  import Retry
  import Middleware
  import Headers
  import Encoding

  const FormType: string := "application/x-www-form-urlencoded"
  const JSONType: string := "application/json"
  const XMLType: string := "application/xml"

  /** The argument of `WithFile`. */
  datatype File = File(path: string, name: string, extras: map<string, string>)

  /** The `(buf, err)` answer of `json.Marshal` or `xml.Marshal`. */
  datatype Marshalled = Marshalled(data: seq<Byte>, err: Option<Error>)

  /**
   * What `WithFile` ends with: the multipart body and its content type, or the
   * first error of opening the file, creating the part, copying it or closing
   * the writer.
   */
  datatype FileOutcome = FileBuilt(data: seq<Byte>, formType: string) | FileFailed(err: Error)

  datatype Platform = Platform(
    encode: map<string, seq<string>> -> string,
    sprint: Encoding.GoValue -> string,
    marshalJSON: Encoding.GoValue -> Marshalled,
    marshalXML: Encoding.GoValue -> Marshalled,
    buildFile: File -> FileOutcome,
    defaultClient: HttpClient)

  /** The options, one constructor per `With...` function. */
  datatype DialOption =
    | WithMiddleware(middles: seq<Middleware.Middleware>)
    | WithDebug(debug: bool)
    | WithParam(params: map<string, string>)
    | WithQuery(value: Encoding.GoValue)
    | WithForm(form: map<string, string>)
    | WithJSON(data: Encoding.GoValue)
    | WithXML(data: Encoding.GoValue)
    | WithBody(body: Option<Payload>)
    | WithFile(file: File)
    | WithClient(clients: seq<HttpClient?>)
    | WithCookies(cookies: seq<Cookie>)
    | WithSession(session: bool)
    | WithRetry(retries: seq<Retry.RetrySource>)
    | WithTrace(trace: Option<nat>)
    | WithHeaders(headers: map<string, string>)

  /**
   * A snapshot of `dialOptions`. A nil headers map is `None`, a nil client
   * `null`, a nil body, retry or trace `None`.
   */
  datatype Config = Config(
    err: Option<Error>,
    debug: bool,
    client: HttpClient?,
    headers: Option<map<string, string>>,
    cookies: seq<Cookie>,
    query: string,
    body: Option<Payload>,
    session: bool,
    middles: seq<Middleware.Middleware>,
    retry: Option<Middleware.Middleware>,
    trace: Option<nat>)

  /** The zero `dialOptions`. */
  const Zero: Config := Config(None, false, null, None, [], "", None, false, [], None, None)

  /** Reading a possibly nil map: nil reads as empty. */
  function Base(h: Option<map<string, string>>): map<string, string>
  {
    if h.None? then map[] else h.value
  }

  /** `setHeader` on a snapshot: the map exists afterwards and only key `k` has changed. */
  function SetHeaderIn(h: Option<map<string, string>>, k: string, v: string): (r: Option<map<string, string>>)
    ensures r.Some? && k in r.value && r.value[k] == v
    ensures r.value.Keys == Base(h).Keys + {k}
    ensures forall j :: j in Base(h) && j != k ==> r.value[j] == Base(h)[j]
  {
    Some(Base(h)[k := v])
  }

  /** A successful marshal sets body and content type; a failed one records its error and nothing else. */
  function Marshal(c: Config, m: Marshalled, contentType: string): Config
  {
    if m.err.Some? then c.(err := m.err)
    else c.(body := Some(BytesPayload(m.data)), headers := SetHeaderIn(c.headers, Headers.ContentType, contentType))
  }

  /** The panic an option raises when it runs: only `WithQuery` can, on a value that is not a map or a struct. */
  function Panics(opt: DialOption, p: Platform): Option<Error>
  {
    if opt.WithQuery? then Encoding.StructValues(opt.value, p.sprint).panic else None
  }

  /** The record after running one option; an option that panics leaves it as it was. */
  function Step(c: Config, opt: DialOption, p: Platform): Config
  {
    match opt
    case WithMiddleware(ms) => c.(middles := c.middles + ms)
    case WithDebug(d) => c.(debug := d)
    case WithParam(q) => c.(query := p.encode(Encoding.SingleValues(q)))
    case WithQuery(v) =>
      var e := Encoding.StructValues(v, p.sprint);
      if e.panic.Some? then c else c.(query := p.encode(e.entries))
    case WithForm(f) =>
      c.(body := Some(TextPayload(p.encode(Encoding.SingleValues(f)))),
         headers := SetHeaderIn(c.headers, Headers.ContentType, FormType))
    case WithJSON(d) => Marshal(c, p.marshalJSON(d), JSONType)
    case WithXML(d) => Marshal(c, p.marshalXML(d), XMLType)
    case WithBody(b) => c.(body := b)
    case WithFile(f) =>
      var out := p.buildFile(f);
      if out.FileFailed? then c.(err := Some(out.err))
      else c.(body := Some(BytesPayload(out.data)), headers := SetHeaderIn(c.headers, Headers.ContentType, out.formType))
    case WithClient(cs) => c.(client := if |cs| > 0 then cs[0] else p.defaultClient)
    case WithCookies(cs) => c.(middles := c.middles + [Middleware.CookieLayer(cs)])
    case WithSession(s) => c.(session := s)
    case WithRetry(rs) =>
      var src := if |rs| > 0 then rs[0] else Retry.DefaultRetry();
      c.(retry := Some(Middleware.RetryLayer(Retry.NewRetry(src))))
    case WithTrace(t) => c.(trace := t)
    case WithHeaders(h) => c.(middles := c.middles + [Middleware.HeaderLayer(h)])
  }

  /** The record after a list of options, and the panic that stopped them, if one did. */
  datatype Applied = Applied(config: Config, panic: Option<Error>)

  /** The options applied in order; a panic stops the rest. */
  function ApplyAll(c: Config, opts: seq<DialOption>, p: Platform): Applied
    decreases |opts|
  {
    if opts == [] then Applied(c, None)
    else
      var prev := ApplyAll(c, opts[..|opts| - 1], p);
      var o := opts[|opts| - 1];
      if prev.panic.Some? then prev else Applied(Step(prev.config, o, p), Panics(o, p))
  }

  // ---------------------------------------------------------------------
  // The mutable record
  // ---------------------------------------------------------------------

  class DialOptions {
    var err: Option<Error>
    var debug: bool
    var client: HttpClient?
    var headers: Option<map<string, string>>
    var cookies: seq<Cookie>
    var query: string
    var body: Option<Payload>
    var session: bool
    var middles: seq<Middleware.Middleware>
    var retry: Option<Middleware.Middleware>
    var trace: Option<nat>

    function Snapshot(): Config
      reads this
    {
      Config(err, debug, client, headers, cookies, query, body, session, middles, retry, trace)
    }

    /** A record holding `c`: the zero record, or the copy a value receiver makes. */
    constructor (c: Config)
      ensures Snapshot() == c
    {
      err, debug, client, headers, cookies, query := c.err, c.debug, c.client, c.headers, c.cookies, c.query;
      body, session, middles, retry, trace := c.body, c.session, c.middles, c.retry, c.trace;
    }

    /** `setHeader`: allocates the map when nil, then writes key `k`. */
    method SetHeader(k: string, v: string)
      modifies this
      ensures Snapshot() == old(Snapshot()).(headers := SetHeaderIn(old(headers), k, v))
    {
      if headers.None? {
        headers := Some(map[]);
      }
      headers := Some(headers.value[k := v]);
    }

    method SetContentType(contentType: string)
      modifies this
      ensures Snapshot() == old(Snapshot()).(headers := SetHeaderIn(old(headers), Headers.ContentType, contentType))
    {
      SetHeader(Headers.ContentType, contentType);
    }

    /** Records a marshaller's answer as `WithJSON` and `WithXML` do. */
    method SetMarshalled(m: Marshalled, contentType: string)
      modifies this
      ensures Snapshot() == Marshal(old(Snapshot()), m, contentType)
    {
      if m.err.Some? {
        err := m.err;
        return;
      }
      body := Some(BytesPayload(m.data));
      SetContentType(contentType);
    }

    /** Records the outcome of `WithFile`'s multipart build. */
    method SetFile(outcome: FileOutcome)
      modifies this
      ensures Snapshot() == if outcome.FileFailed? then old(Snapshot()).(err := Some(outcome.err))
        else old(Snapshot()).(body := Some(BytesPayload(outcome.data)),
                              headers := SetHeaderIn(old(headers), Headers.ContentType, outcome.formType))
    {
      if outcome.FileFailed? {
        err := Some(outcome.err);
        return;
      }
      body := Some(BytesPayload(outcome.data));
      SetContentType(outcome.formType);
    }

    /** The options that encode values: `WithParam` and `WithQuery` set the query, `WithForm` the body. */
    method ApplyEncoded(opt: DialOption, p: Platform) returns (panic: Option<Error>)
      requires opt.WithParam? || opt.WithQuery? || opt.WithForm?
      modifies this
      ensures panic == Panics(opt, p)
      ensures Snapshot() == Step(old(Snapshot()), opt, p)
    {
      panic := None;
      if opt.WithParam? {
        var values := Encoding.MapToValues(opt.params);
        assert values.entries == Encoding.SingleValues(opt.params);
        query := p.encode(values.entries);
      } else if opt.WithQuery? {
        var values, pn := Encoding.StructToValues(opt.value, p.sprint);
        if pn.Some? {
          panic := pn;
          return;
        }
        query := p.encode(values.entries);
      } else {
        var values := Encoding.MapToValues(opt.form);
        assert values.entries == Encoding.SingleValues(opt.form);
        body := Some(TextPayload(p.encode(values.entries)));
        SetContentType(FormType);
      }
    }

    /** Runs one option on this record. */
    method Apply(opt: DialOption, p: Platform) returns (panic: Option<Error>)
      modifies this
      ensures panic == Panics(opt, p)
      ensures Snapshot() == Step(old(Snapshot()), opt, p)
    {
      if opt.WithParam? || opt.WithQuery? || opt.WithForm? {
        panic := ApplyEncoded(opt, p);
        return;
      }
      panic := None;
      if opt.WithJSON? {
        SetMarshalled(p.marshalJSON(opt.data), JSONType);
      } else if opt.WithXML? {
        SetMarshalled(p.marshalXML(opt.data), XMLType);
      } else if opt.WithFile? {
        SetFile(p.buildFile(opt.file));
      } else {
        ApplySetting(opt, p);
      }
    }

    /** The options that set one field, or append to the middlewares. */
    method ApplySetting(opt: DialOption, p: Platform)
      requires !(opt.WithParam? || opt.WithQuery? || opt.WithForm? || opt.WithJSON? || opt.WithXML? || opt.WithFile?)
      modifies this
      ensures Snapshot() == Step(old(Snapshot()), opt, p)
    {
      match opt
      case WithMiddleware(ms) => middles := middles + ms;
      case WithDebug(d) => debug := d;
      case WithBody(b) => body := b;
      case WithClient(cs) =>
        if |cs| > 0 {
          client := cs[0];
        } else {
          client := p.defaultClient;
        }
      case WithCookies(cs) => middles := middles + [Middleware.CookieLayer(cs)];
      case WithSession(s) => session := s;
      case WithRetry(rs) =>
        var src;
        if |rs| > 0 {
          src := rs[0];
        } else {
          src := Retry.DefaultRetry();
        }
        retry := Some(Middleware.RetryLayer(Retry.NewRetry(src)));
      case WithTrace(t) => trace := t;
      case WithHeaders(h) => middles := middles + [Middleware.HeaderLayer(h)];
    }

    /** The loop of `New` and `do`: every option in order, until one panics. */
    method ApplyEach(opts: seq<DialOption>, p: Platform) returns (panic: Option<Error>)
      modifies this
      ensures Applied(Snapshot(), panic) == ApplyAll(old(Snapshot()), opts, p)
    {
      ghost var c0 := Snapshot();
      panic := None;
      var i := 0;
      while i < |opts| && panic.None?
        invariant 0 <= i <= |opts|
        invariant Applied(Snapshot(), panic) == ApplyAll(c0, opts[..i], p)
      {
        assert opts[..i + 1][..i] == opts[..i];
        panic := Apply(opts[i], p);
        i := i + 1;
      }
      if panic.Some? {
        ApplyAllStops(c0, opts, i, p);
      } else {
        assert opts[..i] == opts;
      }
    }
  }

  // ---------------------------------------------------------------------
  // Properties of the options
  // ---------------------------------------------------------------------

  /** Once a panic has stopped the options, later options change nothing. */
  lemma {:induction false} ApplyAllStops(c: Config, opts: seq<DialOption>, i: nat, p: Platform)
    requires i <= |opts| && ApplyAll(c, opts[..i], p).panic.Some?
    ensures ApplyAll(c, opts, p) == ApplyAll(c, opts[..i], p)
    decreases |opts| - i
  {
    if i < |opts| {
      assert opts[..i + 1][..i] == opts[..i];
      ApplyAllStops(c, opts, i + 1, p);
    } else {
      assert opts[..i] == opts;
    }
  }

  /** The error an option records when it runs, independently of the record. */
  function Failure(opt: DialOption, p: Platform): Option<Error>
  {
    match opt
    case WithJSON(d) => p.marshalJSON(d).err
    case WithXML(d) => p.marshalXML(d).err
    case WithFile(f) => if p.buildFile(f).FileFailed? then Some(p.buildFile(f).err) else None
    case _ => None
  }

  /** No option clears `err`; a failing option overwrites it with its own error. */
  lemma StepError(c: Config, opt: DialOption, p: Platform)
    ensures Step(c, opt, p).err == if Failure(opt, p).Some? then Failure(opt, p) else c.err
    ensures c.err.Some? ==> Step(c, opt, p).err.Some?
  {
  }

  /** The error of the last failing option in a list, or `e` when none fails. */
  function LastFailure(opts: seq<DialOption>, p: Platform, e: Option<Error>): (r: Option<Error>)
    ensures e.Some? ==> r.Some?
    decreases |opts|
  {
    if opts == [] then e
    else
      var f := Failure(opts[|opts| - 1], p);
      if f.Some? then f else LastFailure(opts[..|opts| - 1], p, e)
  }

  /** Over a list of options that did not panic, the recorded error is the last failure's. */
  lemma {:induction false} ApplyAllError(c: Config, opts: seq<DialOption>, p: Platform)
    requires ApplyAll(c, opts, p).panic.None?
    ensures ApplyAll(c, opts, p).config.err == LastFailure(opts, p, c.err)
    decreases |opts|
  {
    if opts != [] {
      var init := opts[..|opts| - 1];
      ApplyAllError(c, init, p);
      StepError(ApplyAll(c, init, p).config, opts[|opts| - 1], p);
    }
  }

  /** The middlewares an option appends. */
  function Added(opt: DialOption): seq<Middleware.Middleware>
  {
    match opt
    case WithMiddleware(ms) => ms
    case WithHeaders(h) => [Middleware.HeaderLayer(h)]
    case WithCookies(cs) => [Middleware.CookieLayer(cs)]
    case _ => []
  }

  function AddedAll(opts: seq<DialOption>): seq<Middleware.Middleware>
    decreases |opts|
  {
    if opts == [] then [] else AddedAll(opts[..|opts| - 1]) + Added(opts[|opts| - 1])
  }

  /** `WithMiddleware`, `WithHeaders` and `WithCookies` append after what is there; nothing else touches the list. */
  lemma StepMiddles(c: Config, opt: DialOption, p: Platform)
    ensures Step(c, opt, p).middles == c.middles + Added(opt)
  {
  }

  /** Over a list of options, the middlewares are the existing ones followed by each option's, in order. */
  lemma {:induction false} ApplyAllMiddles(c: Config, opts: seq<DialOption>, p: Platform)
    requires ApplyAll(c, opts, p).panic.None?
    ensures ApplyAll(c, opts, p).config.middles == c.middles + AddedAll(opts)
    decreases |opts|
  {
    if opts != [] {
      var init := opts[..|opts| - 1];
      ApplyAllMiddles(c, init, p);
      StepMiddles(ApplyAll(c, init, p).config, opts[|opts| - 1], p);
    }
  }

  /** The fields of the record, for stating what an option leaves alone. */
  datatype FieldName = ErrField | DebugField | ClientField | HeadersField | CookiesField
    | QueryField | BodyField | SessionField | MiddlesField | RetryField | TraceField

  ghost predicate Agree(a: Config, b: Config, f: FieldName)
  {
    match f
    case ErrField => a.err == b.err
    case DebugField => a.debug == b.debug
    case ClientField => a.client == b.client
    case HeadersField => a.headers == b.headers
    case CookiesField => a.cookies == b.cookies
    case QueryField => a.query == b.query
    case BodyField => a.body == b.body
    case SessionField => a.session == b.session
    case MiddlesField => a.middles == b.middles
    case RetryField => a.retry == b.retry
    case TraceField => a.trace == b.trace
  }

  /** The fields an option may write. No option writes `cookies`. */
  predicate Writes(opt: DialOption, f: FieldName)
  {
    match opt
    case WithMiddleware(_) => f == MiddlesField
    case WithDebug(_) => f == DebugField
    case WithParam(_) => f == QueryField
    case WithQuery(_) => f == QueryField
    case WithForm(_) => f == BodyField || f == HeadersField
    case WithJSON(_) => f == ErrField || f == BodyField || f == HeadersField
    case WithXML(_) => f == ErrField || f == BodyField || f == HeadersField
    case WithBody(_) => f == BodyField
    case WithFile(_) => f == ErrField || f == BodyField || f == HeadersField
    case WithClient(_) => f == ClientField
    case WithCookies(_) => f == MiddlesField
    case WithSession(_) => f == SessionField
    case WithRetry(_) => f == RetryField
    case WithTrace(_) => f == TraceField
    case WithHeaders(_) => f == MiddlesField
  }

  /** Every option leaves the fields it does not write as they were. */
  lemma StepFrame(c: Config, opt: DialOption, p: Platform, f: FieldName)
    requires !Writes(opt, f)
    ensures Agree(c, Step(c, opt, p), f)
  {
    if opt.WithForm? || opt.WithJSON? || opt.WithXML? || opt.WithFile? {
      BodyOptionFrame(c, opt, p, f);
    }
  }

  /** The options that set a body write at most `err`, `body` and `headers`. */
  lemma BodyOptionFrame(c: Config, opt: DialOption, p: Platform, f: FieldName)
    requires opt.WithForm? || opt.WithJSON? || opt.WithXML? || opt.WithFile?
    requires !Writes(opt, f)
    ensures Agree(c, Step(c, opt, p), f)
  {
    var r := Step(c, opt, p);
    assert r == c.(err := r.err, body := r.body, headers := r.headers);
  }

  /** A failed marshal records the error and leaves body and headers alone; a successful one sets both. */
  lemma MarshalOutcome(c: Config, d: Encoding.GoValue, p: Platform)
    ensures p.marshalJSON(d).err.Some? ==> Step(c, WithJSON(d), p) == c.(err := p.marshalJSON(d).err)
    ensures p.marshalXML(d).err.Some? ==> Step(c, WithXML(d), p) == c.(err := p.marshalXML(d).err)
    ensures p.marshalJSON(d).err.None? ==>
      var r := Step(c, WithJSON(d), p);
      && r.body == Some(BytesPayload(p.marshalJSON(d).data)) && r.err == c.err
      && r.headers.Some? && r.headers.value == Base(c.headers)[Headers.ContentType := JSONType]
    ensures p.marshalXML(d).err.None? ==>
      var r := Step(c, WithXML(d), p);
      && r.body == Some(BytesPayload(p.marshalXML(d).data)) && r.err == c.err
      && r.headers.Some? && r.headers.value == Base(c.headers)[Headers.ContentType := XMLType]
  {
  }

  /** A form becomes the body, encoded, with the form content type; other headers stay. */
  lemma FormSetsBody(c: Config, form: map<string, string>, p: Platform)
    ensures var r := Step(c, WithForm(form), p);
      && r.body == Some(TextPayload(p.encode(Encoding.SingleValues(form))))
      && r.headers.Some? && r.headers.value[Headers.ContentType] == FormType
      && forall k :: k in Base(c.headers) && k != Headers.ContentType ==> r.headers.value[k] == Base(c.headers)[k]
  {
  }

  /** `WithClient` takes the first client given, or the default client when given none. */
  lemma ClientChoice(c: Config, cs: seq<HttpClient?>, p: Platform)
    ensures |cs| > 0 ==> Step(c, WithClient(cs), p).client == cs[0]
    ensures |cs| == 0 ==> Step(c, WithClient(cs), p).client == p.defaultClient
  {
  }

  /** `WithRetry` installs the default retry when none is given, and replaces any earlier retry layer. */
  lemma RetryReplaces(c: Config, rs: seq<Retry.RetrySource>, later: seq<Retry.RetrySource>, p: Platform)
    ensures |rs| == 0 ==> Step(c, WithRetry(rs), p).retry == Some(Middleware.RetryLayer(Retry.NewRetry(Retry.DefaultRetry())))
    ensures Step(Step(c, WithRetry(rs), p), WithRetry(later), p) == Step(c, WithRetry(later), p)
  {
  }

  predicate SetsQuery(opt: DialOption)
  {
    opt.WithParam? || opt.WithQuery?
  }

  /** `WithParam` and `WithQuery` overwrite the query: of two, the second one that runs wins. */
  lemma LastQueryWins(c: Config, first: DialOption, second: DialOption, p: Platform)
    requires SetsQuery(first) && SetsQuery(second) && Panics(second, p).None?
    ensures Step(Step(c, first, p), second, p) == Step(c, second, p)
  {
  }

  /** `WithQuery` of a value that is neither a map nor a struct (after one dereference) panics and sets nothing. */
  lemma QueryOfScalarPanics(c: Config, repr: string, p: Platform)
    ensures Panics(WithQuery(Encoding.Scalar(repr)), p) == Some(Encoding.NotStructPanic)
    ensures Panics(WithQuery(Encoding.Pointer(Encoding.Scalar(repr))), p) == Some(Encoding.NotStructPanic)
    ensures Step(c, WithQuery(Encoding.Scalar(repr)), p) == c
  {
  }

  /** The session flag after a list of options is the last `WithSession`'s, if any. */
  function LastSession(opts: seq<DialOption>, s: bool): bool
    decreases |opts|
  {
    if opts == [] then s
    else if opts[|opts| - 1].WithSession? then opts[|opts| - 1].session
    else LastSession(opts[..|opts| - 1], s)
  }

  lemma {:induction false} ApplyAllSession(c: Config, opts: seq<DialOption>, p: Platform)
    requires ApplyAll(c, opts, p).panic.None?
    ensures ApplyAll(c, opts, p).config.session == LastSession(opts, c.session)
    decreases |opts|
  {
    if opts != [] {
      ApplyAllSession(c, opts[..|opts| - 1], p);
    }
  }

  /** Applying two lists is applying their concatenation. */
  lemma {:induction false} ApplyAllAppend(c: Config, xs: seq<DialOption>, ys: seq<DialOption>, p: Platform)
    requires ApplyAll(c, xs, p).panic.None?
    ensures ApplyAll(c, xs + ys, p) == ApplyAll(ApplyAll(c, xs, p).config, ys, p)
    decreases |ys|
  {
    if ys == [] {
      assert xs + ys == xs;
    } else {
      var ys' := ys[..|ys| - 1];
      assert (xs + ys)[..|xs + ys| - 1] == xs + ys';
      ApplyAllAppend(c, xs, ys', p);
    }
  }
}
