/**
 * The request client: `New` and `Session` build a `Client` from options,
 * and `do` applies per-call options to a copy of the client's record,
 * assembles the request and the middleware chain, and runs the chain around
 * `exec`, the terminal handler that calls `client.Do`.
 *
 * The environment is an oracle: whether `http.NewRequestWithContext`
 * accepts the method and URL, what `client.Do` does on the n-th terminal
 * call (it returns, with the cookies its responses set, or panics),
 * whether the request's context is done when `exec` waits, whether
 * cancellation beats a backoff timer, the order in which `range` visits a
 * header map, and what a caller's own middleware does.
 */
module Requests {
  import opened Types
  import Retry
  import Headers
  import Middleware
  import Options

  /** The value `recover()` hands to `exec`'s deferred function. */
  datatype PanicValue = StringPanic(text: string) | ErrorPanic(err: Error) | OtherPanic

  const UnknownPanic: Error := "unknown panic"

  /** The error `exec` sends for a recovered panic. */
  function Recovered(v: PanicValue): Error
  {
    match v
    case StringPanic(x) => x
    case ErrorPanic(e) => e
    case OtherPanic => UnknownPanic
  }

  /**
   * What `client.Do(request)` does inside `exec`'s goroutine: it returns,
   * having received responses that set `setCookies`, or it panics.
   */
  datatype ClientDo = Returned(resp: Option<HttpResponse>, err: Option<Error>, setCookies: seq<Cookie>) | Panicked(value: PanicValue)

  /** `exec`: once the context is done its error wins; otherwise the call's result, a panic turned into an error. */
  function Exec(outcome: ClientDo, ctxErr: Option<Error>): Attempt
  {
    if ctxErr.Some? then Attempt(None, ctxErr)
    else match outcome
      case Returned(resp, err, _) => Attempt(resp, err)
      case Panicked(v) => Attempt(None, Some(Recovered(v)))
  }

  /**
   * A panic never escapes `exec`: it comes back as an error with no
   * response, carrying the panic's text, the panic's error itself, or
   * "unknown panic".
   */
  lemma ExecRecovers(v: PanicValue)
    ensures Exec(Panicked(v), None).resp.None? && Exec(Panicked(v), None).err.Some?
    ensures v.StringPanic? ==> Exec(Panicked(v), None).err == Some(v.text)
    ensures v.ErrorPanic? ==> Exec(Panicked(v), None).err == Some(v.err)
    ensures v.OtherPanic? ==> Exec(Panicked(v), None).err == Some(UnknownPanic)
  {
  }

  /** `exec` returns what the handler returned exactly when the context is not done; else `(nil, ctx.Err())`. */
  lemma ExecResult(outcome: ClientDo, ctxErr: Option<Error>)
    ensures ctxErr.Some? ==> Exec(outcome, ctxErr) == Attempt(None, ctxErr)
    ensures ctxErr.None? && outcome.Returned? ==> Exec(outcome, ctxErr) == Attempt(outcome.resp, outcome.err)
  {
  }

  datatype Net = Net(
    newRequest: (string, string) -> Option<Error>,
    clientDo: (nat, Request, Option<Jar>) -> ClientDo,
    ctxErr: nat -> Option<Error>,
    cancel: nat -> Option<Error>,
    order: map<string, string> -> seq<string>,
    custom: (nat, Middleware.World, Middleware.World -> (Attempt, Middleware.World)) -> (Attempt, Middleware.World))

  /** The cookies the n-th terminal call's responses set; a panicking call is taken to set none. */
  function SetCookiesOf(d: ClientDo): seq<Cookie>
  {
    if d.Returned? then d.setCookies else []
  }

  /** The terminal handler, the backoff timer and the other oracles the chain runs over. */
  function EnvOf(net: Net): Middleware.Env
  {
    Middleware.Env((n: nat, q: Request, j: Option<Jar>) => Exec(net.clientDo(n, q, j), net.ctxErr(n)),
                   (n: nat, q: Request, j: Option<Jar>) => SetCookiesOf(net.clientDo(n, q, j)),
                   net.cancel, net.order, net.custom)
  }

  /** The `*Response` `do` returns: nil, or a wrapper around a possibly nil `*http.Response`. */
  datatype Reply = NoReply | Reply(resp: Option<HttpResponse>)

  /** The URL `do` requests: the query, when there is one, after a `?`. */
  function FullURL(url: string, query: string): (r: string)
    ensures query == "" ==> r == url
    ensures query != "" ==> |r| == |url| + 1 + |query| && r[..|url|] == url && r[|url|] == '?' && r[|url| + 1..] == query
  {
    if query != "" then url + "?" + query else url
  }

  /** The middlewares `do` chains: the logger first in debug mode, the retry layer last when set. */
  function ChainOf(c: Options.Config): seq<Middleware.Middleware>
  {
    (if c.debug then [Middleware.Logger] else []) + c.middles + (if c.retry.Some? then [c.retry.value] else [])
  }

  /** The request `do` builds, before any middleware runs: the option headers `Set` in `range` order. */
  function RequestOf(c: Options.Config, verb: string, url: string, order: map<string, string> -> seq<string>): Request
  {
    var hs := Options.Base(c.headers);
    Request(verb, url, Headers.Overwrite(map[], hs, order(hs)), c.body, c.trace)
  }

  /** The client `do` uses. */
  function ClientOf(c: Options.Config, p: Options.Platform): HttpClient
  {
    if c.client == null then p.defaultClient else c.client
  }

  /**
   * What `do` does once the options have run, given the jar its client holds:
   * the reply, the error, the client's jar afterwards and the chain's trace.
   */
  datatype Outcome = Outcome(reply: Reply, err: Option<Error>, jar: Option<Jar>, trace: seq<Middleware.Event>)

  function Dispatch(c: Options.Config, verb: string, url: string, jar: Option<Jar>, net: Net): Outcome
  {
    if c.err.Some? then Outcome(NoReply, c.err, jar, [])
    else
      var u := FullURL(url, c.query);
      var reqErr := net.newRequest(verb, u);
      if reqErr.Some? then Outcome(NoReply, reqErr, jar, []) else Launch(c, verb, u, jar, net)
  }

  /** Running the chain on the built request to `u`: the jar is dropped outside session mode. */
  function Launch(c: Options.Config, verb: string, u: string, jar: Option<Jar>, net: Net): Outcome
  {
    var start := Middleware.World(if c.session then jar else None, RequestOf(c, verb, u, net.order), 0, []);
    var r := Middleware.Serve(Middleware.Compose(ChainOf(c), Middleware.Exec), start, EnvOf(net));
    Outcome(Reply(r.0.resp), r.0.err, r.1.jar, r.1.trace)
  }

  /** The clients `WithClient` options pick, in order. */
  function Given(opts: seq<Options.DialOption>, p: Options.Platform): seq<HttpClient?>
    decreases |opts|
  {
    if opts == [] then []
    else
      var o := opts[|opts| - 1];
      Given(opts[..|opts| - 1], p) + (if o.WithClient? then [if |o.clients| > 0 then o.clients[0] else p.defaultClient] else [])
  }

  /** The clients a call may touch: the record's, one named by an option, or the default client. */
  function Candidates(c: Options.Config, opts: seq<Options.DialOption>, p: Options.Platform): set<HttpClient>
  {
    (set x: HttpClient | x in Given(opts, p) + [c.client]) + {p.defaultClient}
  }

  /** After the options, the client is the record's or the last one an option picked. */
  lemma {:induction false} ClientFromCandidates(c: Options.Config, opts: seq<Options.DialOption>, p: Options.Platform)
    ensures var k := Options.ApplyAll(c, opts, p).config.client;
      k == c.client || k in Given(opts, p)
    decreases |opts|
  {
    if opts != [] {
      var init := opts[..|opts| - 1];
      var o := opts[|opts| - 1];
      ClientFromCandidates(c, init, p);
      var prev := Options.ApplyAll(c, init, p);
      if prev.panic.None? && !o.WithClient? {
        Options.StepFrame(prev.config, o, p, Options.ClientField);
      }
    }
  }

  class Client {
    var opts: Options.DialOptions

    /** `&Client{}`: the zero record. */
    constructor ()
      ensures fresh(opts) && opts.Snapshot() == Options.Zero
    {
      opts := new Options.DialOptions(Options.Zero);
    }

    /**
     * `do`: the receiver is a copy, so per-call options never reach the
     * stored record. A panicking option ends the call; a recorded error
     * returns it before anything is built; a rejected method or URL
     * returns that error; otherwise the chain runs and its result is
     * wrapped, error or not. The only object written is the client used:
     * its jar is cleared outside session mode, and a cookie layer may set it.
     */
    method Do(verb: string, url: string, callOpts: seq<Options.DialOption>, p: Options.Platform, net: Net)
      returns (reply: Reply, err: Option<Error>, panic: Option<Error>)
      modifies Candidates(opts.Snapshot(), callOpts, p)
      ensures opts == old(opts) && opts.Snapshot() == old(opts.Snapshot())
      ensures var a := Options.ApplyAll(old(opts.Snapshot()), callOpts, p);
        && panic == a.panic
        && (panic.Some? ==> reply == NoReply && err.None?)
        && (panic.None? ==>
             var k := ClientOf(a.config, p);
             var o := Dispatch(a.config, verb, url, old(k.jar), net);
             reply == o.reply && err == o.err && k.jar == o.jar)
      ensures forall x | old(allocated(x)) && x in Candidates(old(opts.Snapshot()), callOpts, p) ::
        x.jar == old(x.jar) || (panic.None? && x == ClientOf(Options.ApplyAll(old(opts.Snapshot()), callOpts, p).config, p))
    {
      ghost var c0 := opts.Snapshot();
      ghost var cands := Candidates(c0, callOpts, p);
      var local := new Options.DialOptions(opts.Snapshot());
      panic := local.ApplyEach(callOpts, p);
      reply, err := NoReply, None;
      if panic.Some? {
        return;
      }
      ClientFromCandidates(c0, callOpts, p);
      ghost var cfg := local.Snapshot();
      assert cfg == Options.ApplyAll(c0, callOpts, p).config;
      ghost var k := ClientOf(cfg, p);
      assert k in cands;
      assert k.jar == old(k.jar);
      reply, err := Send(local, verb, url, p, net);
    }
  }

  /**
   * The part of `do` after the options: it returns the recorded error, or
   * builds the URL and the request, or returns the request error, or runs
   * the chain.
   */
  method Send(local: Options.DialOptions, verb: string, url: string, p: Options.Platform, net: Net)
    returns (reply: Reply, err: Option<Error>)
    modifies local, ClientOf(local.Snapshot(), p)
    ensures var k := ClientOf(old(local.Snapshot()), p);
      var o := Dispatch(old(local.Snapshot()), verb, url, old(k.jar), net);
      reply == o.reply && err == o.err && k.jar == o.jar
  {
    reply, err := NoReply, None;
    if local.err.Some? {
      err := local.err;
      return;
    }
    var u := url;
    if local.query != "" {
      u := u + "?" + local.query;
    }
    var reqErr := net.newRequest(verb, u);
    if reqErr.Some? {
      err := reqErr;
      return;
    }
    reply, err := Run(local, verb, u, p, net);
  }

  /** The end of `do`: headers, client, jar, middleware order, and the chain around `exec`. */
  method Run(local: Options.DialOptions, verb: string, u: string, p: Options.Platform, net: Net)
    returns (reply: Reply, err: Option<Error>)
    modifies local, ClientOf(local.Snapshot(), p)
    ensures var k := ClientOf(old(local.Snapshot()), p);
      var o := Launch(old(local.Snapshot()), verb, u, old(k.jar), net);
      reply == o.reply && err == o.err && k.jar == o.jar
  {
    ghost var c := local.Snapshot();
    ghost var jar0 := ClientOf(c, p).jar;
    var header := Headers.SetHeaders(map[], Options.Base(local.headers), net.order(Options.Base(local.headers)));
    var request := Request(verb, u, header, local.body, local.trace);
    assert request == RequestOf(c, verb, u, net.order);
    var client := local.client;
    if client == null {
      client := p.defaultClient;
      local.client := client;
    }
    if !local.session {
      client.jar := None;
    }
    if local.debug {
      local.middles := [Middleware.Logger] + local.middles;
    }
    if local.retry.Some? {
      local.middles := local.middles + [local.retry.value];
    }
    assert local.middles == ChainOf(c);
    var h := Middleware.Chain(local.middles, Middleware.Exec);
    var start := Middleware.World(client.jar, request, 0, []);
    assert start == Middleware.World(if c.session then jar0 else None, RequestOf(c, verb, u, net.order), 0, []);
    var r := Middleware.Serve(h, start, EnvOf(net));
    client.jar := r.1.jar;
    reply, err := Reply(r.0.resp), r.0.err;
  }

  /** `New`: the options run in order on the zero record; a panicking option ends it without a client. */
  method New(opts: seq<Options.DialOption>, p: Options.Platform) returns (client: Client?, panic: Option<Error>)
    ensures panic == Options.ApplyAll(Options.Zero, opts, p).panic
    ensures panic.None? <==> client != null
    ensures client != null ==>
      (fresh(client) && fresh(client.opts) && client.opts.Snapshot() == Options.ApplyAll(Options.Zero, opts, p).config)
  {
    var c := new Client();
    panic := c.opts.ApplyEach(opts, p);
    client := if panic.None? then c else null;
  }

  /** `Session`: `New` with `WithSession(true)` run last. */
  method Session(opts: seq<Options.DialOption>, p: Options.Platform) returns (client: Client?, panic: Option<Error>)
    ensures panic == Options.ApplyAll(Options.Zero, opts + [Options.WithSession(true)], p).panic
    ensures panic.None? <==> client != null
    ensures client != null ==>
      (&& fresh(client) && fresh(client.opts)
       && client.opts.Snapshot() == Options.ApplyAll(Options.Zero, opts + [Options.WithSession(true)], p).config
       && client.opts.Snapshot().session)
  {
    client, panic := New(opts + [Options.WithSession(true)], p);
    if client != null {
      SessionWins(Options.Zero, opts, p);
    }
  }

  // ---------------------------------------------------------------------
  // Properties of request assembly
  // ---------------------------------------------------------------------

  /** `WithSession(true)` run last turns session mode on, whatever came before. */
  lemma SessionWins(c: Options.Config, opts: seq<Options.DialOption>, p: Options.Platform)
    requires Options.ApplyAll(c, opts + [Options.WithSession(true)], p).panic.None?
    ensures Options.ApplyAll(c, opts + [Options.WithSession(true)], p).config.session
  {
    var all := opts + [Options.WithSession(true)];
    assert all[..|all| - 1] == opts;
  }

  /** A recorded option error is returned before any request is built or any handler runs. */
  lemma ErrorShortCircuits(c: Options.Config, verb: string, url: string, jar: Option<Jar>, net: Net)
    requires c.err.Some?
    ensures Dispatch(c, verb, url, jar, net) == Outcome(NoReply, c.err, jar, [])
  {
  }

  /**
   * Once the request is built the call always answers with a wrapper,
   * whether or not the chain failed, and the error is the chain's.
   */
  lemma RepliesOnceBuilt(c: Options.Config, verb: string, url: string, jar: Option<Jar>, net: Net)
    requires c.err.None? && net.newRequest(verb, FullURL(url, c.query)).None?
    ensures Dispatch(c, verb, url, jar, net).reply.Reply?
  {
  }

  /** The layers around `exec`: logger outermost in debug mode, then the caller's, then retry innermost. */
  lemma {:induction false} ChainLayout(c: Options.Config)
    ensures Middleware.Layers(Middleware.Compose(ChainOf(c), Middleware.Exec)) == ChainOf(c)
    ensures c.debug ==> ChainOf(c)[0] == Middleware.Logger
    ensures c.retry.Some? ==> ChainOf(c)[|ChainOf(c)| - 1] == c.retry.value
    ensures !c.debug && c.retry.None? ==> ChainOf(c) == c.middles
  {
    Middleware.LayersCompose(ChainOf(c), Middleware.Exec);
    assert Middleware.Layers(Middleware.Exec) == [];
  }

  /** The middlewares of a record hold no caller-supplied layer. */
  predicate LibraryOnly(c: Options.Config)
  {
    && (forall i | 0 <= i < |c.middles| :: !c.middles[i].Custom?)
    && (c.retry.None? || !c.retry.value.Custom?)
  }

  /** The middlewares of a record hold no cookie layer. */
  predicate NoCookieOptions(c: Options.Config)
  {
    && (forall i | 0 <= i < |c.middles| :: !c.middles[i].CookieLayer?)
    && (c.retry.None? || !c.retry.value.CookieLayer?)
  }

  /** The chain `do` builds is made of the record's layers, with the logger and the retry layer. */
  lemma {:induction false} ChainFrom(c: Options.Config)
    ensures NoCookieOptions(c) ==> Middleware.NoCookieLayer(Middleware.Compose(ChainOf(c), Middleware.Exec))
    ensures LibraryOnly(c) ==> Middleware.NoCustomLayer(Middleware.Compose(ChainOf(c), Middleware.Exec))
  {
    ChainLayout(c);
    var ms := ChainOf(c);
    var d := if c.debug then 1 else 0;
    forall i | d <= i < d + |c.middles| ensures ms[i] == c.middles[i - d] {
    }
  }

  /**
   * With the library's own middlewares, every terminal call is sent to the
   * method, the URL with its query, the body and the trace `do` built.
   */
  lemma {:induction false} SentAsBuilt(c: Options.Config, verb: string, url: string, jar: Option<Jar>, net: Net)
    requires c.err.None? && net.newRequest(verb, FullURL(url, c.query)).None?
    requires LibraryOnly(c)
    ensures var o := Dispatch(c, verb, url, jar, net);
      forall i | 0 <= i < |o.trace| && o.trace[i].Sent? ::
        && o.trace[i].request.verb == verb && o.trace[i].request.url == FullURL(url, c.query)
        && o.trace[i].request.body == c.body && o.trace[i].request.trace == c.trace
  {
    var u := FullURL(url, c.query);
    var start := Middleware.World(if c.session then jar else None, RequestOf(c, verb, u, net.order), 0, []);
    var h := Middleware.Compose(ChainOf(c), Middleware.Exec);
    ChainFrom(c);
    Middleware.TargetUntouched(h, start, EnvOf(net));
    var o := Dispatch(c, verb, url, jar, net);
    assert o.trace == o.trace[|start.trace|..];
    forall i | 0 <= i < |o.trace| && o.trace[i].Sent?
      ensures Middleware.TargetOf(o.trace[i].request) == Middleware.TargetOf(start.request)
    {
      assert Middleware.Fits(o.trace[i], Middleware.TargetIs(Middleware.TargetOf(start.request)));
    }
  }

  /** What `Run` starts its chain with, and every jar a terminal call and the client then get. */
  lemma {:induction false} JarsFromStart(c: Options.Config, verb: string, url: string, jar: Option<Jar>, net: Net)
    requires c.err.None? && net.newRequest(verb, FullURL(url, c.query)).None?
    requires NoCookieOptions(c) && LibraryOnly(c)
    ensures var o := Dispatch(c, verb, url, jar, net);
      var j := if c.session then jar else None;
      && Middleware.JarExtends(o.jar, j)
      && forall i | 0 <= i < |o.trace| && o.trace[i].Sent? :: Middleware.JarExtends(o.trace[i].jar, j)
  {
    var u := FullURL(url, c.query);
    var start := Middleware.World(if c.session then jar else None, RequestOf(c, verb, u, net.order), 0, []);
    var h := Middleware.Compose(ChainOf(c), Middleware.Exec);
    ChainFrom(c);
    Middleware.JarOnlyGrows(h, start, EnvOf(net));
    var o := Dispatch(c, verb, url, jar, net);
    assert o.trace == o.trace[|start.trace|..];
    forall i | 0 <= i < |o.trace| && o.trace[i].Sent? ensures Middleware.JarExtends(o.trace[i].jar, start.jar) {
      assert Middleware.Fits(o.trace[i], Middleware.JarFrom(start.jar));
    }
  }

  /**
   * Outside session mode, with the library's layers and no cookie options,
   * no terminal call carries a cookie jar and the client is left without
   * one, so no cookie a response sets is kept.
   */
  lemma NoSessionNoJar(c: Options.Config, verb: string, url: string, jar: Option<Jar>, net: Net)
    requires !c.session && c.err.None? && net.newRequest(verb, FullURL(url, c.query)).None?
    requires NoCookieOptions(c) && LibraryOnly(c)
    ensures var o := Dispatch(c, verb, url, jar, net);
      && o.jar.None?
      && forall i | 0 <= i < |o.trace| && o.trace[i].Sent? :: o.trace[i].jar.None?
  {
    JarsFromStart(c, verb, url, jar, net);
  }

  /**
   * In session mode the client keeps its jar from call to call: a call
   * with the library's layers sends every request with the jar the
   * previous call left, plus what its own responses set, and leaves a jar
   * extending it; so a later call sees every cookie an earlier one stored.
   */
  lemma SessionKeepsCookies(c1: Options.Config, c2: Options.Config, verb: string, url: string,
                            jar: Option<Jar>, net1: Net, net2: Net)
    requires c1.session && c2.session
    requires c1.err.None? && net1.newRequest(verb, FullURL(url, c1.query)).None? && NoCookieOptions(c1) && LibraryOnly(c1)
    requires c2.err.None? && net2.newRequest(verb, FullURL(url, c2.query)).None? && NoCookieOptions(c2) && LibraryOnly(c2)
    ensures var o1 := Dispatch(c1, verb, url, jar, net1);
      var o2 := Dispatch(c2, verb, url, o1.jar, net2);
      && Middleware.JarExtends(o1.jar, jar)
      && Middleware.JarExtends(o2.jar, o1.jar)
      && forall i | 0 <= i < |o2.trace| && o2.trace[i].Sent? :: Middleware.JarExtends(o2.trace[i].jar, o1.jar)
  {
    JarsFromStart(c1, verb, url, jar, net1);
    JarsFromStart(c2, verb, url, Dispatch(c1, verb, url, jar, net1).jar, net2);
  }

  /**
   * A session call with no middlewares makes one terminal call, and the
   * client's jar then holds the cookies its response set, filed under the
   * request URL; without a jar they are dropped.
   */
  lemma SessionStoresCookies(c: Options.Config, verb: string, url: string, jar: Option<Jar>, net: Net)
    requires c.session && !c.debug && c.middles == [] && c.retry.None?
    requires c.err.None? && net.newRequest(verb, FullURL(url, c.query)).None?
    ensures var u := FullURL(url, c.query);
      var q := RequestOf(c, verb, u, net.order);
      var o := Dispatch(c, verb, url, jar, net);
      && o.trace == [Middleware.Sent(q, jar)]
      && o.jar == Middleware.StoreCookies(jar, u, SetCookiesOf(net.clientDo(0, q, jar)))
  {
    assert ChainOf(c) == [];
  }
}
