/**
 * Middleware composition. Go middlewares are closures `Handler -> Handler`;
 * here a handler is the syntax of the wrappers around the terminal call
 * (`Exec`), and `Serve` interprets it over a `World` value: the client's
 * cookie jar, the request, the number of terminal calls made so far, and a
 * trace of which layers ran and what each terminal call was sent.
 */
module Middleware {
  import opened Types
  import Retry
  import Strs
  import Headers

  /** The middlewares the library builds; `Custom` stands for a caller's own, an oracle of the environment. */
  datatype Middleware =
    | Logger
    | RetryLayer(settings: Retry.Settings)
    | HeaderLayer(headers: map<string, string>)
    | CookieLayer(cookies: seq<Cookie>)
    | Custom(id: nat)

  datatype Handler = Exec | Wrap(layer: Middleware, next: Handler)

  /** `Chain(m1, ..., mn)(next)` is `m1(m2(...mn(next)))`. */
  function Compose(middles: seq<Middleware>, next: Handler): Handler
    decreases |middles|
  {
    if middles == [] then next else Wrap(middles[0], Compose(middles[1..], next))
  }

  /** The layers of a handler, outermost first. */
  function Layers(h: Handler): seq<Middleware>
  {
    match h
    case Exec => []
    case Wrap(m, next) => [m] + Layers(next)
  }

  /** The composed handler's layers are the middlewares in the order listed. */
  lemma {:induction false} LayersCompose(middles: seq<Middleware>, next: Handler)
    ensures Layers(Compose(middles, next)) == middles + Layers(next)
    decreases |middles|
  {
    if middles != [] {
      LayersCompose(middles[1..], next);
      assert [middles[0]] + middles[1..] == middles;
    }
  }

  lemma {:induction false} ComposeAppend(xs: seq<Middleware>, ys: seq<Middleware>, next: Handler)
    ensures Compose(xs + ys, next) == Compose(xs, Compose(ys, next))
    decreases |xs|
  {
    if xs == [] {
      assert xs + ys == ys;
    } else {
      assert (xs + ys)[1..] == xs[1..] + ys;
      ComposeAppend(xs[1..], ys, next);
    }
  }

  /** `Chain(middles...)(next)`: the descending loop that wraps `next` from the last middleware to the first. */
  method Chain(middles: seq<Middleware>, next: Handler) returns (h: Handler)
    ensures h == Compose(middles, next)
    ensures middles == [] ==> h == next
    ensures Layers(h) == middles + Layers(next)
  {
    h := next;
    var i := |middles|;
    while i > 0
      invariant 0 <= i <= |middles|
      invariant h == Compose(middles[i..], next)
    {
      i := i - 1;
      assert middles[i..][1..] == middles[i + 1..];
      h := Wrap(middles[i], h);
    }
    assert middles[0..] == middles;
    LayersCompose(middles, next);
  }


  /** The jar after `cookieMiddleware` has run: untouched without cookies, created when nil, else reused. */
  function WithCookieJar(jar: Option<Jar>, url: string, cookies: seq<Cookie>): (r: Option<Jar>)
    ensures |cookies| == 0 ==> r == jar
    ensures |cookies| > 0 ==> r.Some? && |r.value.batches| >= 1
    ensures |cookies| > 0 ==> r.value.batches[|r.value.batches| - 1] == CookieBatch(url, cookies)
    ensures |cookies| > 0 && jar.None? ==> r.value.batches == [CookieBatch(url, cookies)]
    ensures |cookies| > 0 && jar.Some? ==>
      |r.value.batches| == |jar.value.batches| + 1 && r.value.batches[..|jar.value.batches|] == jar.value.batches
  {
    if |cookies| == 0 then jar
    else
      var j := if jar.None? then Jar([]) else jar.value;
      Some(Jar(j.batches + [CookieBatch(url, cookies)]))
  }

  datatype LayerKind = LoggerKind | RetryKind | HeaderKind | CookieKind | CustomKind(id: nat)

  /** A trace entry: a layer's handler started, or the terminal call was made with this request and jar. */
  datatype Event = Entered(kind: LayerKind) | Sent(request: Request, jar: Option<Jar>)

  datatype World = World(jar: Option<Jar>, request: Request, calls: nat, trace: seq<Event>)

  /**
   * The oracles:
   * - `exec`: what the terminal call returns for the n-th call with a request and a jar;
   * - `stored`: the cookies that call's responses set, which `http.Client` gives to a non-nil jar;
   * - `cancel`: whether cancellation beats a backoff timer after n terminal calls;
   * - `order`: the order in which `range` visits a header map;
   * - `custom`: a caller's middleware with this id, given the state and its `next`. It
   *   may change the jar and the request, and call `next` any number of times.
   */
  datatype Env = Env(
    exec: (nat, Request, Option<Jar>) -> Attempt,
    stored: (nat, Request, Option<Jar>) -> seq<Cookie>,
    cancel: nat -> Option<Error>,
    order: map<string, string> -> seq<string>,
    custom: (nat, World, World -> (Attempt, World)) -> (Attempt, World))

  /** Prefix order: `t` is `prefix` followed by more. */
  predicate Extends<T(==)>(t: seq<T>, prefix: seq<T>)
  {
    |prefix| <= |t| && t[..|prefix|] == prefix
  }

  /** `later` is `earlier` with possibly more cookie batches: a nil jar stays nil. */
  predicate JarExtends(later: Option<Jar>, earlier: Option<Jar>)
  {
    && (earlier.None? ==> later.None?)
    && (earlier.Some? ==> later.Some? && Extends(later.value.batches, earlier.value.batches))
  }

  lemma JarExtendsReflexive(j: Option<Jar>)
    ensures JarExtends(j, j)
  {
    if j.Some? {
      assert j.value.batches[..|j.value.batches|] == j.value.batches;
    }
  }

  lemma JarExtendsTransitive(c: Option<Jar>, b: Option<Jar>, a: Option<Jar>)
    requires JarExtends(c, b) && JarExtends(b, a)
    ensures JarExtends(c, a)
  {
    if a.Some? {
      assert c.value.batches[..|a.value.batches|] == c.value.batches[..|b.value.batches|][..|a.value.batches|];
    }
  }

  /**
   * What `http.Client.Do` does with the cookies a response sets: a non-nil
   * jar gets them through `SetCookies(req.URL, cookies)`; a nil jar drops them.
   */
  function StoreCookies(jar: Option<Jar>, url: string, cookies: seq<Cookie>): (r: Option<Jar>)
    ensures JarExtends(r, jar)
    ensures jar.None? || |cookies| == 0 ==> r == jar
    ensures jar.Some? && |cookies| > 0 ==>
      |r.value.batches| == |jar.value.batches| + 1 && r.value.batches[|jar.value.batches|] == CookieBatch(url, cookies)
  {
    if jar.Some? && |cookies| > 0 then Some(Jar(jar.value.batches + [CookieBatch(url, cookies)])) else jar
  }

  function Kind(m: Middleware): LayerKind
  {
    match m
    case Logger => LoggerKind
    case RetryLayer(_) => RetryKind
    case HeaderLayer(_) => HeaderKind
    case CookieLayer(_) => CookieKind
    case Custom(id) => CustomKind(id)
  }

  /**
   * Runs a handler. The terminal call records what it was sent and stores
   * the response's cookies in a non-nil jar; the library's layers call
   * `next` once, except a retry layer, which runs `backoff` over it; a
   * caller's layer does what its oracle says.
   */
  function Serve(h: Handler, w: World, env: Env): (Attempt, World)
    decreases h
  {
    match h
    case Exec =>
      var cookies := env.stored(w.calls, w.request, w.jar);
      (env.exec(w.calls, w.request, w.jar),
       w.(jar := StoreCookies(w.jar, w.request.url, cookies), calls := w.calls + 1,
          trace := w.trace + [Sent(w.request, w.jar)]))
    case Wrap(m, next) =>
      var w1 := w.(trace := w.trace + [Entered(Kind(m))]);
      match m
      case Logger => Serve(next, w1, env)
      case Custom(id) => env.custom(id, w1, (s: World) => Serve(next, s, env))
      case HeaderLayer(hs) =>
        Serve(next, w1.(request := w1.request.(header := Headers.Overwrite(w1.request.header, hs, env.order(hs)))), env)
      case CookieLayer(cs) =>
        Serve(next, w1.(jar := WithCookieJar(w1.jar, w1.request.url, cs)), env)
      case RetryLayer(r) =>
        var run := Retry.Backoff(r, (s: World) => Serve(next, s, env), (s: World) => env.cancel(s.calls), w1);
        (Attempt(run.resp, run.err), run.state)
  }

  /** `loggerMiddleware` returns exactly what `next` returns, having run it once. */
  lemma LoggerPassesThrough(next: Handler, w: World, env: Env)
    ensures Serve(Wrap(Logger, next), w, env) == Serve(next, w.(trace := w.trace + [Entered(LoggerKind)]), env)
  {
  }

  /**
   * `headerMiddleware` calls `next` once, with the same jar and the headers
   * set over the old ones by canonical key, in the map's visiting order.
   */
  lemma HeaderLayerSetsHeaders(hs: map<string, string>, next: Handler, w: World, env: Env)
    ensures var w' := w.(trace := w.trace + [Entered(HeaderKind)])
                       .(request := w.request.(header := Headers.Overwrite(w.request.header, hs, env.order(hs))));
      && Serve(Wrap(HeaderLayer(hs), next), w, env) == Serve(next, w', env)
      && w'.jar == w.jar && w'.request.url == w.request.url && w'.request.body == w.request.body
  {
  }

  /** What the terminal call is sent to: method, URL, body and trace; headers and jar aside. */
  datatype Target = Target(verb: string, url: string, body: Option<Payload>, trace: Option<nat>)

  function TargetOf(q: Request): Target
  {
    Target(q.verb, q.url, q.body, q.trace)
  }

  /** A property of terminal calls: sent with a jar extending this one, or sent to this target. */
  datatype Probe = JarFrom(jar: Option<Jar>) | TargetIs(target: Target)

  predicate Fits(e: Event, probe: Probe)
    requires e.Sent?
  {
    match probe
    case JarFrom(j) => JarExtends(e.jar, j)
    case TargetIs(t) => TargetOf(e.request) == t
  }

  /** Every terminal call in `events` fits `probe`. */
  predicate SentAll(events: seq<Event>, probe: Probe)
  {
    forall i :: 0 <= i < |events| && events[i].Sent? ==> Fits(events[i], probe)
  }

  /** `x` extends the trace of `w` with terminal calls that all fit `probe`. */
  predicate Grows(x: World, w: World, probe: Probe)
  {
    Extends(x.trace, w.trace) && SentAll(x.trace[|w.trace|..], probe)
  }

  /** The state a handler without cookie or caller layers can reach from `w`. */
  predicate JarKept(x: World, w: World)
  {
    JarExtends(x.jar, w.jar) && Grows(x, w, JarFrom(w.jar))
  }

  /** The state the library's layers reach from `w`: only headers and the jar may have changed. */
  predicate TargetKept(x: World, w: World)
  {
    TargetOf(x.request) == TargetOf(w.request) && Grows(x, w, TargetIs(TargetOf(w.request)))
  }

  predicate NoCookieLayer(h: Handler)
  {
    forall i :: 0 <= i < |Layers(h)| ==> !Layers(h)[i].CookieLayer?
  }

  /** Only the library's own middlewares: no caller-supplied layer. */
  predicate NoCustomLayer(h: Handler)
  {
    forall i :: 0 <= i < |Layers(h)| ==> !Layers(h)[i].Custom?
  }

  lemma WrapLayers(m: Middleware, next: Handler)
    ensures NoCookieLayer(Wrap(m, next)) <==> !m.CookieLayer? && NoCookieLayer(next)
    ensures NoCustomLayer(Wrap(m, next)) <==> !m.Custom? && NoCustomLayer(next)
  {
    var ls := Layers(Wrap(m, next));
    assert ls == [m] + Layers(next);
    assert ls[0] == m;
    assert forall i | 0 <= i < |Layers(next)| :: Layers(next)[i] == ls[i + 1];
    assert forall i | 0 < i < |ls| :: ls[i] == Layers(next)[i - 1];
  }

  /**
   * Without a cookie layer or a caller's layer, only responses change the
   * jar: a nil jar stays nil, a jar only gains the cookies responses set,
   * and every terminal call is sent with a jar that extends the one the
   * chain started with.
   */
  lemma {:induction false} JarOnlyGrows(h: Handler, w: World, env: Env)
    requires NoCookieLayer(h) && NoCustomLayer(h)
    ensures JarKept(Serve(h, w, env).1, w)
    decreases h
  {
    match h
    case Exec =>
      var w' := Serve(h, w, env).1;
      assert w'.trace[|w.trace|..] == [Sent(w.request, w.jar)];
      JarExtendsReflexive(w.jar);
    case Wrap(m, next) =>
      WrapLayers(m, next);
      var w1 := w.(trace := w.trace + [Entered(Kind(m))]);
      match m
      case Logger =>
        JarOnlyGrows(next, w1, env);
        GrowsThroughEntry(Serve(next, w1, env).1, w1, w, JarFrom(w.jar));
      case HeaderLayer(hs) =>
        var w2 := w1.(request := w1.request.(header := Headers.Overwrite(w1.request.header, hs, env.order(hs))));
        JarOnlyGrows(next, w2, env);
        GrowsThroughEntry(Serve(next, w2, env).1, w2, w, JarFrom(w.jar));
      case RetryLayer(r) =>
        var fn := (s: World) => Serve(next, s, env);
        var inv := (x: World) => JarKept(x, w1);
        forall x | inv(x) ensures inv(fn(x).1) {
          var y := fn(x).1;
          JarOnlyGrows(next, x, env);
          JarExtendsTransitive(y.jar, x.jar, w1.jar);
          SentFromEarlier(y, x, x.jar, w1.jar);
          GrowsTransitive(y, x, w1, JarFrom(w1.jar));
        }
        assert JarKept(w1, w1) by { assert w1.trace[|w1.trace|..] == []; JarExtendsReflexive(w1.jar); }
        Retry.BackoffPreserves(r, fn, (s: World) => env.cancel(s.calls), w1, inv);
        GrowsThroughEntry(Serve(h, w, env).1, w1, w, JarFrom(w.jar));
  }

  /** Sends that see a jar extending `j` see a jar extending anything `j` extends. */
  lemma SentFromEarlier(y: World, x: World, j: Option<Jar>, i: Option<Jar>)
    requires Grows(y, x, JarFrom(j)) && JarExtends(j, i)
    ensures Grows(y, x, JarFrom(i))
  {
    var a := y.trace[|x.trace|..];
    forall k | 0 <= k < |a| && a[k].Sent? ensures JarExtends(a[k].jar, i) {
      assert Fits(a[k], JarFrom(j));
      JarExtendsTransitive(a[k].jar, j, i);
    }
  }

  /**
   * The library's layers never change what the terminal call is sent to:
   * the method, URL, body and trace the chain was started with; they
   * change only headers and the jar.
   */
  lemma {:induction false} TargetUntouched(h: Handler, w: World, env: Env)
    requires NoCustomLayer(h)
    ensures TargetKept(Serve(h, w, env).1, w)
    decreases h
  {
    var t := TargetIs(TargetOf(w.request));
    match h
    case Exec =>
      var w' := Serve(h, w, env).1;
      assert w'.trace[|w.trace|..] == [Sent(w.request, w.jar)];
    case Wrap(m, next) =>
      WrapLayers(m, next);
      var w1 := w.(trace := w.trace + [Entered(Kind(m))]);
      match m
      case Logger =>
        TargetUntouched(next, w1, env);
        GrowsThroughEntry(Serve(next, w1, env).1, w1, w, t);
      case CookieLayer(cs) =>
        var w2 := w1.(jar := WithCookieJar(w1.jar, w1.request.url, cs));
        TargetUntouched(next, w2, env);
        GrowsThroughEntry(Serve(next, w2, env).1, w2, w, t);
      case HeaderLayer(hs) =>
        var w2 := w1.(request := w1.request.(header := Headers.Overwrite(w1.request.header, hs, env.order(hs))));
        TargetUntouched(next, w2, env);
        GrowsThroughEntry(Serve(next, w2, env).1, w2, w, t);
      case RetryLayer(r) =>
        var fn := (s: World) => Serve(next, s, env);
        var inv := (x: World) => TargetKept(x, w1);
        forall x | inv(x) ensures inv(fn(x).1) {
          TargetUntouched(next, x, env);
          GrowsTransitive(fn(x).1, x, w1, t);
        }
        assert TargetKept(w1, w1) by { assert w1.trace[|w1.trace|..] == []; }
        Retry.BackoffPreserves(r, fn, (s: World) => env.cancel(s.calls), w1, inv);
        GrowsThroughEntry(Serve(h, w, env).1, w1, w, t);
  }

  lemma GrowsTransitive(z: World, y: World, x: World, probe: Probe)
    requires Grows(z, y, probe) && Grows(y, x, probe)
    ensures Grows(z, x, probe)
  {
    var a := z.trace[|x.trace|..];
    assert a == y.trace[|x.trace|..] + z.trace[|y.trace|..];
    forall i | 0 <= i < |a| && a[i].Sent? ensures Fits(a[i], probe) {
      if i < |y.trace| - |x.trace| {
        assert a[i] == y.trace[|x.trace|..][i];
      } else {
        assert a[i] == z.trace[|y.trace|..][i - (|y.trace| - |x.trace|)];
      }
    }
  }

  lemma GrowsThroughEntry(z: World, w1: World, w: World, probe: Probe)
    requires Grows(z, w1, probe)
    requires |w1.trace| == |w.trace| + 1 && w1.trace[..|w.trace|] == w.trace && !w1.trace[|w.trace|].Sent?
    ensures Grows(z, w, probe)
  {
    var a := z.trace[|w.trace|..];
    assert a == [w1.trace[|w.trace|]] + z.trace[|w1.trace|..];
    forall i | 0 <= i < |a| && a[i].Sent? ensures Fits(a[i], probe) {
      assert i > 0;
      assert a[i] == z.trace[|w1.trace|..][i - 1];
    }
  }

  // ------------------------------------------------------ retried sends

  /** The jar after `k` terminal calls of `q`, from call number `n`, each storing its response's cookies. */
  function JarAfter(q: Request, jar: Option<Jar>, env: Env, n: nat, k: nat): Option<Jar>
    decreases k
  {
    if k == 0 then jar
    else
      var j := JarAfter(q, jar, env, n, k - 1);
      StoreCookies(j, q.url, env.stored(n + k - 1, q, j))
  }

  /** The trace of those `k` calls: the same request each time, with the jar as the earlier calls left it. */
  function Resends(q: Request, jar: Option<Jar>, env: Env, n: nat, k: nat): (r: seq<Event>)
    ensures |r| == k
    decreases k
  {
    if k == 0 then [] else Resends(q, jar, env, n, k - 1) + [Sent(q, JarAfter(q, jar, env, n, k - 1))]
  }

  /** Call `i` of the resends sees the cookies of every call before it, and later jars extend earlier ones. */
  lemma {:induction false} ResendsSeeEarlierCookies(q: Request, jar: Option<Jar>, env: Env, n: nat, k: nat)
    ensures forall i | 0 <= i < k :: Resends(q, jar, env, n, k)[i] == Sent(q, JarAfter(q, jar, env, n, i))
    ensures forall i | 0 <= i <= k :: JarExtends(JarAfter(q, jar, env, n, k), JarAfter(q, jar, env, n, i))
    decreases k
  {
    if k > 0 {
      ResendsSeeEarlierCookies(q, jar, env, n, k - 1);
      var last := JarAfter(q, jar, env, n, k);
      forall i | 0 <= i <= k ensures JarExtends(last, JarAfter(q, jar, env, n, i)) {
        if i < k {
          JarExtendsTransitive(last, JarAfter(q, jar, env, n, k - 1), JarAfter(q, jar, env, n, i));
        } else {
          JarExtendsReflexive(last);
        }
      }
    }
  }

  /** When no response sets a cookie, the resends are one identical send per call. */
  lemma {:induction false} ResendsWithoutCookies(q: Request, jar: Option<Jar>, env: Env, n: nat, k: nat)
    requires forall m: nat, j :: env.stored(m, q, j) == []
    ensures JarAfter(q, jar, env, n, k) == jar
    ensures Resends(q, jar, env, n, k) == Repeat(Sent(q, jar), k)
    decreases k
  {
    if k > 0 {
      ResendsWithoutCookies(q, jar, env, n, k - 1);
    }
  }

  /** What a retry layer directly around the terminal call leaves: only resends of one request. */
  predicate SentRepeatedly(x: World, w1: World, env: Env)
  {
    && x.request == w1.request
    && x.calls >= w1.calls
    && x.jar == JarAfter(w1.request, w1.jar, env, w1.calls, x.calls - w1.calls)
    && x.trace == w1.trace + Resends(w1.request, w1.jar, env, w1.calls, x.calls - w1.calls)
  }

  /**
   * `retryMiddleware` hands the same client and request to `next` on
   * every attempt: around the terminal call, the trace after entering the
   * retry layer is one send of the same request per attempt, each with the
   * jar as the earlier attempts' responses left it, and the layer returns
   * what `backoff` returns.
   */
  lemma RetryResendsSameRequest(r: Retry.Settings, w: World, env: Env)
    ensures var w1 := w.(trace := w.trace + [Entered(RetryKind)]);
      var fn := (s: World) => Serve(Exec, s, env);
      var run := Retry.Backoff(r, fn, (s: World) => env.cancel(s.calls), w1);
      && Serve(Wrap(RetryLayer(r), Exec), w, env) == (Attempt(run.resp, run.err), run.state)
      && run.state.trace == w.trace + [Entered(RetryKind)] + Resends(w.request, w.jar, env, w.calls, |run.attempts|)
      && run.state.jar == JarAfter(w.request, w.jar, env, w.calls, |run.attempts|)
      && run.state.request == w.request
  {
    var w1 := w.(trace := w.trace + [Entered(RetryKind)]);
    var fn := (s: World) => Serve(Exec, s, env);
    var cancel := (s: World) => env.cancel(s.calls);
    var inv := (x: World) => SentRepeatedly(x, w1, env);
    forall x | inv(x) ensures inv(fn(x).1) {
      var y := fn(x).1;
      assert y.calls - w1.calls == x.calls - w1.calls + 1;
      assert y.trace == x.trace + [Sent(w1.request, x.jar)];
    }
    assert inv(w1);
    Retry.BackoffPreserves(r, fn, cancel, w1, inv);
    Retry.BackoffCounts(r, fn, cancel, w1, (x: World) => x.calls);
  }

  /**
   * With the layers `do` builds for debug mode, one header middleware and
   * the default retry, a terminal call that always fails is made four
   * times; the logger and the header middleware, being outside the retry
   * layer, run once each.
   */
  lemma RetryIsInnermost(hs: map<string, string>, order: seq<string>, w: World, dialErr: Error,
                         custom: (nat, World, World -> (Attempt, World)) -> (Attempt, World))
    requires w.trace == [] && w.calls == 0
    ensures var h := Compose([Logger, HeaderLayer(hs), RetryLayer(Retry.NewRetry(Retry.DefaultRetry()))], Exec);
      var env := Env((n: nat, q: Request, j: Option<Jar>) => Attempt(None, Some(dialErr)),
                     (n: nat, q: Request, j: Option<Jar>) => [], (n: nat) => None,
                     (m: map<string, string>) => order, custom);
      var sent := Sent(w.request.(header := Headers.Overwrite(w.request.header, hs, order)), w.jar);
      && Serve(h, w, env).0 == Attempt(None, Some(dialErr))
      && Serve(h, w, env).1.trace
         == [Entered(LoggerKind), Entered(HeaderKind), Entered(RetryKind), sent, sent, sent, sent]
  {
    var r := Retry.NewRetry(Retry.DefaultRetry());
    var env := Env((n: nat, q: Request, j: Option<Jar>) => Attempt(None, Some(dialErr)),
                   (n: nat, q: Request, j: Option<Jar>) => [], (n: nat) => None,
                   (m: map<string, string>) => order, custom);
    var h := Compose([Logger, HeaderLayer(hs), RetryLayer(r)], Exec);
    var ms := [Logger, HeaderLayer(hs), RetryLayer(r)];
    var h3 := Wrap(RetryLayer(r), Exec);
    assert [RetryLayer(r)][1..] == [];
    assert Compose([RetryLayer(r)], Exec) == h3;
    assert ms[1..][1..] == [RetryLayer(r)];
    assert Compose(ms[1..], Exec) == Wrap(HeaderLayer(hs), h3);
    assert h == Wrap(Logger, Wrap(HeaderLayer(hs), h3));
    var w1 := w.(trace := [Entered(LoggerKind)]);
    var w2 := w1.(trace := w1.trace + [Entered(HeaderKind)])
                .(request := w1.request.(header := Headers.Overwrite(w1.request.header, hs, order)));
    assert w.trace + [Entered(LoggerKind)] == [Entered(LoggerKind)];
    LoggerPassesThrough(Wrap(HeaderLayer(hs), h3), w, env);
    assert Serve(h, w, env) == Serve(Wrap(HeaderLayer(hs), h3), w1, env);
    HeaderLayerSetsHeaders(hs, h3, w1, env);
    assert Serve(h, w, env) == Serve(h3, w2, env);
    var fn := (s: World) => Serve(Exec, s, env);
    var cancel := (s: World) => env.cancel(s.calls);
    var w3 := w2.(trace := w2.trace + [Entered(RetryKind)]);
    RetryResendsSameRequest(r, w2, env);
    Retry.DefaultRetryAlwaysFailing(fn, cancel, w3, dialErr);
    ResendsWithoutCookies(w2.request, w2.jar, env, w2.calls, 4);
    var sent := Sent(w2.request, w2.jar);
    assert Repeat(sent, 4) == [sent, sent, sent, sent];
  }
}
