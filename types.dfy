/**
 * Values shared by the HTTP request pipeline: errors, cookies, requests,
 * responses and the mutable `http.Client` whose cookie jar the pipeline
 * installs and clears.
 */
module Types {

  /** Go's nil-able values: `None` is nil. */
  datatype Option<+T> = None | Some(value: T)

  /** A Go `error`, represented by its message; a nil error is `None`. */
  type Error = string

  newtype Byte = b: int | 0 <= b < 256

  datatype Cookie = Cookie(name: string, value: string)

  /** One `Jar.SetCookies(url, cookies)` call. */
  datatype CookieBatch = CookieBatch(url: string, cookies: seq<Cookie>)

  /** A cookie jar, seen through the batches it was given, oldest first. */
  datatype Jar = Jar(batches: seq<CookieBatch>)

  /** A request body source (`io.Reader`): literal text, literal bytes, or a caller's reader. */
  datatype Payload = TextPayload(text: string) | BytesPayload(data: seq<Byte>) | ReaderPayload(id: nat)

  /** What an `*http.Request` carries that the pipeline reads or writes. */
  datatype Request = Request(
    verb: string,
    url: string,
    header: map<string, string>,
    body: Option<Payload>,
    trace: Option<nat>)

  /**
   * A response body as the network delivers it: the bytes, the error that
   * ends the stream (`None` is `io.EOF`), and whether that error arrives
   * together with the last bytes (as `net/http` bodies of known length do).
   */
  datatype BodySource = BodySource(data: seq<Byte>, endErr: Option<Error>, endWithData: bool)

  /**
   * What an `*http.Response` carries that the pipeline reads; `ctxErr` is
   * `resp.Request.Context().Err()` when the response is inspected.
   */
  datatype HttpResponse = HttpResponse(
    status: int,
    header: map<string, seq<string>>,
    body: BodySource,
    ctxErr: Option<Error>)

  /** The `(resp, err)` pair every handler returns. */
  datatype Attempt = Attempt(resp: Option<HttpResponse>, err: Option<Error>)

  /** An `*http.Client`; only its cookie jar matters to the pipeline. */
  class HttpClient {
    var jar: Option<Jar>

    constructor (jar: Option<Jar>)
      ensures this.jar == jar
    {
      this.jar := jar;
    }
  }

  /** `x` repeated `n` times: what `n` appends of one element add. */
  function Repeat<T>(x: T, n: nat): (r: seq<T>)
    ensures |r| == n && forall i :: 0 <= i < n ==> r[i] == x
  {
    if n == 0 then [] else Repeat(x, n - 1) + [x]
  }

  lemma {:induction false} RepeatAdd<T>(x: T, a: nat, b: nat)
    decreases b
    ensures Repeat(x, a) + Repeat(x, b) == Repeat(x, a + b)
  {
    if b > 0 {
      RepeatAdd(x, a, b - 1);
      assert Repeat(x, a) + Repeat(x, b) == Repeat(x, a) + Repeat(x, b - 1) + [x];
    }
  }
}
