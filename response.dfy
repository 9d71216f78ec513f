/**
 * Reading a response. The body is a reader over the bytes the network
 * delivers, with a read position and a closed flag. `Content` reads it to
 * the end, `Text` converts the bytes, `JSON` and `XML` hand it to a
 * decoder, and `Raw` reads it in chunks of at most 1 MiB; every one of them
 * closes the body on every path.
 */
module Responses {
  import opened Types

  /** The size of `Raw`'s read buffer. */
  const ChunkSize: nat := 1024 * 1024

  /** The error `net/http` returns for a read after `Close`. */
  const ClosedBodyErr: Error := "http: invalid Read on closed Body"

  /** The error half of `Read`'s answer: nil, `io.EOF`, or another error. */
  datatype ReadErr = NoErr | EOF | ReadFailed(err: Error)

  /** What ends the stream: `io.EOF`, or the error the source ends with. */
  function EndOf(src: BodySource): ReadErr
  {
    if src.endErr.None? then EOF else ReadFailed(src.endErr.value)
  }

  /** One `Read(buf)` with `len(buf) == max`: the bytes, the error, and the position afterwards. */
  datatype ReadResult = ReadResult(chunk: seq<Byte>, err: ReadErr, next: nat)

  function ReadAt(src: BodySource, pos: nat, closed: bool, max: nat): (r: ReadResult)
    requires pos <= |src.data| && max > 0
    ensures pos <= r.next <= |src.data| && r.chunk == src.data[pos..r.next] && |r.chunk| <= max
    ensures r.err.NoErr? ==> !closed && |r.chunk| > 0
    ensures closed ==> r == ReadResult([], ReadFailed(ClosedBodyErr), pos)
    ensures !closed && pos < |src.data| ==> |r.chunk| == if max < |src.data| - pos then max else |src.data| - pos
  {
    if closed then ReadResult([], ReadFailed(ClosedBodyErr), pos)
    else if pos == |src.data| then ReadResult([], EndOf(src), pos)
    else
      var n := if max < |src.data| - pos then max else |src.data| - pos;
      var next := pos + n;
      ReadResult(src.data[pos..next], if src.endWithData && next == |src.data| then EndOf(src) else NoErr, next)
  }

  class Body {
    const source: BodySource
    var pos: nat
    var closed: bool

    ghost predicate Valid()
      reads this
    {
      pos <= |source.data|
    }

    constructor (src: BodySource)
      ensures Valid() && source == src && pos == 0 && !closed
    {
      source := src;
      pos := 0;
      closed := false;
    }

    /** `Body.Read` into a buffer of `max` bytes. */
    method Read(max: nat) returns (chunk: seq<Byte>, err: ReadErr)
      requires Valid() && max > 0
      modifies this`pos
      ensures Valid()
      ensures ReadResult(chunk, err, pos) == ReadAt(source, old(pos), closed, max)
    {
      var r := ReadAt(source, pos, closed, max);
      chunk, err, pos := r.chunk, r.err, r.next;
    }

    /** `Body.Close`: closing an HTTP body, even twice, reports no error. */
    method Close() returns (err: Option<Error>)
      modifies this`closed
      ensures closed && err.None?
    {
      closed := true;
      err := None;
    }
  }

  // ---------------------------------------------------------------------
  // Reading everything: Content and Text
  // ---------------------------------------------------------------------

  /** What `ioutil.ReadAll` returns from a position: the bytes it collected and the error, `io.EOF` reading as nil. */
  datatype Collected = Collected(data: seq<Byte>, err: Option<Error>)

  function ReadAllFrom(src: BodySource, pos: nat, closed: bool): Collected
    requires pos <= |src.data|
  {
    if closed then Collected([], Some(ClosedBodyErr)) else Collected(src.data[pos..], src.endErr)
  }

  /** `ioutil.ReadAll`: reads until the first error, keeping the bytes that came with it. */
  method ReadAll(b: Body) returns (data: seq<Byte>, err: Option<Error>)
    requires b.Valid()
    modifies b`pos
    ensures b.Valid()
    ensures Collected(data, err) == ReadAllFrom(b.source, old(b.pos), b.closed)
  {
    ghost var p0 := b.pos;
    data := [];
    var done := false;
    err := None;
    while !done
      invariant b.Valid() && p0 <= b.pos
      invariant !done ==> !b.closed || b.pos == p0
      invariant !done ==> data == b.source.data[p0..b.pos] && err.None?
      invariant done ==> Collected(data, err) == ReadAllFrom(b.source, p0, b.closed)
      decreases |b.source.data| - b.pos, if done then 0 else 1
    {
      var chunk, e := b.Read(512);
      data := data + chunk;
      if !e.NoErr? {
        done := true;
        err := if e.EOF? then None else Some(e.err);
        if b.closed {
          assert data == [];
        } else {
          assert b.pos == |b.source.data|;
        }
      }
    }
  }

  /** The bytes as a Go string: one character per byte, no decoding. */
  function Chars(data: seq<Byte>): (s: string)
    ensures |s| == |data| && forall i :: 0 <= i < |data| ==> s[i] as int == data[i] as int
  {
    seq(|data|, i requires 0 <= i < |data| => data[i] as int as char)
  }

  function Bytes(s: string): seq<Byte>
    requires forall i :: 0 <= i < |s| ==> s[i] as int < 256
  {
    seq(|s|, i requires 0 <= i < |s| => s[i] as int as Byte)
  }

  /** Converting bytes to a string loses nothing. */
  lemma BytesOfChars(data: seq<Byte>)
    ensures forall i :: 0 <= i < |Chars(data)| ==> Chars(data)[i] as int < 256
    ensures Bytes(Chars(data)) == data
  {
  }

  /** `Response`: the wrapper `do` returns. */
  class Response {
    const status: int
    const header: map<string, seq<string>>
    const body: Body

    constructor (resp: HttpResponse)
      ensures status == resp.status && header == resp.header
      ensures fresh(body) && body.Valid() && body.source == resp.body && body.pos == 0 && !body.closed
    {
      status := resp.status;
      header := resp.header;
      body := new Body(resp.body);
    }

    method Close() returns (err: Option<Error>)
      modifies body`closed
      ensures body.closed && err.None?
    {
      err := body.Close();
    }

    /** `Content`: reads what is left of the body, then closes it. */
    method Content() returns (data: seq<Byte>, err: Option<Error>)
      requires body.Valid()
      modifies body
      ensures body.Valid() && body.closed
      ensures Collected(data, err) == ReadAllFrom(body.source, old(body.pos), old(body.closed))
    {
      data, err := ReadAll(body);
      var _ := body.Close();
    }

    /** `Text`: `""` and the error when reading fails, else the bytes as a string. */
    method Text() returns (s: string, err: Option<Error>)
      requires body.Valid()
      modifies body
      ensures body.Valid() && body.closed
      ensures var c := ReadAllFrom(body.source, old(body.pos), old(body.closed));
        && err == c.err
        && (err.Some? ==> s == "")
        && (err.None? ==> s == Chars(c.data))
    {
      var buf;
      buf, err := Content();
      if err.Some? {
        return "", err;
      }
      s := Chars(buf);
    }

    /**
     * `withClose` around a decoder: the decoder sees the rest of the stream
     * and how it ends, and the body is closed whatever it answers.
     */
    method Decode(decode: (Collected) -> Option<Error>) returns (err: Option<Error>)
      requires body.Valid()
      modifies body`closed
      ensures body.closed
      ensures err == decode(ReadAllFrom(body.source, body.pos, old(body.closed)))
    {
      err := decode(ReadAllFrom(body.source, body.pos, body.closed));
      var _ := body.Close();
    }

    /** `JSON`: `json.NewDecoder(body).Decode(i)` under `withClose`. */
    method JSON(decodeJSON: (Collected) -> Option<Error>) returns (err: Option<Error>)
      requires body.Valid()
      modifies body`closed
      ensures body.closed
      ensures err == decodeJSON(ReadAllFrom(body.source, body.pos, old(body.closed)))
    {
      err := Decode(decodeJSON);
    }

    /** `XML`: `xml.NewDecoder(body).Decode(i)` under `withClose`. */
    method XML(decodeXML: (Collected) -> Option<Error>) returns (err: Option<Error>)
      requires body.Valid()
      modifies body`closed
      ensures body.closed
      ensures err == decodeXML(ReadAllFrom(body.source, body.pos, old(body.closed)))
    {
      err := Decode(decodeXML);
    }

    /** `Raw`, as written: the chunks it sends before the channel is closed. */
    method Raw() returns (chunks: seq<seq<Byte>>)
      requires body.Valid()
      modifies body
      ensures body.Valid() && body.closed
      ensures chunks == RawChunks(body.source, old(body.pos), old(body.closed))
    {
      chunks := ReadChunks(body, false);
      var _ := body.Close();
    }

    /** `Raw` with the final read's bytes sent before stopping. */
    method RawFixed() returns (chunks: seq<seq<Byte>>)
      requires body.Valid()
      modifies body
      ensures body.Valid() && body.closed
      ensures chunks == RawChunksFixed(body.source, old(body.pos), old(body.closed))
    {
      chunks := ReadChunks(body, true);
      var _ := body.Close();
    }
  }

  // ---------------------------------------------------------------------
  // Raw
  // ---------------------------------------------------------------------

  /**
   * The chunks `Raw` sends: it returns at the first read that reports
   * `io.EOF` or an error, without sending that read's bytes.
   */
  function RawChunks(src: BodySource, pos: nat, closed: bool): seq<seq<Byte>>
    requires pos <= |src.data|
    decreases |src.data| - pos
  {
    var r := ReadAt(src, pos, closed, ChunkSize);
    if !r.err.NoErr? then [] else [r.chunk] + RawChunks(src, r.next, closed)
  }

  /** The chunks a reader that honours `io.Reader`'s contract sends: a final read's bytes go out before it stops. */
  function RawChunksFixed(src: BodySource, pos: nat, closed: bool): seq<seq<Byte>>
    requires pos <= |src.data|
    decreases |src.data| - pos
  {
    var r := ReadAt(src, pos, closed, ChunkSize);
    if !r.err.NoErr? then (if |r.chunk| > 0 then [r.chunk] else [])
    else [r.chunk] + RawChunksFixed(src, r.next, closed)
  }

  function Chunks(src: BodySource, pos: nat, closed: bool, keepLast: bool): seq<seq<Byte>>
    requires pos <= |src.data|
  {
    if keepLast then RawChunksFixed(src, pos, closed) else RawChunks(src, pos, closed)
  }

  /** One read of the loop: the chunks it sends, then the chunks of the rest. */
  lemma ChunksStep(src: BodySource, pos: nat, closed: bool, keepLast: bool)
    requires pos <= |src.data|
    ensures var r := ReadAt(src, pos, closed, ChunkSize);
      Chunks(src, pos, closed, keepLast)
      == if !r.err.NoErr? then (if keepLast && |r.chunk| > 0 then [r.chunk] else [])
         else [r.chunk] + Chunks(src, r.next, closed, keepLast)
  {
  }

  /** The read loop of `Raw`: `keepLast` sends the bytes of the read that ends it. */
  method ReadChunks(b: Body, keepLast: bool) returns (chunks: seq<seq<Byte>>)
    requires b.Valid()
    modifies b`pos
    ensures b.Valid()
    ensures chunks == if keepLast then RawChunksFixed(b.source, old(b.pos), b.closed)
                      else RawChunks(b.source, old(b.pos), b.closed)
  {
    ghost var p0 := b.pos;
    chunks := [];
    var done := false;
    while !done
      invariant b.Valid()
      invariant !done ==> chunks + Chunks(b.source, b.pos, b.closed, keepLast) == Chunks(b.source, p0, b.closed, keepLast)
      invariant done ==> chunks == Chunks(b.source, p0, b.closed, keepLast)
      decreases |b.source.data| - b.pos, if done then 0 else 1
    {
      ChunksStep(b.source, b.pos, b.closed, keepLast);
      var chunk, err := b.Read(ChunkSize);
      if err == EOF {
        if keepLast && |chunk| > 0 {
          chunks := chunks + [chunk];
        }
        done := true;
      } else if err != NoErr {
        if keepLast && |chunk| > 0 {
          chunks := chunks + [chunk];
        }
        done := true;
      } else {
        chunks := chunks + [chunk];
      }
    }
  }

  function Concat(chunks: seq<seq<Byte>>): seq<Byte>
    decreases |chunks|
  {
    if chunks == [] then [] else chunks[0] + Concat(chunks[1..])
  }

  /** Every chunk `Raw` sends is non-empty and at most 1 MiB. */
  lemma {:induction false} RawChunksBounded(src: BodySource, pos: nat, closed: bool)
    requires pos <= |src.data|
    ensures forall i :: 0 <= i < |RawChunks(src, pos, closed)| ==> 0 < |RawChunks(src, pos, closed)[i]| <= ChunkSize
    ensures forall i :: 0 <= i < |RawChunksFixed(src, pos, closed)| ==> 0 < |RawChunksFixed(src, pos, closed)[i]| <= ChunkSize
    decreases |src.data| - pos
  {
    var r := ReadAt(src, pos, closed, ChunkSize);
    if r.err.NoErr? {
      RawChunksBounded(src, r.next, closed);
      var xs := RawChunks(src, pos, closed);
      assert xs == [r.chunk] + RawChunks(src, r.next, closed);
      forall i | 0 <= i < |xs| ensures 0 < |xs[i]| <= ChunkSize {
        if i > 0 { assert xs[i] == RawChunks(src, r.next, closed)[i - 1]; }
      }
      var ys := RawChunksFixed(src, pos, closed);
      assert ys == [r.chunk] + RawChunksFixed(src, r.next, closed);
      forall i | 0 <= i < |ys| ensures 0 < |ys[i]| <= ChunkSize {
        if i > 0 { assert ys[i] == RawChunksFixed(src, r.next, closed)[i - 1]; }
      }
    }
  }

  /** The corrected loop delivers exactly the bytes `Content` would read. */
  lemma {:induction false} RawFixedDeliversAll(src: BodySource, pos: nat)
    requires pos <= |src.data|
    ensures Concat(RawChunksFixed(src, pos, false)) == ReadAllFrom(src, pos, false).data
    decreases |src.data| - pos
  {
    var r := ReadAt(src, pos, false, ChunkSize);
    if r.err.NoErr? {
      RawFixedDeliversAll(src, r.next);
      var rest := RawChunksFixed(src, r.next, false);
      assert ([r.chunk] + rest)[1..] == rest;
      assert src.data[pos..] == r.chunk + src.data[r.next..];
    } else if |r.chunk| > 0 {
      assert [r.chunk][1..] == [];
      assert r.next == |src.data|;
    }
  }

  /** A slice followed by the slice that continues it is one slice. */
  lemma PrefixJoin(d: seq<Byte>, pos: nat, next: nat, g: seq<Byte>)
    requires pos <= next <= |d| && |g| <= |d| - next && g == d[next..next + |g|]
    ensures var all := d[pos..next] + g;
      |all| <= |d| - pos && all == d[pos..pos + |all|]
      && (next + |g| == |d| ==> all == d[pos..])
  {
    assert d[pos..next + |g|] == d[pos..next] + d[next..next + |g|];
  }

  lemma ConcatCons(c: seq<Byte>, rest: seq<seq<Byte>>)
    ensures Concat([c] + rest) == c + Concat(rest)
  {
    assert ([c] + rest)[1..] == rest;
  }

  /** A read that reports no error is followed by the chunks of the rest. */
  lemma RawChunksCons(src: BodySource, pos: nat)
    requires pos <= |src.data| && ReadAt(src, pos, false, ChunkSize).err.NoErr?
    ensures var r := ReadAt(src, pos, false, ChunkSize);
      RawChunks(src, pos, false) == [r.chunk] + RawChunks(src, r.next, false)
  {
  }

  /** A read that reports an error ends the stream when the source does not end with data. */
  lemma RawChunksEnd(src: BodySource, pos: nat)
    requires pos <= |src.data| && !ReadAt(src, pos, false, ChunkSize).err.NoErr?
    ensures RawChunks(src, pos, false) == []
    ensures !src.endWithData ==> pos == |src.data|
  {
  }

  /**
   * As written, `Raw` delivers a prefix of the bytes; the whole of them
   * when the end of the stream is reported by a read of its own.
   */
  lemma {:induction false} RawDeliversPrefix(src: BodySource, pos: nat)
    requires pos <= |src.data|
    ensures var got := Concat(RawChunks(src, pos, false));
      && |got| <= |src.data| - pos && got == src.data[pos..pos + |got|]
      && (!src.endWithData ==> got == src.data[pos..])
    decreases |src.data| - pos
  {
    var r := ReadAt(src, pos, false, ChunkSize);
    if r.err.NoErr? {
      RawDeliversPrefix(src, r.next);
      var rest := RawChunks(src, r.next, false);
      RawChunksCons(src, pos);
      ConcatCons(r.chunk, rest);
      PrefixJoin(src.data, pos, r.next, Concat(rest));
    } else {
      RawChunksEnd(src, pos);
    }
  }

  /**
   * A body whose last bytes arrive together with `io.EOF`, as `net/http`
   * delivers a body of known length, loses those bytes in `Raw`: here
   * nothing at all is sent, while `Content` reads all three bytes.
   */
  lemma RawDropsFinalRead()
    ensures var src := BodySource([1, 2, 3], None, true);
      && RawChunks(src, 0, false) == []
      && ReadAllFrom(src, 0, false) == Collected([1, 2, 3], None)
      && RawChunksFixed(src, 0, false) == [[1, 2, 3]]
  {
    var src := BodySource([1, 2, 3], None, true);
    assert ReadAt(src, 0, false, ChunkSize) == ReadResult([1, 2, 3], EOF, 3);
  }
}
