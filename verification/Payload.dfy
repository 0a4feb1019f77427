/** A reader of one remote host as an object, and the request body that feeds
    it: asyncReader.Read hands out the payload and keeps the counters. */
module Payload {
  import opened Folds
  import opened Engine
  import RF = RecordFormat

  /** The counters of a netPerfReader, as a harvest sees them. */
  datatype View = View(addr: string, hasStats: bool, extremes: Quad<int>, tx: nat, txCount: nat)

  type U64 = x: int | 0 <= x < TWO_64

  class NetPerfReader {
    const addr: string
    const buf: seq<RF.Byte>
    var hasStats: bool
    var TTFBH: int
    var TTFBL: int
    var RMSH: int
    var RMSL: int
    var TX: U64
    var TXCount: nat

    constructor (addr: string, payload: seq<RF.Byte>)
      ensures this.addr == addr && buf == payload
      ensures Now() == View(addr, false, Quad(0, MAX_INT64, 0, MAX_INT64), 0, 0)
    {
      this.addr, buf := addr, payload;
      hasStats, TX, TXCount := false, 0, 0;
      TTFBH, TTFBL, RMSH, RMSL := 0, MAX_INT64, 0, MAX_INT64;
    }

    function Now(): View
      reads this
    {
      View(addr, hasStats, Quad(TTFBH, TTFBL, RMSH, RMSL), TX, TXCount)
    }

    /** What sendRequestToHost does under the lock after a successful response. */
    method RecordRoundTrip(done: Micros)
      modifies this
      ensures Now() == old(Now()).(hasStats := true,
                extremes := old(Now()).extremes.(rmsH := Op(Max, old(RMSH), done), rmsL := Op(Min, old(RMSL), done)))
    {
      if done > RMSH {
        RMSH := done;
      }
      if done < RMSL {
        RMSL := done;
      }
      hasStats := true;
    }
  }

  /** The effect of a Read on its reader's statistics, apart from the bytes. */
  function Heard(v: View, registered: bool, since: int): View {
    if registered then v.(hasStats := true)
    else v.(hasStats := true,
            extremes := v.extremes.(ttfbH := Op(Max, v.extremes.ttfbH, since),
                                    ttfbL := Op(Min, v.extremes.ttfbL, since)))
  }

  function Smaller(a: nat, b: nat): nat {
    if a < b then a else b
  }

  /** How much of a payload of the given length a request body at pos puts
      into a buffer of the given size. */
  function Available(length: nat, pos: nat, size: nat): nat {
    if pos >= length then 0 else Smaller(size, length - pos)
  }

  method Copy(b: array<RF.Byte>, src: seq<RF.Byte>) returns (n: nat)
    modifies b
    ensures n == Smaller(b.Length, |src|)
    ensures b[..n] == src[..n] && b[n..] == old(b[..])[n..]
  {
    n := Smaller(b.Length, |src|);
    for k := 0 to n
      invariant b[..k] == src[..k] && b[k..] == old(b[..])[k..]
    {
      b[k] := src[k];
    }
  }

  class AsyncReader {
    const pr: NetPerfReader
    const stream: bool
    var i: nat
    var ttfbRegistered: bool

    constructor (pr: NetPerfReader, stream: bool)
      ensures this.pr == pr && this.stream == stream && i == 0 && !ttfbRegistered
    {
      this.pr, this.stream := pr, stream;
      i, ttfbRegistered := 0, false;
    }

    /** The locked part of a Read. */
    method RegisterFirstByte(since: Micros)
      modifies this, pr
      ensures ttfbRegistered && i == old(i) && pr.Now() == Heard(old(pr.Now()), old(ttfbRegistered), since)
    {
      if !ttfbRegistered {
        ttfbRegistered := true;
        if since > pr.TTFBH {
          pr.TTFBH := since;
        }
        if since < pr.TTFBL {
          pr.TTFBL := since;
        }
      }
      pr.hasStats := true;
    }

    /** since is the time since the request was made; cancelled is the state of
        the test's context. Fills b and counts what it filled in. */
    method Read(b: array<RF.Byte>, since: Micros, cancelled: bool) returns (n: nat, eof: bool)
      modifies this, pr, b
      ensures ttfbRegistered && n <= b.Length
      ensures pr.Now() == Heard(old(pr.Now()), old(ttfbRegistered), since).(tx := Wrap(old(pr.TX) + n))
      ensures cancelled ==> n == 0 && eof && i == old(i)
      ensures !cancelled && stream ==>
        !eof && n == Smaller(b.Length, |pr.buf|) && b[..n] == pr.buf[..n] && i == old(i)
      ensures !cancelled && !stream ==>
        && eof == (old(i) >= |pr.buf|) && n == Available(|pr.buf|, old(i), b.Length) && i == old(i) + n
        && (n > 0 ==> b[..n] == pr.buf[old(i)..i])
      ensures b[n..] == old(b[..])[n..]
      ensures !cancelled && stream ==> n == b.Length || n == |pr.buf|
      ensures !cancelled && !stream && old(i) <= |pr.buf| ==> n == b.Length || i == |pr.buf|
    {
      RegisterFirstByte(since);
      if cancelled {
        return 0, true;
      }
      if stream {
        n := Copy(b, pr.buf);
        pr.TX := Wrap(pr.TX + n);
        return n, false;
      }
      if i >= |pr.buf| {
        return 0, true;
      }
      n := Copy(b, pr.buf[i..]);
      i := i + n;
      pr.TX := Wrap(pr.TX + n);
      eof := false;
    }
  }

  // A whole request body

  /** The position of a request body after reads into buffers of these sizes. */
  function After(length: nat, pos: nat, sizes: seq<nat>): nat {
    if sizes == [] then pos
    else
      var p := After(length, pos, sizes[..|sizes| - 1]);
      p + Available(length, p, sizes[|sizes| - 1])
  }

  /** What those reads deliver. */
  function Delivered(buf: seq<RF.Byte>, sizes: seq<nat>): seq<RF.Byte> {
    if sizes == [] then []
    else
      var p := After(|buf|, 0, sizes[..|sizes| - 1]);
      Delivered(buf, sizes[..|sizes| - 1])
        + (if p >= |buf| then [] else buf[p..p + Available(|buf|, p, sizes[|sizes| - 1])])
  }

  function NonEmpty(sizes: seq<nat>): nat {
    if sizes == [] then 0 else NonEmpty(sizes[..|sizes| - 1]) + if sizes[|sizes| - 1] > 0 then 1 else 0
  }

  lemma {:induction false} DeliveredIsPrefix(buf: seq<RF.Byte>, sizes: seq<nat>)
    ensures After(|buf|, 0, sizes) <= |buf| && Delivered(buf, sizes) == buf[..After(|buf|, 0, sizes)]
    decreases |sizes|
  {
    if sizes != [] {
      var n := |sizes| - 1;
      DeliveredIsPrefix(buf, sizes[..n]);
      var p := After(|buf|, 0, sizes[..n]);
      if p < |buf| {
        var q := Available(|buf|, p, sizes[n]);
        assert buf[..p] + buf[p..p + q] == buf[..p + q];
      }
    }
  }

  lemma {:induction false} EachReadAdvances(length: nat, sizes: seq<nat>)
    ensures After(length, 0, sizes) <= length
    ensures After(length, 0, sizes) == length || NonEmpty(sizes) <= After(length, 0, sizes)
    decreases |sizes|
  {
    if sizes != [] {
      EachReadAdvances(length, sizes[..|sizes| - 1]);
    }
  }

  /** The statistics after a body has been read at these times since its request. */
  function HeardAll(v: View, sinces: seq<Micros>): View {
    if sinces == [] then v
    else Heard(HeardAll(v, sinces[..|sinces| - 1]), |sinces| > 1, sinces[|sinces| - 1])
  }

  /** However often a body is read, only the first read's latency is a sample. */
  lemma {:induction false} OneSamplePerRequest(v: View, sinces: seq<Micros>)
    requires sinces != []
    ensures HeardAll(v, sinces) == Heard(v, false, sinces[0])
    decreases |sinces|
  {
    if |sinces| > 1 {
      OneSamplePerRequest(v, sinces[..|sinces| - 1]);
    } else {
      assert sinces[..0] == [];
    }
  }

  lemma HeardAgain(v: View, sinces: seq<Micros>, k: nat)
    requires k < |sinces|
    ensures HeardAll(v, sinces[..k + 1]) == Heard(HeardAll(v, sinces[..k]), k > 0, sinces[k])
  {
    assert sinces[..k + 1][..k] == sinces[..k];
  }

  lemma ReadAgain(buf: seq<RF.Byte>, sizes: seq<nat>, k: nat)
    requires k < |sizes|
    ensures var p := After(|buf|, 0, sizes[..k]); var n := Available(|buf|, p, sizes[k]);
      && After(|buf|, 0, sizes[..k + 1]) == p + n
      && Delivered(buf, sizes[..k + 1]) == Delivered(buf, sizes[..k]) + (if p >= |buf| then [] else buf[p..p + n])
      && NonEmpty(sizes[..k + 1]) == NonEmpty(sizes[..k]) + if sizes[k] > 0 then 1 else 0
  {
    assert sizes[..k + 1][..k] == sizes[..k];
  }

  lemma TimesOneMore(tx: int, a: int, n: int)
    ensures Wrap(Wrap(tx + a) + n) == Wrap(tx + (a + n))
  {
    WrapAdd(tx + a, n);
    assert tx + a + n == tx + (a + n);
  }

  /** One read into a fresh buffer. */
  method ReadSome(ar: AsyncReader, size: nat, since: Micros) returns (chunk: seq<RF.Byte>, eof: bool)
    requires !ar.stream && ar.i <= |ar.pr.buf|
    modifies ar, ar.pr
    ensures ar.ttfbRegistered && eof == (old(ar.i) == |ar.pr.buf|)
    ensures ar.i == old(ar.i) + Available(|ar.pr.buf|, old(ar.i), size) <= |ar.pr.buf|
    ensures chunk == ar.pr.buf[old(ar.i)..ar.i] && (|chunk| == size || ar.i == |ar.pr.buf|)
    ensures ar.pr.Now() == Heard(old(ar.pr.Now()), old(ar.ttfbRegistered), since).(tx := Wrap(old(ar.pr.TX) + |chunk|))
  {
    var b := new RF.Byte[size](i => 0);
    var n;
    n, eof := ar.Read(b, since, false);
    chunk := b[..n];
  }

  /** A body after made reads: where it stands, what it has delivered, and
      whether the last read reported the end. */
  ghost predicate Progress(buf: seq<RF.Byte>, sizes: seq<nat>, made: nat, pos: nat, out: seq<RF.Byte>, ended: bool) {
    && made <= |sizes| && pos <= |buf| && out == buf[..pos]
    && (ended ==> pos == |buf| && made > 0 && NonEmpty(sizes[..made]) <= |buf| + 1)
    && (!ended ==>
          && NonEmpty(sizes[..made]) <= pos
          && out == Delivered(buf, sizes[..made]) && pos == After(|buf|, 0, sizes[..made]))
  }

  lemma BodyStep(buf: seq<RF.Byte>, sizes: seq<nat>, made: nat, pos: nat, out: seq<RF.Byte>, n: nat)
    requires made < |sizes| && Progress(buf, sizes, made, pos, out, false) && n == Available(|buf|, pos, sizes[made])
    ensures pos + n <= |buf| && Progress(buf, sizes, made + 1, pos + n, out + buf[pos..pos + n], pos == |buf|)
  {
    ReadAgain(buf, sizes, made);
    assert buf[..pos] + buf[pos..pos + n] == buf[..pos + n];
  }

  /** The reader after made reads of a body that have delivered count bytes. */
  ghost predicate Heeded(v: View, now: View, sinces: seq<Micros>, made: nat, count: nat) {
    made <= |sinces| && now == HeardAll(v, sinces[..made]).(tx := Wrap(v.tx + count))
  }

  lemma StatsStep(v: View, now: View, sinces: seq<Micros>, made: nat, count: nat, n: nat)
    requires made < |sinces| && Heeded(v, now, sinces, made, count)
    ensures Heeded(v, Heard(now, made > 0, sinces[made]).(tx := Wrap(now.tx + n)), sinces, made + 1, count + n)
  {
    HeardAgain(v, sinces, made);
    TimesOneMore(v.tx, count, n);
  }

  /** Reads the body of one request of a test that is not cancelled, into
      buffers of any sizes, until it ends or the buffers run out. It delivers the
      payload once and in order, counts exactly the bytes it delivers, and takes
      one time-to-first-byte sample; it ends only after all of the payload, and
      within PayloadSize + 1 reads into buffers that are not empty. */
  method ReadBody(ar: AsyncReader, sizes: seq<nat>, sinces: seq<Micros>)
    returns (out: seq<RF.Byte>, ended: bool, made: nat)
    requires !ar.stream && ar.i == 0 && !ar.ttfbRegistered && |sinces| == |sizes|
    modifies ar, ar.pr
    ensures made <= |sizes| && NonEmpty(sizes[..made]) <= |ar.pr.buf| + 1
    ensures out <= ar.pr.buf && |out| == ar.i
    ensures ended ==> out == ar.pr.buf
    ensures NonEmpty(sizes) > |ar.pr.buf| ==> ended
    ensures made == 0 <==> sizes == []
    ensures made > 0 ==> ar.pr.Now() == Heard(old(ar.pr.Now()), false, sinces[0]).(tx := Wrap(old(ar.pr.TX) + |out|))
    ensures made == 0 ==> ar.pr.Now() == old(ar.pr.Now())
  {
    out, ended, made := [], false, 0;
    ghost var v := ar.pr.Now();
    while made < |sizes| && !ended
      invariant Progress(ar.pr.buf, sizes, made, ar.i, out, ended)
      invariant Heeded(v, ar.pr.Now(), sinces, made, |out|)
      invariant ar.ttfbRegistered == (made > 0)
      decreases |sizes| - made, !ended
    {
      ghost var pos := ar.i;
      StatsStep(v, ar.pr.Now(), sinces, made, |out|, Available(|ar.pr.buf|, pos, sizes[made]));
      BodyStep(ar.pr.buf, sizes, made, pos, out, Available(|ar.pr.buf|, pos, sizes[made]));
      var chunk, eof := ReadSome(ar, sizes[made], sinces[made]);
      made := made + 1;
      ended := eof;
      out := out + chunk;
    }
    ReadEnds(sizes, made);
    if made > 0 {
      OneSamplePerRequest(v, sinces[..made]);
    }
  }

  lemma ReadEnds(sizes: seq<nat>, made: nat)
    requires made <= |sizes|
    ensures made == |sizes| ==> sizes[..made] == sizes
  {
  }

  /** For any buffer sizes a request body delivers a prefix of its payload, once
      and in order; after as many non-empty reads as the payload has bytes it
      has delivered all of it. */
  lemma PayloadIsDeliveredOnce(buf: seq<RF.Byte>, sizes: seq<nat>)
    ensures Delivered(buf, sizes) <= buf && |Delivered(buf, sizes)| == After(|buf|, 0, sizes)
    ensures NonEmpty(sizes) >= |buf| ==> Delivered(buf, sizes) == buf && After(|buf|, 0, sizes) == |buf|
  {
    DeliveredIsPrefix(buf, sizes);
    EachReadAdvances(|buf|, sizes);
    assert buf[..|buf|] == buf;
  }

  /** Once the payload has been delivered, any further reads deliver nothing. */
  lemma {:induction false} EndIsFinal(buf: seq<RF.Byte>, sizes: seq<nat>, more: seq<nat>)
    requires After(|buf|, 0, sizes) == |buf|
    ensures After(|buf|, 0, sizes + more) == |buf| && Delivered(buf, sizes + more) == buf
    decreases |more|
  {
    if more == [] {
      assert sizes + more == sizes;
      DeliveredIsPrefix(buf, sizes);
      assert buf[..|buf|] == buf;
    } else {
      var init := more[..|more| - 1];
      assert (sizes + more)[..|sizes + more| - 1] == sizes + init;
      EndIsFinal(buf, sizes, init);
      assert Delivered(buf, sizes + init) + [] == buf;
    }
  }
}
