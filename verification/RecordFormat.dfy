/** Test files: one tag byte, a JSON object and a line feed per record; the
    line scanner that reads them back; and the path of a record from a server's
    file through a download to the analysis and the CSV export. */
module RecordFormat {
  import opened Folds
  import opened Records

  type Byte = x: int | 0 <= x < 256

  const LF: Byte := 10
  const CR: Byte := 13
  const OPEN_BRACE: Byte := 123
  const CLOSE_BRACE: Byte := 125

  /** The decimal digits of the two record tags. */
  const POINT_TAG: Byte := 48
  const ERROR_TAG: Byte := 49

  /** The bytes of the format as the characters that they stand for: a tag is the
      decimal digit of the record's kind, points being the first. */
  lemma FormatBytes()
    ensures POINT_TAG == '0' as int && ERROR_TAG == '1' as int && LF == '\n' as int && CR == '\r' as int
    ensures OPEN_BRACE == '{' as int && CLOSE_BRACE == '}' as int && MAX_LINE == 64 * 1024
  {
  }

  /** A JSON encoder with its decoder. */
  datatype Codec<!T> = Codec(enc: T -> seq<Byte>, dec: seq<Byte> -> Option<T>)

  /** One object in braces without a raw line feed: control characters are
      escaped inside JSON strings (section 7 of RFC 8259). */
  predicate IsObject(bs: seq<Byte>) {
    |bs| >= 2 && bs[0] == OPEN_BRACE && bs[|bs| - 1] == CLOSE_BRACE && LF !in bs
  }

  ghost predicate RoundTrips<T(!new)>(c: Codec<T>) {
    forall t :: IsObject(c.enc(t)) && c.dec(c.enc(t)) == Some(t)
  }

  datatype Codecs = Codecs(dp: Codec<DP>, err: Codec<TError>) {
    ghost predicate Faithful() {
      RoundTrips(dp) && RoundTrips(err)
    }

    function Object(r: Record): seq<Byte> {
      match r
      case Point(d) => dp.enc(d)
      case Error(e) => err.enc(e)
    }

    /** A record's line without its line feed. */
    function Payload(r: Record): seq<Byte> {
      [if r.Point? then POINT_TAG else ERROR_TAG] + Object(r)
    }

    function Encode(rs: seq<Record>): seq<Byte> {
      if rs == [] then [] else Payload(rs[0]) + [LF] + Encode(rs[1..])
    }

    function Payloads(rs: seq<Record>): seq<seq<Byte>> {
      seq(|rs|, i requires 0 <= i < |rs| => Payload(rs[i]))
    }
  }

  lemma EncodeCons(cs: Codecs, r: Record, rs: seq<Record>)
    ensures cs.Encode([r] + rs) == cs.Payload(r) + [LF] + cs.Encode(rs)
  {
    assert ([r] + rs)[1..] == rs;
  }

  lemma {:induction false} EncodeConcat(cs: Codecs, a: seq<Record>, b: seq<Record>)
    ensures cs.Encode(a + b) == cs.Encode(a) + cs.Encode(b)
  {
    if a == [] {
      assert a + b == b;
    } else {
      var r, t := a[0], a[1..];
      assert a == [r] + t && a + b == [r] + (t + b);
      EncodeConcat(cs, t, b);
      EncodeCons(cs, r, t);
      EncodeCons(cs, r, t + b);
      Regroup(cs.Payload(r) + [LF], cs.Encode(t), cs.Encode(b));
    }
  }

  // Writing

  /** How many bytes each write to a file takes, by the number of writes before it. */
  type Disk = nat -> nat

  function Least(a: nat, b: nat): nat {
    if a < b then a else b
  }

  /** What a write that takes at most most bytes leaves of bs. */
  function Part(bs: seq<Byte>, most: nat): seq<Byte> {
    bs[..Least(|bs|, most)]
  }

  /** Writes of these, from write w on, are all taken in full. */
  predicate TakesAll(disk: Disk, w: nat, chunks: seq<seq<Byte>>) {
    forall k :: 0 <= k < |chunks| ==> |chunks[k]| <= disk(w + k)
  }

  /** A record of which the tag, n bytes of the object after it, or the line feed
      at its end could not be written any more. */
  ghost predicate CutShort(was: seq<Byte>, tag: Byte, object_: seq<Byte>, now: seq<Byte>, n: nat) {
    || (n == 0 && now == was)
    || (n < |object_| && now == was + [tag] + object_[..n])
    || (n == 0 && now == was + [tag] + object_)
  }

  lemma CutShortIsPrefix(was: seq<Byte>, tag: Byte, object_: seq<Byte>, now: seq<Byte>, n: nat)
    requires CutShort(was, tag, object_, now, n)
    ensures was <= now <= was + ([tag] + object_ + [LF])
  {
    assert was + ([tag] + object_ + [LF]) == (was + [tag]) + (object_ + [LF]);
    assert n < |object_| ==> object_[..n] <= object_ + [LF];
  }

  /** A file on a disk, which may fail to take any write in full. */
  class File {
    const disk: Disk
    var content: seq<Byte>
    var writes: nat

    constructor (disk: Disk)
      ensures this.disk == disk && content == [] && writes == 0
    {
      this.disk, content, writes := disk, [], 0;
    }

    /** A write succeeds if and only if it is taken in full. */
    method Write(bs: seq<Byte>) returns (n: nat, ok: bool)
      modifies this
      ensures writes == old(writes) + 1 && n == Least(|bs|, disk(old(writes)))
      ensures content == old(content) + Part(bs, disk(old(writes)))
      ensures ok <==> |bs| <= disk(old(writes))
    {
      n := Least(|bs|, disk(writes));
      content := content + bs[..n];
      writes := writes + 1;
      ok := n == |bs|;
    }

    /** Tag, object and line feed in three writes, stopping at the first error.
        object_ is absent if it cannot be marshalled. n is the length of the
        last write only. */
    method WriteStructAndNewLine(tag: Byte, object_: Option<seq<Byte>>) returns (n: nat, ok: bool)
      modifies this
      ensures object_.None? ==> !ok && n == 0 && content == old(content) && writes == old(writes)
      ensures object_.Some? ==> (ok <==> TakesAll(disk, old(writes), [[tag], object_.value, [LF]]))
      ensures ok ==> n == 1 && writes == old(writes) + 3 && content == old(content) + ([tag] + object_.value + [LF])
      ensures object_.Some? && !ok ==> CutShort(old(content), tag, object_.value, content, n)
    {
      if object_.None? {
        return 0, false;
      }
      ghost var chunks := [[tag], object_.value, [LF]];
      assert chunks[0] == [tag] && chunks[1] == object_.value && chunks[2] == [LF];
      n, ok := Write([tag]);
      if !ok {
        return;
      }
      n, ok := Write(object_.value);
      if !ok {
        return;
      }
      n, ok := Write([LF]);
    }

    method WriteRecord(cs: Codecs, r: Record) returns (ok: bool)
      modifies this
      ensures ok <==> TakesAll(disk, old(writes), ChunksOf(cs, r))
      ensures ok ==> writes == old(writes) + 3 && content == old(content) + (cs.Payload(r) + [LF])
      ensures !ok ==> old(content) <= content <= old(content) + (cs.Payload(r) + [LF])
    {
      var tag := if r.Point? then POINT_TAG else ERROR_TAG;
      var n;
      n, ok := WriteStructAndNewLine(tag, Some(cs.Object(r)));
      if !ok {
        CutShortIsPrefix(old(content), tag, cs.Object(r), content, n);
      }
    }

    /** One record after the other, stopping at the first error: it succeeds if
        and only if the disk takes every write. */
    method WriteRecords(cs: Codecs, rs: seq<Record>) returns (ok: bool)
      modifies this
      ensures ok <==> TakesAll(disk, old(writes), Chunks(cs, rs))
      ensures ok ==> writes == old(writes) + 3 * |rs| && content == old(content) + cs.Encode(rs)
      ensures !ok ==> old(content) <= content <= old(content) + cs.Encode(rs)
    {
      ok := true;
      ghost var was, w := content, writes;
      for i := 0 to |rs|
        invariant ok && HasWritten(cs, disk, was, w, rs, i, content, writes)
      {
        ghost var before := content;
        ok := WriteRecord(cs, rs[i]);
        RecordStep(cs, disk, was, w, rs, i, before, content, ok);
        if !ok {
          return;
        }
      }
      assert rs[..|rs|] == rs;
    }

    /** One write after the other, with every error ignored. */
    method WriteAnyway(chunks: seq<seq<Byte>>)
      modifies this
      ensures writes == old(writes) + |chunks| && content == old(content) + Saved(disk, old(writes), chunks)
    {
      ghost var was, w := content, writes;
      for k := 0 to |chunks|
        invariant writes == w + k && content == was + Saved(disk, w, chunks[..k])
      {
        SavedOneMore(disk, w, chunks, k, was);
        var n, ok := Write(chunks[k]);
      }
      assert chunks[..|chunks|] == chunks;
    }

    /** Records in three writes each, with every error ignored. */
    method SaveRecords(cs: Codecs, rs: seq<Record>)
      modifies this
      ensures writes == old(writes) + |Chunks(cs, rs)|
      ensures content == old(content) + Saved(disk, old(writes), Chunks(cs, rs))
    {
      WriteAnyway(Chunks(cs, rs));
    }
  }

  /** The writes that a record takes. */
  function ChunksOf(cs: Codecs, r: Record): seq<seq<Byte>> {
    [[if r.Point? then POINT_TAG else ERROR_TAG], cs.Object(r), [LF]]
  }

  function Chunks(cs: Codecs, rs: seq<Record>): (chunks: seq<seq<Byte>>)
    ensures |chunks| == 3 * |rs|
  {
    if rs == [] then [] else ChunksOf(cs, rs[0]) + Chunks(cs, rs[1..])
  }

  lemma {:induction false} ChunksConcat(cs: Codecs, a: seq<Record>, b: seq<Record>)
    ensures Chunks(cs, a + b) == Chunks(cs, a) + Chunks(cs, b)
  {
    if a == [] {
      assert a + b == b;
    } else {
      ChunksConcat(cs, a[1..], b);
      assert (a + b)[1..] == a[1..] + b;
      Regroup(ChunksOf(cs, a[0]), Chunks(cs, a[1..]), Chunks(cs, b));
    }
  }

  function Flat(ps: seq<seq<Byte>>): seq<Byte> {
    if ps == [] then [] else Flat(ps[..|ps| - 1]) + ps[|ps| - 1]
  }

  lemma FlatAppend(ps: seq<seq<Byte>>, p: seq<Byte>)
    ensures Flat(ps + [p]) == Flat(ps) + p
  {
    assert (ps + [p])[..|ps|] == ps;
  }

  lemma {:induction false} FlatConcat(a: seq<seq<Byte>>, b: seq<seq<Byte>>)
    ensures Flat(a + b) == Flat(a) + Flat(b)
    decreases |b|
  {
    if b == [] {
      assert a + b == a;
    } else {
      var init, p := b[..|b| - 1], b[|b| - 1];
      assert a + b == (a + init) + [p] && b == init + [p];
      FlatConcat(a, init);
      FlatAppend(a + init, p);
      FlatAppend(init, p);
      Regroup(Flat(a), Flat(init), p);
    }
  }

  lemma FlatOfThree(a: seq<Byte>, b: seq<Byte>, c: seq<Byte>)
    ensures Flat([a, b, c]) == a + b + c
  {
    FlatAppend([], a);
    FlatAppend([a], b);
    FlatAppend([a, b], c);
    assert [a, b, c] == [a, b] + [c] && [a, b] == [a] + [b] && [a] == [] + [a];
  }

  /** The writes together are the file. */
  lemma {:induction false} ChunksEncode(cs: Codecs, rs: seq<Record>)
    ensures Flat(Chunks(cs, rs)) == cs.Encode(rs)
  {
    if rs != [] {
      var r := rs[0];
      ChunksEncode(cs, rs[1..]);
      FlatConcat(ChunksOf(cs, r), Chunks(cs, rs[1..]));
      FlatOfThree([if r.Point? then POINT_TAG else ERROR_TAG], cs.Object(r), [LF]);
    }
  }

  function Taken(disk: Disk, w: nat, chunks: seq<seq<Byte>>): (ps: seq<seq<Byte>>)
    ensures |ps| == |chunks| && forall k :: 0 <= k < |ps| ==> ps[k] == Part(chunks[k], disk(w + k))
  {
    seq(|chunks|, k requires 0 <= k < |chunks| => Part(chunks[k], disk(w + k)))
  }

  /** What writing these from write w on leaves, with every error ignored. */
  function Saved(disk: Disk, w: nat, chunks: seq<seq<Byte>>): seq<Byte> {
    Flat(Taken(disk, w, chunks))
  }

  lemma SavedOneMore(disk: Disk, w: nat, chunks: seq<seq<Byte>>, k: nat, was: seq<Byte>)
    requires k < |chunks|
    ensures (was + Saved(disk, w, chunks[..k])) + Part(chunks[k], disk(w + k)) == was + Saved(disk, w, chunks[..k + 1])
  {
    var p := Part(chunks[k], disk(w + k));
    assert Taken(disk, w, chunks[..k + 1]) == Taken(disk, w, chunks[..k]) + [p];
    FlatAppend(Taken(disk, w, chunks[..k]), p);
    Regroup(was, Saved(disk, w, chunks[..k]), p);
  }

  /** Writing b after a leaves what writing both leaves. */
  lemma SavedConcat(disk: Disk, w: nat, a: seq<seq<Byte>>, b: seq<seq<Byte>>)
    ensures Saved(disk, w, a + b) == Saved(disk, w, a) + Saved(disk, w + |a|, b)
  {
    assert Taken(disk, w, a + b) == Taken(disk, w, a) + Taken(disk, w + |a|, b);
    FlatConcat(Taken(disk, w, a), Taken(disk, w + |a|, b));
  }

  /** Writing a, then b. */
  lemma SavedTwice(disk: Disk, a: seq<seq<Byte>>, b: seq<seq<Byte>>, was: seq<Byte>, w: nat,
                   half: seq<Byte>, now: seq<Byte>)
    requires half == was + Saved(disk, w, a) && now == half + Saved(disk, w + |a|, b)
    ensures now == was + Saved(disk, w, a + b)
  {
    SavedConcat(disk, w, a, b);
    Regroup(was, Saved(disk, w, a), Saved(disk, w + |a|, b));
  }

  lemma TakesConcat(disk: Disk, w: nat, a: seq<seq<Byte>>, b: seq<seq<Byte>>)
    ensures TakesAll(disk, w, a + b) <==> TakesAll(disk, w, a) && TakesAll(disk, w + |a|, b)
  {
    var c := a + b;
    assert forall k :: 0 <= k < |a| ==> c[k] == a[k];
    assert forall k :: 0 <= k < |b| ==> c[|a| + k] == b[k];
    if TakesAll(disk, w, c) {
      forall k | 0 <= k < |b| ensures |b[k]| <= disk(w + |a| + k) {
        assert |c[|a| + k]| <= disk(w + (|a| + k));
      }
    } else if TakesAll(disk, w, a) && TakesAll(disk, w + |a|, b) {
      forall k | 0 <= k < |c| ensures |c[k]| <= disk(w + k) {
        if k >= |a| {
          assert |b[k - |a|]| <= disk(w + |a| + (k - |a|));
        }
      }
    }
  }

  lemma {:induction false} ShorterParts(ps: seq<seq<Byte>>, qs: seq<seq<Byte>>)
    requires |ps| == |qs| && forall k :: 0 <= k < |ps| ==> ps[k] <= qs[k]
    ensures |Flat(ps)| <= |Flat(qs)|
    ensures |Flat(ps)| == |Flat(qs)| <==> ps == qs
    decreases |ps|
  {
    if ps != [] {
      var last := |ps| - 1;
      ShorterParts(ps[..last], qs[..last]);
      assert ps == ps[..last] + [ps[last]] && qs == qs[..last] + [qs[last]];
      assert |ps[last]| == |qs[last]| ==> ps[last] == qs[last];
      assert |Flat(ps)| == |Flat(ps[..last])| + |ps[last]| && |Flat(qs)| == |Flat(qs[..last])| + |qs[last]|;
    }
  }

  /** With every error ignored, a file has grown by exactly what was to be written
      if and only if the disk has taken every write; otherwise it is too short. */
  lemma SavedExactly(disk: Disk, w: nat, chunks: seq<seq<Byte>>)
    ensures |Saved(disk, w, chunks)| <= |Flat(chunks)|
    ensures Saved(disk, w, chunks) == Flat(chunks) <==> TakesAll(disk, w, chunks)
    ensures |Saved(disk, w, chunks)| == |Flat(chunks)| <==> TakesAll(disk, w, chunks)
  {
    var ps := Taken(disk, w, chunks);
    ShorterParts(ps, chunks);
    if TakesAll(disk, w, chunks) {
      assert forall k :: 0 <= k < |ps| ==> ps[k] == chunks[k];
      assert ps == chunks;
    } else {
      var k :| 0 <= k < |chunks| && |chunks[k]| > disk(w + k);
      assert |ps[k]| < |chunks[k]|;
    }
  }

  lemma ChunksOneMore(cs: Codecs, rs: seq<Record>, i: nat)
    requires i < |rs|
    ensures Chunks(cs, rs[..i + 1]) == Chunks(cs, rs[..i]) + ChunksOf(cs, rs[i])
    ensures Chunks(cs, rs) == Chunks(cs, rs[..i + 1]) + Chunks(cs, rs[i + 1..])
  {
    var first, rest := rs[..i + 1], rs[i + 1..];
    assert first == rs[..i] + [rs[i]] && rs == first + rest;
    ChunksConcat(cs, rs[..i], [rs[i]]);
    ChunksConcat(cs, first, rest);
    assert Chunks(cs, [rs[i]]) == ChunksOf(cs, rs[i]) by {
      assert [rs[i]][1..] == [];
      assert ChunksOf(cs, rs[i]) + [] == ChunksOf(cs, rs[i]);
    }
  }

  lemma TakesOneMore(cs: Codecs, disk: Disk, w: nat, rs: seq<Record>, i: nat)
    requires i < |rs| && TakesAll(disk, w, Chunks(cs, rs[..i]))
    ensures TakesAll(disk, w + 3 * i, ChunksOf(cs, rs[i])) <==> TakesAll(disk, w, Chunks(cs, rs[..i + 1]))
    ensures TakesAll(disk, w, Chunks(cs, rs)) ==> TakesAll(disk, w, Chunks(cs, rs[..i + 1]))
  {
    ChunksOneMore(cs, rs, i);
    TakesConcat(disk, w, Chunks(cs, rs[..i]), ChunksOf(cs, rs[i]));
    TakesConcat(disk, w, Chunks(cs, rs[..i + 1]), Chunks(cs, rs[i + 1..]));
  }

  /** The first i records have been written, each with three writes taken in full. */
  ghost predicate HasWritten(cs: Codecs, disk: Disk, was: seq<Byte>, w: nat, rs: seq<Record>, i: nat,
                             now: seq<Byte>, writes: nat)
    requires i <= |rs|
  {
    writes == w + 3 * i && now == was + cs.Encode(rs[..i]) && TakesAll(disk, w, Chunks(cs, rs[..i]))
  }

  lemma RecordStep(cs: Codecs, disk: Disk, was: seq<Byte>, w: nat, rs: seq<Record>, i: nat,
                   before: seq<Byte>, now: seq<Byte>, ok: bool)
    requires i < |rs| && HasWritten(cs, disk, was, w, rs, i, before, w + 3 * i)
    requires ok <==> TakesAll(disk, w + 3 * i, ChunksOf(cs, rs[i]))
    requires ok ==> now == before + (cs.Payload(rs[i]) + [LF])
    requires !ok ==> before <= now <= before + (cs.Payload(rs[i]) + [LF])
    ensures ok ==> HasWritten(cs, disk, was, w, rs, i + 1, now, w + 3 * (i + 1))
    ensures !ok ==> !TakesAll(disk, w, Chunks(cs, rs)) && was <= now <= was + cs.Encode(rs)
  {
    TakesOneMore(cs, disk, w, rs, i);
    if ok {
      OneMoreLine(cs, rs, i, was);
    } else {
      PartialLine(cs, rs, i, was, now);
    }
  }

  lemma PartialLine(cs: Codecs, rs: seq<Record>, i: nat, was: seq<Byte>, now: seq<Byte>)
    requires i < |rs| && was + cs.Encode(rs[..i]) <= now <= (was + cs.Encode(rs[..i])) + (cs.Payload(rs[i]) + [LF])
    ensures was <= now <= was + cs.Encode(rs)
  {
    EncodePrefix(cs, rs, i);
    PartialWrite(was, cs.Encode(rs[..i]), cs.Payload(rs[i]) + [LF], cs.Encode(rs), now);
  }

  lemma OneMoreLine(cs: Codecs, rs: seq<Record>, i: nat, was: seq<Byte>)
    requires i < |rs|
    ensures (was + cs.Encode(rs[..i])) + (cs.Payload(rs[i]) + [LF]) == was + cs.Encode(rs[..i + 1])
  {
    EncodePrefix(cs, rs, i);
    Regroup(was, cs.Encode(rs[..i]), cs.Payload(rs[i]) + [LF]);
  }

  lemma EncodePrefix(cs: Codecs, rs: seq<Record>, i: nat)
    requires i < |rs|
    ensures cs.Encode(rs[..i + 1]) == cs.Encode(rs[..i]) + (cs.Payload(rs[i]) + [LF])
    ensures cs.Encode(rs[..i + 1]) <= cs.Encode(rs)
  {
    assert rs[..i + 1] == rs[..i] + [rs[i]] && rs == rs[..i + 1] + rs[i + 1..];
    EncodeConcat(cs, rs[..i], [rs[i]]);
    EncodeConcat(cs, rs[..i + 1], rs[i + 1..]);
    assert cs.Encode([rs[i]]) == cs.Payload(rs[i]) + [LF] by {
      assert [rs[i]][1..] == [];
    }
  }

  /** Any part of one more record is still a prefix of the whole. */
  lemma PartialWrite(was: seq<Byte>, done: seq<Byte>, line: seq<Byte>, all: seq<Byte>, now: seq<Byte>)
    requires done + line <= all && was + done <= now <= (was + done) + line
    ensures was <= now <= was + all
  {
    assert was + (done + line) == (was + done) + line;
    assert now <= was + (done + line) <= was + all;
  }

  // Scanning

  const MAX_LINE: nat := 65536

  function LineEnd(bs: seq<Byte>): (n: nat)
    ensures n <= |bs| && LF !in bs[..n] && (n < |bs| ==> bs[n] == LF)
  {
    if bs == [] || bs[0] == LF then 0
    else
      assert bs[..1 + LineEnd(bs[1..])] == [bs[0]] + bs[1..][..LineEnd(bs[1..])];
      1 + LineEnd(bs[1..])
  }

  function DropCR(line: seq<Byte>): seq<Byte> {
    if line != [] && line[|line| - 1] == CR then line[..|line| - 1] else line
  }

  /** The lines a scanner yields, and whether it reached the end of the input. */
  datatype Scanned = Scanned(lines: seq<seq<Byte>>, complete: bool)

  /** Lines end at a line feed or at the end of the input, lose one trailing
      carriage return, and must fit the scanner's buffer; the first one that
      does not ends the scan. */
  function Scan(bs: seq<Byte>): Scanned
    decreases |bs|
  {
    if bs == [] then Scanned([], true)
    else
      var n := LineEnd(bs);
      if n >= MAX_LINE then Scanned([], false)
      else
        var rest := Scan(if n < |bs| then bs[n + 1..] else []);
        Scanned([DropCR(bs[..n])] + rest.lines, rest.complete)
  }

  /** Lines with a line feed between any two. */
  function Joined(lines: seq<seq<Byte>>): seq<Byte> {
    if lines == [] then [] else if |lines| == 1 then lines[0] else lines[0] + [LF] + Joined(lines[1..])
  }

  /** A scan that is complete, of a file without carriage returns, splits it at its
      line feeds and nowhere else: the lines hold no line feed, and joined by one
      they are the file, up to one line feed at its end. */
  lemma {:induction false} ScanSplits(bs: seq<Byte>)
    requires Scan(bs).complete && CR !in bs
    ensures AreLines(Scan(bs).lines)
    ensures bs == [] ==> Scan(bs).lines == []
    ensures bs != [] ==>
      Scan(bs).lines != [] && (bs == Joined(Scan(bs).lines) || bs == Joined(Scan(bs).lines) + [LF])
    decreases |bs|
  {
    if bs != [] {
      var n := LineEnd(bs);
      var rest := AfterLine(bs);
      ScanCases(bs);
      ScanSplits(rest);
      LinesCons(bs[..n], Scan(rest).lines);
      JoinedCons(bs[..n], Scan(rest).lines);
      if n < |bs| {
        RejoinLine(bs, n, Scan(rest).lines);
      } else {
        assert bs[..n] == bs;
      }
    }
  }

  function AfterLine(bs: seq<Byte>): seq<Byte> {
    var n := LineEnd(bs);
    if n < |bs| then bs[n + 1..] else []
  }

  lemma ScanCases(bs: seq<Byte>)
    requires bs != [] && Scan(bs).complete && CR !in bs
    ensures var n, rest := LineEnd(bs), AfterLine(bs);
      && n < MAX_LINE && |rest| < |bs| && CR !in rest && Scan(rest).complete
      && Scan(bs).lines == [bs[..n]] + Scan(rest).lines
  {
    var line := bs[..LineEnd(bs)];
    assert line != [] ==> line[|line| - 1] in bs;
    assert DropCR(line) == line;
  }

  /** Lines that a scanner can yield of such a file. */
  ghost predicate AreLines(lines: seq<seq<Byte>>) {
    forall k :: 0 <= k < |lines| ==> LF !in lines[k] && |lines[k]| < MAX_LINE
  }

  lemma LinesCons(line: seq<Byte>, lines: seq<seq<Byte>>)
    requires AreLines(lines)
    ensures LF !in line && |line| < MAX_LINE ==> AreLines([line] + lines)
  {
  }

  lemma JoinedCons(line: seq<Byte>, lines: seq<seq<Byte>>)
    ensures Joined([line] + lines) == if lines == [] then line else line + [LF] + Joined(lines)
  {
  }

  lemma RejoinLine(bs: seq<Byte>, n: nat, lines: seq<seq<Byte>>)
    requires n < |bs| && bs[n] == LF
    ensures bs == bs[..n] + [LF] + bs[n + 1..]
    ensures bs[n + 1..] == [] ==> bs == bs[..n] + [LF]
    ensures bs[n + 1..] == Joined(lines) + [LF] ==> bs == (bs[..n] + [LF] + Joined(lines)) + [LF]
  {
  }

  lemma {:induction false} LineEndIs(line: seq<Byte>, rest: seq<Byte>)
    requires LF !in line
    ensures LineEnd(line + [LF] + rest) == |line|
  {
    if line != [] {
      assert (line + [LF] + rest)[1..] == line[1..] + [LF] + rest;
      LineEndIs(line[1..], rest);
    }
  }

  lemma PayloadIsLine(cs: Codecs, r: Record)
    requires cs.Faithful()
    ensures LF !in cs.Payload(r) && DropCR(cs.Payload(r)) == cs.Payload(r) && |cs.Payload(r)| >= 3
  {
    var body := if r.Point? then cs.dp.enc(r.dp) else cs.err.enc(r.err);
    assert IsObject(body);
    var p := cs.Payload(r);
    assert p == [p[0]] + body;
    assert p[|p| - 1] == body[|body| - 1];
  }

  /** The records before the first one whose line does not fit the scanner. */
  function Fitting(cs: Codecs, rs: seq<Record>): seq<Record> {
    if rs == [] || |cs.Payload(rs[0])| >= MAX_LINE then [] else [rs[0]] + Fitting(cs, rs[1..])
  }

  /** One line in front of the rest of a file. */
  lemma ScanLine(line: seq<Byte>, rest: seq<Byte>)
    requires LF !in line && DropCR(line) == line
    ensures Scan(line + [LF] + rest)
         == if |line| >= MAX_LINE then Scanned([], false)
            else Scanned([line] + Scan(rest).lines, Scan(rest).complete)
  {
    LineEndIs(line, rest);
    var bs := line + [LF] + rest;
    assert bs[..|line|] == line && bs[|line| + 1..] == rest;
  }

  lemma PayloadsCons(cs: Codecs, r: Record, rs: seq<Record>)
    ensures cs.Payloads([r] + rs) == [cs.Payload(r)] + cs.Payloads(rs)
  {
  }

  /** Scanning a written file yields the lines of its records up to the first
      one that is too long, and is complete exactly when there is none. */
  lemma {:induction false} ScanOfEncoded(cs: Codecs, rs: seq<Record>)
    requires cs.Faithful()
    ensures Scan(cs.Encode(rs)) == Scanned(cs.Payloads(Fitting(cs, rs)), Fitting(cs, rs) == rs)
  {
    if rs == [] {
      assert cs.Payloads([]) == [];
    } else {
      PayloadIsLine(cs, rs[0]);
      ScanLine(cs.Payload(rs[0]), cs.Encode(rs[1..]));
      if |cs.Payload(rs[0])| < MAX_LINE {
        ScanOfEncoded(cs, rs[1..]);
        PayloadsCons(cs, rs[0], Fitting(cs, rs[1..]));
        assert rs == [rs[0]] + rs[1..];
        assert Fitting(cs, rs)[1..] == Fitting(cs, rs[1..]);
      } else {
        assert cs.Payloads([]) == [];
      }
    }
  }

  ghost predicate Fits(cs: Codecs, rs: seq<Record>) {
    forall r :: r in rs ==> |cs.Payload(r)| < MAX_LINE
  }

  lemma {:induction false} FittingAll(cs: Codecs, rs: seq<Record>)
    requires Fits(cs, rs)
    ensures Fitting(cs, rs) == rs
  {
    if rs != [] {
      FittingAll(cs, rs[1..]);
      assert rs == [rs[0]] + rs[1..];
    }
  }

  // Receiving

  /** The client's collected points and errors. */
  datatype Store = Store(points: seq<DP>, errors: seq<TError>)

  predicate HasTag(line: seq<Byte>, tag: Byte) {
    line != [] && line[0] == tag
  }

  /** receiveJSONDataPoint: unknown and undecodable lines only print a message. */
  function Receive(cs: Codecs, st: Store, line: seq<Byte>): Store {
    if HasTag(line, ERROR_TAG) then
      (match cs.err.dec(line[1..])
       case Some(e) => st.(errors := st.errors + [e])
       case None => st)
    else if HasTag(line, POINT_TAG) then
      (match cs.dp.dec(line[1..])
       case Some(d) => st.(points := st.points + [d])
       case None => st)
    else st
  }

  function ReceiveAll(cs: Codecs, lines: seq<seq<Byte>>): Store {
    if lines == [] then Store([], [])
    else Receive(cs, ReceiveAll(cs, lines[..|lines| - 1]), lines[|lines| - 1])
  }

  lemma ReceivePayload(cs: Codecs, st: Store, r: Record)
    requires cs.Faithful()
    ensures Receive(cs, st, cs.Payload(r))
         == Store(st.points + PointOf(r), st.errors + ErrorOf(r))
  {
    var line := cs.Payload(r);
    match r
    case Point(d) =>
      assert line[1..] == cs.dp.enc(d);
      assert st.errors + [] == st.errors;
    case Error(e) =>
      assert line[1..] == cs.err.enc(e);
      assert st.points + [] == st.points;
  }

  lemma ReceiveLast(cs: Codecs, lines: seq<seq<Byte>>, r: Record)
    requires cs.Faithful()
    ensures var st := ReceiveAll(cs, lines);
      ReceiveAll(cs, lines + [cs.Payload(r)]) == Store(st.points + PointOf(r), st.errors + ErrorOf(r))
  {
    assert (lines + [cs.Payload(r)])[..|lines|] == lines;
    ReceivePayload(cs, ReceiveAll(cs, lines), r);
  }

  lemma PayloadsAppend(cs: Codecs, rs: seq<Record>, r: Record)
    ensures cs.Payloads(rs + [r]) == cs.Payloads(rs) + [cs.Payload(r)]
  {
  }

  lemma {:induction false} ReceivePayloads(cs: Codecs, rs: seq<Record>)
    requires cs.Faithful()
    ensures ReceiveAll(cs, cs.Payloads(rs)) == Store(PointsIn(rs), ErrorsIn(rs))
    decreases |rs|
  {
    if rs != [] {
      var init, r := rs[..|rs| - 1], rs[|rs| - 1];
      assert init + [r] == rs;
      PayloadsAppend(cs, init, r);
      InAppend(init, r);
      ReceivePayloads(cs, init);
      ReceiveLast(cs, cs.Payloads(init), r);
    }
  }

  /** Lines that arrive in another order are the lines of the same records in
      another order. */
  lemma {:induction false} ArrivalIsPermutation(cs: Codecs, rs: seq<Record>, arrival: seq<seq<Byte>>)
    returns (rs': seq<Record>)
    requires multiset(arrival) == multiset(cs.Payloads(rs))
    ensures arrival == cs.Payloads(rs') && multiset(rs') == multiset(rs)
    decreases |rs|
  {
    var lines := cs.Payloads(rs);
    if arrival == [] {
      assert |multiset(lines)| == 0;
      rs' := [];
    } else {
      var k := MatchHead(arrival, lines);
      var rest := rs[..k] + rs[k + 1..];
      assert cs.Payloads(rest) == lines[..k] + lines[k + 1..];
      var tail := ArrivalIsPermutation(cs, rest, arrival[1..]);
      rs' := [rs[k]] + tail;
      assert rs == rs[..k] + [rs[k]] + rs[k + 1..];
      assert arrival == [arrival[0]] + arrival[1..];
      assert cs.Payloads(rs') == [cs.Payload(rs[k])] + cs.Payloads(tail);
    }
  }

  // The servers' files

  /** The lines of consecutive files, up to the first that cannot be scanned to its end. */
  function StreamOf(files: seq<seq<Byte>>): Scanned {
    if files == [] then Scanned([], true)
    else
      var s := Scan(files[0]);
      if !s.complete then s else Scanned(s.lines + StreamOf(files[1..]).lines, StreamOf(files[1..]).complete)
  }

  /** What gets through on a connection that takes at most room messages. */
  function Sent(s: Scanned, room: nat): Scanned {
    if |s.lines| <= room then s else Scanned(s.lines[..room], false)
  }

  /** Sends one message per line of the test's files, and stops at the first
      write that fails or the first file that cannot be scanned to its end. */
  method StreamTestFiles(files: seq<seq<Byte>>, room: nat) returns (sent: seq<seq<Byte>>, ok: bool)
    ensures Scanned(sent, ok) == Sent(StreamOf(files), room)
  {
    sent := [];
    assert files[0..] == files;
    for i := 0 to |files|
      invariant |sent| <= room && StreamOf(files) == Prefixed(sent, StreamOf(files[i..]))
    {
      var scanned := Scan(files[i]);
      StreamStep(sent, files, i);
      ghost var rest := if scanned.complete then StreamOf(files[i + 1..]) else Scanned([], false);
      SentPrefix(sent, scanned.lines, rest, room);
      sent, ok := SendLines(sent, scanned.lines, room);
      if !ok || !scanned.complete {
        return sent, false;
      }
    }
    ok := true;
  }

  /** Lines that do not get through hide what follows them. */
  lemma SentPrefix(sent: seq<seq<Byte>>, lines: seq<seq<Byte>>, rest: Scanned, room: nat)
    requires |sent| <= room
    ensures |sent + lines| > room ==>
      Sent(Prefixed(sent + lines, rest), room) == Scanned((sent + lines)[..room], false)
    ensures |sent + lines| <= room && rest == Scanned([], false) ==>
      Sent(Prefixed(sent + lines, rest), room) == Scanned(sent + lines, false)
  {
    assert sent + lines + [] == sent + lines;
  }

  function EncodeAll(cs: Codecs, files: seq<seq<Record>>): (bs: seq<seq<Byte>>)
    ensures |bs| == |files| && forall i :: 0 <= i < |files| ==> bs[i] == cs.Encode(files[i])
  {
    seq(|files|, i requires 0 <= i < |files| => cs.Encode(files[i]))
  }

  lemma {:induction false} StreamOfRecords(cs: Codecs, files: seq<seq<Record>>)
    requires cs.Faithful() && forall i :: 0 <= i < |files| ==> Fits(cs, files[i])
    ensures StreamOf(EncodeAll(cs, files)) == Scanned(cs.Payloads(Together(files)), true)
  {
    if files != [] {
      var bs := EncodeAll(cs, files);
      assert bs[1..] == EncodeAll(cs, files[1..]);
      StreamOfRecords(cs, files[1..]);
      FileStreams(cs, files[0]);
      PayloadsConcat(cs, files[0], Together(files[1..]));
    }
  }

  /** Streaming the written files of a test sends one message per record, in
      order, with success, if the connection takes them all; otherwise as many of
      the first ones as it takes, and fails. */
  method StreamRecords(cs: Codecs, files: seq<seq<Record>>, room: nat) returns (sent: seq<seq<Byte>>, ok: bool)
    requires cs.Faithful() && forall i :: 0 <= i < |files| ==> Fits(cs, files[i])
    ensures ok <==> |Together(files)| <= room
    ensures ok ==> sent == cs.Payloads(Together(files))
    ensures !ok ==> sent == cs.Payloads(Together(files))[..room]
  {
    StreamOfRecords(cs, files);
    sent, ok := StreamTestFiles(EncodeAll(cs, files), room);
  }

  function Prefixed(sent: seq<seq<Byte>>, s: Scanned): Scanned {
    Scanned(sent + s.lines, s.complete)
  }

  lemma StreamStep(sent: seq<seq<Byte>>, files: seq<seq<Byte>>, i: nat)
    requires i < |files|
    ensures var s := Scan(files[i]);
      Prefixed(sent, StreamOf(files[i..]))
        == Prefixed(sent + s.lines, if s.complete then StreamOf(files[i + 1..]) else Scanned([], false))
  {
    var s, rest := Scan(files[i]), StreamOf(files[i + 1..]);
    assert files[i..][0] == files[i] && files[i..][1..] == files[i + 1..];
    assert sent + (s.lines + rest.lines) == (sent + s.lines) + rest.lines;
    assert sent + s.lines == (sent + s.lines) + [];
  }

  method SendLines(sent: seq<seq<Byte>>, lines: seq<seq<Byte>>, room: nat) returns (now: seq<seq<Byte>>, ok: bool)
    requires |sent| <= room
    ensures ok <==> |sent + lines| <= room
    ensures now == if ok then sent + lines else (sent + lines)[..room]
  {
    now := sent;
    for i := 0 to |lines|
      invariant now == sent + lines[..i] && |now| <= room
    {
      if |now| == room {
        return now, false;
      }
      now := now + [lines[i]];
    }
    ok := true;
  }

  function Together(files: seq<seq<Record>>): seq<Record> {
    if files == [] then [] else files[0] + Together(files[1..])
  }

  /** What the servers stream, each of its one file of the test. */
  function Streamed(cs: Codecs, files: seq<seq<Record>>): seq<seq<Byte>> {
    if files == [] then [] else StreamOf([cs.Encode(files[0])]).lines + Streamed(cs, files[1..])
  }

  lemma PayloadsConcat(cs: Codecs, a: seq<Record>, b: seq<Record>)
    ensures cs.Payloads(a + b) == cs.Payloads(a) + cs.Payloads(b)
  {
  }

  lemma FileStreams(cs: Codecs, rs: seq<Record>)
    requires cs.Faithful() && Fits(cs, rs)
    ensures Scan(cs.Encode(rs)) == StreamOf([cs.Encode(rs)]) == Scanned(cs.Payloads(rs), true)
  {
    ScanOfEncoded(cs, rs);
    FittingAll(cs, rs);
    assert cs.Payloads(rs) + [] == cs.Payloads(rs);
  }

  lemma {:induction false} StreamedIsAllLines(cs: Codecs, files: seq<seq<Record>>)
    requires cs.Faithful() && forall i :: 0 <= i < |files| ==> Fits(cs, files[i])
    ensures Streamed(cs, files) == cs.Payloads(Together(files))
  {
    if files != [] {
      FileStreams(cs, files[0]);
      StreamedIsAllLines(cs, files[1..]);
      PayloadsConcat(cs, files[0], Together(files[1..]));
    }
  }

  /** A download from any number of servers. The lines of arrival have been
      handled, in that order; the handlers of the lines of late have not run when
      the client goes on, which does not wait for them. Both together hold
      exactly the points and errors of the files. */
  lemma DownloadCollectsFiles(cs: Codecs, files: seq<seq<Record>>, arrival: seq<seq<Byte>>, late: seq<seq<Byte>>)
    requires cs.Faithful() && forall i :: 0 <= i < |files| ==> Fits(cs, files[i])
    requires multiset(arrival + late) == multiset(Streamed(cs, files))
    ensures var got, missing := ReceiveAll(cs, arrival), ReceiveAll(cs, late);
      && multiset(got.points + missing.points) == multiset(PointsIn(Together(files)))
      && multiset(got.errors + missing.errors) == multiset(ErrorsIn(Together(files)))
  {
    StreamedIsAllLines(cs, files);
    var rs := ArrivalIsPermutation(cs, Together(files), arrival + late);
    var first, second := rs[..|arrival|], rs[|arrival|..];
    assert rs == first + second;
    PayloadsConcat(cs, first, second);
    assert arrival == (arrival + late)[..|arrival|] && late == (arrival + late)[|arrival|..];
    assert arrival == cs.Payloads(first) && late == cs.Payloads(second);
    ReceivePayloads(cs, first);
    ReceivePayloads(cs, second);
    InConcat(first, second);
    InPermutation(rs, Together(files));
  }

  // Analysis and export

  datatype Analysis = Read(points: seq<DP>, errors: seq<TError>) | Failed | Crashed

  /** AnalyzeTest's loop over the lines: the error tag is looked for one byte
      too late, and an empty line is sliced past its end. */
  function Analyze(cs: Codecs, lines: seq<seq<Byte>>): Analysis {
    if lines == [] then Read([], [])
    else
      var line := lines[|lines| - 1];
      match Analyze(cs, lines[..|lines| - 1])
      case Failed => Failed
      case Crashed => Crashed
      case Read(points, errors) =>
        if line == [] then Crashed
        else if HasTag(line[1..], ERROR_TAG) then
          (match cs.err.dec(line) case Some(e) => Read(points, errors + [e]) case None => Failed)
        else if HasTag(line, POINT_TAG) then
          (match cs.dp.dec(line[1..]) case Some(d) => Read(points + [d], errors) case None => Failed)
        else Read(points, errors)
  }

  /** The points and errors AnalyzeTest works with. */
  method AnalyzeTest(cs: Codecs, file: seq<Byte>) returns (r: Analysis)
    ensures r == Analyze(cs, Scan(file).lines)
  {
    var lines := Scan(file).lines;
    var dps: seq<DP>, errors: seq<TError> := [], [];
    for i := 0 to |lines|
      invariant Analyze(cs, lines[..i]) == Read(dps, errors)
    {
      var b := lines[i];
      assert lines[..i + 1][..i] == lines[..i];
      if |b| == 0 {
        StaysEnded(cs, lines, i + 1);
        return Crashed;
      } else if HasTag(b[1..], ERROR_TAG) {
        var e := cs.err.dec(b);
        if e.None? {
          StaysEnded(cs, lines, i + 1);
          return Failed;
        }
        errors := errors + [e.value];
      } else if HasTag(b, POINT_TAG) {
        var d := cs.dp.dec(b[1..]);
        if d.None? {
          StaysEnded(cs, lines, i + 1);
          return Failed;
        }
        dps := dps + [d.value];
      }
    }
    assert lines[..|lines|] == lines;
    r := Read(dps, errors);
  }

  lemma {:induction false} StaysEnded(cs: Codecs, lines: seq<seq<Byte>>, i: nat)
    requires i <= |lines| && !Analyze(cs, lines[..i]).Read?
    ensures Analyze(cs, lines) == Analyze(cs, lines[..i])
    decreases |lines|
  {
    if i == |lines| {
      assert lines[..i] == lines;
    } else {
      var shorter := lines[..|lines| - 1];
      assert shorter[..i] == lines[..i];
      StaysEnded(cs, shorter, i);
    }
  }

  /** A line that the analysis reads: not empty, and decodable if it is taken
      for an error or a point. */
  predicate LineReads(cs: Codecs, line: seq<Byte>) {
    && line != []
    && (if HasTag(line[1..], ERROR_TAG) then cs.err.dec(line).Some?
        else HasTag(line, POINT_TAG) ==> cs.dp.dec(line[1..]).Some?)
  }

  /** Line k is the first one that the analysis does not read. */
  ghost predicate StopsAt(cs: Codecs, lines: seq<seq<Byte>>, k: nat) {
    k < |lines| && !LineReads(cs, lines[k]) && forall j :: 0 <= j < k ==> LineReads(cs, lines[j])
  }

  lemma {:induction false} AnalysisReads(cs: Codecs, lines: seq<seq<Byte>>)
    requires forall j :: 0 <= j < |lines| ==> LineReads(cs, lines[j])
    ensures Analyze(cs, lines).Read?
    decreases |lines|
  {
    if lines != [] {
      AnalysisReads(cs, lines[..|lines| - 1]);
    }
  }

  lemma AnalysisStops(cs: Codecs, lines: seq<seq<Byte>>, k: nat)
    requires StopsAt(cs, lines, k)
    ensures Analyze(cs, lines) == if lines[k] == [] then Crashed else Failed
  {
    assert lines[..k + 1][..k] == lines[..k];
    AnalysisReads(cs, lines[..k]);
    StaysEnded(cs, lines, k + 1);
  }

  lemma {:induction false} FirstStop(cs: Codecs, lines: seq<seq<Byte>>, k: nat) returns (j: nat)
    requires k < |lines| && !LineReads(cs, lines[k])
    ensures StopsAt(cs, lines, j)
  {
    if m: nat :| m < k && !LineReads(cs, lines[m]) {
      j := FirstStop(cs, lines, m);
    } else {
      j := k;
    }
  }

  /** The analysis reads a file if and only if it reads every line; otherwise
      the first line that it does not read decides: it crashes if and only if
      that line is empty, and fails if and only if it is not. */
  lemma AnalysisExactly(cs: Codecs, lines: seq<seq<Byte>>)
    ensures Analyze(cs, lines).Read? <==> forall j :: 0 <= j < |lines| ==> LineReads(cs, lines[j])
    ensures Analyze(cs, lines) == Crashed <==> exists k: nat :: StopsAt(cs, lines, k) && lines[k] == []
    ensures Analyze(cs, lines) == Failed <==> exists k: nat :: StopsAt(cs, lines, k) && lines[k] != []
  {
    if k: nat :| k < |lines| && !LineReads(cs, lines[k]) {
      var j := FirstStop(cs, lines, k);
      AnalysisStops(cs, lines, j);
      forall i: nat | StopsAt(cs, lines, i) ensures i == j {
      }
    } else {
      AnalysisReads(cs, lines);
    }
  }

  /** The rows of MakeCSV, and whether it ran into an undecodable point. */
  function CsvRows(cs: Codecs, lines: seq<seq<Byte>>): (seq<DP>, bool) {
    if lines == [] then ([], true)
    else if !HasTag(lines[0], POINT_TAG) then CsvRows(cs, lines[1..])
    else
      match cs.dp.dec(lines[0][1..])
      case None => ([], false)
      case Some(d) => ([d] + CsvRows(cs, lines[1..]).0, CsvRows(cs, lines[1..]).1)
  }

  lemma AnalyzeLast(cs: Codecs, lines: seq<seq<Byte>>, points: seq<DP>, r: Record)
    requires cs.Faithful() && Analyze(cs, lines) == Read(points, [])
    ensures Analyze(cs, lines + [cs.Payload(r)]) == Read(points + PointOf(r), [])
  {
    PayloadOf(cs, r);
    assert (lines + [cs.Payload(r)])[..|lines|] == lines;
    assert points + [] == points;
  }

  lemma {:induction false} AnalyzePayloads(cs: Codecs, rs: seq<Record>)
    requires cs.Faithful()
    ensures Analyze(cs, cs.Payloads(rs)) == Read(PointsIn(rs), [])
    decreases |rs|
  {
    if rs != [] {
      var init, r := rs[..|rs| - 1], rs[|rs| - 1];
      assert init + [r] == rs;
      PayloadsAppend(cs, init, r);
      InAppend(init, r);
      AnalyzePayloads(cs, init);
      AnalyzeLast(cs, cs.Payloads(init), PointsIn(init), r);
    }
  }

  /** The rows that get through to a writer that takes at most room rows. */
  function Written(rows: (seq<DP>, bool), room: nat): (seq<DP>, bool) {
    if |rows.0| <= room then rows else (rows.0[..room], false)
  }

  /** Writes a row per point after the header, and stops at the first write that
      fails or the first point it cannot decode. room is how many rows the
      writer takes after the header; None if it fails on the header. */
  method MakeCSV(cs: Codecs, file: seq<Byte>, room: Option<nat>) returns (rows: seq<DP>, ok: bool)
    ensures (rows, ok) == if room.None? then ([], false) else Written(CsvRows(cs, Scan(file).lines), room.value)
  {
    if room.None? {
      return [], false;
    }
    var lines := Scan(file).lines;
    rows := [];
    assert lines[0..] == lines && [] + CsvRows(cs, lines).0 == CsvRows(cs, lines).0;
    for i := 0 to |lines|
      invariant |rows| <= room.value && CsvRows(cs, lines) == RowsAfter(rows, CsvRows(cs, lines[i..]))
    {
      CsvStep(cs, rows, lines, i);
      if HasTag(lines[i], POINT_TAG) {
        var d := cs.dp.dec(lines[i][1..]);
        if d.None? {
          return rows, false;
        }
        if |rows| == room.value {
          NoRoom(rows, d.value, CsvRows(cs, lines[i + 1..]), room.value);
          return rows, false;
        }
        rows := rows + [d.value];
      }
    }
    assert rows + [] == rows;
    ok := true;
  }

  function RowsAfter(rows: seq<DP>, rest: (seq<DP>, bool)): (seq<DP>, bool) {
    (rows + rest.0, rest.1)
  }

  lemma CsvStep(cs: Codecs, rows: seq<DP>, lines: seq<seq<Byte>>, i: nat)
    requires i < |lines|
    ensures var d := cs.dp.dec(if HasTag(lines[i], POINT_TAG) then lines[i][1..] else []);
      RowsAfter(rows, CsvRows(cs, lines[i..]))
        == if !HasTag(lines[i], POINT_TAG) then RowsAfter(rows, CsvRows(cs, lines[i + 1..]))
           else if d.None? then (rows, false)
           else RowsAfter(rows + [d.value], CsvRows(cs, lines[i + 1..]))
  {
    assert lines[i..][0] == lines[i] && lines[i..][1..] == lines[i + 1..];
    assert rows + [] == rows;
    if HasTag(lines[i], POINT_TAG) && cs.dp.dec(lines[i][1..]).Some? {
      Regroup(rows, [cs.dp.dec(lines[i][1..]).value], CsvRows(cs, lines[i + 1..]).0);
    }
  }

  lemma NoRoom(rows: seq<DP>, d: DP, rest: (seq<DP>, bool), room: nat)
    requires |rows| == room
    ensures Written(RowsAfter(rows + [d], rest), room) == (rows, false)
  {
    assert (rows + [d] + rest.0)[..room] == rows;
  }

  /** Exporting a written file gives a row for every point of its records, in
      order, if the writer has room for them; with less room it gives as many of
      the first ones as there is room for, and fails. */
  lemma ExportOfRecords(cs: Codecs, rs: seq<Record>, room: nat)
    requires cs.Faithful() && Fits(cs, rs)
    ensures var got := Written(CsvRows(cs, Scan(cs.Encode(rs)).lines), room);
      && (|PointsIn(rs)| <= room ==> got == (PointsIn(rs), true))
      && (|PointsIn(rs)| > room ==> got == (PointsIn(rs)[..room], false))
  {
    FileStreams(cs, rs);
    CsvOfPayloads(cs, rs);
  }

  /** Exports a file that was written from these records. */
  method ExportRecords(cs: Codecs, rs: seq<Record>, room: nat) returns (rows: seq<DP>, ok: bool)
    requires cs.Faithful() && Fits(cs, rs)
    ensures ok <==> |PointsIn(rs)| <= room
    ensures rows == if ok then PointsIn(rs) else PointsIn(rs)[..room]
  {
    ExportOfRecords(cs, rs, room);
    rows, ok := MakeCSV(cs, cs.Encode(rs), Some(room));
  }

  lemma PayloadOf(cs: Codecs, r: Record)
    requires cs.Faithful()
    ensures HasTag(cs.Payload(r), POINT_TAG) <==> r.Point?
    ensures HasTag(cs.Payload(r), ERROR_TAG) <==> r.Error?
    ensures !HasTag(cs.Payload(r)[1..], ERROR_TAG)
    ensures r.Point? ==> cs.dp.dec(cs.Payload(r)[1..]) == Some(r.dp)
    ensures r.Error? ==> cs.err.dec(cs.Payload(r)[1..]) == Some(r.err)
  {
    match r
    case Point(d) => assert IsObject(cs.dp.enc(d)) && cs.Payload(r)[1..] == cs.dp.enc(d);
    case Error(e) => assert IsObject(cs.err.enc(e)) && cs.Payload(r)[1..] == cs.err.enc(e);
  }

  lemma {:induction false} CsvOfPayloads(cs: Codecs, rs: seq<Record>)
    requires cs.Faithful()
    ensures CsvRows(cs, cs.Payloads(rs)) == (PointsIn(rs), true)
  {
    if rs != [] {
      assert cs.Payloads(rs)[1..] == cs.Payloads(rs[1..]);
      CsvOfPayloads(cs, rs[1..]);
      PayloadOf(cs, rs[0]);
      assert [] + PointsIn(rs[1..]) == PointsIn(rs[1..]);
    }
  }

  ghost predicate PointsByCreated(dps: seq<DP>) {
    Ordered(dps, (d: DP) => d.created)
  }

  ghost predicate ErrorsByCreated(errs: seq<TError>) {
    Ordered(errs, (e: TError) => e.created)
  }

  lemma {:induction false} TogetherFits(cs: Codecs, files: seq<seq<Record>>)
    requires forall i :: 0 <= i < |files| ==> Fits(cs, files[i])
    ensures Fits(cs, Together(files))
  {
    if files != [] {
      assert Fits(cs, files[0]);
      TogetherFits(cs, files[1..]);
    }
  }

  lemma {:induction false} InOf(rs: seq<Record>)
    ensures forall d :: d in PointsIn(rs) ==> Point(d) in rs
    ensures forall e :: e in ErrorsIn(rs) ==> Error(e) in rs
  {
    if rs != [] {
      InOf(rs[1..]);
    }
  }

  lemma CameFrom(rs: seq<Record>, dps: seq<DP>, errs: seq<TError>, i: nat)
    requires multiset(dps) <= multiset(PointsIn(rs)) && multiset(errs) <= multiset(ErrorsIn(rs))
    requires i < |dps| + |errs|
    ensures Downloaded(dps, errs)[i] in rs
  {
    InOf(rs);
    if i < |dps| {
      assert dps[i] in multiset(dps);
    } else {
      assert errs[i - |dps|] in multiset(errs);
    }
  }

  lemma DownloadedFits(cs: Codecs, rs: seq<Record>, dps: seq<DP>, errs: seq<TError>)
    requires Fits(cs, rs)
    requires multiset(dps) <= multiset(PointsIn(rs)) && multiset(errs) <= multiset(ErrorsIn(rs))
    ensures Fits(cs, Downloaded(dps, errs))
  {
    forall r | r in Downloaded(dps, errs) ensures r in rs {
      var i :| 0 <= i < |Downloaded(dps, errs)| && Downloaded(dps, errs)[i] == r;
      CameFrom(rs, dps, errs, i);
    }
  }

  /** What DownloadTest writes: the sorted points, then the sorted errors. */
  function Downloaded(dps: seq<DP>, errs: seq<TError>): seq<Record> {
    PointRecords(dps) + ErrorRecords(errs)
  }

  lemma DownloadedHolds(dps: seq<DP>, errs: seq<TError>)
    ensures PointsIn(Downloaded(dps, errs)) == dps && ErrorsIn(Downloaded(dps, errs)) == errs
  {
    InConcat(PointRecords(dps), ErrorRecords(errs));
    InPointRecords(dps);
    InErrorRecords(errs);
  }

  lemma PartOf<T>(a: seq<T>, b: seq<T>, got: seq<T>, late: seq<T>)
    requires multiset(a) == multiset(got) && multiset(got + late) == multiset(b)
    ensures multiset(a + late) == multiset(b) && multiset(a) <= multiset(b)
  {
  }

  /** The whole path. From any servers' files, through any order of arrival and
      any ordered permutation the sorts may pick, the downloaded file holds by
      time every server's points and errors, but those of lines handled late;
      analysis and CSV export read back exactly its points in file order, and the
      analysis none of its errors. */
  lemma WholePath(cs: Codecs, files: seq<seq<Record>>, arrival: seq<seq<Byte>>, late: seq<seq<Byte>>,
                  dps: seq<DP>, errs: seq<TError>)
    requires cs.Faithful() && forall i :: 0 <= i < |files| ==> Fits(cs, files[i])
    requires multiset(arrival + late) == multiset(Streamed(cs, files))
    requires multiset(dps) == multiset(ReceiveAll(cs, arrival).points) && PointsByCreated(dps)
    requires multiset(errs) == multiset(ReceiveAll(cs, arrival).errors) && ErrorsByCreated(errs)
    ensures multiset(dps + ReceiveAll(cs, late).points) == multiset(PointsIn(Together(files)))
    ensures multiset(errs + ReceiveAll(cs, late).errors) == multiset(ErrorsIn(Together(files)))
    ensures var scanned := Scan(cs.Encode(Downloaded(dps, errs)));
      && scanned.complete
      && ReceiveAll(cs, scanned.lines) == Store(dps, errs)
      && Analyze(cs, scanned.lines) == Read(dps, [])
      && CsvRows(cs, scanned.lines) == (dps, true)
      && (forall room: nat :: Written(CsvRows(cs, scanned.lines), room)
                                == if |dps| <= room then (dps, true) else (dps[..room], false))
  {
    DownloadCollectsFiles(cs, files, arrival, late);
    PartOf(dps, PointsIn(Together(files)), ReceiveAll(cs, arrival).points, ReceiveAll(cs, late).points);
    PartOf(errs, ErrorsIn(Together(files)), ReceiveAll(cs, arrival).errors, ReceiveAll(cs, late).errors);
    TogetherFits(cs, files);
    DownloadedFits(cs, Together(files), dps, errs);
    DownloadedReads(cs, dps, errs);
  }

  lemma DownloadedReads(cs: Codecs, dps: seq<DP>, errs: seq<TError>)
    requires cs.Faithful() && Fits(cs, Downloaded(dps, errs))
    ensures var scanned := Scan(cs.Encode(Downloaded(dps, errs)));
      && scanned.complete
      && ReceiveAll(cs, scanned.lines) == Store(dps, errs)
      && Analyze(cs, scanned.lines) == Read(dps, [])
      && CsvRows(cs, scanned.lines) == (dps, true)
  {
    var rs := Downloaded(dps, errs);
    FileStreams(cs, rs);
    DownloadedHolds(dps, errs);
    ReceivePayloads(cs, rs);
    AnalyzePayloads(cs, rs);
    CsvOfPayloads(cs, rs);
  }
}
