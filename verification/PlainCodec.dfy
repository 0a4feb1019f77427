/** A pair of encoders that is faithful, so that what is proved of all faithful
    pairs is proved of some: one object in braces, holding the fields as signed
    decimal numbers, each followed by a comma, and strings as their length and
    their characters. */
module PlainCodec {
  import opened Folds
  import opened Records
  import RF = RecordFormat

  type Bytes = seq<RF.Byte>

  const COMMA: RF.Byte := 44
  const PLUS: RF.Byte := 43
  const MINUS: RF.Byte := 45
  const ZERO: RF.Byte := 48

  // Numbers

  function Digits(n: nat): (bs: Bytes)
    ensures RF.LF !in bs
  {
    if n < 10 then [ZERO + n] else Digits(n / 10) + [ZERO + n % 10]
  }

  predicate IsDigit(b: RF.Byte) {
    ZERO <= b < ZERO + 10
  }

  function ReadNat(acc: nat, bs: Bytes): (r: (nat, Bytes))
    ensures |r.1| <= |bs|
    decreases |bs|
  {
    if bs != [] && IsDigit(bs[0]) then ReadNat(10 * acc + (bs[0] - ZERO), bs[1..]) else (acc, bs)
  }

  lemma {:induction false} DigitsRead(n: nat, rest: Bytes)
    ensures ReadNat(0, Digits(n) + rest) == ReadNat(n, rest)
    decreases n
  {
    if n < 10 {
      assert ([ZERO + n] + rest)[1..] == rest;
    } else {
      var d: RF.Byte := ZERO + n % 10;
      assert Digits(n) + rest == Digits(n / 10) + ([d] + rest);
      DigitsRead(n / 10, [d] + rest);
      assert ([d] + rest)[1..] == rest;
    }
  }

  function EncodeInt(x: int): (bs: Bytes)
    ensures RF.LF !in bs
  {
    (if x < 0 then [MINUS] + Digits(-x) else [PLUS] + Digits(x)) + [COMMA]
  }

  function EncodeInts(xs: seq<int>): (bs: Bytes)
    ensures RF.LF !in bs
  {
    if xs == [] then [] else EncodeInt(xs[0]) + EncodeInts(xs[1..])
  }

  function DecodeInts(bs: Bytes): Option<seq<int>>
    decreases |bs|
  {
    if bs == [] then Some([])
    else
      var (n, rest) := ReadNat(0, bs[1..]);
      if rest == [] || rest[0] != COMMA then None
      else
        match DecodeInts(rest[1..])
        case None => None
        case Some(xs) => Some([if bs[0] == MINUS then -(n as int) else n] + xs)
  }

  lemma IntRead(x: int, rest: Bytes)
    ensures var bs := EncodeInt(x) + rest;
      bs[0] == (if x < 0 then MINUS else PLUS) && ReadNat(0, bs[1..]) == (if x < 0 then -x else x, [COMMA] + rest)
  {
    var n := if x < 0 then -x else x;
    assert (EncodeInt(x) + rest)[1..] == Digits(n) + ([COMMA] + rest);
    DigitsRead(n, [COMMA] + rest);
  }

  lemma {:induction false} IntsRoundTrip(xs: seq<int>)
    ensures DecodeInts(EncodeInts(xs)) == Some(xs)
  {
    if xs != [] {
      IntRead(xs[0], EncodeInts(xs[1..]));
      assert ([COMMA] + EncodeInts(xs[1..]))[1..] == EncodeInts(xs[1..]);
      IntsRoundTrip(xs[1..]);
      assert xs == [xs[0]] + xs[1..];
    }
  }

  // Strings

  function Chars(s: string): seq<int> {
    seq(|s|, i requires 0 <= i < |s| => s[i] as int)
  }

  function EncodeString(s: string): seq<int> {
    [|s|] + Chars(s)
  }

  predicate IsChar(x: int) {
    0 <= x < 0xD800 || 0xE000 <= x < 0x11_0000
  }

  function DecodeString(xs: seq<int>): Option<(string, seq<int>)> {
    if xs == [] || !(0 <= xs[0] < |xs|) || exists i :: 1 <= i <= xs[0] && !IsChar(xs[i]) then None
    else Some((seq(xs[0], i requires 0 <= i < xs[0] => xs[i + 1] as char), xs[xs[0] + 1..]))
  }

  lemma StringRead(s: string, rest: seq<int>)
    ensures DecodeString(EncodeString(s) + rest) == Some((s, rest))
  {
    var xs := EncodeString(s) + rest;
    assert xs[0] == |s| && xs[|s| + 1..] == rest;
    assert forall i :: 1 <= i <= |s| ==> xs[i] == s[i - 1] as int;
    assert seq(|s|, i requires 0 <= i < |s| => xs[i + 1] as char) == s;
  }

  // Records

  function TypeCode(t: TestType): int {
    match t case Unknown => 0 case RequestTest => 1 case StreamTest => 2
  }

  function TypeOf(x: int): TestType {
    if x == 1 then RequestTest else if x == 2 then StreamTest else Unknown
  }

  function Numbers(d: DP): seq<int> {
    [TypeCode(d.testType), d.created, d.rmsH, d.rmsL, d.ttfbH, d.ttfbL, d.tx, d.txTotal, d.txCount,
     d.errCount, d.droppedPackets, d.memoryUsedPercent, d.cpuUsedPercent]
  }

  function PointInts(d: DP): seq<int> {
    EncodeString(d.testId) + (EncodeString(d.local) + (EncodeString(d.remote) + Numbers(d)))
  }

  function PointFrom(testId: string, local: string, remote: string, xs: seq<int>): Option<DP> {
    if |xs| != 13 || xs[6] < 0 || xs[7] < 0 || xs[8] < 0 then None
    else Some(DP(TypeOf(xs[0]), testId, xs[1], local, remote, xs[2], xs[3], xs[4], xs[5], xs[6], xs[7], xs[8],
                 xs[9], xs[10], xs[11], xs[12]))
  }

  function PointOfInts(xs: seq<int>): Option<DP> {
    match DecodeString(xs)
    case None => None
    case Some((testId, xs1)) =>
      match DecodeString(xs1)
      case None => None
      case Some((local, xs2)) =>
        match DecodeString(xs2)
        case None => None
        case Some((remote, xs3)) => PointFrom(testId, local, remote, xs3)
  }

  lemma NumbersRead(d: DP)
    ensures PointFrom(d.testId, d.local, d.remote, Numbers(d)) == Some(d)
  {
  }

  lemma PointRead(d: DP)
    ensures PointOfInts(PointInts(d)) == Some(d)
  {
    NumbersRead(d);
    StringRead(d.testId, EncodeString(d.local) + (EncodeString(d.remote) + Numbers(d)));
    StringRead(d.local, EncodeString(d.remote) + Numbers(d));
    StringRead(d.remote, Numbers(d));
  }

  function ErrorInts(e: TError): seq<int> {
    EncodeString(e.error) + [e.created]
  }

  function ErrorOfInts(xs: seq<int>): Option<TError> {
    match DecodeString(xs)
    case None => None
    case Some((error, rest)) => if |rest| != 1 then None else Some(TError(error, rest[0]))
  }

  lemma ErrorRead(e: TError)
    ensures ErrorOfInts(ErrorInts(e)) == Some(e)
  {
    StringRead(e.error, [e.created]);
  }

  function Object(xs: seq<int>): (bs: Bytes)
    ensures RF.IsObject(bs)
  {
    [RF.OPEN_BRACE] + EncodeInts(xs) + [RF.CLOSE_BRACE]
  }

  function Inside(bs: Bytes): Option<seq<int>> {
    if |bs| < 2 then None else DecodeInts(bs[1..|bs| - 1])
  }

  lemma ObjectRead(xs: seq<int>)
    ensures Inside(Object(xs)) == Some(xs)
  {
    assert Object(xs)[1..|Object(xs)| - 1] == EncodeInts(xs);
    IntsRoundTrip(xs);
  }

  const CODECS := RF.Codecs(
    RF.Codec((d: DP) => Object(PointInts(d)),
             (bs: Bytes) => match Inside(bs) case None => None case Some(xs) => PointOfInts(xs)),
    RF.Codec((e: TError) => Object(ErrorInts(e)),
             (bs: Bytes) => match Inside(bs) case None => None case Some(xs) => ErrorOfInts(xs)))

  /** Every point and every error comes back from its line. */
  lemma PlainIsFaithful()
    ensures CODECS.Faithful()
  {
    forall d: DP ensures RF.IsObject(CODECS.dp.enc(d)) && CODECS.dp.dec(CODECS.dp.enc(d)) == Some(d) {
      ObjectRead(PointInts(d));
      PointRead(d);
    }
    forall e: TError ensures RF.IsObject(CODECS.err.enc(e)) && CODECS.err.dec(CODECS.err.enc(e)) == Some(e) {
      ObjectRead(ErrorInts(e));
      ErrorRead(e);
    }
  }
}
