/** Length-prefixed messages and bounded decompression (rpc_util.go, encoding/gzip/gzip.go). */
module Framing {
  import opened Prelude

  newtype Byte = x: int | 0 <= x < 256

  type Bytes = seq<Byte>

  const WIDTH32: nat := 0x1_0000_0000
  const MAX_INT32: nat := 0x7FFF_FFFF
  const MAX_INT64: nat := 0x7FFF_FFFF_FFFF_FFFF

  /** The largest int of a 32-bit or a 64-bit machine. */
  predicate IsMaxInt(maxInt: nat) {
    maxInt == MAX_INT32 || maxInt == MAX_INT64
  }

  predicate InInt(maxInt: int, n: int) {
    -maxInt - 1 <= n <= maxInt
  }

  // ---- Frames ----------------------------------------------------------------------------------

  function BigEndian(n: nat): (b: Bytes)
    requires n < WIDTH32
    ensures |b| == 4
  {
    [(n / 256 / 256 / 256) as Byte, (n / 256 / 256 % 256) as Byte, (n / 256 % 256) as Byte, (n % 256) as Byte]
  }

  function FromBigEndian(b: Bytes): (n: nat)
    requires |b| == 4
    ensures n < WIDTH32
  {
    ((b[0] as nat * 256 + b[1] as nat) * 256 + b[2] as nat) * 256 + b[3] as nat
  }

  lemma LastDigit(q: nat, r: nat)
    requires r < 256
    ensures (q * 256 + r) / 256 == q && (q * 256 + r) % 256 == r
  {
  }

  lemma BigEndianRoundTrip(n: nat)
    requires n < WIDTH32
    ensures FromBigEndian(BigEndian(n)) == n
  {
    var a := n / 256;
    var b := a / 256;
    assert n == a * 256 + n % 256 && a == b * 256 + a % 256 && b == (b / 256) * 256 + b % 256;
  }

  lemma FromBigEndianRoundTrip(b: Bytes)
    requires |b| == 4
    ensures BigEndian(FromBigEndian(b)) == b
  {
    var w, x, y, z := b[0] as nat, b[1] as nat, b[2] as nat, b[3] as nat;
    LastDigit((w * 256 + x) * 256 + y, z);
    LastDigit(w * 256 + x, y);
    LastDigit(w, x);
  }

  datatype Msg = Msg(flag: Byte, payload: Bytes)

  /** The length field holds the length modulo 2^32. */
  function Frame(m: Msg): (b: Bytes) {
    [m.flag] + BigEndian(|m.payload| % WIDTH32) + m.payload
  }

  function Frames(ms: seq<Msg>): (b: Bytes) {
    if ms == [] then [] else Frame(ms[0]) + Frames(ms[1..])
  }

  /** msgHeader: compressed data is preferred and flagged. */
  method MsgHeader(data: Bytes, compData: Option<Bytes>) returns (hdr: array<Byte>, payload: Bytes)
    ensures payload == if compData.Some? then compData.value else data
    ensures hdr[..] + payload == Frame(Msg(if compData.Some? then 1 else 0, payload))
  {
    hdr := new Byte[5];
    payload := data;
    if compData.Some? {
      hdr[0] := 1;
      payload := compData.value;
    } else {
      hdr[0] := 0;
    }
    var n := |payload| % WIDTH32;
    hdr[1] := (n / 256 / 256 / 256) as Byte;
    hdr[2] := (n / 256 / 256 % 256) as Byte;
    hdr[3] := (n / 256 % 256) as Byte;
    hdr[4] := (n % 256) as Byte;
    assert hdr[..] == [hdr[0]] + BigEndian(n);
  }

  // ---- Receiving -------------------------------------------------------------------------------

  /** How the transport stream ends after its bytes. */
  datatype End = AtEof | Broken(code: int)

  datatype Error =
    | Eof | UnexpectedEof | Transport(code: int)
    | TooLargeForMachine(length: nat) | TooLarge(size: int)
    | UnexpectedCompression | NoDecompressor | UnexpectedFormat(flag: Byte) | DecompressFailed
    | Panic  // not an error value: the call does not return

  datatype Result<+T> = Ok(value: T) | Err(error: Error)

  /** What a read of n > 0 bytes reports when fewer than n are left. */
  function ShortRead(left: nat, end: End): (e: Error) {
    match end
    case Broken(code) => Transport(code)
    case AtEof => if left == 0 then Eof else UnexpectedEof
  }

  /** recvMsg on the bytes still to come; a success also gives the bytes after the message. */
  function Parsed(b: Bytes, end: End, maxInt: nat, max: int): (r: Result<(Msg, Bytes)>) {
    if |b| < 5 then Err(ShortRead(|b|, end))
    else
      var length := FromBigEndian(b[1..5]);
      if length == 0 then Ok((Msg(b[0], []), b[5..]))
      else if length > maxInt then Err(TooLargeForMachine(length))
      else if length > max then Err(TooLarge(length))
      else if |b| - 5 < length then
        var e := ShortRead(|b| - 5, end);
        Err(if e == Eof then UnexpectedEof else e)
      else Ok((Msg(b[0], b[5..5 + length]), b[5 + length..]))
  }

  /** Receiving until an error. */
  function ParsedAll(b: Bytes, end: End, maxInt: nat, max: int): (r: (seq<Msg>, Error))
    decreases |b|
  {
    match Parsed(b, end, maxInt, max)
    case Err(e) => ([], e)
    case Ok((m, rest)) =>
      ParsedIsFrame(b, end, maxInt, max);
      var (ms, e) := ParsedAll(rest, end, maxInt, max);
      ([m] + ms, e)
  }

  /** A message is received exactly from its own frame: nothing is skipped, invented or left out. */
  lemma {:induction false} ParsedIsFrame(b: Bytes, end: End, maxInt: nat, max: int)
    requires Parsed(b, end, maxInt, max).Ok?
    ensures var (m, rest) := Parsed(b, end, maxInt, max).value;
            b == Frame(m) + rest && |rest| < |b| && |m.payload| < WIDTH32 &&
            (m.payload != [] ==> |m.payload| <= max && |m.payload| <= maxInt)
  {
    var length := FromBigEndian(b[1..5]);
    FromBigEndianRoundTrip(b[1..5]);
    var m := Parsed(b, end, maxInt, max).value.0;
    assert m.payload == b[5..5 + length] && |m.payload| % WIDTH32 == length;
    SplitAt(b, length);
  }

  lemma SplitAt(b: Bytes, length: nat)
    requires 5 + length <= |b|
    ensures b == [b[0]] + b[1..5] + b[5..5 + length] + b[5 + length..]
  {
  }

  ghost predicate Fits(m: Msg, maxInt: nat, max: int) {
    |m.payload| < WIDTH32 && (m.payload == [] || (|m.payload| <= maxInt && |m.payload| <= max))
  }

  lemma FrameHeader(m: Msg, rest: Bytes)
    requires |m.payload| < WIDTH32
    ensures var b := Frame(m) + rest;
            |b| >= 5 && b[0] == m.flag && FromBigEndian(b[1..5]) == |m.payload| &&
            b[5..] == m.payload + rest
  {
    var b, size := Frame(m) + rest, BigEndian(|m.payload|);
    assert |m.payload| % WIDTH32 == |m.payload|;
    assert b == [m.flag] + size + (m.payload + rest);
    BigEndianRoundTrip(|m.payload|);
    HeaderSlices(m.flag, size, m.payload + rest);
  }

  lemma HeaderSlices(flag: Byte, size: Bytes, after: Bytes)
    requires |size| == 4
    ensures var b := [flag] + size + after; b[0] == flag && b[1..5] == size && b[5..] == after
  {
  }

  lemma FrameIsParsed(m: Msg, rest: Bytes, end: End, maxInt: nat, max: int)
    requires Fits(m, maxInt, max)
    ensures Parsed(Frame(m) + rest, end, maxInt, max) == Ok((m, rest))
  {
    FrameHeader(m, rest);
    var b := Frame(m) + rest;
    assert b[5..5 + |m.payload|] == b[5..][..|m.payload|] == m.payload;
    assert b[5 + |m.payload|..] == b[5..][|m.payload|..] == rest;
  }

  /** Any list of messages within the limits survives the wire, and nothing else is received. */
  lemma {:induction false} FramesRoundTrip(ms: seq<Msg>, end: End, maxInt: nat, max: int)
    requires forall i :: 0 <= i < |ms| ==> Fits(ms[i], maxInt, max)
    ensures ParsedAll(Frames(ms), end, maxInt, max) == (ms, ShortRead(0, end))
  {
    if ms != [] {
      FrameIsParsed(ms[0], Frames(ms[1..]), end, maxInt, max);
      FramesRoundTrip(ms[1..], end, maxInt, max);
      assert [ms[0]] + ms[1..] == ms;
    }
  }

  /** A message over a limit is refused by its length, before any of it is read. */
  lemma OverLimitFrame(m: Msg, rest: Bytes, end: End, maxInt: nat, max: int)
    requires |m.payload| < WIDTH32 && m.payload != [] && (|m.payload| > maxInt || |m.payload| > max)
    ensures Parsed(Frame(m) + rest, end, maxInt, max) ==
            Err(if |m.payload| > maxInt then TooLargeForMachine(|m.payload|) else TooLarge(|m.payload|))
  {
    FrameHeader(m, rest);
  }

  lemma CutFrame(m: Msg, k: nat, end: End, maxInt: nat, max: int)
    requires Fits(m, maxInt, max) && 0 < k < |Frame(m)|
    ensures Parsed(Frame(m)[..k], end, maxInt, max) == Err(if end.Broken? then Transport(end.code) else UnexpectedEof)
  {
    FrameHeader(m, []);
    assert Frame(m) + [] == Frame(m);
    if k >= 5 {
      assert Frame(m)[..k][1..5] == Frame(m)[1..5];
    }
  }

  /** From the first k bytes of the frames of `ms`: exactly the whole messages, and how the stream ends. */
  ghost predicate Cut(ms: seq<Msg>, k: nat, end: End, got: seq<Msg>, e: Error) {
    && got <= ms
    && |Frames(got)| <= k
    && (|got| < |ms| ==> k < |Frames(got)| + |Frame(ms[|got|])|)
    && e == (if end.Broken? then Transport(end.code) else if |Frames(got)| == k then Eof else UnexpectedEof)
  }

  lemma CutLater(m: Msg, ms: seq<Msg>, k: nat, end: End, got: seq<Msg>, e: Error)
    requires Cut(ms, k, end, got, e)
    ensures Cut([m] + ms, |Frame(m)| + k, end, [m] + got, e)
  {
    assert ([m] + got)[1..] == got;
  }

  lemma FirstArrives(m: Msg, b: Bytes, end: End, maxInt: nat, max: int)
    requires Fits(m, maxInt, max)
    ensures var (got, e) := ParsedAll(b, end, maxInt, max);
            ParsedAll(Frame(m) + b, end, maxInt, max) == ([m] + got, e)
  {
    FrameIsParsed(m, b, end, maxInt, max);
  }

  ghost predicate CutParsed(ms: seq<Msg>, k: nat, end: End, maxInt: nat, max: int) {
    && k <= |Frames(ms)|
    && var (got, e) := ParsedAll(Frames(ms)[..k], end, maxInt, max);
       Cut(ms, k, end, got, e)
  }

  lemma CutInFirst(ms: seq<Msg>, k: nat, end: End, maxInt: nat, max: int)
    requires ms != [] && Fits(ms[0], maxInt, max) && k < |Frame(ms[0])|
    ensures CutParsed(ms, k, end, maxInt, max)
  {
    assert Frames(ms)[..k] == Frame(ms[0])[..k];
    if k > 0 {
      CutFrame(ms[0], k, end, maxInt, max);
    }
  }

  lemma FramesCut(m: Msg, ms: seq<Msg>, k: nat)
    requires k <= |Frames(ms)|
    ensures |Frames([m] + ms)| == |Frame(m)| + |Frames(ms)|
    ensures Frames([m] + ms)[..|Frame(m)| + k] == Frame(m) + Frames(ms)[..k]
  {
    assert ([m] + ms)[1..] == ms;
  }

  lemma CutAfterFirst(m: Msg, ms: seq<Msg>, k: nat, end: End, maxInt: nat, max: int)
    requires Fits(m, maxInt, max) && CutParsed(ms, k, end, maxInt, max)
    ensures CutParsed([m] + ms, |Frame(m)| + k, end, maxInt, max)
  {
    FramesCut(m, ms, k);
    FirstArrives(m, Frames(ms)[..k], end, maxInt, max);
    var (got, e) := ParsedAll(Frames(ms)[..k], end, maxInt, max);
    CutLater(m, ms, k, end, got, e);
  }

  lemma CutOfNothing(end: End, maxInt: nat, max: int)
    ensures CutParsed([], 0, end, maxInt, max)
  {
  }

  lemma FramesLength(ms: seq<Msg>)
    requires ms != []
    ensures |Frames(ms)| == |Frame(ms[0])| + |Frames(ms[1..])|
  {
  }

  lemma {:induction false} CutStreamParses(ms: seq<Msg>, k: nat, end: End, maxInt: nat, max: int)
    requires forall m :: m in ms ==> Fits(m, maxInt, max)
    requires k <= |Frames(ms)|
    ensures CutParsed(ms, k, end, maxInt, max)
  {
    if ms == [] {
      CutOfNothing(end, maxInt, max);
    } else if k < |Frame(ms[0])| {
      CutInFirst(ms, k, end, maxInt, max);
    } else {
      FramesLength(ms);
      var m, rest, after := ms[0], ms[1..], k - |Frame(ms[0])|;
      CutStreamParses(rest, after, end, maxInt, max);
      CutAfterFirst(m, rest, after, end, maxInt, max);
      assert [m] + rest == ms;
    }
  }

  /** A stream cut after k bytes delivers exactly the whole messages, in order, and ends in plain EOF exactly
      when the cut falls between two messages; a broken transport is reported as such. */
  lemma {:induction false} CutStream(ms: seq<Msg>, k: nat, end: End, maxInt: nat, max: int)
    requires forall i :: 0 <= i < |ms| ==> Fits(ms[i], maxInt, max)
    requires k <= |Frames(ms)|
    ensures var (got, e) := ParsedAll(Frames(ms)[..k], end, maxInt, max);
            && got <= ms
            && |Frames(got)| <= k
            && (|got| < |ms| ==> k < |Frames(got)| + |Frame(ms[|got|])|)
            && e == (if end.Broken? then Transport(end.code) else if |Frames(got)| == k then Eof else UnexpectedEof)
  {
    CutStreamParses(ms, k, end, maxInt, max);
  }

  // ---- Decompression ---------------------------------------------------------------------------

  /** A decompressing reader: it cannot be opened, or yields `content` and then fails or ends. */
  datatype Reader = BadHeader | Reader(content: Bytes, fails: bool)

  /** A registered compressor; `sizer` says whether it can tell the decompressed size. */
  datatype Compressor = Compressor(open: Bytes -> Reader, sizer: bool)

  /** int64 addition. */
  function Wrap64(n: int): (r: int)
    ensures InInt(MAX_INT64, r)
  {
    (n + MAX_INT64 + 1) % (2 * (MAX_INT64 + 1)) - MAX_INT64 - 1
  }

  lemma Wrap64Is(max: int)
    requires InInt(MAX_INT64, max)
    ensures Wrap64(max + 1) == if max == MAX_INT64 then -(MAX_INT64 as int) - 1 else max + 1
  {
  }

  /** All that a LimitReader of `limit` bytes yields, and whether the reader failed within the limit. */
  function LimitedRead(r: Reader, limit: int): (out: (Bytes, bool))
    requires r.Reader?
  {
    if limit <= 0 then ([], false)
    else if |r.content| >= limit then (r.content[..limit], false)
    else (r.content, r.fails)
  }

  function FromLittleEndian(b: Bytes): (n: nat)
    requires |b| == 4
    ensures n < WIDTH32
  {
    b[3] as nat * 0x100_0000 + b[2] as nat * 0x1_0000 + b[1] as nat * 256 + b[0] as nat
  }

  /** DecompressedSize of gzip: the last four bytes, as an int of the machine. */
  function DecompressedSize(d: Bytes, maxInt: nat): (size: int) {
    if |d| < 4 then -1
    else
      var n := FromLittleEndian(d[|d| - 4..]);
      if n > maxInt then n - WIDTH32 else n
  }

  const MIN_READ: nat := 512

  /** The machine and its library: the largest int, and whether a bytes.Buffer made with capacity `cap` takes
      `n` bytes. Growing a buffer is the library's business. */
  datatype Machine = Machine(maxInt: nat, takes: (nat, nat) -> bool)

  /** A buffer with MinRead bytes to spare need not grow. */
  ghost predicate Lawful(mach: Machine) {
    IsMaxInt(mach.maxInt) && forall cap: nat, n: nat :: n + MIN_READ <= cap ==> mach.takes(cap, n)
  }

  /** No buffer is ever refused room to grow. */
  ghost predicate GrowsFreely(mach: Machine) {
    forall cap: nat, n: nat :: mach.takes(cap, n)
  }

  /** Both widths have lawful machines. */
  lemma LawfulMachines()
    ensures Lawful(Machine(0x7FFF_FFFF, (_, _) => true)) && Lawful(Machine(0x7FFF_FFFF_FFFF_FFFF, (_, _) => true))
    ensures forall n :: InInt(0x7FFF_FFFF, n) <==> -0x8000_0000 <= n < 0x8000_0000
  {
  }

  /** Is there a buffer for `n` bytes? With a size from the trailer it is made with that size and MinRead more,
      which must be an int; and no slice holds more bytes than the largest int. */
  predicate Buffered(mach: Machine, size: int, n: nat) {
    && (size >= 0 ==> size + MIN_READ <= mach.maxInt && mach.takes(size + MIN_READ, n))
    && n <= mach.maxInt
  }

  /** The size that decides how to read; -1 without one. */
  function SizeHint(c: Compressor, d: Bytes, maxInt: nat): (size: int) {
    if c.sizer then DecompressedSize(d, maxInt) else -1
  }

  /** decompress, followed by the limit check of recvAndDecompress. */
  function Unpacked(c: Compressor, d: Bytes, mach: Machine, max: int): (r: Result<Bytes>) {
    var reader := c.open(d);
    if reader.BadHeader? then Err(DecompressFailed)
    else
      var size := SizeHint(c, d, mach.maxInt);
      if size >= 0 && size > max then Err(TooLarge(size))
      else
        var (out, failed) := LimitedRead(reader, Wrap64(max + 1));
        if !Buffered(mach, size, |out|) then Err(Panic)
        else if failed then Err(DecompressFailed)
        else if |out| > max then Err(TooLarge(|out|))
        else Ok(out)
  }

  /** The message that was compressed, if the reader reaches its end. */
  ghost predicate Complete(reader: Reader, data: Bytes) {
    reader.Reader? && !reader.fails && data == reader.content
  }

  /** Below the largest limit, success means the complete message within the limit. */
  lemma UnpackedIsComplete(c: Compressor, d: Bytes, mach: Machine, max: int)
    requires InInt(MAX_INT64, max) && max < MAX_INT64 && Unpacked(c, d, mach, max).Ok?
    ensures var data := Unpacked(c, d, mach, max).value;
            Complete(c.open(d), data) && |data| <= max
  {
    Wrap64Is(max);
  }

  /** ... and without a size trailer every complete message within the limit is accepted. */
  lemma CompleteIsUnpacked(c: Compressor, d: Bytes, mach: Machine, max: int)
    requires Lawful(mach) && InInt(mach.maxInt, max) && max < MAX_INT64 && !c.sizer
    ensures Unpacked(c, d, mach, max).Ok? <==>
            c.open(d).Reader? && !c.open(d).fails && |c.open(d).content| <= max
  {
    Wrap64Is(max);
  }

  /** The size in an over-limit error is a size over the limit. */
  lemma TooLargeIsTrue(c: Compressor, d: Bytes, mach: Machine, max: int)
    requires Unpacked(c, d, mach, max).Err? && Unpacked(c, d, mach, max).error.TooLarge?
    ensures var size := Unpacked(c, d, mach, max).error.size; 0 <= size && size > max
  {
  }

  /** The call does not return exactly if a trailer within the limit asks for a buffer that cannot be made or
      may not grow, or if more than the largest int is read. */
  lemma PanicsExactly(c: Compressor, d: Bytes, mach: Machine, max: int)
    requires c.open(d).Reader? && InInt(MAX_INT64, max) && max < MAX_INT64
    ensures var n := if |c.open(d).content| <= max then |c.open(d).content| else if max < 0 then 0 else max + 1;
            var size := SizeHint(c, d, mach.maxInt);
            Unpacked(c, d, mach, max) == Err(Panic) <==>
              && !(0 <= size && size > max)
              && (n > mach.maxInt || (0 <= size && (size + 512 > mach.maxInt || !mach.takes(size + 512, n))))
  {
    Wrap64Is(max);
  }

  /** At the largest limit the sum wraps, nothing is read, and every message comes out empty. */
  lemma LargestLimitReadsNothing(c: Compressor, d: Bytes, mach: Machine)
    requires Lawful(mach) && mach.maxInt == MAX_INT64 && c.open(d).Reader?
    ensures Unpacked(c, d, mach, MAX_INT64) == Ok([])
  {
    Wrap64Is(MAX_INT64);
  }

  ghost predicate AlwaysComplete(mach: Machine, max: int) {
    forall c, d :: Unpacked(c, d, mach, max).Ok? ==> Complete(c.open(d), Unpacked(c, d, mach, max).value)
  }

  /** The limits for which a successful receive is always the complete message. */
  lemma CompleteExactlyBelowLargestLimit(mach: Machine, max: int)
    requires Lawful(mach) && InInt(mach.maxInt, max)
    ensures AlwaysComplete(mach, max) <==> max < MAX_INT64
  {
    if max < MAX_INT64 {
      forall c: Compressor, d: Bytes | Unpacked(c, d, mach, max).Ok?
        ensures Complete(c.open(d), Unpacked(c, d, mach, max).value)
      {
        UnpackedIsComplete(c, d, mach, max);
      }
    } else {
      var c := Compressor(_ => Reader([0], false), false);
      LargestLimitReadsNothing(c, [], mach);
      assert Unpacked(c, [], mach, max).Ok? && !Complete(c.open([]), []);
    }
  }

  // ---- The size shortcut -----------------------------------------------------------------------

  /** Equal up to the size that an over-limit error mentions. */
  ghost predicate SameVerdict(a: Result<Bytes>, b: Result<Bytes>) {
    a == b || (a.Err? && b.Err? && a.error.TooLarge? && b.error.TooLarge?)
  }

  /** The receive with the size shortcut and the plain limited read agree. */
  ghost predicate Agrees(open: Bytes -> Reader, d: Bytes, mach: Machine, max: int) {
    SameVerdict(Unpacked(Compressor(open, true), d, mach, max), Unpacked(Compressor(open, false), d, mach, max))
  }

  /** What is read within the limit. */
  function Within(reader: Reader, max: int): (out: Bytes)
    requires reader.Reader?
  {
    LimitedRead(reader, Wrap64(max + 1)).0
  }

  /** The shortcut finds no buffer where the plain read does. */
  predicate LosesBuffer(reader: Reader, size: int, mach: Machine, max: int)
    requires reader.Reader?
  {
    0 <= size <= max && |Within(reader, max)| <= mach.maxInt && !Buffered(mach, size, |Within(reader, max)|)
  }

  /** For any trailer, the shortcut changes the verdict exactly when it overstates a message that fits, or
      finds no buffer. */
  lemma TrailerChangesVerdictExactly(open: Bytes -> Reader, d: Bytes, mach: Machine, max: int)
    requires Lawful(mach) && InInt(mach.maxInt, max) && max < MAX_INT64 && open(d).Reader?
    ensures var size := DecompressedSize(d, mach.maxInt);
            Agrees(open, d, mach, max) <==>
            && (0 <= size && size > max ==> |open(d).content| > max)
            && !LosesBuffer(open(d), size, mach, max)
  {
    Wrap64Is(max);
  }

  /** The trailer holds the content's length modulo 2^32 (section 2.3.1 of RFC 1952). */
  ghost predicate Truthful(d: Bytes, content: Bytes) {
    |d| >= 4 && FromLittleEndian(d[|d| - 4..]) == |content| % WIDTH32
  }

  /** A truthful trailer changes the verdict only by costing the buffer. */
  lemma TrailerAgreesWithPlainRead(open: Bytes -> Reader, d: Bytes, mach: Machine, max: int)
    requires Lawful(mach) && InInt(mach.maxInt, max) && open(d).Reader? && Truthful(d, open(d).content)
    ensures Agrees(open, d, mach, max) <==> !LosesBuffer(open(d), DecompressedSize(d, mach.maxInt), mach, max)
  {
    Wrap64Is(max);
    var n := |open(d).content|;
    assert n % WIDTH32 <= n;
  }

  /** Below 2^32 bytes the trailer is exact and the buffer it sizes never grows. */
  lemma ExactTrailerNeedsNoGrowth(open: Bytes -> Reader, d: Bytes, mach: Machine, max: int)
    requires Lawful(mach) && InInt(mach.maxInt, max) && open(d).Reader? && Truthful(d, open(d).content)
    requires |open(d).content| < WIDTH32
    ensures var size := DecompressedSize(d, mach.maxInt);
            LosesBuffer(open(d), size, mach, max) ==> size + MIN_READ > mach.maxInt
  {
    Wrap64Is(max);
  }

  /** Do truthful trailers of contents shorter than `bound` never change the verdict? */
  ghost predicate TruthfulAgree(mach: Machine, max: int, bound: Option<nat>) {
    forall open, d :: Candidate(open, d, bound) ==> Agrees(open, d, mach, max)
  }

  ghost predicate Candidate(open: Bytes -> Reader, d: Bytes, bound: Option<nat>) {
    && open(d).Reader? && Truthful(d, open(d).content)
    && (bound.Some? ==> |open(d).content| < bound.value)
  }

  /** Every size that passes the limit leaves room for MinRead more in an int. */
  predicate RoomForMinRead(maxInt: nat, max: int) {
    maxInt == MAX_INT64 || max <= MAX_INT32 - MIN_READ
  }

  function LittleEndian(n: nat): (b: Bytes)
    requires n < WIDTH32
    ensures |b| == 4
  {
    [(n % 256) as Byte, (n / 256 % 256) as Byte, (n / 256 / 256 % 256) as Byte, (n / 256 / 256 / 256) as Byte]
  }

  lemma LittleEndianRoundTrip(n: nat)
    requires n < WIDTH32
    ensures FromLittleEndian(LittleEndian(n)) == n
  {
    BigEndianRoundTrip(n);
  }

  function Zeros(n: nat): (b: Bytes)
    ensures |b| == n
  {
    seq(n, _ => 0)
  }

  /** On a 32-bit machine a trailer near the largest int makes the capacity overflow, while the plain read
      would succeed: here for a truthful trailer as large as the limit. */
  lemma NearLargestIntPanics(mach: Machine, max: nat)
    requires Lawful(mach) && mach.maxInt == MAX_INT32 && MAX_INT32 - MIN_READ < max <= MAX_INT32
    ensures var open := (_: Bytes) => Reader(Zeros(max), false);
            var d := LittleEndian(max);
            && Truthful(d, Zeros(max))
            && Unpacked(Compressor(open, true), d, mach, max) == Err(Panic)
            && Unpacked(Compressor(open, false), d, mach, max) == Ok(Zeros(max))
  {
    Wrap64Is(max);
    LittleEndianRoundTrip(max);
    var d := LittleEndian(max);
    assert d[|d| - 4..] == d;
    assert DecompressedSize(d, mach.maxInt) == max;
  }

  /** The smallest message with the largest trailer: the peer chooses the trailer. */
  lemma UntruthfulTrailerPanics(mach: Machine)
    requires Lawful(mach) && mach.maxInt == MAX_INT32
    ensures var open := (_: Bytes) => Reader([7], false);
            var d := [0xFF, 0xFF, 0xFF, 0x7F];
            && Unpacked(Compressor(open, true), d, mach, MAX_INT32) == Err(Panic)
            && Unpacked(Compressor(open, false), d, mach, MAX_INT32) == Ok([7])
  {
    Wrap64Is(MAX_INT32);
    var d: Bytes := [0xFF, 0xFF, 0xFF, 0x7F];
    assert d[|d| - 4..] == d;
    assert DecompressedSize(d, MAX_INT32) == MAX_INT32;
  }

  /** The limits at which exact trailers never change the verdict, whatever the library does to grow. */
  lemma ExactTrailersAgreeExactly(mach: Machine, max: int)
    requires Lawful(mach) && InInt(mach.maxInt, max)
    ensures TruthfulAgree(mach, max, Some(WIDTH32)) <==> RoomForMinRead(mach.maxInt, max)
  {
    if RoomForMinRead(mach.maxInt, max) {
      forall open, d | Candidate(open, d, Some(WIDTH32))
        ensures Agrees(open, d, mach, max)
      {
        TrailerAgreesWithPlainRead(open, d, mach, max);
        ExactTrailerNeedsNoGrowth(open, d, mach, max);
      }
    } else {
      NearLargestIntPanics(mach, max);
      var open := (_: Bytes) => Reader(Zeros(max), false);
      assert Candidate(open, LittleEndian(max), Some(WIDTH32)) && !Agrees(open, LittleEndian(max), mach, max);
    }
  }

  /** The same for contents of any length, whose trailers wrap, if buffers grow freely. */
  lemma TruthfulTrailersAgreeExactly(mach: Machine, max: int)
    requires Lawful(mach) && GrowsFreely(mach) && InInt(mach.maxInt, max)
    ensures TruthfulAgree(mach, max, None) <==> RoomForMinRead(mach.maxInt, max)
  {
    if RoomForMinRead(mach.maxInt, max) {
      forall open, d | Candidate(open, d, None)
        ensures Agrees(open, d, mach, max)
      {
        TrailerAgreesWithPlainRead(open, d, mach, max);
      }
    } else {
      NearLargestIntPanics(mach, max);
      var open := (_: Bytes) => Reader(Zeros(max), false);
      assert Candidate(open, LittleEndian(max), None) && !Agrees(open, LittleEndian(max), mach, max);
    }
  }

  // ---- The whole receive path ------------------------------------------------------------------

  datatype Peer = Peer(encoding: string, compressor: Option<Compressor>, legacy: Option<Bytes -> Option<Bytes>>)

  /** checkRecvPayload */
  function FormatFault(flag: Byte, peer: Peer): (fault: Option<Error>) {
    if flag == 0 then None
    else if flag != 1 then Some(UnexpectedFormat(flag))
    else if peer.encoding == "" || peer.encoding == "identity" then Some(UnexpectedCompression)
    else if peer.compressor.None? && peer.legacy.None? then Some(NoDecompressor)
    else None
  }

  /** A legacy decompressor is preferred over a registered compressor. */
  function Opened(m: Msg, peer: Peer, mach: Machine, max: int): (r: Result<Bytes>)
    requires FormatFault(m.flag, peer).None?
  {
    if m.flag == 1 && peer.legacy.None? then Unpacked(peer.compressor.value, m.payload, mach, max)
    else
      var d := if m.flag == 1 then peer.legacy.value(m.payload) else Some(m.payload);
      if d.None? then Err(DecompressFailed)
      else if |d.value| > max then Err(TooLarge(|d.value|))
      else Ok(d.value)
  }

  /** The data the sender meant, given the message on the wire. */
  ghost predicate Delivers(m: Msg, peer: Peer, data: Bytes) {
    if m.flag == 0 then data == m.payload
    else if peer.legacy.Some? then peer.legacy.value(m.payload) == Some(data)
    else peer.compressor.Some? && Complete(peer.compressor.value.open(m.payload), data)
  }

  function Received(b: Bytes, end: End, peer: Peer, mach: Machine, max: int): (r: Result<Bytes>) {
    match Parsed(b, end, mach.maxInt, max)
    case Err(e) => Err(e)
    case Ok((m, _)) =>
      var fault := FormatFault(m.flag, peer);
      if fault.Some? then Err(fault.value) else Opened(m, peer, mach, max)
  }

  /** A successful receive is the complete message within the limit, from a whole frame. */
  lemma ReceivedIsComplete(b: Bytes, end: End, peer: Peer, mach: Machine, max: int)
    requires InInt(MAX_INT64, max) && max < MAX_INT64 && Received(b, end, peer, mach, max).Ok?
    ensures var data := Received(b, end, peer, mach, max).value;
            |data| <= max && exists m, rest :: b == Frame(m) + rest && m.flag <= 1 && Delivers(m, peer, data)
  {
    ParsedIsFrame(b, end, mach.maxInt, max);
    var (m, rest) := Parsed(b, end, mach.maxInt, max).value;
    if m.flag == 1 && peer.legacy.None? {
      UnpackedIsComplete(peer.compressor.value, m.payload, mach, max);
    }
    assert Delivers(m, peer, Received(b, end, peer, mach, max).value);
  }

  /** What becomes of a message whose frame has arrived, case by case. */
  lemma {:induction false} WholeFrameIsReceived(m: Msg, rest: Bytes, end: End, peer: Peer, mach: Machine, max: int)
    requires Fits(m, mach.maxInt, max) && Lawful(mach) && InInt(mach.maxInt, max) && max < MAX_INT64
    ensures var r := Received(Frame(m) + rest, end, peer, mach, max);
            if m.flag == 0 then
              r == if |m.payload| <= max then Ok(m.payload) else Err(TooLarge(|m.payload|))
            else if m.flag > 1 then r == Err(UnexpectedFormat(m.flag))
            else if peer.encoding in ["", "identity"] then r == Err(UnexpectedCompression)
            else if peer.legacy.Some? then
              match peer.legacy.value(m.payload) {
                case None => r == Err(DecompressFailed)
                case Some(data) => r == if |data| <= max then Ok(data) else Err(TooLarge(|data|))
              }
            else if peer.compressor.None? then r == Err(NoDecompressor)
            else if peer.compressor.value.sizer then r == Unpacked(peer.compressor.value, m.payload, mach, max)
            else
              match peer.compressor.value.open(m.payload) {
                case BadHeader => r == Err(DecompressFailed)
                case Reader(content, fails) =>
                  if |content| > max then r.Err? && (r.error.TooLarge? || r.error == Panic)
                  else if fails then r == Err(DecompressFailed)
                  else r == Ok(content)
              }
  {
    FrameIsParsed(m, rest, end, mach.maxInt, max);
    Wrap64Is(max);
  }

  class Parser {
    var rest: Bytes
    const end: End
    const mach: Machine

    constructor (b: Bytes, e: End, m: Machine)
      ensures rest == b && end == e && mach == m
    {
      rest, end, mach := b, e, m;
    }

    /** The transport fills the whole buffer or fails. */
    method Read(n: nat) returns (r: Result<Bytes>)
      requires n > 0
      modifies this
      ensures r == if |old(rest)| < n then Err(ShortRead(|old(rest)|, end)) else Ok(old(rest)[..n])
      ensures rest == if |old(rest)| < n then [] else old(rest)[n..]
    {
      if |rest| < n {
        r := Err(ShortRead(|rest|, end));
        rest := [];
      } else {
        r := Ok(rest[..n]);
        rest := rest[n..];
      }
    }

    method RecvMsg(max: int) returns (r: Result<Msg>)
      modifies this
      ensures match Parsed(old(rest), end, mach.maxInt, max)
              case Err(e) => r == Err(e)
              case Ok((m, after)) => r == Ok(m) && rest == after
    {
      var header := Read(5);
      if header.Err? {
        return Err(header.error);
      }
      assert header.value[1..5] == old(rest)[1..5];
      var flag, length := header.value[0], FromBigEndian(header.value[1..5]);
      if length == 0 {
        return Ok(Msg(flag, []));
      }
      if length > mach.maxInt {
        return Err(TooLargeForMachine(length));
      }
      if length > max {
        return Err(TooLarge(length));
      }
      var msg := Read(length);
      if msg.Err? {
        return Err(if msg.error == Eof then UnexpectedEof else msg.error);
      }
      assert old(rest)[5..5 + length] == old(rest)[5..][..length];
      return Ok(Msg(flag, msg.value));
    }

    /** decompress; `panics` stands for a call that does not return. */
    method Decompress(c: Compressor, d: Bytes, max: int)
      returns (data: Bytes, size: int, failed: bool, panics: bool)
      ensures Unpacked(c, d, mach, max) ==
              if panics then Err(Panic)
              else if failed then Err(DecompressFailed)
              else if size > max then Err(TooLarge(size))
              else Ok(data)
    {
      var reader := c.open(d);
      if reader.BadHeader? {
        return [], 0, true, false;
      }
      var out := LimitedRead(reader, Wrap64(max + 1));
      if c.sizer {
        size := DecompressedSize(d, mach.maxInt);
        if size >= 0 {
          if size > max {
            return [], size, false, false;
          }
          panics := size + MIN_READ > mach.maxInt || !mach.takes(size + MIN_READ, |out.0|) || |out.0| > mach.maxInt;
          return out.0, |out.0|, out.1, panics;
        }
      }
      return out.0, |out.0|, out.1, |out.0| > mach.maxInt;
    }

    method RecvAndDecompress(peer: Peer, max: int) returns (r: Result<Bytes>)
      modifies this
      ensures r == Received(old(rest), end, peer, mach, max)
    {
      var m := RecvMsg(max);
      if m.Err? {
        return Err(m.error);
      }
      var fault := FormatFault(m.value.flag, peer);
      if fault.Some? {
        return Err(fault.value);
      }
      var d, size, failed := m.value.payload, |m.value.payload|, false;
      if m.value.flag == 1 {
        if peer.legacy.Some? {
          var done := peer.legacy.value(d);
          failed := done.None?;
          d := if done.Some? then done.value else [];
          size := |d|;
        } else {
          var panics;
          d, size, failed, panics := Decompress(peer.compressor.value, d, max);
          if panics {
            return Err(Panic);
          }
        }
        if failed {
          return Err(DecompressFailed);
        }
      }
      if size > max {
        return Err(TooLarge(size));
      }
      return Ok(d);
    }
  }
}
