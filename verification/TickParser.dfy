/** Kite's binary tick frames. */
module TickParser {
  import opened Prelude

  type Byte = b: int | 0 <= b < 256

  /** A price as the feed scales it: `units` of one `scale`-th. */
  datatype Price = Price(units: nat, scale: nat)

  const ZERO := Price(0, 1)

  datatype Level = Level(price: Price, qty: nat, orders: nat)

  datatype Tick = Tick(
    token: nat,
    lastPrice: Price,
    closePrice: Price,
    oi: nat,
    bid: Price,
    ask: Price,
    bids: seq<Level>,
    asks: seq<Level>,
    depthUpdated: bool,
    exchangeTs: nat)

  const MIN_PACKET_BYTES := 8
  const QUOTE_BYTES := 44
  const FULL_BYTES := 184

  /** Big-endian, unsigned. */
  function U16(buf: seq<Byte>, at: nat): nat
    requires at + 2 <= |buf|
  {
    (buf[at] as int) * 256 + buf[at + 1] as int
  }

  function U32(buf: seq<Byte>, at: nat): nat
    requires at + 4 <= |buf|
  {
    U16(buf, at) * 65536 + U16(buf, at + 2)
  }

  /** The scale of a price, by the segment in the token's low byte. */
  function Divisor(token: nat): nat {
    var segment := token % 256;
    if segment == 3 then 10000000
    else if segment == 6 || segment == 12 then 10000
    else 100
  }

  // ---- the meaning of one packet -----------------------------------------------------------

  /** One ladder row, unless it is empty. */
  function RowAt(buf: seq<Byte>, at: nat, divisor: nat): seq<Level>
    requires at + 12 <= |buf|
  {
    var units := U32(buf, at + 4);
    if units > 0 then [Level(Price(units, divisor), U32(buf, at), U16(buf, at + 8))] else []
  }

  /** The first `n` rows of a ladder, without the empty ones. */
  function Ladder(packet: seq<Byte>, base: nat, divisor: nat, n: nat): seq<Level>
    requires n == 0 || base + 12 * n <= |packet|
  {
    if n == 0 then []
    else Ladder(packet, base, divisor, n - 1) + RowAt(packet, base + 12 * (n - 1), divisor)
  }

  function Best(levels: seq<Level>): Price {
    if levels == [] then ZERO else levels[0].price
  }

  /** Only a full packet carries market depth: five rows a side. */
  function DepthRows(packet: seq<Byte>): nat {
    if |packet| >= FULL_BYTES then 5 else 0
  }

  function Decode(packet: seq<Byte>): Tick
    requires |packet| >= MIN_PACKET_BYTES
  {
    var token := U32(packet, 0);
    var divisor := Divisor(token);
    var full := |packet| >= FULL_BYTES;
    var bids := Ladder(packet, 64, divisor, DepthRows(packet));
    var asks := Ladder(packet, 124, divisor, DepthRows(packet));
    Tick(token,
         Price(U32(packet, 4), divisor),
         if |packet| >= QUOTE_BYTES then Price(U32(packet, 40), divisor) else ZERO,
         if full then U32(packet, 48) else 0,
         Best(bids), Best(asks), bids, asks,
         full,
         if full then U32(packet, 60) * 1000 else 0)
  }

  /** The well-formed packets from here on, stopping at the first that is not. */
  function SplitFrom(buf: seq<Byte>, offset: nat, left: nat): (packets: seq<seq<Byte>>)
    requires offset <= |buf|
    ensures forall i :: 0 <= i < |packets| ==> |packets[i]| >= MIN_PACKET_BYTES
    decreases left
  {
    if left == 0 || offset + 2 > |buf| then []
    else
      var len := U16(buf, offset);
      if offset + 2 + len > |buf| || len < MIN_PACKET_BYTES then []
      else [buf[offset + 2..offset + 2 + len]] + SplitFrom(buf, offset + 2 + len, left - 1)
  }

  function Split(buf: seq<Byte>): (packets: seq<seq<Byte>>)
    ensures forall i :: 0 <= i < |packets| ==> |packets[i]| >= MIN_PACKET_BYTES
  {
    if |buf| < 2 then [] else SplitFrom(buf, 2, U16(buf, 0))
  }

  function DecodeAll(packets: seq<seq<Byte>>): (ticks: seq<Tick>)
    requires forall i :: 0 <= i < |packets| ==> |packets[i]| >= MIN_PACKET_BYTES
    ensures |ticks| == |packets| && forall i :: 0 <= i < |packets| ==> ticks[i] == Decode(packets[i])
  {
    if packets == [] then []
    else [Decode(packets[0])] + DecodeAll(packets[1..])
  }

  function Parse(buf: seq<Byte>): seq<Tick> {
    DecodeAll(Split(buf))
  }

  // ---- the parser --------------------------------------------------------------------------

  lemma SliceReads(buf: seq<Byte>, offset: nat, len: nat, at: nat)
    requires offset + len <= |buf|
    ensures at + 2 <= len ==> U16(buf, offset + at) == U16(buf[offset..offset + len], at)
    ensures at + 4 <= len ==> U32(buf, offset + at) == U32(buf[offset..offset + len], at)
  {
  }

  lemma SliceRow(buf: seq<Byte>, offset: nat, len: nat, at: nat, divisor: nat)
    requires offset + len <= |buf| && at + 12 <= len
    ensures RowAt(buf, offset + at, divisor) == RowAt(buf[offset..offset + len], at, divisor)
  {
    SliceReads(buf, offset, len, at);
    SliceReads(buf, offset, len, at + 4);
    SliceReads(buf, offset, len, at + 8);
  }

  method ReadRow(buf: seq<Byte>, at: nat, divisor: nat) returns (row: seq<Level>)
    requires at + 12 <= |buf|
    ensures row == RowAt(buf, at, divisor)
  {
    var price := Price(U32(buf, at + 4), divisor);
    row := [];
    if price.units > 0 {
      row := [Level(price, U32(buf, at), U16(buf, at + 8))];
    }
  }

  lemma LadderStep(packet: seq<Byte>, base: nat, divisor: nat, n: nat)
    requires base + 12 * (n + 1) <= |packet|
    ensures Ladder(packet, base, divisor, n + 1)
            == Ladder(packet, base, divisor, n) + RowAt(packet, base + 12 * n, divisor)
  {
  }

  lemma LadderGrows(buf: seq<Byte>, offset: nat, len: nat, base: nat, divisor: nat, n: nat)
    requires offset + len <= |buf| && base + 12 * (n + 1) <= len
    ensures var packet := buf[offset..offset + len];
            Ladder(packet, base, divisor, n + 1)
            == Ladder(packet, base, divisor, n) + RowAt(buf, offset + base + 12 * n, divisor)
  {
    LadderStep(buf[offset..offset + len], base, divisor, n);
    SliceRow(buf, offset, len, base + 12 * n, divisor);
  }

  method AddRow(buf: seq<Byte>, offset: nat, len: nat, base: nat, divisor: nat, n: nat, levels: seq<Level>)
    returns (more: seq<Level>)
    requires offset + len <= |buf| && base + 12 * (n + 1) <= len
    requires levels == Ladder(buf[offset..offset + len], base, divisor, n)
    ensures more == Ladder(buf[offset..offset + len], base, divisor, n + 1)
  {
    LadderGrows(buf, offset, len, base, divisor, n);
    var row := ReadRow(buf, offset + base + 12 * n, divisor);
    more := levels + row;
  }

  /** Both ladders, read in one pass. */
  method ReadDepth(buf: seq<Byte>, offset: nat, len: nat, divisor: nat, rows: nat)
    returns (bids: seq<Level>, asks: seq<Level>)
    requires offset + len <= |buf| && 124 + 12 * rows <= len
    ensures bids == Ladder(buf[offset..offset + len], 64, divisor, rows)
    ensures asks == Ladder(buf[offset..offset + len], 124, divisor, rows)
  {
    bids, asks := [], [];
    ghost var packet := buf[offset..offset + len];
    for i := 0 to rows
      invariant bids == Ladder(packet, 64, divisor, i)
      invariant asks == Ladder(packet, 124, divisor, i)
    {
      bids := AddRow(buf, offset, len, 64, divisor, i, bids);
      asks := AddRow(buf, offset, len, 124, divisor, i, asks);
    }
  }

  method ReadPacket(buf: seq<Byte>, offset: nat, len: nat) returns (tick: Tick)
    requires MIN_PACKET_BYTES <= len && offset + len <= |buf|
    ensures tick == Decode(buf[offset..offset + len])
  {
    SliceReads(buf, offset, len, 0);
    SliceReads(buf, offset, len, 4);
    SliceReads(buf, offset, len, 40);
    SliceReads(buf, offset, len, 48);
    SliceReads(buf, offset, len, 60);
    var token := U32(buf, offset);
    var divisor := Divisor(token);
    var lastPrice := Price(U32(buf, offset + 4), divisor);
    var closePrice, oi, exchangeTs := ZERO, 0, 0;
    if len >= QUOTE_BYTES {
      closePrice := Price(U32(buf, offset + 40), divisor);
    }
    var bids: seq<Level>, asks: seq<Level> := [], [];
    if len >= FULL_BYTES {
      oi := U32(buf, offset + 48);
      var seconds := U32(buf, offset + 60);
      if seconds > 0 {
        exchangeTs := seconds * 1000;
      }
      bids, asks := ReadDepth(buf, offset, len, divisor, 5);
    }
    tick := Tick(token, lastPrice, closePrice, oi, Best(bids), Best(asks), bids, asks, len >= FULL_BYTES, exchangeTs);
  }

  /** The ticks of whatever can be trusted from here on. */
  function Rest(buf: seq<Byte>, offset: nat, left: nat): seq<Tick>
    requires offset <= |buf|
  {
    DecodeAll(SplitFrom(buf, offset, left))
  }

  /** Nothing trustworthy starts here. */
  predicate Stops(buf: seq<Byte>, offset: nat) {
    || offset + 2 > |buf|
    || offset + 2 + U16(buf, offset) > |buf|
    || U16(buf, offset) < MIN_PACKET_BYTES
  }

  lemma NoPacket(buf: seq<Byte>, offset: nat, left: nat)
    requires offset <= |buf| && Stops(buf, offset)
    ensures Rest(buf, offset, left) == []
  {
    assert SplitFrom(buf, offset, left) == [];
  }

  lemma OnePacket(buf: seq<Byte>, offset: nat, left: nat)
    requires offset <= |buf| && left > 0 && !Stops(buf, offset)
    ensures var end := offset + 2 + U16(buf, offset);
            Rest(buf, offset, left) == [Decode(buf[offset + 2..end])] + Rest(buf, end, left - 1)
  {
    var end := offset + 2 + U16(buf, offset);
    var rest := SplitFrom(buf, end, left - 1);
    assert ([buf[offset + 2..end]] + rest)[1..] == rest;
  }

  method PacketLength(buf: seq<Byte>, offset: nat) returns (len: Option<nat>)
    ensures len.None? <==> Stops(buf, offset)
    ensures len.Some? ==> len.value == U16(buf, offset)
  {
    if offset + 2 > |buf| {
      return None;
    }
    var n := U16(buf, offset);
    if offset + 2 + n > |buf| {
      return None;
    }
    if n < MIN_PACKET_BYTES {
      return None;
    }
    return Some(n);
  }

  /** The packet at `offset` and where it ends, or nothing when the frame cannot be trusted from there on. */
  method ReadNext(buf: seq<Byte>, offset: nat, left: nat) returns (tick: Option<Tick>, end: nat)
    requires offset <= |buf| && left > 0
    ensures tick.None? ==> Rest(buf, offset, left) == []
    ensures tick.Some? ==> end <= |buf| && Rest(buf, offset, left) == [tick.value] + Rest(buf, end, left - 1)
  {
    var len := PacketLength(buf, offset);
    if len.None? {
      NoPacket(buf, offset, left);
      return None, offset;
    }
    OnePacket(buf, offset, left);
    end := offset + 2 + len.value;
    var decoded := ReadPacket(buf, offset + 2, len.value);
    return Some(decoded), end;
  }

  /** Total on arbitrary bytes: every read is inside the buffer and every input ends. */
  method ParseBinary(buf: seq<Byte>) returns (ticks: seq<Tick>)
    ensures ticks == Parse(buf)
  {
    ticks := [];
    if |buf| < 2 {
      return;
    }
    var count, offset: nat := U16(buf, 0), 2;
    for p := 0 to count
      invariant offset <= |buf| && Parse(buf) == ticks + Rest(buf, offset, count - p)
    {
      var tick, end := ReadNext(buf, offset, count - p);
      if tick.None? {
        return;
      }
      ticks, offset := ticks + [tick.value], end;
    }
  }

  // ---- truncation --------------------------------------------------------------------------

  lemma {:induction false} TruncationFrom(buf: seq<Byte>, n: nat, offset: nat, left: nat)
    requires offset <= n <= |buf|
    ensures SplitFrom(buf[..n], offset, left) <= SplitFrom(buf, offset, left)
    decreases left
  {
    if left > 0 && offset + 2 <= n {
      var len := U16(buf, offset);
      if offset + 2 + len <= n && len >= MIN_PACKET_BYTES {
        TruncationFrom(buf, n, offset + 2 + len, left - 1);
        assert buf[..n][offset + 2..offset + 2 + len] == buf[offset + 2..offset + 2 + len];
      }
    }
  }

  lemma TruncationSplits(buf: seq<Byte>, n: nat)
    requires n <= |buf|
    ensures Split(buf[..n]) <= Split(buf)
  {
    if n >= 2 {
      TruncationFrom(buf, n, 2, U16(buf, 0));
    }
  }

  lemma DecodesPrefix(some: seq<seq<Byte>>, all: seq<seq<Byte>>)
    requires some <= all && forall i :: 0 <= i < |all| ==> |all[i]| >= MIN_PACKET_BYTES
    ensures DecodeAll(some) <= DecodeAll(all)
  {
    forall i | 0 <= i < |some|
      ensures DecodeAll(some)[i] == DecodeAll(all)[i]
    {
      assert some[i] == all[i];
    }
  }

  /** A frame cut anywhere yields a prefix of the ticks of the whole frame. */
  lemma TruncationIsPrefix(buf: seq<Byte>, n: nat)
    requires n <= |buf|
    ensures Parse(buf[..n]) <= Parse(buf)
  {
    TruncationSplits(buf, n);
    DecodesPrefix(Split(buf[..n]), Split(buf));
  }

  // ---- frames the exchange sends -----------------------------------------------------------

  type Word16 = w: nat | w < 0x1_0000
  type Word32 = w: nat | w < 0x1_0000_0000

  datatype Row = Row(qty: Word32, price: Word32, orders: Word16, pad: Word16)

  /** The three packet kinds; `other` fields are the bytes the parser skips. */
  datatype Packet =
    | Ltp(token: Word32, last: Word32)
    | Quote(token: Word32, last: Word32, other: seq<Byte>, close: Word32)
    | FullPacket(token: Word32, last: Word32, other: seq<Byte>, close: Word32, traded: Word32, oi: Word32,
                 oiRange: seq<Byte>, seconds: Word32, bids: seq<Row>, asks: seq<Row>)

  predicate WellFormed(p: Packet) {
    && (!p.Ltp? ==> |p.other| == 32)
    && (p.FullPacket? ==> |p.oiRange| == 8 && |p.bids| == 5 && |p.asks| == 5)
  }

  function Bytes16(w: Word16): (b: seq<Byte>)
    ensures |b| == 2 && U16(b, 0) == w
  {
    [w / 256, w % 256]
  }

  function Bytes32(w: Word32): (b: seq<Byte>)
    ensures |b| == 4
  {
    Bytes16(w / 65536) + Bytes16(w % 65536)
  }

  function RowBytes(r: Row): (b: seq<Byte>)
    ensures |b| == 12
  {
    Bytes32(r.qty) + Bytes32(r.price) + Bytes16(r.orders) + Bytes16(r.pad)
  }

  function LadderBytes(rows: seq<Row>): (b: seq<Byte>)
    ensures |b| == 12 * |rows|
  {
    if rows == [] then [] else LadderBytes(rows[..|rows| - 1]) + RowBytes(rows[|rows| - 1])
  }

  function Encode(p: Packet): (b: seq<Byte>)
    requires WellFormed(p)
    ensures |b| == if p.Ltp? then 8 else if p.Quote? then 44 else 184
  {
    match p
    case Ltp(token, last) => Bytes32(token) + Bytes32(last)
    case Quote(token, last, other, close) => Bytes32(token) + Bytes32(last) + other + Bytes32(close)
    case FullPacket(token, last, other, close, traded, oi, oiRange, seconds, bids, asks) =>
      (Bytes32(token) + Bytes32(last) + other + Bytes32(close))
      + (Bytes32(traded) + Bytes32(oi) + oiRange + Bytes32(seconds))
      + LadderBytes(bids) + LadderBytes(asks)
  }

  function LevelOf(r: Row, divisor: nat): seq<Level> {
    if r.price > 0 then [Level(Price(r.price, divisor), r.qty, r.orders)] else []
  }

  /** The quoted rows of a ladder, in order. */
  function Quoted(rows: seq<Row>, divisor: nat): seq<Level> {
    if rows == [] then [] else Quoted(rows[..|rows| - 1], divisor) + LevelOf(rows[|rows| - 1], divisor)
  }

  /** The best price of a side: that of the first row that has one. */
  function FirstPriced(rows: seq<Row>, divisor: nat): Price {
    if rows == [] then ZERO
    else if rows[0].price > 0 then Price(rows[0].price, divisor)
    else FirstPriced(rows[1..], divisor)
  }

  /** What a client must be told about a packet. Currency derivatives and commodities have finer prices. */
  function Meaning(p: Packet): Tick {
    var d := match p.token % 256 case 3 => 10000000 case 6 => 10000 case 12 => 10000 case _ => 100;
    var last := Price(p.last, d);
    match p
    case Ltp(_, _) => Tick(p.token, last, ZERO, 0, ZERO, ZERO, [], [], false, 0)
    case Quote(_, _, _, close) => Tick(p.token, last, Price(close, d), 0, ZERO, ZERO, [], [], false, 0)
    case FullPacket(_, _, _, close, _, oi, _, seconds, bids, asks) =>
      Tick(p.token, last, Price(close, d), oi, FirstPriced(bids, d), FirstPriced(asks, d),
           Quoted(bids, d), Quoted(asks, d), true, seconds * 1000)
  }

  /** These bytes stand at this position. */
  predicate At(buf: seq<Byte>, at: nat, bytes: seq<Byte>) {
    at + |bytes| <= |buf| && buf[at..at + |bytes|] == bytes
  }

  lemma AtParts(buf: seq<Byte>, at: nat, a: seq<Byte>, b: seq<Byte>)
    requires At(buf, at, a + b)
    ensures At(buf, at, a) && At(buf, at + |a|, b)
  {
    var ab := buf[at..at + |a| + |b|];
    assert buf[at..at + |a|] == ab[..|a|] && buf[at + |a|..at + |a| + |b|] == ab[|a|..];
  }

  lemma ReadBack16(buf: seq<Byte>, at: nat, w: Word16)
    requires At(buf, at, Bytes16(w))
    ensures U16(buf, at) == w
  {
    SliceReads(buf, at, 2, 0);
  }

  lemma ReadBack32(buf: seq<Byte>, at: nat, w: Word32)
    requires At(buf, at, Bytes32(w))
    ensures U32(buf, at) == w
  {
    AtParts(buf, at, Bytes16(w / 65536), Bytes16(w % 65536));
    ReadBack16(buf, at, w / 65536);
    ReadBack16(buf, at + 2, w % 65536);
  }

  lemma ReadBackRow(buf: seq<Byte>, at: nat, r: Row, divisor: nat)
    requires At(buf, at, RowBytes(r))
    ensures RowAt(buf, at, divisor) == LevelOf(r, divisor)
  {
    var q, p, o, x := Bytes32(r.qty), Bytes32(r.price), Bytes16(r.orders), Bytes16(r.pad);
    AtParts(buf, at, q + p + o, x);
    AtParts(buf, at, q + p, o);
    AtParts(buf, at, q, p);
    ReadBack32(buf, at, r.qty);
    ReadBack32(buf, at + 4, r.price);
    ReadBack16(buf, at + 8, r.orders);
  }

  lemma {:induction false} ReadBackLadder(buf: seq<Byte>, at: nat, rows: seq<Row>, divisor: nat)
    requires At(buf, at, LadderBytes(rows))
    ensures Ladder(buf, at, divisor, |rows|) == Quoted(rows, divisor)
  {
    if rows != [] {
      var before, r := rows[..|rows| - 1], rows[|rows| - 1];
      AtParts(buf, at, LadderBytes(before), RowBytes(r));
      ReadBackLadder(buf, at, before, divisor);
      ReadBackRow(buf, at + 12 * |before|, r, divisor);
      LadderStep(buf, at, divisor, |before|);
    }
  }

  lemma {:induction false} QuotedFromFront(rows: seq<Row>, divisor: nat)
    requires rows != []
    ensures Quoted(rows, divisor) == LevelOf(rows[0], divisor) + Quoted(rows[1..], divisor)
  {
    var n := |rows|;
    if n == 1 {
      assert rows[..0] == [] && rows[1..] == [];
    } else {
      var middle := rows[1..n - 1];
      QuotedFromFront(rows[..n - 1], divisor);
      assert rows[..n - 1][1..] == middle && rows[1..][..n - 2] == middle;
      Reassociates(LevelOf(rows[0], divisor), Quoted(middle, divisor), LevelOf(rows[n - 1], divisor));
    }
  }

  lemma Reassociates(a: seq<Level>, b: seq<Level>, c: seq<Level>)
    ensures (a + b) + c == a + (b + c)
  {
  }

  lemma {:induction false} BestIsFirst(rows: seq<Row>, divisor: nat)
    ensures Best(Quoted(rows, divisor)) == FirstPriced(rows, divisor)
  {
    if rows != [] {
      QuotedFromFront(rows, divisor);
      BestIsFirst(rows[1..], divisor);
    }
  }

  lemma ReadBackHead(buf: seq<Byte>, p: Packet)
    requires WellFormed(p) && !p.Ltp? && At(buf, 0, Bytes32(p.token) + Bytes32(p.last) + p.other + Bytes32(p.close))
    ensures U32(buf, 0) == p.token && U32(buf, 4) == p.last && U32(buf, 40) == p.close
  {
    var t, l, c := Bytes32(p.token), Bytes32(p.last), Bytes32(p.close);
    AtParts(buf, 0, t + l + p.other, c);
    AtParts(buf, 0, t + l, p.other);
    AtParts(buf, 0, t, l);
    ReadBack32(buf, 0, p.token);
    ReadBack32(buf, 4, p.last);
    ReadBack32(buf, 40, p.close);
  }

  lemma ReadBackMiddle(buf: seq<Byte>, p: Packet)
    requires WellFormed(p) && p.FullPacket?
    requires At(buf, 44, Bytes32(p.traded) + Bytes32(p.oi) + p.oiRange + Bytes32(p.seconds))
    ensures U32(buf, 48) == p.oi && U32(buf, 60) == p.seconds
  {
    var t, o, s := Bytes32(p.traded), Bytes32(p.oi), Bytes32(p.seconds);
    AtParts(buf, 44, t + o + p.oiRange, s);
    AtParts(buf, 44, t + o, p.oiRange);
    AtParts(buf, 44, t, o);
    ReadBack32(buf, 48, p.oi);
    ReadBack32(buf, 60, p.seconds);
  }

  lemma ReadBackFull(buf: seq<Byte>, p: Packet)
    requires WellFormed(p) && p.FullPacket? && At(buf, 0, Encode(p))
    ensures U32(buf, 0) == p.token && U32(buf, 4) == p.last && U32(buf, 40) == p.close
    ensures U32(buf, 48) == p.oi && U32(buf, 60) == p.seconds
    ensures var d := Divisor(p.token);
            Ladder(buf, 64, d, 5) == Quoted(p.bids, d) && Ladder(buf, 124, d, 5) == Quoted(p.asks, d)
  {
    var head := Bytes32(p.token) + Bytes32(p.last) + p.other + Bytes32(p.close);
    var middle := Bytes32(p.traded) + Bytes32(p.oi) + p.oiRange + Bytes32(p.seconds);
    var b, a := LadderBytes(p.bids), LadderBytes(p.asks);
    AtParts(buf, 0, head + middle + b, a);
    AtParts(buf, 0, head + middle, b);
    AtParts(buf, 0, head, middle);
    ReadBackHead(buf, p);
    ReadBackMiddle(buf, p);
    ReadBackLadder(buf, 64, p.bids, Divisor(p.token));
    ReadBackLadder(buf, 124, p.asks, Divisor(p.token));
  }

  /** A packet with bytes after its fields, too few to make it the next larger kind. */
  datatype Framed = Framed(packet: Packet, tail: seq<Byte>)

  predicate WellFramed(f: Framed) {
    && WellFormed(f.packet)
    && |f.tail| < if f.packet.Ltp? then 36 else if f.packet.Quote? then 140 else 65352
  }

  function Bytes(f: Framed): (b: seq<Byte>)
    requires WellFramed(f)
    ensures MIN_PACKET_BYTES <= |b| < 0x1_0000
  {
    Encode(f.packet) + f.tail
  }

  lemma ReadBackLtp(buf: seq<Byte>, p: Packet)
    requires p.Ltp? && At(buf, 0, Encode(p))
    ensures U32(buf, 0) == p.token && U32(buf, 4) == p.last
  {
    AtParts(buf, 0, Bytes32(p.token), Bytes32(p.last));
    ReadBack32(buf, 0, p.token);
    ReadBack32(buf, 4, p.last);
  }

  /** Decoding an encoded packet of any length yields exactly what it says. */
  lemma PacketRoundTrip(f: Framed)
    requires WellFramed(f)
    ensures Decode(Bytes(f)) == Meaning(f.packet)
  {
    assert At(Bytes(f), 0, Encode(f.packet));
    if f.packet.FullPacket? {
      DecodeFull(Bytes(f), f.packet);
    } else {
      DecodeShort(Bytes(f), f.packet);
    }
  }

  lemma DecodeShort(buf: seq<Byte>, p: Packet)
    requires WellFormed(p) && !p.FullPacket? && At(buf, 0, Encode(p))
    requires |buf| < if p.Ltp? then QUOTE_BYTES else FULL_BYTES
    ensures Decode(buf) == Meaning(p)
  {
    if p.Ltp? {
      ReadBackLtp(buf, p);
    } else {
      ReadBackHead(buf, p);
    }
  }

  lemma DecodeFull(buf: seq<Byte>, p: Packet)
    requires WellFormed(p) && p.FullPacket? && At(buf, 0, Encode(p))
    ensures Decode(buf) == Meaning(p)
  {
    ReadBackFull(buf, p);
    BestIsFirst(p.bids, Divisor(p.token));
    BestIsFirst(p.asks, Divisor(p.token));
  }

  function Encodings(fs: seq<Framed>): (es: seq<seq<Byte>>)
    requires forall i :: 0 <= i < |fs| ==> WellFramed(fs[i])
    ensures |es| == |fs| && forall i :: 0 <= i < |fs| ==> es[i] == Bytes(fs[i])
  {
    if fs == [] then [] else [Bytes(fs[0])] + Encodings(fs[1..])
  }

  /** Something a frame can carry: a packet with its length in two bytes. */
  predicate Carriable(es: seq<seq<Byte>>) {
    forall i :: 0 <= i < |es| ==> MIN_PACKET_BYTES <= |es[i]| < 0x1_0000
  }

  /** Each packet behind its length. */
  function Joined(es: seq<seq<Byte>>): seq<Byte>
    requires Carriable(es)
  {
    if es == [] then [] else Bytes16(|es[0]|) + es[0] + Joined(es[1..])
  }

  lemma AtThree(buf: seq<Byte>, at: nat, a: seq<Byte>, b: seq<Byte>, c: seq<Byte>)
    requires At(buf, at, a + b + c)
    ensures At(buf, at, a) && At(buf, at + |a|, b) && At(buf, at + |a| + |b|, c)
  {
    AtParts(buf, at, a + b, c);
    AtParts(buf, at, a, b);
  }

  /** These packets stand one behind another, each behind its length, up to `end`. */
  predicate Stand(buf: seq<Byte>, at: nat, es: seq<seq<Byte>>, end: nat)
    requires Carriable(es)
    decreases |es|
  {
    if es == [] then end == at <= |buf|
    else
      var next := at + 2 + |es[0]|;
      && next <= |buf| && U16(buf, at) == |es[0]| && buf[at + 2..next] == es[0]
      && Stand(buf, next, es[1..], end)
  }

  lemma {:induction false} JoinedStand(buf: seq<Byte>, at: nat, es: seq<seq<Byte>>)
    requires Carriable(es) && At(buf, at, Joined(es))
    ensures Stand(buf, at, es, at + |Joined(es)|)
    decreases |es|
  {
    if es != [] {
      AtThree(buf, at, Bytes16(|es[0]|), es[0], Joined(es[1..]));
      ReadBack16(buf, at, |es[0]|);
      JoinedStand(buf, at + 2 + |es[0]|, es[1..]);
    }
  }

  lemma {:induction false} SplitsBack(buf: seq<Byte>, at: nat, es: seq<seq<Byte>>, left: nat, end: nat)
    requires Carriable(es) && |es| <= left && Stand(buf, at, es, end)
    requires end <= |buf| && SplitFrom(buf, end, left - |es|) == []
    ensures at <= |buf| && SplitFrom(buf, at, left) == es
    decreases |es|
  {
    if es != [] {
      SplitsBack(buf, at + 2 + |es[0]|, es[1..], left - 1, end);
      HeadAndRest(es);
    }
  }

  lemma HeadAndRest(es: seq<seq<Byte>>)
    requires es != []
    ensures es == [es[0]] + es[1..]
  {
  }

  lemma {:induction false} DecodingMeans(fs: seq<Framed>)
    requires forall i :: 0 <= i < |fs| ==> WellFramed(fs[i])
    ensures var ticks := DecodeAll(Encodings(fs)); forall i :: 0 <= i < |fs| ==> ticks[i] == Meaning(fs[i].packet)
  {
    var es := Encodings(fs);
    forall i | 0 <= i < |fs|
      ensures DecodeAll(es)[i] == Meaning(fs[i].packet)
    {
      PacketRoundTrip(fs[i]);
      assert es[i] == Bytes(fs[i]);
    }
  }

  /** No packet can be trusted here: no length, a length beyond the bytes, or one too short for a price. */
  predicate Untrusted(bytes: seq<Byte>) {
    |bytes| < 2 || var len := bytes[0] as int * 256 + bytes[1] as int; len < 8 || len > |bytes| - 2
  }

  lemma UntrustedStops(buf: seq<Byte>, junk: seq<Byte>, at: nat, left: nat)
    requires at <= |buf| && buf[at..] == junk && (left == 0 || Untrusted(junk))
    ensures SplitFrom(buf, at, left) == []
  {
    if |junk| >= 2 {
      assert junk[0] == buf[at] && junk[1] == buf[at + 1];
    }
  }

  /** A frame splits into its packets, whatever follows the declared count or cannot be trusted. */
  lemma FrameSplits(count: Word16, es: seq<seq<Byte>>, junk: seq<Byte>)
    requires Carriable(es) && |es| <= count && (|es| == count || Untrusted(junk))
    ensures Split(Bytes16(count) + Joined(es) + junk) == es
  {
    var buf, end := Bytes16(count) + Joined(es) + junk, 2 + |Joined(es)|;
    FrameStands(buf, count, es, junk);
    UntrustedStops(buf, junk, end, count - |es|);
    SplitsBack(buf, 2, es, count, end);
  }

  lemma FrameStands(buf: seq<Byte>, count: Word16, es: seq<seq<Byte>>, junk: seq<Byte>)
    requires Carriable(es) && buf == Bytes16(count) + Joined(es) + junk
    ensures U16(buf, 0) == count && Stand(buf, 2, es, 2 + |Joined(es)|) && buf[2 + |Joined(es)|..] == junk
  {
    AtThree(buf, 0, Bytes16(count), Joined(es), junk);
    ReadBack16(buf, 0, count);
    JoinedStand(buf, 2, es);
  }

  /**
   * Parsing a frame returns exactly what its packets say, in order, and stops where the bytes cannot be
   * trusted: behind the declared count whatever follows is ignored, and within it nothing is guessed.
   */
  lemma FrameRoundTrip(count: Word16, fs: seq<Framed>, junk: seq<Byte>)
    requires |fs| <= count && forall i :: 0 <= i < |fs| ==> WellFramed(fs[i])
    requires |fs| == count || Untrusted(junk)
    ensures var ticks := Parse(Bytes16(count) + Joined(Encodings(fs)) + junk);
            |ticks| == |fs| && forall i :: 0 <= i < |fs| ==> ticks[i] == Meaning(fs[i].packet)
  {
    FrameSplits(count, Encodings(fs), junk);
    DecodingMeans(fs);
  }
}
