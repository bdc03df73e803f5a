/**
 * The walk over net.inet.tcp.pcblist_n (internal/macsync/pcblist_darwin.go): typed
 * blocks grouped by socket, a new group starting when a kind comes round again.
 */
module Pcblist {
  import opened Options
  import opened Listeners
  import opened MacHolder

  type Byte = b: int | 0 <= b < 0x100
  type Word = w: int | 0 <= w < 0x1_0000_0000

  const XSO_INPCB: Word := 0x010
  const XSO_TCPCB: Word := 0x020
  const TCPS_LISTEN := 1
  const INP_LPORT_OFF := 18
  const INP_VFLAG_OFF := 44
  const INP_LADDR_OFF := 64
  const TCP_STATE_OFF := 36

  function Le32(b: seq<Byte>, off: nat): Word
    requires off + 4 <= |b|
  {
    var b0: int, b1: int, b2: int, b3: int := b[off], b[off + 1], b[off + 2], b[off + 3];
    b0 + 0x100 * b1 + 0x1_0000 * b2 + 0x100_0000 * b3
  }

  function Be16(b: seq<Byte>, off: nat): Port
    requires off + 2 <= |b|
  {
    var hi: int, lo: int := b[off], b[off + 1];
    0x100 * hi + lo
  }

  function Be(b: seq<Byte>): (n: nat)
    ensures n < Power256(|b|)
  {
    if b == [] then 0 else Be(b[..|b| - 1]) * 0x100 + b[|b| - 1]
  }

  function Power256(n: nat): nat { if n == 0 then 1 else 0x100 * Power256(n - 1) }

  function Be32(b: seq<Byte>): Bits32
    requires |b| == 4
  {
    Be(b)
  }

  function Be128(b: seq<Byte>): Bits128
    requires |b| == 16
  {
    SixteenBytes();
    Be(b)
  }

  lemma SixteenBytes()
    ensures Power256(16) == 0x1_0000_0000_0000_0000_0000_0000_0000_0000
  {
    assert Power256(4) == 0x1_0000_0000;
    assert Power256(8) == 0x1_0000_0000_0000_0000;
    assert Power256(12) == 0x1_0000_0000_0000_0000_0000_0000;
  }

  /** The one bits of a word: u32 masks are compared and joined as sets of these. */
  function Bits(w: Word): set<nat> { set i: nat | i < 32 && Bit(w, i) }

  predicate Bit(w: nat, i: nat) { if i == 0 then w % 2 == 1 else Bit(w / 2, i - 1) }

  function Power2(n: nat): (p: nat)
    ensures p > 0
  {
    if n == 0 then 1 else 2 * Power2(n - 1)
  }

  lemma {:induction false} BitIs(w: nat, i: nat)
    ensures Bit(w, i) <==> w / Power2(i) % 2 == 1
  {
    if i > 0 {
      BitIs(w / 2, i - 1);
      DivTwice(w, Power2(i - 1));
    }
  }

  lemma DivTwice(w: nat, p: nat)
    requires p > 0
    ensures w / (2 * p) == w / 2 / p
  {
    var q, r := w / 2 / p, w / 2 % p;
    assert w == 2 * (q * p + r) + w % 2;
    assert w == q * (2 * p) + (2 * r + w % 2) && 2 * r + w % 2 < 2 * p;
    QuotientIs(w, 2 * p, q, 2 * r + w % 2);
  }

  lemma QuotientIs(w: nat, d: nat, q: nat, r: nat)
    requires w == q * d + r && r < d
    ensures w / d == q
  {
    var p := w / d;
    TimesGrows(p, q, d);
    TimesGrows(q, p, d);
    assert w == p * d + w % d;
  }

  lemma {:induction false} TimesGrows(a: nat, b: nat, d: nat)
    ensures a < b ==> a * d + d <= b * d
  {
    if a < b {
      TimesGrows(a, b - 1, d);
      assert b * d == (b - 1) * d + d;
    }
  }

  /** A mask's bits are its binary digits, all thirty-two of them. */
  lemma BitsAre(w: Word, i: nat)
    ensures i in Bits(w) <==> i < 32 && w / Power2(i) % 2 == 1
  {
    BitIs(w, i);
  }

  lemma {:induction false} OneBit(k: nat, i: nat)
    ensures Bit(Power2(k), i) <==> i == k
  {
    if k == 0 {
      if i > 0 { ZeroHasNone(i - 1); }
    } else if i > 0 {
      OneBit(k - 1, i - 1);
    }
  }

  lemma {:induction false} ZeroHasNone(i: nat)
    ensures !Bit(0, i)
  {
    if i > 0 { ZeroHasNone(i - 1); }
  }

  /** The kinds the kernel writes for one socket, socket to tcpcb: one bit each, so no two share one. */
  lemma KernelKinds(i: nat)
    ensures i in Bits(0x001) <==> i == 0
    ensures i in Bits(0x002) <==> i == 1
    ensures i in Bits(0x004) <==> i == 2
    ensures i in Bits(0x008) <==> i == 3
    ensures i in Bits(0x010) <==> i == 4
    ensures i in Bits(0x020) <==> i == 5
  {
    assert Power2(0) == 1 && Power2(1) == 2 && Power2(2) == 4 && Power2(3) == 8 && Power2(4) == 16 && Power2(5) == 32;
    OneBit(0, i);
    OneBit(1, i);
    OneBit(2, i);
    OneBit(3, i);
    OneBit(4, i);
    OneBit(5, i);
  }

  /** The padded size of a block: the least positive multiple of eight that holds `n` bytes. */
  function Padded(n: nat): (p: nat)
    ensures n <= p && 8 <= p
  {
    if n <= 8 then 8 else 8 + Padded(n - 8)
  }

  /** Longer blocks round up to zero: a walk that meets one in full never gets past it. */
  const MAX_PADDED := 0xffff_fff8

  /** The same on a uint32, where the sum that rounds up wraps for the last few lengths. */
  function Advance(n: Word): nat {
    if n <= MAX_PADDED then Padded(n) else 0
  }

  lemma {:induction false} PaddedIsRounded(n: nat)
    requires 0 < n
    ensures Padded(n) == (n + 7) / 8 * 8
  {
    if 8 < n {
      PaddedIsRounded(n - 8);
    }
  }

  /** As a uint32 has it: the sum that rounds up wraps, and the low three bits are cleared. */
  lemma AdvanceIs(n: Word)
    ensures Advance(n) == if n == 0 then 8 else (n + 7) % 0x1_0000_0000 / 8 * 8
  {
    if n != 0 {
      PaddedIsRounded(n);
    }
  }

  method RoundUp8(n: Word) returns (r: nat)
    ensures r == Advance(n)
  {
    if n == 0 {
      return 8;
    }
    PaddedIsRounded(n);
    var sum: Word := (n + 7) % 0x1_0000_0000;
    return sum - sum % 8;
  }

  datatype Error = ShortRead | Truncated

  /** Spins: the walk never ends, for the offset stops moving. */
  datatype Result = Ok(listeners: seq<MacListener>) | Err(error: Error) | Spins

  function ListenerFrom(inp: seq<Byte>, tcp: seq<Byte>): Option<MacListener> {
    if |inp| < INP_LADDR_OFF + 16 || |tcp| < TCP_STATE_OFF + 4 then None
    else if Le32(tcp, TCP_STATE_OFF) != TCPS_LISTEN then None
    else
      var port := Be16(inp, INP_LPORT_OFF);
      var vflag := inp[INP_VFLAG_OFF];
      if vflag / 2 % 2 == 1
      then Some(MacListener("tcp", port, V6(Be128(inp[INP_LADDR_OFF..INP_LADDR_OFF + 16])), vflag % 2 == 0))
      else Some(MacListener("tcp", port, V4(Be32(inp[INP_LADDR_OFF + 12..INP_LADDR_OFF + 16])), false))
  }

  /** A typed block, its eight bytes of length and kind included. */
  datatype Block = Block(kind: Word, bytes: seq<Byte>)

  /** How a walk ends: at the trailer, off the buffer's edge, or at a block it cannot step over. */
  datatype Ending = Trailer | Edge | Stuck

  /** The blocks the walk steps over, and how it ends. */
  datatype Reading = Reading(blocks: seq<Block>, ending: Ending) {
    function After(block: Block): Reading { Reading([block] + blocks, ending) }
  }

  /** A block at `off`, there in full and longer than the header. */
  predicate HasBlock(b: seq<Byte>, off: nat, xigLen: Word) {
    off + 8 <= |b| && xigLen < Le32(b, off) <= |b| - off
  }

  /** Its length word, four bytes at `off`, exceeds the header's and does not run past the buffer. */
  lemma BlockIsThere(b: seq<Byte>, off: nat, xigLen: Word)
    ensures HasBlock(b, off, xigLen) <==>
            off + 8 <= |b| && Le32(b, off) >= xigLen + 1 && off + Le32(b, off) <= |b|
    ensures HasBlock(b, off, xigLen) ==>
              var block := BlockAt(b, off, xigLen);
              |block.bytes| == Le32(b, off) && block.kind == Le32(b, off + 4) && block.bytes == b[off..][..|block.bytes|]
  {
  }

  function BlockAt(b: seq<Byte>, off: nat, xigLen: Word): Block
    requires HasBlock(b, off, xigLen)
  {
    Block(Le32(b, off + 4), b[off..off + Le32(b, off)])
  }

  function Read(b: seq<Byte>, off: nat, xigLen: Word): Reading
    decreases |b| - off
  {
    if !HasBlock(b, off, xigLen) then
      Reading([], if off + 8 <= |b| && Le32(b, off) <= xigLen then Trailer else Edge)
    else if Le32(b, off) > MAX_PADDED then Reading([], Stuck)
    else Read(b, off + Padded(Le32(b, off)), xigLen).After(BlockAt(b, off, xigLen))
  }

  /** The listeners found so far and the group being collected: kinds seen, the two blocks that matter. */
  datatype Scan = Scan(out: seq<MacListener>, seen: set<nat>, inp: seq<Byte>, tcp: seq<Byte>) {
    function Flush(): Scan {
      Scan(match ListenerFrom(inp, tcp) case Some(l) => out + [l] case None => out, {}, [], [])
    }

    /** A kind coming round again starts the next socket's group. */
    predicate Saw(kind: Word) { !(seen !! Bits(kind)) }

    function Take(block: Block): Scan {
      Scan(out, seen + Bits(block.kind),
           if block.kind == XSO_INPCB then block.bytes else inp,
           if block.kind == XSO_TCPCB then block.bytes else tcp)
    }

    function Step(block: Block): Scan {
      (if Saw(block.kind) then Flush() else this).Take(block)
    }
  }

  const START := Scan([], {}, [], [])

  function Gather(blocks: seq<Block>): Scan {
    if blocks == [] then START else Gather(blocks[..|blocks| - 1]).Step(blocks[|blocks| - 1])
  }

  /** A walk that ran off the end is torn, unless the header counts no pcbs and no trailer is owed. */
  function Outcome(reading: Reading, count: Word): Result {
    if reading.ending.Stuck? then Spins
    else if reading.ending.Edge? && count != 0 then Err(Truncated)
    else Ok(Gather(reading.blocks).Flush().out)
  }

  function Parse(b: seq<Byte>): Result {
    if |b| < 24 then Err(ShortRead)
    else
      Outcome(Read(b, Advance(Le32(b, 0)), Le32(b, 0)), Le32(b, 4))
  }

  method ParsePcblistN(b: seq<Byte>) returns (r: Result)
    ensures r == Parse(b)
  {
    if |b| < 24 {
      return Err(ShortRead);
    }
    var xigLen, xigCount := Le32(b, 0), Le32(b, 4);
    var scan := START;
    var terminated := false;
    var off := RoundUp8(xigLen);
    ghost var all := Read(b, off, xigLen);
    ghost var done: seq<Block> := [];
    while off + 8 <= |b|
      invariant !terminated && all == Remaining(b, off, xigLen, done)
      invariant scan == Gather(done)
      decreases |b| - off
    {
      var blen := Le32(b, off);
      if blen <= xigLen {
        terminated := true;
        break;
      }
      var end := off + blen;
      if end > |b| {
        break;
      }
      var block := Block(Le32(b, off + 4), b[off..end]);
      scan := TakeBlock(scan, block);
      var step := RoundUp8(blen);
      if step == 0 {
        StuckThere(b, off, xigLen, done);
        return Spins;
      }
      WalkOn(b, off, step, xigLen, done, block);
      off, done := off + step, done + [block];
    }
    ReadEnds(b, off, xigLen, done);
    if !terminated && xigCount != 0 {
      return Err(Truncated);
    }
    scan := FlushGroup(scan);
    return Ok(scan.out);
  }

  /** With `done` taken and the walk at `off`, the whole reading: `done`, then what is read from there. */
  ghost function Remaining(b: seq<Byte>, off: nat, xigLen: Word, done: seq<Block>): Reading {
    Reading(done + Read(b, off, xigLen).blocks, Read(b, off, xigLen).ending)
  }

  lemma ReadStep(b: seq<Byte>, off: nat, next: nat, xigLen: Word, block: Block)
    requires HasBlock(b, off, xigLen) && Le32(b, off) <= MAX_PADDED
    requires next == off + Padded(Le32(b, off)) && block == BlockAt(b, off, xigLen)
    ensures Read(b, off, xigLen) == Read(b, next, xigLen).After(block)
  {
  }

  lemma WalkOn(b: seq<Byte>, off: nat, step: nat, xigLen: Word, done: seq<Block>, block: Block)
    requires HasBlock(b, off, xigLen) && block == BlockAt(b, off, xigLen)
    requires step == Advance(Le32(b, off)) && step != 0
    ensures Remaining(b, off + step, xigLen, done + [block]) == Remaining(b, off, xigLen, done)
    ensures Gather(done + [block]) == Gather(done).Step(block)
  {
    Gathered(done, block);
  }

  lemma Gathered(done: seq<Block>, block: Block)
    ensures Gather(done + [block]) == Gather(done).Step(block)
  {
  }

  lemma StuckThere(b: seq<Byte>, off: nat, xigLen: Word, done: seq<Block>)
    requires HasBlock(b, off, xigLen) && Le32(b, off) > MAX_PADDED
    ensures Remaining(b, off, xigLen, done) == Reading(done, Stuck)
  {
    assert done + [] == done;
  }

  lemma ReadEnds(b: seq<Byte>, off: nat, xigLen: Word, done: seq<Block>)
    requires !HasBlock(b, off, xigLen)
    ensures Remaining(b, off, xigLen, done) ==
            Reading(done, if off + 8 <= |b| && Le32(b, off) <= xigLen then Trailer else Edge)
  {
  }

  /** Stepping from `off` over whole blocks, by their padded lengths, comes by `at`. */
  predicate Reaches(b: seq<Byte>, off: nat, xigLen: Word, at: nat)
    decreases |b| - off
  {
    || off == at
    || (HasBlock(b, off, xigLen) && Le32(b, off) <= MAX_PADDED && Reaches(b, off + Padded(Le32(b, off)), xigLen, at))
  }

  /** A block at `at`, there in full, whose length pads to zero. */
  predicate SticksAt(b: seq<Byte>, xigLen: Word, at: nat) {
    HasBlock(b, at, xigLen) && Le32(b, at) > MAX_PADDED
  }

  lemma {:induction false} StuckExactly(b: seq<Byte>, off: nat, xigLen: Word)
    ensures Read(b, off, xigLen).ending.Stuck? <==> exists at: nat :: Reaches(b, off, xigLen, at) && SticksAt(b, xigLen, at)
    decreases |b| - off
  {
    if SticksAt(b, xigLen, off) {
      assert Reaches(b, off, xigLen, off);
    } else if HasBlock(b, off, xigLen) {
      var next := off + Padded(Le32(b, off));
      StuckExactly(b, next, xigLen);
      forall at: nat | SticksAt(b, xigLen, at) ensures Reaches(b, off, xigLen, at) <==> Reaches(b, next, xigLen, at) {
      }
    }
  }

  /** The walk never ends exactly when it comes by a block, there in full, whose length pads to zero. */
  lemma SpinsExactly(b: seq<Byte>)
    ensures Parse(b) == Spins <==>
            && 24 <= |b|
            && exists at: nat :: Reaches(b, Advance(Le32(b, 0)), Le32(b, 0), at) && SticksAt(b, Le32(b, 0), at)
  {
    if 24 <= |b| {
      StuckExactly(b, Advance(Le32(b, 0)), Le32(b, 0));
    }
  }

  /** So it comes to an end on every buffer of at most MAX_PADDED bytes. */
  lemma ParseEnds(b: seq<Byte>)
    requires |b| <= MAX_PADDED
    ensures Parse(b) != Spins
  {
    SpinsExactly(b);
  }

  /** And on a longer one it may not: the first block's length pads to zero. */
  lemma SpinHappens() returns (b: seq<Byte>)
    ensures |b| == 24 + 0xffff_ffff && Parse(b) == Spins
  {
    b := [24, 0, 0, 0, 1, 0, 0, 0] + seq(16, _ => 0) + seq(0xffff_ffff, i => if i < 4 then 0xff else 0);
    assert Le32(b, 0) == 24 && Le32(b, 24) == 0xffff_ffff;
    assert Advance(24) == 24;
    StuckThere(b, 24, 24, []);
  }

  method FlushGroup(scan: Scan) returns (scan': Scan)
    ensures scan' == scan.Flush()
  {
    scan' := scan;
    var found := ListenerFrom(scan.inp, scan.tcp);
    if found.Some? {
      scan' := scan'.(out := scan'.out + [found.value]);
    }
    scan' := scan'.(seen := {}, inp := [], tcp := []);
  }

  /** The loop body's bookkeeping for one whole block. */
  method TakeBlock(scan: Scan, block: Block) returns (scan': Scan)
    ensures scan' == scan.Step(block)
  {
    scan' := scan;
    if scan.Saw(block.kind) {
      scan' := FlushGroup(scan);
    }
    scan' := scan'.(seen := scan'.seen + Bits(block.kind));
    if block.kind == XSO_INPCB {
      scan' := scan'.(inp := block.bytes);
    } else if block.kind == XSO_TCPCB {
      scan' := scan'.(tcp := block.bytes);
    }
  }
}
