/**
 * What the kernel writes for net.inet.tcp.pcblist_n, and what the walk makes of it and of
 * every prefix of it.
 */
module PcblistEmission {
  import opened Options
  import opened Listeners
  import opened MacHolder
  import opened Pcblist

  const XIG_LEN: Word := 24

  // ---- writing ----------------------------------------------------------

  function Enc32(w: Word): (b: seq<Byte>)
    ensures |b| == 4
  {
    [w % 0x100, w / 0x100 % 0x100, w / 0x1_0000 % 0x100, w / 0x100_0000]
  }

  lemma Enc32RoundTrip(w: Word)
    ensures Le32(Enc32(w), 0) == w
  {
    assert w / 0x100 / 0x100 == w / 0x1_0000 && w / 0x1_0000 / 0x100 == w / 0x100_0000;
  }

  /** A block as the kernel has it: its kind, and what follows the eight bytes of length and kind. */
  datatype Item = Item(kind: Word, body: seq<Byte>) {
    /** Longer than the header, or it would read as the trailer. */
    predicate Valid() { XIG_LEN < 8 + |body| <= MAX_PADDED }

    function Written(): Block
      requires Valid()
    {
      Block(kind, Enc32(8 + |body|) + Enc32(kind) + body)
    }

    function Emit(): seq<Byte>
      requires Valid()
    {
      Written().bytes + seq(Padded(8 + |body|) - 8 - |body|, i => 0)
    }
  }

  predicate AllValid(items: seq<Item>) { forall i :: 0 <= i < |items| ==> items[i].Valid() }

  function EmitAll(items: seq<Item>): seq<Byte>
    requires AllValid(items)
  {
    if items == [] then [] else items[0].Emit() + EmitAll(items[1..])
  }

  function Blocks(items: seq<Item>): (b: seq<Block>)
    requires AllValid(items)
    ensures |b| == |items|
  {
    if items == [] then [] else [items[0].Written()] + Blocks(items[1..])
  }

  /** A struct xinpgen: its length, the pcb count, sixteen bytes of generation numbers. */
  datatype Xinpgen = Xinpgen(count: Word, gens: seq<Byte>) {
    predicate Valid() { |gens| == 16 }

    function Emit(): (b: seq<Byte>)
      requires Valid()
      ensures |b| == XIG_LEN
    {
      Enc32(XIG_LEN) + Enc32(count) + gens
    }
  }

  // ---- reading it back -----------------------------------------------------

  lemma LeIsLocal(a: seq<Byte>, off: nat, b: seq<Byte>)
    requires off + 4 <= |b| && |b| <= |a| && a[..|b|] == b
    ensures Le32(a, off) == Le32(b, off)
  {
  }

  /** The first words of a written block, as seen at the front of any buffer reaching that far. */
  lemma FrontWords(item: Item, rest: seq<Byte>)
    requires item.Valid() && 8 <= |rest|
    requires forall k | 0 <= k < 8 :: rest[k] == item.Written().bytes[k]
    ensures Le32(rest, 0) == 8 + |item.body| && Le32(rest, 4) == item.kind
  {
    Enc32RoundTrip(8 + |item.body|);
    Enc32RoundTrip(item.kind);
  }

  /** A cut anywhere in `item`'s bytes leaves no block; any later cut gives it whole. */
  lemma FrontOfEmission(item: Item, more: seq<Byte>, n: nat)
    requires item.Valid() && n <= |item.Emit() + more|
    ensures var rest, len := (item.Emit() + more)[..n], 8 + |item.body|;
            && (n < len ==> Read(rest, 0, XIG_LEN) == Reading([], Edge))
            && (len <= n ==> HasBlock(rest, 0, XIG_LEN) && Le32(rest, 0) == len && BlockAt(rest, 0, XIG_LEN) == item.Written())
  {
    var rest, len := (item.Emit() + more)[..n], 8 + |item.body|;
    if 8 <= n {
      FrontWords(item, rest);
      if len <= n {
        assert rest[..len] == item.Written().bytes;
      }
    }
  }

  lemma BlockDrop(b: seq<Byte>, k: nat, off: nat, xigLen: Word)
    requires k <= |b|
    ensures k + off + 8 <= |b| ==> Le32(b[k..], off) == Le32(b, k + off)
    ensures HasBlock(b[k..], off, xigLen) == HasBlock(b, k + off, xigLen)
    ensures HasBlock(b, k + off, xigLen) ==> BlockAt(b[k..], off, xigLen) == BlockAt(b, k + off, xigLen)
  {
  }

  /** Reading from an offset is reading what is left from there. */
  lemma {:induction false} ReadDrop(b: seq<Byte>, k: nat, off: nat, xigLen: Word)
    requires k <= |b|
    ensures Read(b, k + off, xigLen) == Read(b[k..], off, xigLen)
    decreases |b| - off
  {
    BlockDrop(b, k, off, xigLen);
    if HasBlock(b, k + off, xigLen) && Le32(b, k + off) <= MAX_PADDED {
      var next := off + Padded(Le32(b, k + off));
      ReadDrop(b, k, next, xigLen);
      ReadStep(b, k + off, k + next, xigLen, BlockAt(b, k + off, xigLen));
      ReadStep(b[k..], off, next, xigLen, BlockAt(b, k + off, xigLen));
    }
  }

  /** What a reader makes of the emission cut after `n` bytes: everything, or no trailer. */
  predicate ReadsAs(reading: Reading, n: nat, size: nat, blocks: seq<Block>) {
    && (size + 8 <= n ==> reading == Reading(blocks, Trailer))
    && (n < size + 8 ==> reading.ending.Edge?)
  }

  lemma ReadTrailer(trailer: Xinpgen, n: nat)
    requires trailer.Valid() && n <= XIG_LEN
    ensures ReadsAs(Read(trailer.Emit()[..n], 0, XIG_LEN), n, 0, [])
  {
  }

  /** One block in front of a reading moves the cut it needs by the block's padded length. */
  lemma ReadsOneMore(later: Reading, n: nat, step: nat, size: nat, block: Block, blocks: seq<Block>)
    requires step <= n && ReadsAs(later, n - step, size, blocks)
    ensures ReadsAs(later.After(block), n, step + size, [block] + blocks)
  {
  }

  lemma ReadItem(item: Item, more: seq<Byte>, n: nat, size: nat, blocks: seq<Block>)
    requires item.Valid() && n <= |item.Emit() + more|
    requires |item.Emit()| <= n ==> ReadsAs(Read(more[..n - |item.Emit()|], 0, XIG_LEN), n - |item.Emit()|, size, blocks)
    ensures ReadsAs(Read((item.Emit() + more)[..n], 0, XIG_LEN), n, |item.Emit()| + size, [item.Written()] + blocks)
  {
    FrontOfEmission(item, more, n);
    if 8 + |item.body| <= n {
      var rest, step := (item.Emit() + more)[..n], |item.Emit()|;
      ReadStep(rest, 0, step, XIG_LEN, item.Written());
      if step <= n {
        ReadRest(rest, step, more[..n - step]);
        ReadsOneMore(Read(rest, step, XIG_LEN), n, step, size, item.Written(), blocks);
      }
    }
  }

  lemma ReadRest(rest: seq<Byte>, step: nat, more: seq<Byte>)
    requires step <= |rest| && rest[step..] == more
    ensures Read(rest, step, XIG_LEN) == Read(more, 0, XIG_LEN)
  {
    ReadDrop(rest, step, 0, XIG_LEN);
  }

  lemma {:induction false} ReadEmission(items: seq<Item>, trailer: Xinpgen, n: nat)
    requires AllValid(items) && trailer.Valid() && n <= |EmitAll(items)| + XIG_LEN
    ensures ReadsAs(Read((EmitAll(items) + trailer.Emit())[..n], 0, XIG_LEN), n, |EmitAll(items)|, Blocks(items))
  {
    if items == [] {
      assert EmitAll(items) + trailer.Emit() == trailer.Emit();
      ReadTrailer(trailer, n);
    } else {
      var item, more := items[0], EmitAll(items[1..]) + trailer.Emit();
      assert EmitAll(items) + trailer.Emit() == item.Emit() + more;
      if |item.Emit()| <= n {
        ReadEmission(items[1..], trailer, n - |item.Emit()|);
      }
      ReadItem(item, more, n, |EmitAll(items[1..])|, Blocks(items[1..]));
    }
  }

  // ---- grouping ---------------------------------------------------------------

  lemma {:induction false} NonZeroHasBit(w: nat, width: nat) returns (i: nat)
    requires 0 < w < Power2(width)
    ensures i < width && Bit(w, i)
  {
    if w % 2 == 1 {
      i := 0;
    } else {
      var j := NonZeroHasBit(w / 2, width - 1);
      i := j + 1;
    }
  }

  /** One socket's blocks: opened by `first`, and no two kinds sharing a bit. */
  predicate IsGroup(g: seq<Block>, first: Word) {
    && g != [] && g[0].kind == first
    && forall i, j :: 0 <= i < j < |g| ==> Bits(g[i].kind) !! Bits(g[j].kind)
  }

  /** The bytes of a group's block of that kind. */
  function Body(g: seq<Block>, kind: Word): seq<Byte> {
    if g == [] then []
    else if g[|g| - 1].kind == kind then g[|g| - 1].bytes
    else Body(g[..|g| - 1], kind)
  }

  function ListenerOf(g: seq<Block>): Option<MacListener> {
    ListenerFrom(Body(g, XSO_INPCB), Body(g, XSO_TCPCB))
  }

  function Kinds(g: seq<Block>): set<nat> {
    if g == [] then {} else Kinds(g[..|g| - 1]) + Bits(g[|g| - 1].kind)
  }

  lemma {:induction false} KindIn(g: seq<Block>, i: nat)
    requires i < |g|
    ensures Bits(g[i].kind) <= Kinds(g)
  {
    if i < |g| - 1 {
      KindIn(g[..|g| - 1], i);
    }
  }

  lemma {:induction false} KindsApart(g: seq<Block>, k: nat, bits: set<nat>)
    requires k <= |g| && forall i :: 0 <= i < k ==> Bits(g[i].kind) !! bits
    ensures Kinds(g[..k]) !! bits
  {
    if k > 0 {
      assert g[..k][..k - 1] == g[..k - 1];
      KindsApart(g, k - 1, bits);
    }
  }

  /** The scan of a group's blocks alone, on top of the listeners found before it. */
  function GroupScan(out: seq<MacListener>, g: seq<Block>): Scan {
    Scan(out, Kinds(g), Body(g, XSO_INPCB), Body(g, XSO_TCPCB))
  }

  lemma GroupScanStep(out: seq<MacListener>, g: seq<Block>, k: nat)
    requires 0 < k < |g| && forall i :: 0 <= i < k ==> Bits(g[i].kind) !! Bits(g[k].kind)
    ensures GroupScan(out, g[..k]).Step(g[k]) == GroupScan(out, g[..k + 1])
  {
    KindsApart(g, k, Bits(g[k].kind));
    assert g[..k + 1][..k] == g[..k];
  }

  lemma OpensGroup(before: Scan, block: Block)
    requires before.Saw(block.kind) || before == START
    ensures before.Step(block) == GroupScan(before.Flush().out, [block])
  {
    var g := [block];
    assert g[..0] == [] && Kinds(g) == Kinds([]) + Bits(block.kind);
    assert Body(g, XSO_INPCB) == (if block.kind == XSO_INPCB then block.bytes else Body([], XSO_INPCB));
    assert Body(g, XSO_TCPCB) == (if block.kind == XSO_TCPCB then block.bytes else Body([], XSO_TCPCB));
    assert START.Flush() == START;
  }

  /** The scan once `k` blocks of a group that opened after `done` are in. */
  lemma {:induction false} GatherGroup(done: seq<Block>, g: seq<Block>, first: Word, k: nat)
    requires IsGroup(g, first) && 0 < k <= |g|
    requires Gather(done).Saw(first) || done == []
    ensures Gather(done + g[..k]) == GroupScan(Gather(done).Flush().out, g[..k])
  {
    assert done + g[..k] == (done + g[..k - 1]) + [g[k - 1]];
    Gathered(done + g[..k - 1], g[k - 1]);
    if k == 1 {
      assert done + g[..0] == done && g[..1] == [g[0]];
      OpensGroup(Gather(done), g[0]);
    } else {
      GatherGroup(done, g, first, k - 1);
      GroupScanStep(Gather(done).Flush().out, g, k - 1);
    }
  }

  // ---- the sockets -------------------------------------------------------------

  /**
   * What the walk is after: one TCP socket's fields, as xinpcb_n and xtcpcb_n carry them. An
   * IPv4 address is the last four of the address field's sixteen bytes, behind `pad`.
   */
  datatype Socket = Socket(lport: Port, vflag: Byte, addr: Addr, pad: seq<Byte>, state: Word) {
    /** Bit 1 of vflag is INP_IPV6. */
    predicate Valid() { |pad| == 12 && (vflag / 2 % 2 == 1 <==> addr.V6?) }

    /** The field as the kernel has it, in network order. */
    function Laddr(): (b: seq<Byte>)
      requires Valid()
      ensures |b| == 16
    {
      match addr
      case V6(bits) => EncBe(bits, 16)
      case V4(ip) => pad + Quad(ip)
    }

    /** The listener it is: in LISTEN, state 1, and v6-only when bit 0 of vflag, INP_IPV4, is off. */
    function Listener(): Option<MacListener> {
      if state != 1 then None else Some(MacListener("tcp", lport, addr, addr.V6? && vflag % 2 == 0))
    }
  }

  function Enc16(w: Port): (b: seq<Byte>) ensures |b| == 2 { [w / 0x100, w % 0x100] }

  /** The four bytes of a dotted quad, first to last. */
  function Quad(ip: Bits32): (b: seq<Byte>)
    ensures |b| == 4
  {
    [ip / 0x100_0000, ip / 0x1_0000 % 0x100, ip / 0x100 % 0x100, ip % 0x100]
  }

  /** `n` in `len` bytes, the highest first. */
  function EncBe(n: nat, len: nat): (b: seq<Byte>)
    ensures |b| == len
  {
    if len == 0 then [] else EncBe(n / 0x100, len - 1) + [n % 0x100]
  }

  lemma {:induction false} EncBeRoundTrip(n: nat, len: nat)
    requires n < Power256(len)
    ensures Be(EncBe(n, len)) == n
  {
    if len > 0 {
      EncBeRoundTrip(n / 0x100, len - 1);
      assert EncBe(n, len)[..len - 1] == EncBe(n / 0x100, len - 1);
    }
  }

  /** Dotted quads: the first byte is the highest. */
  lemma BeOfFour(b: seq<Byte>)
    requires |b| == 4
    ensures Be32(b) == 0x100_0000 * b[0] as int + 0x1_0000 * b[1] as int + 0x100 * b[2] as int + b[3]
  {
    assert b[..1][..0] == b[..0] && b[..2][..1] == b[..1] && b[..3][..2] == b[..2];
    assert Be(b[..1]) == b[0] && Be(b[..2]) == 0x100 * b[0] as int + b[1];
    assert Be(b[..3]) == 0x100 * Be(b[..2]) + b[2];
    assert Be(b) == 0x100 * Be(b[..3]) + b[3];
  }

  lemma QuadReads(ip: Bits32)
    ensures Be32(Quad(ip)) == ip
  {
    BeOfFour(Quad(ip));
    assert ip / 0x100 / 0x100 == ip / 0x1_0000 && ip / 0x1_0000 / 0x100 == ip / 0x100_0000;
  }

  lemma SixteenRead(bits: Bits128)
    ensures Be128(EncBe(bits, 16)) == bits
  {
    SixteenBytes();
    EncBeRoundTrip(bits, 16);
  }

  /** Read back as the walk reads it, the field is the address. */
  lemma LaddrReads(s: Socket)
    requires s.Valid()
    ensures s.addr == if s.vflag / 2 % 2 == 1 then V6(Be128(s.Laddr())) else V4(Be32(s.Laddr()[12..]))
  {
    match s.addr
    case V6(bits) => SixteenRead(bits);
    case V4(ip) =>
      QuadReads(ip);
      assert s.Laddr()[12..] == Quad(ip);
  }

  /** struct xinpcb_n after its kind; `fill` holds the fields nothing here reads. */
  function Inpcb(s: Socket, fill: seq<Byte>): Item
    requires s.Valid() && |fill| >= 53
  {
    Item(0x10, fill[..10] + Enc16(s.lport) + fill[10..34] + [s.vflag] + fill[34..53] + s.Laddr() + fill[53..])
  }

  /** struct xtcpcb_n after its kind. */
  function Tcpcb(s: Socket, fill: seq<Byte>): Item
    requires |fill| >= 28
  {
    Item(0x20, fill[..28] + Enc32(s.state) + fill[28..])
  }

  /** One socket's blocks as the kernel groups them: some opener, then the rest, in any order. */
  datatype Group = Group(items: seq<Item>, socket: Socket, inpFill: seq<Byte>, tcpFill: seq<Byte>) {
    ghost predicate Valid(first: Word) {
      && socket.Valid() && |inpFill| >= 53 && |tcpFill| >= 28
      && AllValid(items) && items != [] && items[0].kind == first
      && (forall i, j :: 0 <= i < j < |items| ==> Bits(items[i].kind) !! Bits(items[j].kind))
      && Inpcb(socket, inpFill) in items && Tcpcb(socket, tcpFill) in items
    }
  }

  lemma InpcbFields(s: Socket, fill: seq<Byte>)
    requires s.Valid() && |fill| >= 53 && Inpcb(s, fill).Valid()
    ensures var b := Inpcb(s, fill).Written().bytes;
            && |b| >= INP_LADDR_OFF + 16
            && Be16(b, INP_LPORT_OFF) == s.lport
            && b[INP_VFLAG_OFF] == s.vflag
            && b[INP_LADDR_OFF..INP_LADDR_OFF + 16] == s.Laddr()
            && b[INP_LADDR_OFF + 12..INP_LADDR_OFF + 16] == s.Laddr()[12..]
  {
  }

  lemma TcpcbFields(s: Socket, fill: seq<Byte>)
    requires |fill| >= 28 && Tcpcb(s, fill).Valid()
    ensures var b := Tcpcb(s, fill).Written().bytes;
            |b| >= TCP_STATE_OFF + 4 && Le32(b, TCP_STATE_OFF) == s.state
  {
    var b, enc := Tcpcb(s, fill).Written().bytes, Enc32(s.state);
    assert b[36] == enc[0] && b[37] == enc[1] && b[38] == enc[2] && b[39] == enc[3];
    Enc32RoundTrip(s.state);
  }

  lemma {:induction false} BlocksAt(items: seq<Item>, i: nat)
    requires AllValid(items) && i < |items|
    ensures Blocks(items)[i] == items[i].Written()
  {
    if i > 0 {
      BlocksAt(items[1..], i - 1);
    }
  }

  lemma {:induction false} BodyAt(g: seq<Block>, kind: Word, i: nat)
    requires i < |g| && g[i].kind == kind
    requires forall j :: i < j < |g| ==> g[j].kind != kind
    ensures Body(g, kind) == g[i].bytes
  {
    if i < |g| - 1 {
      BodyAt(g[..|g| - 1], kind, i);
    }
  }

  lemma SharedKind(g: seq<Block>, first: Word, i: nat, j: nat, bit: nat)
    requires IsGroup(g, first) && i < j < |g| && bit in Bits(g[i].kind)
    ensures g[j].kind != g[i].kind
  {
  }

  lemma BitsOfPcbs()
    ensures 4 in Bits(XSO_INPCB) && 5 in Bits(XSO_TCPCB)
  {
  }

  lemma BlocksAreGroup(items: seq<Item>, first: Word)
    requires AllValid(items) && items != [] && items[0].kind == first
    requires forall i, j :: 0 <= i < j < |items| ==> Bits(items[i].kind) !! Bits(items[j].kind)
    ensures IsGroup(Blocks(items), first)
  {
    forall i | 0 <= i < |items| ensures Blocks(items)[i].kind == items[i].kind {
      BlocksAt(items, i);
    }
  }

  /** The body found for a kind is the item of that kind, wherever in the group it stands. */
  lemma BodyOf(items: seq<Item>, first: Word, item: Item, bit: nat)
    requires AllValid(items) && item in items && bit in Bits(item.kind)
    requires IsGroup(Blocks(items), first)
    ensures Body(Blocks(items), item.kind) == item.Written().bytes
  {
    var i :| 0 <= i < |items| && items[i] == item;
    var g := Blocks(items);
    BlocksAt(items, i);
    forall j | i < j < |g| ensures g[j].kind != item.kind {
      SharedKind(g, first, i, j, bit);
    }
    BodyAt(g, item.kind, i);
  }

  /** A group lists exactly its socket, and only when the socket is in LISTEN. */
  lemma GroupListens(g: Group, first: Word)
    requires g.Valid(first)
    ensures IsGroup(Blocks(g.items), first) && ListenerOf(Blocks(g.items)) == g.socket.Listener()
  {
    var inp, tcp := Inpcb(g.socket, g.inpFill), Tcpcb(g.socket, g.tcpFill);
    BlocksAreGroup(g.items, first);
    BitsOfPcbs();
    BodyOf(g.items, first, inp, 4);
    BodyOf(g.items, first, tcp, 5);
    InpcbFields(g.socket, g.inpFill);
    TcpcbFields(g.socket, g.tcpFill);
    LaddrReads(g.socket);
  }

  // ---- the whole reply -----------------------------------------------------------

  function Emission(header: Xinpgen, items: seq<Item>, trailer: Xinpgen): seq<Byte>
    requires header.Valid() && trailer.Valid() && AllValid(items)
  {
    header.Emit() + EmitAll(items) + trailer.Emit()
  }

  function AllItems(groups: seq<Group>): seq<Item> {
    if groups == [] then [] else AllItems(groups[..|groups| - 1]) + groups[|groups| - 1].items
  }

  ghost predicate AllGroups(groups: seq<Group>, first: Word) {
    first != 0 && forall i :: 0 <= i < |groups| ==> groups[i].Valid(first)
  }

  /** The LISTEN sockets, in the order the kernel wrote them. */
  ghost function ListenSockets(groups: seq<Group>, first: Word): seq<MacListener>
    requires AllGroups(groups, first)
  {
    if groups == [] then []
    else
      var before := ListenSockets(groups[..|groups| - 1], first);
      match groups[|groups| - 1].socket.Listener()
      case Some(l) => before + [l]
      case None => before
  }

  lemma {:induction false} AllItemsValid(groups: seq<Group>, first: Word)
    requires AllGroups(groups, first)
    ensures AllValid(AllItems(groups))
  {
    if groups != [] {
      AllItemsValid(groups[..|groups| - 1], first);
    }
  }

  lemma BlocksJoin(a: seq<Item>, b: seq<Item>)
    requires AllValid(a) && AllValid(b) && AllValid(a + b)
    ensures Blocks(a + b) == Blocks(a) + Blocks(b)
  {
    forall i | 0 <= i < |a + b| ensures Blocks(a + b)[i] == (Blocks(a) + Blocks(b))[i] {
      BlocksAt(a + b, i);
      if i < |a| { BlocksAt(a, i); } else { BlocksAt(b, i - |a|); }
    }
  }

  lemma {:induction false} GatherAll(groups: seq<Group>, first: Word)
    requires AllGroups(groups, first) && AllValid(AllItems(groups))
    ensures Gather(Blocks(AllItems(groups))).Flush().out == ListenSockets(groups, first)
    ensures groups == [] || Gather(Blocks(AllItems(groups))).Saw(first)
  {
    if groups != [] {
      var init, g := groups[..|groups| - 1], groups[|groups| - 1];
      AllItemsValid(init, first);
      GatherAll(init, first);
      GroupListens(g, first);
      BlocksJoin(AllItems(init), g.items);
      OneMoreGroup(Blocks(AllItems(init)), Blocks(g.items), first);
    }
  }

  lemma OneMoreGroup(done: seq<Block>, g: seq<Block>, first: Word)
    requires IsGroup(g, first) && first != 0 && (Gather(done).Saw(first) || done == [])
    ensures Gather(done + g).Saw(first)
    ensures Gather(done + g).Flush().out == Gather(done).Flush().out + (if ListenerOf(g).Some? then [ListenerOf(g).value] else [])
  {
    assert g[..|g|] == g;
    GatherGroup(done, g, first, |g|);
    SawFirst(g, first);
  }

  lemma SawFirst(g: seq<Block>, first: Word)
    requires IsGroup(g, first) && first != 0
    ensures !(Kinds(g) !! Bits(first))
  {
    KindIn(g, 0);
    assert Power2(32) == 0x1_0000_0000 by {
      assert Power2(8) == 0x100 && Power2(16) == 0x1_0000 && Power2(24) == 0x100_0000;
    }
    var i := NonZeroHasBit(first, 32);
    assert i in Bits(first) && i in Kinds(g);
  }

  lemma ParseCut(header: Xinpgen, items: seq<Item>, trailer: Xinpgen, n: nat) returns (reading: Reading)
    requires header.Valid() && trailer.Valid() && AllValid(items)
    requires XIG_LEN <= n <= |Emission(header, items, trailer)|
    ensures Parse(Emission(header, items, trailer)[..n]) == Outcome(reading, header.count)
    ensures ReadsAs(reading, n - XIG_LEN, |EmitAll(items)|, Blocks(items))
  {
    var rest := (EmitAll(items) + trailer.Emit())[..n - XIG_LEN];
    CutsAfter(header.Emit(), EmitAll(items), trailer.Emit(), n);
    CutHeader(header, rest, Emission(header, items, trailer)[..n]);
    ReadEmission(items, trailer, n - XIG_LEN);
    reading := Read(rest, 0, XIG_LEN);
  }

  lemma CutsAfter(a: seq<Byte>, b: seq<Byte>, c: seq<Byte>, n: nat)
    requires |a| <= n <= |a + b + c|
    ensures (a + b + c)[..n] == a + (b + c)[..n - |a|]
  {
  }

  /** The header's words, and where the walk starts after them. */
  lemma CutHeader(header: Xinpgen, rest: seq<Byte>, cut: seq<Byte>)
    requires header.Valid() && cut == header.Emit() + rest
    ensures Parse(cut) == Outcome(Read(rest, 0, XIG_LEN), header.count)
  {
    HeaderWords(header);
    LeIsLocal(cut, 0, header.Emit());
    LeIsLocal(cut, 4, header.Emit());
    ReadDrop(cut, XIG_LEN, 0, XIG_LEN);
    assert cut[XIG_LEN..] == rest;
    assert Advance(XIG_LEN) == XIG_LEN;
  }

  lemma HeaderWords(header: Xinpgen)
    requires header.Valid()
    ensures Le32(header.Emit(), 0) == XIG_LEN && Le32(header.Emit(), 4) == header.count
  {
  }

  /**
   * A torn read is never a silently smaller set: cut anywhere, the reply is an error, or
   * every LISTEN socket in order, and it is the latter exactly when eight bytes of the
   * trailer are there.
   */
  lemma TornIsNeverSmaller(header: Xinpgen, groups: seq<Group>, first: Word, trailer: Xinpgen, n: nat)
    requires header.Valid() && header.count != 0 && trailer.Valid() && AllGroups(groups, first)
    requires AllValid(AllItems(groups)) && n <= |Emission(header, AllItems(groups), trailer)|
    ensures Parse(Emission(header, AllItems(groups), trailer)[..n]) ==
            if n < XIG_LEN then Err(ShortRead)
            else if n < XIG_LEN + |EmitAll(AllItems(groups))| + 8 then Err(Truncated)
            else Ok(ListenSockets(groups, first))
  {
    if XIG_LEN <= n {
      var reading := ParseCut(header, AllItems(groups), trailer, n);
      GatherAll(groups, first);
    }
  }

  /** Parsing the whole reply gives exactly the LISTEN sockets in order, whatever the header counts. */
  lemma ParseEmission(header: Xinpgen, groups: seq<Group>, first: Word, trailer: Xinpgen)
    requires header.Valid() && trailer.Valid() && AllGroups(groups, first)
    ensures AllValid(AllItems(groups))
    ensures Parse(Emission(header, AllItems(groups), trailer)) == Ok(ListenSockets(groups, first))
  {
    AllItemsValid(groups, first);
    var whole := Emission(header, AllItems(groups), trailer);
    assert whole[..|whole|] == whole;
    var reading := ParseCut(header, AllItems(groups), trailer, |whole|);
    GatherAll(groups, first);
  }

  /** The header-only reply reads as no sockets exactly when it counts none. */
  lemma HeaderOnly(header: Xinpgen)
    requires header.Valid()
    ensures Parse(header.Emit()) == if header.count == 0 then Ok([]) else Err(Truncated)
  {
  }
}
