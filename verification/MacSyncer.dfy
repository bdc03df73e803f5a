/**
 * The Mac's half of listener sync (internal/macsync/sync.go): each poll is
 * normalized to a set, the set is streamed as a snapshot and then as diffs, and
 * what was streamed bounds what a reverse dial may reach.
 */
module MacSyncer {
  import opened Options
  import opened Listeners
  import opened MacHolder

  const V4_LOOPBACK := V4(0x7f00_0001)
  const V4_ANY := V4(0)
  const V6_ANY := V6(0)
  const TCP := 6
  const UDP := 17

  /** The wire's proto byte and a port: all an activation header, or the agent's registry, names. */
  datatype PortId = PortId(proto: nat, port: Port)

  function ProtoNum(proto: string): Option<nat> {
    if proto == "tcp" then Some(TCP) else if proto == "udp" then Some(UDP) else None
  }

  function IdOf(l: MacListener): Option<PortId> {
    match ProtoNum(l.proto)
    case Some(n) => Some(PortId(n, l.port))
    case None => None
  }

  ghost function Projection(ls: set<MacListener>): set<PortId> {
    set l | l in ls && IdOf(l).Some? :: IdOf(l).value
  }

  type Exclusion = MacListener -> bool

  /** What is synced for a polled listener, if anything. */
  function Normalize(l: MacListener, exclude: Exclusion): Option<MacListener> {
    if l.proto != "tcp" || l.port == 0 then None
    else if l.addr == V4_LOOPBACK || l.addr == V4_ANY then Kept(l.(v6only := false), exclude)
    else if l.addr == V6_ANY && !l.v6only then Kept(l.(addr := V4_ANY, v6only := false), exclude)
    else None
  }

  function Kept(l: MacListener, exclude: Exclusion): Option<MacListener> {
    if exclude(l) then None else Some(l)
  }

  function UdpService(p: Port): MacListener { MacListener("udp", p, V4_ANY, false) }

  ghost function CurrentSet(polled: seq<MacListener>, udpPorts: seq<Port>, exclude: Exclusion): set<MacListener> {
    (set l | l in polled && Normalize(l, exclude).Some? :: Normalize(l, exclude).value)
    + (set p | p in udpPorts && p != 0 && !exclude(UdpService(p)) :: UdpService(p))
  }

  /** An unexcluded listener, bound to an unmapped address, that answers the reverse dial to 127.0.0.1. */
  ghost predicate Offerable(l: MacListener, port: Port, exclude: Exclusion) {
    && l.addr == l.addr.Unmap() && Answers(l, port, V4_LOOPBACK)
    && !exclude(MacListener(l.proto, l.port, if l.addr.V6? then V4_ANY else l.addr, false))
  }

  /** A TCP port is offered exactly when some polled listener serves it. */
  lemma OffersWhatAnswers(polled: seq<MacListener>, udpPorts: seq<Port>, exclude: Exclusion, port: Port)
    ensures PortId(TCP, port) in Projection(CurrentSet(polled, udpPorts, exclude)) <==>
            port != 0 && exists l :: l in polled && Offerable(l, port, exclude)
  {
    var cur := CurrentSet(polled, udpPorts, exclude);
    if PortId(TCP, port) in Projection(cur) {
      var n :| n in cur && IdOf(n) == Some(PortId(TCP, port));
      var l :| l in polled && Normalize(l, exclude) == Some(n);
      assert Offerable(l, port, exclude);
    }
    forall l | l in polled && port != 0 && Offerable(l, port, exclude)
      ensures PortId(TCP, port) in Projection(cur)
    {
      assert Normalize(l, exclude).Some?;
      assert Normalize(l, exclude).value in cur;
    }
  }

  /** The set, listener by listener: `::` that takes IPv4 goes as 0.0.0.0, and nothing else is readdressed. */
  lemma SyncedExactly(polled: seq<MacListener>, udpPorts: seq<Port>, exclude: Exclusion, n: MacListener)
    ensures n in CurrentSet(polled, udpPorts, exclude) <==>
            && n.port != 0 && !n.v6only && !exclude(n)
            && if n.proto == "tcp" then exists l :: l in polled && IsSyncedAs(l, n)
               else n.proto == "udp" && n.addr == V4(0) && n.port in udpPorts
  {
    if n.proto == "tcp" && n.port != 0 && !n.v6only && !exclude(n) {
      forall l | l in polled && IsSyncedAs(l, n) ensures Normalize(l, exclude) == Some(n) {
      }
    }
  }

  /** The polled TCP listener `l` is one that `n` stands for. */
  predicate IsSyncedAs(l: MacListener, n: MacListener) {
    && l.proto == "tcp" && l.port == n.port
    && ((l.addr == n.addr && n.addr in {V4(0x7f00_0001), V4(0)}) || (n.addr == V4(0) && l.addr == V6(0) && !l.v6only))
  }

  /** On the wire TCP is 6 and UDP 17, and a listener of another protocol has no id. */
  lemma IdIs(l: MacListener)
    ensures IdOf(l) == if l.proto == "tcp" then Some(PortId(6, l.port)) else if l.proto == "udp" then Some(PortId(17, l.port)) else None
  {
  }

  function IsAdvertised(advertised: Option<set<PortId>>, id: PortId): bool {
    advertised.Some? && id in advertised.value
  }

  datatype Dial = Refuse | DialTcp(port: Port) | DialUdp(port: Port)

  /** What an activated reverse stream does with its header. */
  function HandleStream(advertised: Option<set<PortId>>, id: PortId): Dial {
    if id.port == 0 || !IsAdvertised(advertised, id) then Refuse
    else if id.proto == TCP then DialTcp(id.port)
    else if id.proto == UDP then DialUdp(id.port)
    else Refuse
  }

  /** While a set is advertised, a reverse dial reaches exactly the ports offered with it, and goes where its header says. */
  lemma DialsExactly(polled: seq<MacListener>, udpPorts: seq<Port>, exclude: Exclusion, id: PortId)
    ensures var offered := Some(Projection(CurrentSet(polled, udpPorts, exclude)));
            HandleStream(offered, id) ==
            if id.proto == 6 && id.port != 0 && (exists l :: l in polled && Offerable(l, id.port, exclude)) then DialTcp(id.port)
            else if id.proto == 17 && id.port != 0 && id.port in udpPorts && !exclude(MacListener("udp", id.port, V4(0), false))
            then DialUdp(id.port)
            else Refuse
    ensures HandleStream(None, id) == Refuse
    ensures forall adv :: id.port == 0 || id.proto !in {6, 17} || id !in adv ==> HandleStream(Some(adv), id) == Refuse
  {
    var cur := CurrentSet(polled, udpPorts, exclude);
    OffersWhatAnswers(polled, udpPorts, exclude, id.port);
    var udp := MacListener("udp", id.port, V4(0), false);
    SyncedExactly(polled, udpPorts, exclude, udp);
    IdIs(udp);
    assert id.proto == 17 ==> (id in Projection(cur) <==> udp in cur) by {
      if id.proto == 17 && id in Projection(cur) {
        var n :| n in cur && IdOf(n) == Some(id);
        SyncedExactly(polled, udpPorts, exclude, n);
        assert n == udp;
      }
    }
  }

  class Syncer {
    const udpPorts: seq<Port>
    const exclude: Exclusion
    var last: set<MacListener>
    var advertised: Option<set<PortId>>

    constructor (udpPorts: seq<Port>, exclude: Exclusion)
      ensures this.udpPorts == udpPorts && this.exclude == exclude && last == {} && advertised == None
    {
      this.udpPorts, this.exclude := udpPorts, exclude;
      last, advertised := {}, None;
    }

    method CurrentSetOf(polled: seq<MacListener>) returns (cur: set<MacListener>)
      ensures cur == CurrentSet(polled, udpPorts, exclude)
    {
      cur := {};
      for i := 0 to |polled|
        invariant cur == set l | l in polled[..i] && Normalize(l, exclude).Some? :: Normalize(l, exclude).value
      {
        var n := Normalize(polled[i], exclude);
        if n.Some? {
          cur := cur + {n.value};
        }
      }
      ghost var tcp := cur;
      for i := 0 to |udpPorts|
        invariant cur == tcp + set p | p in udpPorts[..i] && p != 0 && !exclude(UdpService(p)) :: UdpService(p)
      {
        var p := udpPorts[i];
        if p != 0 && !exclude(UdpService(p)) {
          cur := cur + {UdpService(p)};
        }
      }
    }

    method SetAdvertised(ls: set<MacListener>)
      modifies this`advertised
      ensures advertised == Some(Projection(ls))
    {
      var adv: set<PortId> := {};
      var rest := ls;
      while rest != {}
        invariant rest <= ls && adv == Projection(ls - rest)
      {
        var l :| l in rest;
        rest := rest - {l};
        var id := IdOf(l);
        if id.Some? {
          adv := adv + {id.value};
        }
        assert forall x :: x in ls - rest && x != l ==> x in ls - rest - {l};
      }
      assert ls - rest == ls;
      advertised := Some(adv);
    }

    /** Session start: the whole set goes out as one snapshot; a failed poll ends the session. */
    method Begin(polled: Option<seq<MacListener>>) returns (snap: Option<seq<MacListener>>)
      modifies this
      ensures polled.None? ==> snap.None? && last == old(last) && advertised == old(advertised)
      ensures polled.Some? ==>
        && last == CurrentSet(polled.value, udpPorts, exclude)
        && snap.Some? && multiset(snap.value) == multiset(last) && advertised == Some(Projection(last))
    {
      if polled.None? {
        return None;
      }
      last := CurrentSetOf(polled.value);
      var out := Listed(last);
      SetAdvertised(last);
      return Some(out);
    }

    /** One tick: dels of what left the set, then adds of what joined it. */
    method Tick(polled: Option<seq<MacListener>>) returns (diff: Option<(seq<MacListener>, seq<MacListener>)>)
      modifies this
      ensures polled.None? ==> diff.None? && last == old(last) && advertised == old(advertised)
      ensures polled.Some? ==>
        && last == CurrentSet(polled.value, udpPorts, exclude)
        && diff.Some? && multiset(diff.value.0) == multiset(old(last) - last)
        && multiset(diff.value.1) == multiset(last - old(last)) && advertised == Some(Projection(last))
    {
      if polled.None? {
        return None;
      }
      var cur := CurrentSetOf(polled.value);
      var dels := Listed(last - cur);
      var adds := Listed(cur - last);
      last := cur;
      SetAdvertised(last);
      return Some((dels, adds));
    }
  }

  /** The elements of a set, in whatever order the map iteration yields them. */
  method Listed(s: set<MacListener>) returns (out: seq<MacListener>)
    ensures multiset(out) == multiset(s)
  {
    out := [];
    var rest := s;
    while rest != {}
      invariant rest <= s && multiset(out) + multiset(rest) == multiset(s)
    {
      var l :| l in rest;
      out, rest := out + [l], rest - {l};
    }
  }
}
