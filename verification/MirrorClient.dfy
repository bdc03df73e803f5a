/**
 * The Mac-side mirror table (internal/mirror/mirror.go): guest listener events
 * in, refcounted mirrors and pending reservations out.
 */
module MirrorClient {
  import opened Options
  import opened Listeners
  import opened MacHolder

  const DEFAULT_AGENT_PORT: Port := 4777

  datatype Config = Config(agentPort: Port, guestAgentPort: Port, skip: set<Port>, mirrorIP: Option<Addr>) {
    function GuestAgentPort(): Port {
      if guestAgentPort != 0 then guestAgentPort else DEFAULT_AGENT_PORT
    }

    predicate Mirrorable(l: Listener) {
      && l.port != 0 && l.port != agentPort && l.port != GuestAgentPort()
      && (l.proto == "tcp" || (l.proto == "udp" && !(LINUX_EPHEMERAL_LO <= l.port <= LINUX_EPHEMERAL_HI)))
      && l.addr in {"0.0.0.0", "::", "127.0.0.1", "::1"}
    }

    /** The listeners this client keeps a mirror for. */
    predicate Tracked(l: Listener) { Mirrorable(l) && l.port !in skip }
  }

  function KeyOf(l: Listener): Key { Key(l.proto, l.port) }

  /** A listening socket this process opened: its key, and the operation that opened it. */
  datatype Socket = Socket(key: Key, born: nat)

  datatype Entry = Entry(born: nat, refs: int, pending: bool)

  /**
   * The table, and the process's side of the kernel: sockets open now, and every
   * stop call so far. `clock` counts operations, so a socket's birth is its identity.
   */
  datatype State = State(mirrors: map<Key, Entry>, clock: nat, open: set<Socket>, stops: multiset<Socket>) {
    ghost function Close(ks: set<Key>): State
      requires ks <= mirrors.Keys
    {
      var gone := set k | k in ks :: Socket(k, mirrors[k].born);
      State(mirrors - ks, clock, open - gone, stops + multiset(gone))
    }

    /** Open a mirror for each key of `want`, with its refs, unless the Mac blocks it. */
    ghost function OpenAll(cfg: Config, want: map<Key, int>, pending: bool, mac: Mac): State {
      var opens := set k | k in want && CanOpen(cfg.mirrorIP, mac, k);
      State(map k | k in mirrors.Keys + opens :: if k in mirrors then mirrors[k] else Entry(clock + 1, want[k], pending),
            clock + 1,
            open + (set k | k in opens :: Socket(k, clock + 1)), stops)
    }

    ghost predicate Stale(cfg: Config, snap: seq<Listener>, k: Key) {
      k in mirrors && Count(cfg, snap, k) == 0 && !mirrors[k].pending
    }

    /** Drop mirrors the snapshot no longer wants, keep reservations it does not know yet, adopt the rest. */
    ghost function Settle(cfg: Config, snap: seq<Listener>): State {
      var kept := Close(set k | k in mirrors && Stale(cfg, snap, k));
      kept.(mirrors := map k | k in kept.mirrors :: Resettled(mirrors[k], Count(cfg, snap, k)))
    }

    ghost function Reconcile(cfg: Config, snap: seq<Listener>, mac: Mac): State {
      var s := Settle(cfg, snap);
      s.OpenAll(cfg, map k | k in Wanted(cfg, snap) - s.mirrors.Keys :: Count(cfg, snap, k), false, mac)
    }

    ghost function Add(cfg: Config, l: Listener, mac: Mac): State {
      var k := KeyOf(l);
      if !cfg.Tracked(l) then this
      else if k in mirrors then
        this.(mirrors := mirrors[k := Entry(mirrors[k].born, if mirrors[k].pending then 1 else mirrors[k].refs + 1, false)])
      else OpenAll(cfg, map[k := 1], false, mac)
    }

    ghost function Del(cfg: Config, l: Listener): State {
      var k := KeyOf(l);
      if !cfg.Mirrorable(l) || k !in mirrors || mirrors[k].pending then this
      else if mirrors[k].refs <= 1 then Close({k})
      else this.(mirrors := mirrors[k := mirrors[k].(refs := mirrors[k].refs - 1)])
    }

    ghost function CloseAll(): State { Close(mirrors.Keys) }

    /** A reservation that reaches the table: op "reserve", proto "tcp", a non-zero non-skipped port. */
    ghost function Reserve(cfg: Config, port: Port, mac: Mac): State {
      var k := Key("tcp", port);
      if k in mirrors then this else OpenAll(cfg, map[k := 0], true, mac)
    }

    /** The TTL timer armed for the reservation `s`. */
    ghost function Release(s: Socket): State {
      if Lapses(s) then Close({s.key}) else this
    }

    ghost predicate Lapses(s: Socket) {
      s.key in mirrors && mirrors[s.key].born == s.born && mirrors[s.key].pending
    }

    /** Open listeners are the table's, and a listener is stopped once: when its entry goes. */
    ghost predicate Valid() {
      && (forall k :: k in mirrors ==> mirrors[k].born <= clock)
      && (forall s :: s in open <==> Owns(s))
      && (forall s :: s in stops ==> stops[s] == 1 && s.born <= clock && s !in open)
    }

    ghost predicate Owns(s: Socket) { s.key in mirrors && mirrors[s.key].born == s.born }
  }

  function Resettled(e: Entry, want: nat): Entry {
    if want == 0 then e else Entry(e.born, want, false)
  }

  /** How many listeners of `ls` the mirror for `k` stands for. */
  function Count(cfg: Config, ls: seq<Listener>, k: Key): nat {
    if ls == [] then 0
    else Count(cfg, ls[..|ls| - 1], k) +
         (if cfg.Tracked(ls[|ls| - 1]) && KeyOf(ls[|ls| - 1]) == k then 1 else 0)
  }

  ghost function Wanted(cfg: Config, ls: seq<Listener>): set<Key> {
    set l | l in ls && cfg.Tracked(l) :: KeyOf(l)
  }

  lemma CloseValid(st: State, ks: set<Key>)
    requires st.Valid() && ks <= st.mirrors.Keys
    ensures st.Close(ks).Valid()
  {
  }

  /** The exit state of the loop that opens the missing mirrors is the specified one. */
  lemma OpenAllIs(st: State, cfg: Config, missing: map<Key, int>, mac: Mac, after: State)
    requires missing.Keys !! st.mirrors.Keys && after.clock == st.clock + 1 && after.stops == st.stops
    requires forall k :: k in after.mirrors <==> k in st.mirrors || (k in missing && CanOpen(cfg.mirrorIP, mac, k))
    requires forall k :: k in after.mirrors ==>
      after.mirrors[k] == if k in st.mirrors then st.mirrors[k] else Entry(after.clock, missing[k], false)
    requires forall s :: s in after.open <==>
      s in st.open || (s.born == after.clock && s.key in after.mirrors.Keys - st.mirrors.Keys)
    ensures after == st.OpenAll(cfg, missing, false, mac)
  {
  }

  /** The exit state of the loop that settles the existing mirrors is the specified one. */
  lemma SettleIs(st: State, cfg: Config, snap: seq<Listener>, after: State, gone: set<Socket>)
    requires after.clock == st.clock && after.open == st.open - gone && after.stops == st.stops + multiset(gone)
    requires forall k :: k in after.mirrors <==> k in st.mirrors && !st.Stale(cfg, snap, k)
    requires forall k :: k in after.mirrors ==> after.mirrors[k] == Resettled(st.mirrors[k], Count(cfg, snap, k))
    requires forall s :: s in gone <==> st.Stale(cfg, snap, s.key) && s.born == st.mirrors[s.key].born
    ensures after == st.Settle(cfg, snap)
  {
  }

  lemma AddOnce(gone: set<Socket>, s: Socket)
    requires s !in gone
    ensures multiset(gone + {s}) == multiset(gone) + multiset{s}
  {
  }

  lemma OpenAllValid(st: State, cfg: Config, want: map<Key, int>, pending: bool, mac: Mac)
    requires st.Valid() && want.Keys !! st.mirrors.Keys
    ensures st.OpenAll(cfg, want, pending, mac).Valid()
  {
  }

  lemma OpenOne(st: State, cfg: Config, k: Key, refs: int, pending: bool, mac: Mac)
    requires k !in st.mirrors
    ensures st.OpenAll(cfg, map[k := refs], pending, mac) ==
            if CanOpen(cfg.mirrorIP, mac, k)
            then State(st.mirrors[k := Entry(st.clock + 1, refs, pending)], st.clock + 1,
                       st.open + {Socket(k, st.clock + 1)}, st.stops)
            else st.(clock := st.clock + 1)
  {
  }

  lemma CloseOne(st: State, k: Key)
    requires k in st.mirrors
    ensures var s := Socket(k, st.mirrors[k].born);
            st.Close({k}) == State(st.mirrors - {k}, st.clock, st.open - {s}, st.stops + multiset{s})
  {
  }

  lemma AddValid(st: State, cfg: Config, l: Listener, mac: Mac)
    requires st.Valid()
    ensures st.Add(cfg, l, mac).Valid()
  {
    var k := KeyOf(l);
    if cfg.Tracked(l) && k !in st.mirrors {
      OpenAllValid(st, cfg, map[k := 1], false, mac);
    } else {
      var after := st.Add(cfg, l, mac);
      assert forall s :: st.Owns(s) <==> after.Owns(s);
    }
  }

  lemma DelValid(st: State, cfg: Config, l: Listener)
    requires st.Valid()
    ensures st.Del(cfg, l).Valid()
  {
  }

  lemma ReconcileValid(st: State, cfg: Config, snap: seq<Listener>, mac: Mac)
    requires st.Valid()
    ensures st.Reconcile(cfg, snap, mac).Valid()
  {
    var stale := set k | k in st.mirrors && st.Stale(cfg, snap, k);
    CloseValid(st, stale);
    var settled := st.Settle(cfg, snap);
    assert forall s :: settled.Owns(s) <==> st.Close(stale).Owns(s);
    var missing := map k | k in Wanted(cfg, snap) - settled.mirrors.Keys :: Count(cfg, snap, k);
    OpenAllValid(settled, cfg, missing, false, mac);
  }

  lemma ReserveValid(st: State, cfg: Config, port: Port, mac: Mac)
    requires st.Valid()
    ensures st.Reserve(cfg, port, mac).Valid()
  {
  }

  // --- every listener opened is open or stopped --------------------------------------

  /** Open still, or stopped by exactly one call. */
  ghost predicate Accounted(st: State, x: Socket) { x in st.open || st.stops[x] == 1 }

  lemma CloseAccounts(st: State, ks: set<Key>, x: Socket)
    requires st.Valid() && ks <= st.mirrors.Keys && Accounted(st, x)
    ensures Accounted(st.Close(ks), x)
  {
    var gone := set k | k in ks :: Socket(k, st.mirrors[k].born);
    forall s | s in gone ensures s in st.open && s !in st.stops {
      assert st.Owns(s);
    }
  }

  lemma EventAccounts(st: State, cfg: Config, ev: Event, mac: Mac, x: Socket)
    requires st.Valid() && Accounted(st, x)
    ensures Accounted(Handle(st, cfg, ev, mac), x)
  {
    match ev
    case Snapshot(ls) => CloseAccounts(st, (set k | k in st.mirrors && st.Stale(cfg, ls, k)), x);
    case Add(_) =>
    case Del(l) => if KeyOf(l) in st.mirrors { CloseAccounts(st, {KeyOf(l)}, x); }
  }

  lemma ReleaseAccounts(st: State, timer: Socket, x: Socket)
    requires st.Valid() && Accounted(st, x)
    ensures Accounted(st.Release(timer), x)
  {
    if timer.key in st.mirrors { CloseAccounts(st, {timer.key}, x); }
  }

  // --- refcounts against a listener set ------------------------------------------

  /** The listeners of `known` that the mirror for `k` stands for. */
  ghost function Backing(cfg: Config, known: set<Listener>, k: Key): set<Listener> {
    set l | l in known && cfg.Tracked(l) && KeyOf(l) == k
  }

  ghost predicate Skipless(st: State, cfg: Config) {
    forall k :: k in st.mirrors ==> k.port !in cfg.skip
  }

  /** No mirror outnumbers its listeners; one without any is at most a pending reservation. */
  ghost predicate RefsSound(st: State, cfg: Config, known: set<Listener>) {
    forall k :: k in st.mirrors && !st.mirrors[k].pending ==> 1 <= st.mirrors[k].refs <= |Backing(cfg, known, k)|
  }

  ghost predicate ExactAt(st: State, cfg: Config, known: set<Listener>, k: Key) {
    k in st.mirrors && !st.mirrors[k].pending && st.mirrors[k].refs == |Backing(cfg, known, k)|
  }

  /** Every key with a listener is mirrored, with all its listeners counted. */
  ghost predicate RefsComplete(st: State, cfg: Config, known: set<Listener>) {
    forall k :: Backing(cfg, known, k) != {} ==> ExactAt(st, cfg, known, k)
  }

  /** No bind the event asks for is refused. */
  ghost predicate Unrefused(st: State, cfg: Config, ev: Event, mac: Mac) {
    match ev
    case Snapshot(ls) => forall k :: k in Wanted(cfg, ls) && k !in st.mirrors ==> CanOpen(cfg.mirrorIP, mac, k)
    case Add(l) => cfg.Tracked(l) && KeyOf(l) !in st.mirrors ==> CanOpen(cfg.mirrorIP, mac, KeyOf(l))
    case Del(_) => true
  }

  /** The client's dispatch on one event of its session. */
  ghost function Handle(st: State, cfg: Config, ev: Event, mac: Mac): State {
    match ev
    case Snapshot(ls) => st.Reconcile(cfg, ls, mac)
    case Add(l) => st.Add(cfg, l, mac)
    case Del(l) => st.Del(cfg, l)
  }

  lemma BackingStep(cfg: Config, known: set<Listener>, l: Listener, k: Key)
    ensures l !in known ==>
      |Backing(cfg, known + {l}, k)| == |Backing(cfg, known, k)| + if cfg.Tracked(l) && KeyOf(l) == k then 1 else 0
    ensures l in known ==>
      |Backing(cfg, known - {l}, k)| == |Backing(cfg, known, k)| - if cfg.Tracked(l) && KeyOf(l) == k then 1 else 0
  {
    var b := Backing(cfg, known, k);
    var mine := if cfg.Tracked(l) && KeyOf(l) == k then {l} else {};
    assert Backing(cfg, known + {l}, k) == b + mine;
    assert Backing(cfg, known - {l}, k) == b - mine;
    assert l in known ==> mine <= b;
  }

  /** A duplicate-free snapshot is tallied as the set it lists. */
  lemma {:induction false} CountIsBacking(cfg: Config, snap: seq<Listener>, known: set<Listener>, k: Key)
    requires multiset(snap) == multiset(known)
    ensures Count(cfg, snap, k) == |Backing(cfg, known, k)|
    decreases |snap|
  {
    if snap == [] {
      assert |multiset(known)| == |known|;
    } else {
      var l, rest := snap[|snap| - 1], snap[..|snap| - 1];
      assert snap == rest + [l];
      assert multiset(snap) == multiset(rest) + multiset{l};
      assert multiset(known)[l] == 1 && l in known;
      assert multiset(known - {l}) == multiset(known) - multiset{l};
      CountIsBacking(cfg, rest, known - {l}, k);
      BackingStep(cfg, known, l, k);
    }
  }

  lemma SnapshotRefs(st: State, cfg: Config, known: set<Listener>, snap: seq<Listener>, mac: Mac)
    requires Skipless(st, cfg) && multiset(snap) == multiset(known)
    ensures var after := st.Reconcile(cfg, snap, mac);
            && Skipless(after, cfg) && RefsSound(after, cfg, known)
            && (Unrefused(st, cfg, Snapshot(snap), mac) <==> RefsComplete(after, cfg, known))
  {
    var after := st.Reconcile(cfg, snap, mac);
    forall k ensures Count(cfg, snap, k) == |Backing(cfg, known, k)| {
      CountIsBacking(cfg, snap, known, k);
    }
    forall k ensures k in Wanted(cfg, snap) <==> Backing(cfg, known, k) != {} {
      assert forall l :: l in known <==> l in multiset(snap);
      if k in Wanted(cfg, snap) {
        var l :| l in snap && cfg.Tracked(l) && KeyOf(l) == k;
        assert l in Backing(cfg, known, k);
      }
    }
  }

  lemma AddRefs(st: State, cfg: Config, known: set<Listener>, l: Listener, mac: Mac)
    requires Skipless(st, cfg) && RefsSound(st, cfg, known) && l !in known
    ensures var after := st.Add(cfg, l, mac);
            && Skipless(after, cfg) && RefsSound(after, cfg, known + {l})
            && (RefsComplete(st, cfg, known) ==> (Unrefused(st, cfg, Add(l), mac) <==> RefsComplete(after, cfg, known + {l})))
  {
    var after := st.Add(cfg, l, mac);
    if cfg.Tracked(l) && KeyOf(l) !in st.mirrors {
      OpenOne(st, cfg, KeyOf(l), 1, false, mac);
    }
    forall k | k in after.mirrors && !after.mirrors[k].pending
      ensures 1 <= after.mirrors[k].refs <= |Backing(cfg, known + {l}, k)|
    {
      BackingStep(cfg, known, l, k);
    }
    if !Unrefused(st, cfg, Add(l), mac) {
      BackingStep(cfg, known, l, KeyOf(l));
      assert Backing(cfg, known + {l}, KeyOf(l)) != {} && KeyOf(l) !in after.mirrors;
    } else if RefsComplete(st, cfg, known) {
      forall k | Backing(cfg, known + {l}, k) != {} ensures ExactAt(after, cfg, known + {l}, k) {
        BackingStep(cfg, known, l, k);
        assert Backing(cfg, known, k) == {} <==> |Backing(cfg, known, k)| == 0;
      }
    }
  }

  lemma DelRefs(st: State, cfg: Config, known: set<Listener>, l: Listener)
    requires Skipless(st, cfg) && RefsSound(st, cfg, known) && l in known
    ensures var after := st.Del(cfg, l);
            && Skipless(after, cfg) && RefsSound(after, cfg, known - {l})
            && (RefsComplete(st, cfg, known) ==> RefsComplete(after, cfg, known - {l}))
  {
    var after := st.Del(cfg, l);
    forall k | k in after.mirrors && !after.mirrors[k].pending
      ensures 1 <= after.mirrors[k].refs <= |Backing(cfg, known - {l}, k)|
    {
      BackingStep(cfg, known, l, k);
    }
    if RefsComplete(st, cfg, known) {
      forall k | Backing(cfg, known - {l}, k) != {} ensures ExactAt(after, cfg, known - {l}, k) {
        BackingStep(cfg, known, l, k);
        assert Backing(cfg, known, k) != {};
      }
    }
  }

  /** A reservation touches no counted mirror. */
  lemma ReserveRefs(st: State, cfg: Config, known: set<Listener>, port: Port, mac: Mac)
    requires Skipless(st, cfg) && RefsSound(st, cfg, known) && port !in cfg.skip
    ensures var after := st.Reserve(cfg, port, mac);
            && Skipless(after, cfg) && RefsSound(after, cfg, known)
            && (RefsComplete(st, cfg, known) ==> RefsComplete(after, cfg, known))
  {
  }

  /** Neither does its timer. */
  lemma ReleaseRefs(st: State, cfg: Config, known: set<Listener>, timer: Socket)
    requires Skipless(st, cfg) && RefsSound(st, cfg, known)
    ensures var after := st.Release(timer);
            && Skipless(after, cfg) && RefsSound(after, cfg, known)
            && (RefsComplete(st, cfg, known) ==> RefsComplete(after, cfg, known))
  {
  }

  /**
   * Completeness can be lost: a refused bind is not retried, and the next listener
   * on the same key opens a mirror that counts only itself.
   */
  lemma RefusedBindUndercounts()
    ensures var cfg := Config(4777, 0, {22}, Some(V4(0x7f00_0001)));
            var a, b := Listener("tcp", 8080, "0.0.0.0"), Listener("tcp", 8080, "::");
            var busy := Mac([], None, false, map[Key("tcp", 8080) := EADDRINUSE]);
            var free := Mac([], None, false, map[]);
            var st := State(map[], 0, {}, multiset{}).Add(cfg, a, busy).Add(cfg, b, free);
            Key("tcp", 8080) in st.mirrors && st.mirrors[Key("tcp", 8080)].refs == 1 &&
            |Backing(cfg, {a, b}, Key("tcp", 8080))| == 2
  {
    var cfg := Config(4777, 0, {22}, Some(V4(0x7f00_0001)));
    var a, b, k := Listener("tcp", 8080, "0.0.0.0"), Listener("tcp", 8080, "::"), Key("tcp", 8080);
    var st0 := State(map[], 0, {}, multiset{});
    OpenOne(st0, cfg, k, 1, false, Mac([], None, false, map[k := EADDRINUSE]));
    var st1 := st0.Add(cfg, a, Mac([], None, false, map[k := EADDRINUSE]));
    OpenOne(st1, cfg, k, 1, false, Mac([], None, false, map[]));
    assert Backing(cfg, {a, b}, k) == {a, b};
  }

  /** An OK for a port that is arbitrated means its listener is bound and in the table. */
  lemma ReservedIsBound(cfg: Config, st: State, r: ReserveReq, mac: Mac)
    requires st.Valid() && Arbitrated(cfg, r)
    ensures var after, k := st.Reserve(cfg, r.port, mac), Key("tcp", r.port);
            ReserveReply(cfg, st, r, mac).Ok? <==>
            k in after.mirrors && Socket(k, after.mirrors[k].born) in after.open
  {
  }

  /**
   * No shadowing: while the read can be trusted and the Mac does not change between
   * read and bind, neither a mirror nor a reservation opens where a native service answers.
   */
  lemma NothingShadowed(st: State, cfg: Config, ev: Event, port: Port, mac: Mac, ip: Addr, k: Key, l: MacListener)
    requires cfg.mirrorIP == Some(ip) && Trusted(mac) && k.proto == "tcp" && k !in st.mirrors
    requires k in Handle(st, cfg, ev, mac).mirrors || k in st.Reserve(cfg, port, mac).mirrors
    requires l in mac.native
    ensures !Answers(l, k.port, ip.Unmap())
  {
    assert CanOpen(cfg.mirrorIP, mac, k) by {
      if k !in Handle(st, cfg, ev, mac).mirrors { OpenOne(st, cfg, Key("tcp", port), 0, true, mac); }
    }
    OpensIffNothingAnswers(ip, mac, k);
  }

  lemma ReleaseValid(st: State, timer: Socket)
    requires st.Valid()
    ensures st.Release(timer).Valid()
  {
  }

  /** Once a mirror's count is right, no event makes it wrong while the mirror stands. */
  lemma ExactStays(st: State, cfg: Config, known: set<Listener>, ev: Event, mac: Mac, k: Key)
    requires ev.Snapshot? ==> multiset(ev.listeners) == multiset(Effect(known, ev))
    requires ev.Add? ==> ev.l !in known
    requires ev.Del? ==> ev.l in known
    requires ExactAt(st, cfg, known, k) && k in Handle(st, cfg, ev, mac).mirrors
    ensures ExactAt(Handle(st, cfg, ev, mac), cfg, Effect(known, ev), k)
  {
    match ev
    case Snapshot(ls) => CountIsBacking(cfg, ls, Effect(known, ev), k);
    case Add(l) => BackingStep(cfg, known, l, k);
    case Del(l) => BackingStep(cfg, known, l, k);
  }

  datatype ReserveReq = ReserveReq(op: string, proto: string, port: Port)
  datatype ReserveResp = Ok | Refused(reason: string)

  function ReserveReply(cfg: Config, st: State, r: ReserveReq, mac: Mac): ReserveResp {
    var k := Key("tcp", r.port);
    if r.op != "reserve" || r.proto != "tcp" || r.port == 0 then Refused("unsupported")
    else if r.port in cfg.skip || k in st.mirrors then Ok
    else if MacHeld(cfg.mirrorIP, mac, k) then Refused("inuse")
    else match BindError(cfg.mirrorIP, mac, k)
      case None => Ok
      case Some(e) => Refused(if e.EADDRINUSE? then "inuse" else "unknown")
  }

  predicate Arbitrated(cfg: Config, r: ReserveReq) {
    r.op == "reserve" && r.proto == "tcp" && r.port != 0 && r.port !in cfg.skip
  }

  class Client {
    const cfg: Config
    var mirrors: map<Key, Entry>
    var clock: nat
    var open: set<Socket>
    var stops: multiset<Socket>

    ghost function View(): State reads this { State(mirrors, clock, open, stops) }

    constructor (cfg: Config)
      ensures this.cfg == cfg && View() == State(map[], 0, {}, multiset{})
    {
      this.cfg := cfg;
      mirrors, clock, open, stops := map[], 0, {}, multiset{};
    }

    /** Bind and register a mirror, or leave the table alone; `clock` already names this operation. */
    method OpenLocked(key: Key, refs: int, pending: bool, mac: Mac)
      modifies this`mirrors, this`open
      ensures mirrors == if CanOpen(cfg.mirrorIP, mac, key)
                         then old(mirrors)[key := Entry(clock, refs, pending)] else old(mirrors)
      ensures open == if CanOpen(cfg.mirrorIP, mac, key) then old(open) + {Socket(key, clock)} else old(open)
    {
      if key.proto != "udp" && MacHeld(cfg.mirrorIP, mac, key) {
        return;
      }
      if BindError(cfg.mirrorIP, mac, key).Some? {
        return;
      }
      open := open + {Socket(key, clock)};
      mirrors := mirrors[key := Entry(clock, refs, pending)];
    }

    /** e.stop() and the delete that always follows it. */
    method StopLocked(key: Key)
      requires key in mirrors
      modifies this`mirrors, this`open, this`stops
      ensures mirrors == old(mirrors) - {key}
      ensures open == old(open) - {Socket(key, old(mirrors[key].born))}
      ensures stops == old(stops) + multiset{Socket(key, old(mirrors[key].born))}
    {
      var s := Socket(key, mirrors[key].born);
      open, stops := open - {s}, stops + multiset{s};
      mirrors := mirrors - {key};
    }

    /** StopLocked, keeping count of the sockets a loop has closed. */
    method StopAlso(key: Key, ghost gone: set<Socket>) returns (ghost gone': set<Socket>)
      requires key in mirrors && Socket(key, mirrors[key].born) !in gone
      modifies this`mirrors, this`open, this`stops
      ensures gone' == gone + {Socket(key, old(mirrors[key].born))}
      ensures mirrors == old(mirrors) - {key}
      ensures forall was: set<Socket> :: old(open) == was - gone ==> open == was - gone'
      ensures forall was: multiset<Socket> :: old(stops) == was + multiset(gone) ==> stops == was + multiset(gone')
    {
      var s := Socket(key, mirrors[key].born);
      StopLocked(key);
      AddOnce(gone, s);
      gone' := gone + {s};
    }

    method Add(l: Listener, mac: Mac)
      modifies this
      ensures View() == old(View()).Add(cfg, l, mac)
    {
      if !cfg.Mirrorable(l) || l.port in cfg.skip {
        return;
      }
      var key := KeyOf(l);
      if key in mirrors {
        var e := mirrors[key];
        if e.pending {
          mirrors := mirrors[key := e.(pending := false, refs := 1)];
        } else {
          mirrors := mirrors[key := e.(refs := e.refs + 1)];
        }
        return;
      }
      OpenOne(View(), cfg, key, 1, false, mac);
      clock := clock + 1;
      OpenLocked(key, 1, false, mac);
    }

    method Del(l: Listener)
      modifies this
      ensures View() == old(View()).Del(cfg, l)
    {
      var key := KeyOf(l);
      if !cfg.Mirrorable(l) || key !in mirrors || mirrors[key].pending {
        return;
      }
      CloseOne(View(), key);
      mirrors := mirrors[key := mirrors[key].(refs := mirrors[key].refs - 1)];
      if mirrors[key].refs <= 0 {
        StopLocked(key);
      }
    }

    method CloseAll()
      modifies this
      ensures View() == old(View()).CloseAll()
    {
      ghost var gone: set<Socket> := {};
      while mirrors.Keys != {}
        invariant mirrors.Keys <= old(mirrors).Keys && forall k :: k in mirrors ==> mirrors[k] == old(mirrors)[k]
        invariant forall s :: s in gone <==> s.key in old(mirrors).Keys - mirrors.Keys && s.born == old(mirrors)[s.key].born
        invariant open == old(open) - gone && stops == old(stops) + multiset(gone) && clock == old(clock)
        decreases mirrors.Keys
      {
        var key :| key in mirrors;
        gone := StopAlso(key, gone);
      }
      assert gone == set k | k in old(mirrors).Keys :: Socket(k, old(mirrors)[k].born);
    }

    method Reserve(r: ReserveReq, mac: Mac) returns (resp: ReserveResp)
      modifies this
      ensures resp == ReserveReply(cfg, old(View()), r, mac)
      ensures View() == if Arbitrated(cfg, r) then old(View()).Reserve(cfg, r.port, mac) else old(View())
    {
      if r.op != "reserve" || r.proto != "tcp" || r.port == 0 {
        return Refused("unsupported");
      }
      if r.port in cfg.skip {
        return Ok;
      }
      var key := Key("tcp", r.port);
      if key in mirrors {
        return Ok;
      }
      OpenOne(View(), cfg, key, 0, true, mac);
      clock := clock + 1;
      if MacHeld(cfg.mirrorIP, mac, key) {
        return Refused("inuse");
      }
      var err := BindError(cfg.mirrorIP, mac, key);
      if err.Some? {
        return Refused(if err.value == EADDRINUSE then "inuse" else "unknown");
      }
      mirrors := mirrors[key := Entry(clock, 0, true)];
      open := open + {Socket(key, clock)};
      return Ok;
    }

    /** The timer's callback; it holds the entry its reservation made, named by its socket. */
    method ReleaseIfPending(s: Socket)
      modifies this
      ensures View() == old(View()).Release(s)
    {
      if s.key in mirrors && mirrors[s.key].born == s.born && mirrors[s.key].pending {
        CloseOne(View(), s.key);
        StopLocked(s.key);
      }
    }

    method Reconcile(snapshot: seq<Listener>, mac: Mac)
      modifies this
      ensures View() == old(View()).Reconcile(cfg, snapshot, mac)
    {
      var want := Tally(snapshot);
      Settle(snapshot, want);
      ghost var settled := View();
      OpenMissing(want, mac);
      assert (map k | k in want.Keys - settled.mirrors.Keys :: want[k])
          == map k | k in Wanted(cfg, snapshot) - settled.mirrors.Keys :: Count(cfg, snapshot, k);
    }

    /** want[key]++ over the snapshot, for every listener this client mirrors. */
    method Tally(snapshot: seq<Listener>) returns (want: map<Key, int>)
      ensures want.Keys == Wanted(cfg, snapshot) && forall k :: k in want ==> want[k] > 0
      ensures forall k :: Count(cfg, snapshot, k) == if k in want then want[k] else 0
    {
      want := map[];
      for i := 0 to |snapshot|
        invariant want.Keys == Wanted(cfg, snapshot[..i]) && forall k :: k in want ==> want[k] > 0
        invariant forall k :: Count(cfg, snapshot[..i], k) == if k in want then want[k] else 0
      {
        var l := snapshot[i];
        assert snapshot[..i + 1] == snapshot[..i] + [l];
        assert snapshot[..i + 1][..i] == snapshot[..i];
        if cfg.Mirrorable(l) && l.port !in cfg.skip {
          var key := KeyOf(l);
          want := want[key := (if key in want then want[key] else 0) + 1];
        }
      }
      assert snapshot[..|snapshot|] == snapshot;
    }

    /** One mirror against the snapshot: unwanted and no reservation, or wanted and adopted. */
    method SettleKey(key: Key, want: map<Key, int>, ghost gone: set<Socket>) returns (ghost gone': set<Socket>)
      requires key in mirrors && Socket(key, mirrors[key].born) !in gone
      modifies this`mirrors, this`open, this`stops
      ensures var e := old(mirrors[key]);
              if key in want then mirrors == old(mirrors)[key := Entry(e.born, want[key], false)] && gone' == gone
              else if e.pending then mirrors == old(mirrors) && gone' == gone
              else mirrors == old(mirrors) - {key} && gone' == gone + {Socket(key, e.born)}
      ensures forall was: set<Socket> :: old(open) == was - gone ==> open == was - gone'
      ensures forall was: multiset<Socket> :: old(stops) == was + multiset(gone) ==> stops == was + multiset(gone')
    {
      gone' := gone;
      if key !in want {
        if !mirrors[key].pending {
          gone' := StopAlso(key, gone);
        }
      } else {
        mirrors := mirrors[key := mirrors[key].(pending := false, refs := want[key])];
      }
    }

    method Settle(ghost snapshot: seq<Listener>, want: map<Key, int>)
      requires forall k :: Count(cfg, snapshot, k) == if k in want then want[k] else 0
      requires forall k :: k in want ==> want[k] > 0
      modifies this
      ensures View() == old(View()).Settle(cfg, snapshot)
    {
      ghost var before := old(mirrors);
      ghost var gone: set<Socket> := {};
      var rest := mirrors.Keys;
      while rest != {}
        invariant rest <= mirrors.Keys
        invariant forall k :: k in mirrors <==> k in before && (k in rest || k in want || before[k].pending)
        invariant forall k :: k in mirrors ==>
          mirrors[k] == if k in rest || k !in want then before[k] else Entry(before[k].born, want[k], false)
        invariant forall s :: s in gone <==> s.key in before.Keys - mirrors.Keys && s.born == before[s.key].born
        invariant open == old(open) - gone && stops == old(stops) + multiset(gone) && clock == old(clock)
      {
        var key :| key in rest;
        rest := rest - {key};
        gone := SettleKey(key, want, gone);
      }
      SettleIs(old(View()), cfg, snapshot, View(), gone);
    }

    method OpenMissing(want: map<Key, int>, mac: Mac)
      modifies this
      ensures View() == old(View()).OpenAll(cfg, map k | k in want.Keys - old(mirrors).Keys :: want[k], false, mac)
    {
      clock := clock + 1;
      ghost var before := old(mirrors);
      var rest := want.Keys;
      while rest != {}
        invariant rest <= want.Keys && clock == old(clock) + 1 && stops == old(stops)
        invariant forall k :: k in mirrors <==> k in before || (k in want.Keys - rest && CanOpen(cfg.mirrorIP, mac, k))
        invariant forall k :: k in mirrors ==>
          mirrors[k] == if k in before then before[k] else Entry(clock, want[k], false)
        invariant forall s :: s in open <==> s in old(open) || (s.born == clock && s.key in mirrors.Keys - before.Keys)
      {
        var key :| key in rest;
        rest := rest - {key};
        if key !in mirrors {
          OpenLocked(key, want[key], false, mac);
        }
      }
      OpenAllIs(old(View()), cfg, map k | k in want.Keys - before.Keys :: want[k], mac, View());
    }
  }
}
