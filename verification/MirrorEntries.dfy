/**
 * One key of the mirror table at a time (internal/mirror/mirror.go): the small machine each
 * key runs through events, reservations and their timers, whatever the other keys do.
 */
module MirrorEntries {
  import opened Options
  import opened Listeners
  import opened MacHolder
  import opened MirrorClient
  import opened Mirroring
  import opened HubDelivery

  // ---- events ------------------------------------------------------------------------------

  /** What an event says about a key: nothing, one listener more or less, or how many there are. */
  datatype Word = Silent | Gains | Loses | Lists(n: nat)

  predicate On(cfg: Config, l: Listener, k: Key) { ToMirror(cfg, l) && l.proto == k.proto && l.port == k.port }

  /** The places at which a snapshot lists a listener of `k`. */
  function Places(cfg: Config, ls: seq<Listener>, k: Key): set<nat> {
    set i: nat | i < |ls| && On(cfg, ls[i], k)
  }

  function WordOn(cfg: Config, ev: Event, k: Key): Word {
    match ev
    case Snapshot(ls) => Lists(|Places(cfg, ls, k)|)
    case Add(l) => if On(cfg, l, k) then Gains else Silent
    case Del(l) => if On(cfg, l, k) then Loses else Silent
  }

  function EntryAt(st: State, k: Key): Option<Entry> { if k in st.mirrors then Some(st.mirrors[k]) else None }

  /**
   * One key's machine: a reservation is adopted by the first listener, or snapshot, that names
   * it and outlives any that does not; a counted mirror goes with its last listener; a missing
   * one comes if the Mac lets it. An entry keeps the socket it was opened with.
   */
  function Next(e: Option<Entry>, word: Word, opens: bool, clock: nat): Option<Entry> {
    var counted := e.Some? && !e.value.pending;
    match word
    case Silent => e
    case Gains =>
      if e.None? then (if opens then Some(Entry(clock + 1, 1, false)) else None)
      else Some(Entry(e.value.born, if counted then e.value.refs + 1 else 1, false))
    case Loses =>
      if !counted then e
      else if e.value.refs <= 1 then None
      else Some(Entry(e.value.born, e.value.refs - 1, false))
    case Lists(n) =>
      if n == 0 then (if counted then None else e)
      else if e.None? then (if opens then Some(Entry(clock + 1, n, false)) else None)
      else Some(Entry(e.value.born, n, false))
  }

  lemma {:induction false} CountIsPlaces(cfg: Config, ls: seq<Listener>, k: Key)
    ensures Count(cfg, ls, k) == |Places(cfg, ls, k)|
  {
    if ls != [] {
      var n := |ls| - 1;
      CountIsPlaces(cfg, ls[..n], k);
      TrackedIsPassedOn(cfg, ls[n]);
      assert Places(cfg, ls, k) == Places(cfg, ls[..n], k) + if On(cfg, ls[n], k) then {n} else {};
    }
  }

  lemma WantedIsPlaces(cfg: Config, ls: seq<Listener>, k: Key)
    ensures k in Wanted(cfg, ls) <==> Places(cfg, ls, k) != {}
  {
    if k in Wanted(cfg, ls) {
      var l :| l in ls && cfg.Tracked(l) && KeyOf(l) == k;
      var i: nat :| i < |ls| && ls[i] == l;
      TrackedIsPassedOn(cfg, l);
      assert i in Places(cfg, ls, k);
    }
    if i :| i in Places(cfg, ls, k) {
      TrackedIsPassedOn(cfg, ls[i]);
      assert ls[i] in ls && cfg.Tracked(ls[i]) && KeyOf(ls[i]) == k;
    }
  }

  lemma SettleByKey(st: State, cfg: Config, ls: seq<Listener>, k: Key)
    ensures EntryAt(st.Settle(cfg, ls), k) == Next(EntryAt(st, k), Lists(Count(cfg, ls, k)), false, st.clock)
    ensures st.Settle(cfg, ls).clock == st.clock
  {
  }

  lemma OpenByKey(st: State, cfg: Config, ls: seq<Listener>, mac: Mac, k: Key)
    requires k in Wanted(cfg, ls) <==> Count(cfg, ls, k) != 0
    ensures EntryAt(st.Reconcile(cfg, ls, mac), k) ==
            if k !in st.Settle(cfg, ls).mirrors && Count(cfg, ls, k) != 0 && CanOpen(cfg.mirrorIP, mac, k)
            then Some(Entry(st.Settle(cfg, ls).clock + 1, Count(cfg, ls, k), false))
            else EntryAt(st.Settle(cfg, ls), k)
  {
  }

  lemma SnapshotByKey(st: State, cfg: Config, ls: seq<Listener>, mac: Mac, k: Key)
    ensures EntryAt(st.Reconcile(cfg, ls, mac), k) ==
            Next(EntryAt(st, k), Lists(|Places(cfg, ls, k)|), CanOpen(cfg.mirrorIP, mac, k), st.clock)
  {
    CountIsPlaces(cfg, ls, k);
    WantedIsPlaces(cfg, ls, k);
    assert Places(cfg, ls, k) == {} <==> |Places(cfg, ls, k)| == 0;
    SettleByKey(st, cfg, ls, k);
    OpenByKey(st, cfg, ls, mac, k);
    assert k in st.Settle(cfg, ls).mirrors <==> EntryAt(st.Settle(cfg, ls), k).Some?;
  }

  lemma AddByKey(st: State, cfg: Config, l: Listener, mac: Mac, k: Key)
    ensures EntryAt(st.Add(cfg, l, mac), k) ==
            Next(EntryAt(st, k), if On(cfg, l, k) then Gains else Silent, CanOpen(cfg.mirrorIP, mac, k), st.clock)
  {
    TrackedIsPassedOn(cfg, l);
    if KeyOf(l) !in st.mirrors {
      OpenOne(st, cfg, KeyOf(l), 1, false, mac);
    }
  }

  lemma DelByKey(st: State, cfg: Config, l: Listener, mac: Mac, k: Key)
    requires Skipless(st, cfg)
    ensures EntryAt(st.Del(cfg, l), k) ==
            Next(EntryAt(st, k), if On(cfg, l, k) then Loses else Silent, CanOpen(cfg.mirrorIP, mac, k), st.clock)
  {
    TrackedIsPassedOn(cfg, l);
  }

  /** Every event takes every key's entry to what its own machine says, and no further. */
  lemma EventByKey(st: State, cfg: Config, ev: Event, mac: Mac, k: Key)
    requires Skipless(st, cfg)
    ensures EntryAt(Handle(st, cfg, ev, mac), k) ==
            Next(EntryAt(st, k), WordOn(cfg, ev, k), CanOpen(cfg.mirrorIP, mac, k), st.clock)
  {
    match ev
    case Snapshot(ls) => SnapshotByKey(st, cfg, ls, mac, k);
    case Add(l) => AddByKey(st, cfg, l, mac, k);
    case Del(l) => DelByKey(st, cfg, l, mac, k);
  }

  // ---- reservations --------------------------------------------------------------------------

  /** A reservation the Mac can bind is entered as pending, on its own key, and nothing else moves. */
  lemma ReserveByKey(st: State, cfg: Config, port: Port, mac: Mac, k: Key)
    ensures var tcp := Key("tcp", port);
            EntryAt(st.Reserve(cfg, port, mac), k) ==
            if k == tcp && k !in st.mirrors && CanOpen(cfg.mirrorIP, mac, k) then Some(Entry(st.clock + 1, 0, true))
            else EntryAt(st, k)
  {
    if Key("tcp", port) !in st.mirrors {
      OpenOne(st, cfg, Key("tcp", port), 0, true, mac);
    }
  }

  /** Which requests are decided here at all, and what decides them. */
  lemma ReplyIs(cfg: Config, st: State, r: ReserveReq, mac: Mac, ip: Addr)
    requires cfg.mirrorIP == Some(ip)
    ensures var k, reply := Key("tcp", r.port), ReserveReply(cfg, st, r, mac);
            && (reply == Refused("unsupported") <==> !(r.op == "reserve" && r.proto == "tcp" && r.port != 0))
            && (r.op == "reserve" && r.proto == "tcp" && r.port != 0 ==>
                  && (r.port in cfg.skip || k in st.mirrors ==> reply == Ok)
                  && (r.port !in cfg.skip && k !in st.mirrors ==>
                        && (reply == Ok <==> CanOpen(cfg.mirrorIP, mac, k))
                        && (Trusted(mac) && k !in mac.refused ==>
                              (reply == Refused("inuse") <==> exists l :: l in mac.native && Answers(l, r.port, ip.Unmap())))
                        && (reply == Refused("unknown") <==>
                              k in mac.refused && mac.refused[k] != EADDRINUSE && !MacHeld(cfg.mirrorIP, mac, k))))
  {
    assert "unsupported" != "inuse" && "unsupported" != "unknown" && "inuse" != "unknown" by {
      assert |"unsupported"| == 11 && |"inuse"| == 5 && |"unknown"| == 7;
    }
    if Trusted(mac) && Key("tcp", r.port) !in mac.refused {
      OpensIffNothingAnswers(ip, mac, Key("tcp", r.port));
    }
  }

  /** The reservation `t` stands: pending, with the socket it was opened with. */
  predicate Reserved(st: State, t: Socket) {
    t.key in st.mirrors && st.mirrors[t.key].pending && st.mirrors[t.key].born == t.born
  }

  /**
   * A timer that fires on a standing reservation takes it out of the table and stops its
   * listener, once; every other entry, socket and stop is as it was. On anything else it does nothing.
   */
  lemma TimerReleases(st: State, t: Socket)
    requires st.Valid()
    ensures var after := st.Release(t);
            if Reserved(st, t)
            then && t.key !in after.mirrors && t !in after.open && after.stops[t] == 1 && after.clock == st.clock
                 && (forall k :: k != t.key ==> EntryAt(after, k) == EntryAt(st, k))
                 && (forall x :: x != t ==> (x in after.open <==> x in st.open) && after.stops[x] == st.stops[x])
            else after == st
  {
    assert st.Owns(t) ==> t in st.open;
    if Reserved(st, t) {
      CloseOne(st, t.key);
    }
  }

  /** In every run, once the timer of `t` has fired no reservation `t` stands, and a standing one was stopped by it. */
  lemma ExpiryReleases(cfg: Config, run: seq<Sys>, steps: seq<Step>, i: nat, t: Socket)
    requires IsRun(cfg, run, steps) && i < |steps| && steps[i] == Expire(t)
    ensures var st, after := run[i].client, run[i + 1].client;
            && !Reserved(after, t) && t !in run[i + 1].timers
            && (Reserved(st, t) ==> t.key !in after.mirrors && t !in after.open && after.stops[t] == 1)
            && (forall k :: k != t.key || !Reserved(st, t) ==> EntryAt(after, k) == EntryAt(st, k))
  {
    RunInv(cfg, run, steps, i);
    TimerReleases(run[i].client, t);
  }

  ghost predicate Timed(s: Sys) {
    forall k :: k in s.client.mirrors && s.client.mirrors[k].pending ==> Socket(k, s.client.mirrors[k].born) in s.timers
  }

  /** An event makes nothing a reservation. */
  lemma PendingWasPending(st: State, cfg: Config, ev: Event, mac: Mac, k: Key)
    requires Skipless(st, cfg)
    ensures var after := Handle(st, cfg, ev, mac);
            k in after.mirrors && after.mirrors[k].pending ==> k in st.mirrors && after.mirrors[k] == st.mirrors[k]
  {
    EventByKey(st, cfg, ev, mac, k);
    assert EntryAt(Handle(st, cfg, ev, mac), k).Some? ==> k in Handle(st, cfg, ev, mac).mirrors;
  }

  lemma TimedReceive(cfg: Config, s: Sys, mac: Mac)
    requires Inv(cfg, s) && Timed(s) && Enabled(s, Receive(mac))
    ensures Timed(After(cfg, s, Receive(mac)))
  {
    var ev, after := Sent(s, s.session.ch)[s.session.got], After(cfg, s, Receive(mac)).client;
    forall k | k in after.mirrors && after.mirrors[k].pending ensures Socket(k, after.mirrors[k].born) in s.timers {
      PendingWasPending(s.client, cfg, ev, mac, k);
    }
  }

  lemma TimedReserve(cfg: Config, s: Sys, req: ReserveReq, mac: Mac)
    requires Timed(s)
    ensures Timed(After(cfg, s, Reserve(req, mac)))
  {
    if Arbitrated(cfg, req) {
      var tcp, after := Key("tcp", req.port), s.client.Reserve(cfg, req.port, mac);
      if tcp !in s.client.mirrors {
        OpenOne(s.client, cfg, tcp, 0, true, mac);
        assert tcp in after.mirrors ==> after.mirrors != s.client.mirrors;
      }
    }
  }

  lemma TimedStep(cfg: Config, s: Sys, step: Step)
    requires Inv(cfg, s) && Timed(s) && Enabled(s, step)
    ensures Timed(After(cfg, s, step))
  {
    match step
    case Receive(mac) => TimedReceive(cfg, s, mac);
    case Reserve(req, mac) => TimedReserve(cfg, s, req, mac);
    case _ =>
  }

  /** In every run each reservation that stands has its timer still to come: none is held for ever. */
  lemma {:induction false} ReservationsAreTimed(cfg: Config, run: seq<Sys>, steps: seq<Step>, i: nat, t: Socket)
    requires IsRun(cfg, run, steps) && i < |run| && Reserved(run[i].client, t)
    ensures t in run[i].timers && Enabled(run[i], Expire(t))
  {
    AllTimed(cfg, run, steps, i);
  }

  lemma {:induction false} AllTimed(cfg: Config, run: seq<Sys>, steps: seq<Step>, i: nat)
    requires IsRun(cfg, run, steps) && i < |run|
    ensures Timed(run[i])
  {
    if i > 0 {
      AllTimed(cfg, run, steps, i - 1);
      RunInv(cfg, run, steps, i - 1);
      TimedStep(cfg, run[i - 1], steps[i - 1]);
    }
  }

  /** The event the session is about to handle. */
  ghost function Handled(s: Sys): Event
    requires s.session.Live? && s.session.ch in s.hub.channels && s.session.got < |Sent(s, s.session.ch)|
  {
    Sent(s, s.session.ch)[s.session.got]
  }

  /**
   * What every step does to every entry: an event what the key's machine says, a sweep at the
   * session's end takes it, a reservation or its timer only its own, and no other step touches it.
   */
  lemma StepByKey(cfg: Config, run: seq<Sys>, steps: seq<Step>, i: nat, k: Key)
    requires IsRun(cfg, run, steps) && i < |steps|
    ensures var st, after := run[i].client, run[i + 1].client;
            match steps[i]
            case Receive(mac) =>
              && run[i].session.Live? && run[i].session.ch in run[i].hub.channels
              && run[i].session.got < |Sent(run[i], run[i].session.ch)|
              && EntryAt(after, k) ==
                 Next(EntryAt(st, k), WordOn(cfg, Handled(run[i]), k), CanOpen(cfg.mirrorIP, mac, k), st.clock)
            case CloseAll => EntryAt(after, k) == None
            case Reserve(r, mac) =>
              EntryAt(after, k) ==
              if k == Key("tcp", r.port) && r.op == "reserve" && r.proto == "tcp" && r.port != 0 && r.port !in cfg.skip
                 && k !in st.mirrors && CanOpen(cfg.mirrorIP, mac, k)
              then Some(Entry(st.clock + 1, 0, true)) else EntryAt(st, k)
            case Expire(t) => EntryAt(after, k) == if k == t.key && Reserved(st, t) then None else EntryAt(st, k)
            case _ => EntryAt(after, k) == EntryAt(st, k)
  {
    RunInv(cfg, run, steps, i);
    match steps[i]
    case Receive(mac) => EventByKey(run[i].client, cfg, Handled(run[i]), mac, k);
    case Reserve(r, mac) => ReserveByKey(run[i].client, cfg, r.port, mac, k);
    case Expire(t) => TimerReleases(run[i].client, t);
    case _ =>
  }
}
