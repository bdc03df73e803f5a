/**
 * Every interleaving of park, watch, pop and close: where each connection is, who may be
 * handed it, and the one window in which it is stranded.
 */
module DialPooling {
  import opened DialPool

  /** A pop call: Poking waits for the watchdog, TimedOut has left the queue and still has its last look to take. */
  datatype Phase = Looking | Poking(c: Conn) | Waiting | TimedOut | Gave(c: Conn) | Failed

  /**
   * `sending`: handed to a waiter by a park that has unlocked and not yet sent;
   * `channels`: sent and not yet received; `dropped`: closed by the pool.
   */
  datatype Sys = Sys(
    pool: State, sending: map<Conn, Pop>, channels: map<Pop, Conn>, pops: map<Pop, Phase>,
    dropped: set<Conn>, parked: set<Conn>)

  const INIT := Sys(State({}, [], false, map[]), map[], map[], map[], {}, {})

  datatype Step =
    | Park(c: Conn)
    | Send(c: Conn)
    | Watch(c: Conn, junk: bool)
    | Start(p: Pop)
    | LookUp(p: Pop, pick: Conn)
    | Poked(p: Pop, live: bool)
    | Receive(p: Pop)
    | TimeOut(p: Pop)
    | LastLook(p: Pop)
    | Close

  predicate Enabled(s: Sys, step: Step) {
    match step
    case Park(c) => c !in s.parked
    case Send(c) => c in s.sending
    case Watch(c, _) => c in s.pool.records && !s.pool.records[c].done
    case Start(p) => p !in s.pops
    case LookUp(p, pick) =>
      p in s.pops && s.pops[p].Looking? && (!s.pool.closed && s.pool.conns != {} ==> pick in s.pool.conns && pick in s.pool.records)
    case Poked(p, _) =>
      p in s.pops && s.pops[p].Poking? && s.pops[p].c in s.pool.records && s.pool.records[s.pops[p].c].done
    case Receive(p) => p in s.pops && s.pops[p].Waiting? && p in s.channels
    case TimeOut(p) => p in s.pops && s.pops[p].Waiting?
    case LastLook(p) => p in s.pops && s.pops[p].TimedOut?
    case Close => true
  }

  function After(s: Sys, step: Step): Sys
    requires Enabled(s, step)
  {
    match step
    case Park(c) =>
      var s' := s.(pool := s.pool.Park(c), parked := s.parked + {c});
      (match s.pool.Parking()
       case Refused => s'.(dropped := s.dropped + {c})
       case HandTo(w) => s'.(sending := s.sending[c := w])
       case Pooled => s')
    case Send(c) => s.(sending := s.sending - {c}, channels := s.channels[s.sending[c] := c])
    case Watch(c, junk) =>
      s.(pool := s.pool.Watched(c, junk),
         dropped := if s.pool.records[c].handoff then s.dropped else s.dropped + {c})
    case Start(p) => s.(pops := s.pops[p := Looking])
    case LookUp(p, pick) =>
      if s.pool.closed then s.(pops := s.pops[p := Failed])
      else if s.pool.conns != {} then s.(pool := s.pool.Take(pick), pops := s.pops[p := Poking(pick)])
      else s.(pool := s.pool.Queue(p), pops := s.pops[p := Waiting])
    case Poked(p, live) =>
      var c := s.pops[p].c;
      if s.pool.records[c].bad || !live
      then s.(dropped := s.dropped + {c}, pops := s.pops[p := Looking])
      else s.(pops := s.pops[p := Gave(c)])
    case Receive(p) => s.(channels := s.channels - {p}, pops := s.pops[p := Gave(s.channels[p])])
    case TimeOut(p) => s.(pool := s.pool.Forget(p), pops := s.pops[p := TimedOut])
    case LastLook(p) =>
      if p in s.channels then s.(channels := s.channels - {p}, pops := s.pops[p := Gave(s.channels[p])])
      else s.(pops := s.pops[p := Failed])
    case Close => s.(pool := s.pool.Close(), dropped := s.dropped + s.pool.conns)
  }

  ghost predicate StepAt(run: seq<Sys>, steps: seq<Step>, i: nat)
    requires i + 1 < |run| && i < |steps|
  {
    Enabled(run[i], steps[i]) && run[i + 1] == After(run[i], steps[i])
  }

  ghost predicate IsRun(run: seq<Sys>, steps: seq<Step>) {
    |run| == |steps| + 1 && run[0] == INIT && forall i :: 0 <= i < |steps| ==> StepAt(run, steps, i)
  }

  // ---- places -------------------------------------------------------------------

  datatype Place = InPool | InFlight(w: Pop) | InChannel(w: Pop) | Held(p: Pop) | Returned(p: Pop) | Dropped

  predicate At(s: Sys, c: Conn, place: Place) {
    match place
    case InPool => c in s.pool.conns
    case InFlight(w) => c in s.sending && s.sending[c] == w
    case InChannel(w) => w in s.channels && s.channels[w] == c
    case Held(p) => p in s.pops && s.pops[p] == Poking(c)
    case Returned(p) => p in s.pops && s.pops[p] == Gave(c)
    case Dropped => c in s.dropped
  }

  /** `place` is where the connection is, and it is nowhere else. */
  ghost predicate OnlyAt(s: Sys, c: Conn, place: Place) {
    forall pl :: At(s, c, pl) <==> pl == place
  }

  /** Where a step takes a connection that is at `place`. */
  function Moved(s: Sys, step: Step, c: Conn, place: Place): Place {
    match place
    case InPool =>
      if step == Close || (step.Watch? && step.c == c) then Dropped
      else if step.LookUp? && !s.pool.closed && step.pick == c then Held(step.p)
      else place
    case InFlight(w) => if step == Send(c) then InChannel(w) else place
    case InChannel(w) =>
      if step == Receive(w) || step == LastLook(w) then Returned(w) else place
    case Held(p) =>
      if step.Poked? && step.p == p
      then (if (c in s.pool.records && s.pool.records[c].bad) || !step.live then Dropped else Returned(p))
      else place
    case Returned(_) => place
    case Dropped => place
  }

  // ---- invariants -----------------------------------------------------------------

  /** A queued waiter still waits, and nothing was handed to it. */
  ghost predicate WaiterInv(s: Sys, w: Pop) {
    && w in s.pops && s.pops[w].Waiting? && w !in s.channels
    && (forall c :: c in s.sending ==> s.sending[c] != w)
  }

  /** A pop that was handed a connection waits for it, or has stopped to. */
  predicate Addressed(s: Sys, w: Pop) {
    w in s.pops && (s.pops[w].Waiting? || s.pops[w].TimedOut? || s.pops[w].Failed?)
  }

  /** A waiter is sent one connection at most, and one that was never pooled. */
  ghost predicate SendingInv(s: Sys, c: Conn)
    requires c in s.sending
  {
    && Addressed(s, s.sending[c]) && s.sending[c] !in s.channels && c !in s.pool.records
    && (forall d :: d in s.sending && s.sending[d] == s.sending[c] ==> d == c)
  }

  ghost predicate HandedInv(s: Sys) {
    && (forall w :: w in s.pool.waiters ==> WaiterInv(s, w))
    && (forall c :: c in s.sending ==> SendingInv(s, c))
    && (forall w :: w in s.channels ==> Addressed(s, w) && s.channels[w] !in s.pool.records)
  }

  ghost predicate RecordInv(s: Sys, c: Conn)
    requires c in s.pool.records
  {
    var r := s.pool.records[c];
    && c in s.parked
    && (c in s.pool.conns ==> !r.handoff && !r.done)
    && (!r.handoff && !r.done ==> c in s.pool.conns || c in s.dropped)
  }

  ghost predicate PhaseInv(s: Sys, p: Pop)
    requires p in s.pops
  {
    match s.pops[p]
    case Poking(c) => c in s.pool.records && s.pool.records[c].handoff
    case Gave(c) => c in s.pool.records ==> s.pool.records[c] == Record(true, false, true)
    case _ => true
  }

  ghost predicate RecordsInv(s: Sys) {
    && (forall c :: c in s.pool.records ==> RecordInv(s, c))
    && (forall p :: p in s.pops ==> PhaseInv(s, p))
  }

  ghost predicate PlacesInv(s: Sys) {
    && (forall c :: c in s.parked ==> exists place :: OnlyAt(s, c, place))
    && (forall c, place :: At(s, c, place) ==> c in s.parked)
  }

  ghost predicate Inv(s: Sys) {
    s.pool.Valid() && HandedInv(s) && RecordsInv(s) && PlacesInv(s)
  }

  lemma PoolStep(s: Sys, step: Step)
    requires s.pool.Valid() && HandedInv(s) && Enabled(s, step)
    ensures After(s, step).pool.Valid()
  {
    match step
    case Park(c) => SectionsKeepValid(s.pool, c, 0);
    case Watch(c, _) => SectionsKeepValid(s.pool, c, 0);
    case LookUp(p, pick) =>
      SectionsKeepValid(s.pool, pick, p);
      forall w | w in s.pool.waiters ensures w in s.pops && s.pops[w].Waiting? {
        assert WaiterInv(s, w);
      }
    case TimeOut(p) => SectionsKeepValid(s.pool, 0, p);
    case Close => SectionsKeepValid(s.pool, 0, 0);
    case _ =>
  }

  lemma WaiterJoins(s: Sys, step: Step, w: Pop)
    requires HandedInv(s) && Enabled(s, step) && step.LookUp? && step.p == w && w in After(s, step).pool.waiters
    requires w !in s.pool.waiters
    ensures WaiterInv(After(s, step), w)
  {
    forall c | c in s.sending ensures s.sending[c] != w {
      assert SendingInv(s, c);
    }
  }

  lemma WaiterStays(s: Sys, step: Step, w: Pop)
    requires s.pool.Valid() && Enabled(s, step) && WaiterInv(s, w) && w in After(s, step).pool.waiters
    requires step.Send? ==> s.sending[step.c] != w
    ensures WaiterInv(After(s, step), w)
  {
    if step.TimeOut? {
      WithoutKeeps(s.pool.waiters, step.p);
    }
  }

  lemma WaiterStep(s: Sys, step: Step, w: Pop)
    requires s.pool.Valid() && HandedInv(s) && Enabled(s, step) && w in After(s, step).pool.waiters
    ensures WaiterInv(After(s, step), w)
  {
    if w in s.pool.waiters {
      WaiterStays(s, step, w);
    } else {
      if step.TimeOut? {
        WithoutKeeps(s.pool.waiters, step.p);
      }
      WaiterJoins(s, step, w);
    }
  }

  lemma SendingSurvivesPark(s: Sys, step: Step, c: Conn)
    requires HandedInv(s) && Enabled(s, step) && step.Park? && c in s.sending && c in s.parked
    ensures SendingInv(After(s, step), c)
  {
    assert SendingInv(s, c);
    if s.pool.Parking().HandTo? {
      assert WaiterInv(s, s.pool.waiters[0]);
    }
  }

  lemma SendingStays(s: Sys, step: Step, c: Conn)
    requires Inv(s) && Enabled(s, step) && c in s.sending && c in After(s, step).sending
    ensures SendingInv(After(s, step), c)
  {
    assert At(s, c, InFlight(s.sending[c]));
    if step.Park? {
      SendingSurvivesPark(s, step, c);
    } else {
      assert SendingInv(s, c);
    }
  }

  lemma SendingStarts(s: Sys, step: Step, c: Conn)
    requires Inv(s) && Enabled(s, step) && c !in s.sending && c in After(s, step).sending
    ensures SendingInv(After(s, step), c)
  {
    assert step == Park(c) && s.pool.Parking().HandTo?;
    assert WaiterInv(s, s.pool.waiters[0]);
    assert c !in s.pool.records by {
      forall d | d in s.pool.records ensures d in s.parked { assert RecordInv(s, d); }
    }
  }

  lemma HandedStep(s: Sys, step: Step)
    requires Inv(s) && Enabled(s, step)
    ensures HandedInv(After(s, step))
  {
    var s' := After(s, step);
    forall w | w in s'.pool.waiters ensures WaiterInv(s', w) {
      WaiterStep(s, step, w);
    }
    forall c | c in s'.sending ensures SendingInv(s', c) {
      if c in s.sending {
        SendingStays(s, step, c);
      } else {
        SendingStarts(s, step, c);
      }
    }
    forall w | w in s'.channels ensures Addressed(s', w) && s'.channels[w] !in s'.pool.records {
      if step.Send? && s.sending[step.c] == w {
        assert SendingInv(s, step.c);
      } else {
        assert At(s, s.channels[w], InChannel(w));
      }
    }
  }

  lemma RecordStep(s: Sys, step: Step, c: Conn)
    requires RecordsInv(s) && Enabled(s, step) && c in After(s, step).pool.records
    ensures RecordInv(After(s, step), c)
  {
    if c in s.pool.records {
      assert RecordInv(s, c);
    }
  }

  lemma PhaseOfTaken(s: Sys, step: Step, p: Pop)
    requires s.pool.Valid() && RecordsInv(s) && Enabled(s, step) && step.LookUp? && p in After(s, step).pops
    ensures PhaseInv(After(s, step), p)
  {
    if p in s.pops {
      assert PhaseInv(s, p);
    }
    if step.pick in s.pool.records {
      assert RecordInv(s, step.pick);
    }
  }

  lemma PhaseOfGiven(s: Sys, step: Step, p: Pop)
    requires HandedInv(s) && RecordsInv(s) && Enabled(s, step) && p in After(s, step).pops
    requires step.Poked? || step.Receive? || step.LastLook? || step.TimeOut? || step.Start?
    ensures PhaseInv(After(s, step), p)
  {
    if p in s.pops {
      assert PhaseInv(s, p);
    }
  }

  lemma PhaseOfOthers(s: Sys, step: Step, p: Pop)
    requires RecordsInv(s) && PlacesInv(s) && Enabled(s, step) && p in After(s, step).pops
    requires step.Park? || step.Watch? || step.Send? || step.Close?
    ensures PhaseInv(After(s, step), p)
  {
    assert PhaseInv(s, p);
    if s.pops[p].Gave? {
      assert At(s, s.pops[p].c, Returned(p));
    }
  }

  lemma PhaseStep(s: Sys, step: Step, p: Pop)
    requires Inv(s) && Enabled(s, step) && p in After(s, step).pops
    ensures PhaseInv(After(s, step), p)
  {
    match step
    case LookUp(_, _) => PhaseOfTaken(s, step, p);
    case Park(_) => PhaseOfOthers(s, step, p);
    case Watch(_, _) => PhaseOfOthers(s, step, p);
    case Send(_) => PhaseOfOthers(s, step, p);
    case Close => PhaseOfOthers(s, step, p);
    case _ => PhaseOfGiven(s, step, p);
  }

  lemma RecordsStep(s: Sys, step: Step)
    requires Inv(s) && Enabled(s, step)
    ensures RecordsInv(After(s, step))
  {
    var s' := After(s, step);
    forall c | c in s'.pool.records ensures RecordInv(s', c) {
      RecordStep(s, step, c);
    }
    forall p | p in s'.pops ensures PhaseInv(s', p) {
      PhaseStep(s, step, p);
    }
  }

  /** Where a step's connection comes from. */
  function Source(s: Sys, step: Step): Place {
    match step
    case Send(c) => InFlight(if c in s.sending then s.sending[c] else 0)
    case Poked(p, _) => Held(p)
    case Receive(p) => InChannel(p)
    case LastLook(p) => InChannel(p)
    case _ => InPool
  }

  lemma SendPlace(s: Sys, step: Step, c: Conn, place: Place, pl: Place)
    requires HandedInv(s) && OnlyAt(s, c, place) && Enabled(s, step) && step.Send?
    ensures At(After(s, step), c, pl) <==> pl == Moved(s, step, c, place)
  {
    assert At(s, c, pl) <==> pl == place;
    assert At(s, c, Source(s, step)) <==> Source(s, step) == place;
    assert SendingInv(s, step.c);
  }

  lemma GivePlace(s: Sys, step: Step, c: Conn, place: Place, pl: Place)
    requires OnlyAt(s, c, place) && Enabled(s, step) && (step.Poked? || step.Receive? || step.LastLook?)
    ensures At(After(s, step), c, pl) <==> pl == Moved(s, step, c, place)
  {
    assert At(s, c, place);
    assert At(s, c, pl) <==> pl == place;
    assert At(s, c, Source(s, step)) <==> Source(s, step) == place;
  }

  lemma ParkPlace(s: Sys, step: Step, c: Conn, place: Place, pl: Place)
    requires OnlyAt(s, c, place) && c in s.parked && Enabled(s, step) && step.Park?
    ensures At(After(s, step), c, pl) <==> pl == Moved(s, step, c, place)
  {
    assert At(s, c, pl) <==> pl == place;
  }

  lemma WatchPlace(s: Sys, step: Step, c: Conn, place: Place, pl: Place)
    requires RecordsInv(s) && OnlyAt(s, c, place) && Enabled(s, step) && step.Watch?
    ensures At(After(s, step), c, pl) <==> pl == Moved(s, step, c, place)
  {
    assert At(s, c, place);
    assert At(s, c, pl) <==> pl == place;
    assert At(s, c, InPool) <==> InPool == place;
    assert RecordInv(s, step.c);
  }

  lemma PopPlace(s: Sys, step: Step, c: Conn, place: Place, pl: Place)
    requires OnlyAt(s, c, place) && Enabled(s, step)
    requires step.Start? || step.LookUp? || step.TimeOut? || step.Close?
    ensures At(After(s, step), c, pl) <==> pl == Moved(s, step, c, place)
  {
    assert At(s, c, pl) <==> pl == place;
    assert At(s, c, InPool) <==> InPool == place;
  }

  /** Every step takes a connection from its one place to one place: Moved's. */
  lemma PlaceStep(s: Sys, step: Step, c: Conn, place: Place)
    requires Inv(s) && Enabled(s, step) && OnlyAt(s, c, place)
    ensures OnlyAt(After(s, step), c, Moved(s, step, c, place))
  {
    assert At(s, c, place);
    forall pl ensures At(After(s, step), c, pl) <==> pl == Moved(s, step, c, place) {
      match step
      case Park(_) => ParkPlace(s, step, c, place, pl);
      case Watch(_, _) => WatchPlace(s, step, c, place, pl);
      case Send(_) => SendPlace(s, step, c, place, pl);
      case Poked(_, _) => GivePlace(s, step, c, place, pl);
      case Receive(_) => GivePlace(s, step, c, place, pl);
      case LastLook(_) => GivePlace(s, step, c, place, pl);
      case _ => PopPlace(s, step, c, place, pl);
    }
  }

  /** A connection just parked: refused and closed, in flight to the longest waiter, or pooled. */
  function Landed(s: Sys): Place {
    match s.pool.Parking()
    case Refused => Dropped
    case HandTo(w) => InFlight(w)
    case Pooled => InPool
  }

  lemma ParkLands(s: Sys, c: Conn)
    requires Inv(s) && Enabled(s, Park(c))
    ensures OnlyAt(After(s, Park(c)), c, Landed(s))
  {
    var s' := After(s, Park(c));
    forall pl ensures At(s', c, pl) <==> pl == Landed(s) {
      assert !At(s, c, pl);
    }
  }

  /** Nothing is anywhere that was never parked. */
  lemma NothingFromNowhere(s: Sys, step: Step, c: Conn, pl: Place)
    requires Inv(s) && Enabled(s, step) && c !in After(s, step).parked
    ensures !At(After(s, step), c, pl)
  {
    assert !At(s, c, pl) && !At(s, c, Source(s, step));
    forall d | d in s.pool.records ensures d in s.parked {
      assert RecordInv(s, d);
    }
    if step.Park? || step.Watch? || step.LookUp? || step.Close? {
      NothingPooled(s, step, c, pl);
    }
  }

  lemma NothingPooled(s: Sys, step: Step, c: Conn, pl: Place)
    requires Enabled(s, step) && (step.Park? || step.Watch? || step.LookUp? || step.Close?)
    requires !At(s, c, pl) && !At(s, c, InPool) && c !in s.pool.records && c !in After(s, step).parked
    ensures !At(After(s, step), c, pl)
  {
  }

  lemma PlacesStep(s: Sys, step: Step)
    requires Inv(s) && Enabled(s, step)
    ensures PlacesInv(After(s, step))
  {
    var s' := After(s, step);
    forall c | c in s'.parked ensures exists place :: OnlyAt(s', c, place) {
      if c in s.parked {
        var place :| OnlyAt(s, c, place);
        PlaceStep(s, step, c, place);
      } else {
        assert step == Park(c);
        ParkLands(s, c);
      }
    }
    forall c, pl | At(s', c, pl) ensures c in s'.parked {
      if c !in s'.parked {
        NothingFromNowhere(s, step, c, pl);
      }
    }
  }

  lemma StepInv(s: Sys, step: Step)
    requires Inv(s) && Enabled(s, step)
    ensures Inv(After(s, step))
  {
    PoolStep(s, step);
    HandedStep(s, step);
    RecordsStep(s, step);
    PlacesStep(s, step);
  }

  lemma {:induction false} RunInv(run: seq<Sys>, steps: seq<Step>, i: nat)
    requires IsRun(run, steps) && i < |run|
    ensures Inv(run[i])
  {
    if i > 0 {
      RunInv(run, steps, i - 1);
      assert StepAt(run, steps, i - 1);
      StepInv(run[i - 1], steps[i - 1]);
    }
  }

  // ---- what every interleaving keeps -------------------------------------------------

  /** The pool is empty while anybody queues, never holds more than its cap, and stays empty once closed. */
  lemma PoolBounded(run: seq<Sys>, steps: seq<Step>, i: nat)
    requires IsRun(run, steps) && i < |run|
    ensures run[i].pool.waiters != [] ==> run[i].pool.conns == {}
    ensures |run[i].pool.conns| <= POOL_CAP
    ensures run[i].pool.closed ==> run[i].pool.conns == {}
  {
    RunInv(run, steps, i);
  }

  /** Every connection ever passed to park is in exactly one place. */
  lemma OnePlace(run: seq<Sys>, steps: seq<Step>, i: nat, c: Conn) returns (place: Place)
    requires IsRun(run, steps) && i < |run| && c in run[i].parked
    ensures OnlyAt(run[i], c, place)
  {
    RunInv(run, steps, i);
    place :| OnlyAt(run[i], c, place);
  }

  /** Places only go forward: pooled or in flight, then held or sent, then returned or closed for good. */
  function Stage(place: Place): nat {
    match place
    case InPool => 0
    case InFlight(_) => 0
    case InChannel(_) => 1
    case Held(_) => 1
    case Returned(_) => 2
    case Dropped => 2
  }

  lemma {:induction false} OnlyForward(run: seq<Sys>, steps: seq<Step>, i: nat, j: nat, c: Conn, from: Place) returns (to: Place)
    requires IsRun(run, steps) && i <= j < |run| && OnlyAt(run[i], c, from)
    ensures OnlyAt(run[j], c, to) && (to == from || Stage(from) < Stage(to))
  {
    if i == j {
      to := from;
    } else {
      var mid := OnlyForward(run, steps, i, j - 1, c, from);
      RunInv(run, steps, j - 1);
      assert StepAt(run, steps, j - 1);
      PlaceStep(run[j - 1], steps[j - 1], c, mid);
      to := Moved(run[j - 1], steps[j - 1], c, mid);
    }
  }

  /** No connection is delivered twice: two pops that return it, at any two moments, are one pop. */
  lemma DeliveredOnce(run: seq<Sys>, steps: seq<Step>, i: nat, j: nat, c: Conn, p: Pop, q: Pop)
    requires IsRun(run, steps) && i <= j < |run|
    requires At(run[i], c, Returned(p)) && At(run[j], c, Returned(q))
    ensures p == q
  {
    RunInv(run, steps, i);
    var place := OnePlace(run, steps, i, c);
    assert At(run[i], c, Returned(p)) <==> Returned(p) == place;
    var to := OnlyForward(run, steps, i, j, c, place);
    assert At(run[j], c, Returned(q)) <==> Returned(q) == to;
  }

  /** A connection that was pooled is returned only once its watchdog has finished, on the deadline poke. */
  lemma ReturnedIsUnwatched(run: seq<Sys>, steps: seq<Step>, i: nat, c: Conn, p: Pop)
    requires IsRun(run, steps) && i < |run| && At(run[i], c, Returned(p)) && c in run[i].pool.records
    ensures run[i].pool.records[c] == Record(true, false, true)
  {
    RunInv(run, steps, i);
    assert PhaseInv(run[i], p);
  }

  /** On its way to a pop call that has already failed. */
  predicate Astray(s: Sys, place: Place) {
    (place.InFlight? || place.InChannel?) && place.w in s.pops && s.pops[place.w].Failed?
  }

  ghost predicate Stranded(s: Sys, c: Conn) { exists place :: At(s, c, place) && Astray(s, place) }

  /** The one window: a pop takes its last look while park has unlocked and not yet sent. */
  lemma StrandedExactly(run: seq<Sys>, steps: seq<Step>, i: nat, c: Conn)
    requires IsRun(run, steps) && i < |steps|
    ensures Stranded(run[i + 1], c) && !Stranded(run[i], c) <==>
            c in run[i].sending && steps[i] == LastLook(run[i].sending[c])
  {
    RunInv(run, steps, i);
    assert StepAt(run, steps, i);
    StrandStep(run[i], steps[i], c);
  }

  lemma StrandStep(s: Sys, step: Step, c: Conn)
    requires Inv(s) && Enabled(s, step)
    ensures Stranded(After(s, step), c) && !Stranded(s, c) <==> c in s.sending && step == LastLook(s.sending[c])
  {
    var s' := After(s, step);
    if c in s.parked {
      var place :| OnlyAt(s, c, place);
      var place' := Moved(s, step, c, place);
      PlaceStep(s, step, c, place);
      assert Stranded(s, c) <==> Astray(s, place) by { assert At(s, c, place); }
      assert Stranded(s', c) <==> Astray(s', place') by { assert At(s', c, place'); }
      AstrayStep(s, step, c, place);
    } else {
      StepInv(s, step);
      if step == Park(c) {
        ParkLands(s, c);
        if s.pool.Parking().HandTo? { assert WaiterInv(s, s.pool.waiters[0]); }
      }
      if c in s.sending { assert At(s, c, InFlight(s.sending[c])); }
    }
  }

  lemma AstrayInFlight(s: Sys, step: Step, c: Conn, w: Pop)
    requires HandedInv(s) && Enabled(s, step) && At(s, c, InFlight(w))
    ensures Astray(After(s, step), Moved(s, step, c, InFlight(w))) && !Astray(s, InFlight(w)) <==> step == LastLook(w)
  {
    assert SendingInv(s, c);
  }

  lemma AstrayInChannel(s: Sys, step: Step, c: Conn, w: Pop)
    requires HandedInv(s) && Enabled(s, step) && At(s, c, InChannel(w))
    ensures !(Astray(After(s, step), Moved(s, step, c, InChannel(w))) && !Astray(s, InChannel(w)))
  {
    assert Addressed(s, w);
  }

  lemma AstrayStep(s: Sys, step: Step, c: Conn, place: Place)
    requires Inv(s) && Enabled(s, step) && OnlyAt(s, c, place)
    ensures Astray(After(s, step), Moved(s, step, c, place)) && !Astray(s, place) <==>
            c in s.sending && step == LastLook(s.sending[c])
  {
    assert At(s, c, place);
    assert c in s.sending ==> At(s, c, InFlight(s.sending[c]));
    match place
    case InFlight(w) => AstrayInFlight(s, step, c, w);
    case InChannel(w) => AstrayInChannel(s, step, c, w);
    case _ =>
  }

  lemma StrandedStays(s: Sys, step: Step, c: Conn)
    requires Inv(s) && Enabled(s, step) && Stranded(s, c)
    ensures Stranded(After(s, step), c)
  {
    var place :| OnlyAt(s, c, place);
    var astray :| At(s, c, astray) && Astray(s, astray);
    PlaceStep(s, step, c, place);
    assert At(After(s, step), c, Moved(s, step, c, place));
  }

  /** And it stays there: a stranded connection is at no later moment with a caller, or closed. */
  lemma {:induction false} StrandedForGood(run: seq<Sys>, steps: seq<Step>, i: nat, j: nat, c: Conn)
    requires IsRun(run, steps) && i <= j < |run| && Stranded(run[i], c)
    ensures Stranded(run[j], c)
    ensures forall p :: !At(run[j], c, Returned(p))
    ensures !At(run[j], c, Dropped)
  {
    if i < j {
      StrandedForGood(run, steps, i, j - 1, c);
      RunInv(run, steps, j - 1);
      assert StepAt(run, steps, j - 1);
      StrandedStays(run[j - 1], steps[j - 1], c);
    }
    RunInv(run, steps, j);
    StrandedIsNowhereElse(run[j], c);
  }

  lemma StrandedIsNowhereElse(s: Sys, c: Conn)
    requires Inv(s) && Stranded(s, c)
    ensures forall p :: !At(s, c, Returned(p))
    ensures !At(s, c, Dropped)
  {
    var place :| OnlyAt(s, c, place);
    var astray :| At(s, c, astray) && Astray(s, astray);
    assert astray == place;
  }

  /** One pop call, one connection, nothing pooled. */
  function Lone(waiters: seq<Pop>, sending: map<Conn, Pop>, phase: Phase, parked: set<Conn>): Sys {
    Sys(State({}, waiters, false, map[]), sending, map[], map[1 := phase], {}, parked)
  }

  lemma LoneQueues()
    ensures Enabled(INIT, Start(1)) && After(INIT, Start(1)) == Lone([], map[], Looking, {})
    ensures var s := Lone([], map[], Looking, {});
            Enabled(s, LookUp(1, 0)) && After(s, LookUp(1, 0)) == Lone([1], map[], Waiting, {})
  {
    assert map[1 := Looking][1 := Waiting] == map[1 := Waiting] && [] + [1] == [1];
  }

  lemma LoneIsPromised()
    ensures var s := Lone([1], map[], Waiting, {});
            Enabled(s, Park(7)) && After(s, Park(7)) == Lone([], map[7 := 1], Waiting, {7})
  {
    assert [1][1..] == [] && {} + {7} == {7};
  }

  lemma LoneGivesUp()
    ensures var s := Lone([], map[7 := 1], Waiting, {7});
            Enabled(s, TimeOut(1)) && After(s, TimeOut(1)) == Lone([], map[7 := 1], TimedOut, {7})
    ensures var s := Lone([], map[7 := 1], TimedOut, {7});
            Enabled(s, LastLook(1)) && After(s, LastLook(1)) == Lone([], map[7 := 1], Failed, {7})
  {
    assert map[1 := Waiting][1 := TimedOut] == map[1 := TimedOut];
    assert map[1 := TimedOut][1 := Failed] == map[1 := Failed];
  }

  /** The window is real: a pop that gives up while the connection it was promised is on its way. */
  lemma StrandingHappens() returns (run: seq<Sys>, steps: seq<Step>)
    ensures IsRun(run, steps) && Stranded(run[|run| - 1], 7)
    ensures steps == [Start(1), LookUp(1, 0), Park(7), TimeOut(1), LastLook(1)]
  {
    steps := [Start(1), LookUp(1, 0), Park(7), TimeOut(1), LastLook(1)];
    run := [INIT, Lone([], map[], Looking, {}), Lone([1], map[], Waiting, {}), Lone([], map[7 := 1], Waiting, {7}),
            Lone([], map[7 := 1], TimedOut, {7}), Lone([], map[7 := 1], Failed, {7})];
    LoneQueues();
    LoneIsPromised();
    LoneGivesUp();
    assert At(run[5], 7, InFlight(1)) && Astray(run[5], InFlight(1));
  }
}
