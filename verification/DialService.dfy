/**
 * The pool as its callers see it (internal/agent/dialpool.go): what becomes of a parked
 * connection and of a pop, that pops are served in the order they queued, and that none is stuck.
 */
module DialService {
  import opened DialPool
  import opened DialPooling

  // ---- one step -------------------------------------------------------------------------

  /** Every connection but `c` is where it was. */
  ghost predicate OthersStay(s: Sys, after: Sys, c: Conn) {
    forall d, pl :: d != c ==> (At(after, d, pl) <==> At(s, d, pl))
  }

  /** Every pop but `p` stands where it stood. */
  predicate OtherPopsStay(s: Sys, after: Sys, p: Pop) { after.pops - {p} == s.pops - {p} }

  /**
   * With the pool open, fewer than 32 in it and nobody queued, a parked connection is pooled
   * with a watchdog that has seen nothing; with somebody queued it is on its way to the one
   * queued first, and the rest move up; otherwise, and only then, it is closed.
   */
  lemma ParkServes(s: Sys, c: Conn)
    requires Inv(s) && Enabled(s, Park(c))
    ensures OthersStay(s, After(s, Park(c)), c)
    ensures var after := After(s, Park(c));
            && after.pops == s.pops && after.pool.closed == s.pool.closed
            && (!s.pool.closed && s.pool.waiters == [] && |s.pool.conns| < 32 ==>
                  At(after, c, InPool) && after.pool.records == s.pool.records[c := Record(false, false, false)]
                  && after.pool.waiters == [])
            && (!s.pool.closed && s.pool.waiters != [] ==>
                  At(after, c, InFlight(s.pool.waiters[0])) && after.pool.waiters == s.pool.waiters[1..])
            && (At(after, c, Dropped) <==> s.pool.closed || |s.pool.conns| >= 32)
            && (At(after, c, Dropped) ==> after.pool == s.pool)
  {
    assert !At(s, c, Dropped);
    forall d, pl | d != c ensures At(After(s, Park(c)), d, pl) <==> At(s, d, pl) {
      ParkElsewhere(s, c, d, pl);
    }
  }

  lemma ParkElsewhere(s: Sys, c: Conn, d: Conn, pl: Place)
    requires Enabled(s, Park(c)) && d != c
    ensures At(After(s, Park(c)), d, pl) <==> At(s, d, pl)
  {
  }

  /** A pop's look: none when closed; any pooled connection, now spoken for; else the last place in the queue. */
  lemma LookUpServes(s: Sys, p: Pop, pick: Conn)
    requires Inv(s) && Enabled(s, LookUp(p, pick))
    ensures var after := After(s, LookUp(p, pick));
            && OtherPopsStay(s, after, p) && after.pool.closed == s.pool.closed && after.dropped == s.dropped
            && (s.pool.closed ==> after.pops[p] == Failed && after.pool == s.pool)
            && (!s.pool.closed && s.pool.conns != {} ==>
                  && At(s, pick, InPool) && !At(after, pick, InPool) && At(after, pick, Held(p)) && OthersStay(s, after, pick)
                  && after.pool.waiters == s.pool.waiters && after.pool.records[pick].handoff)
            && (!s.pool.closed && s.pool.conns == {} ==>
                  after.pops[p] == Waiting && after.pool.waiters == s.pool.waiters + [p] && after.pool.conns == {})
  {
  }

  /** A watchdog whose read returns closes the connection unless a pop has spoken for it, and records what it saw. */
  lemma WatchServes(s: Sys, c: Conn, junk: bool)
    requires Inv(s) && Enabled(s, Watch(c, junk))
    ensures var after := After(s, Watch(c, junk));
            && OthersStay(s, after, c) && after.pops == s.pops && after.pool.waiters == s.pool.waiters
            && after.pool.records[c].done && after.pool.records[c].bad == junk && after.pool.closed == s.pool.closed
            && (s.pool.records[c].handoff ==> (forall pl :: At(after, c, pl) <==> At(s, c, pl)))
            && (!s.pool.records[c].handoff ==> At(after, c, Dropped) && !At(after, c, InPool))
  {
  }

  /** A poked connection that had spoken, or is dead, is closed and the pop looks again; otherwise the pop returns it. */
  lemma PokedServes(s: Sys, p: Pop, live: bool)
    requires Inv(s) && Enabled(s, Poked(p, live))
    ensures var after, c := After(s, Poked(p, live)), s.pops[p].c;
            && OtherPopsStay(s, after, p) && OthersStay(s, after, c) && after.pool == s.pool
            && if live && !s.pool.records[c].bad then At(after, c, Returned(p)) && after.dropped == s.dropped
               else after.pops[p] == Looking && At(after, c, Dropped)
  {
  }

  /** A waiting pop returns what it was sent; one that timed out leaves the queue, the others keeping their order. */
  lemma WaiterServed(s: Sys, p: Pop)
    requires Inv(s)
    ensures Enabled(s, Receive(p)) ==>
              var after := After(s, Receive(p));
              At(after, s.channels[p], Returned(p)) && OtherPopsStay(s, after, p) && after.pool == s.pool && p !in after.channels
    ensures Enabled(s, TimeOut(p)) ==>
              var after := After(s, TimeOut(p));
              && after.pops[p] == TimedOut && OtherPopsStay(s, after, p)
              && after.pool == s.pool.(waiters := after.pool.waiters) && p !in after.pool.waiters
              && (forall a, b :: Ahead(s.pool.waiters, a, b) && a != p && b != p ==> Ahead(after.pool.waiters, a, b))
              && (forall w :: w in after.pool.waiters ==> w in s.pool.waiters)
    ensures Enabled(s, LastLook(p)) ==>
              var after := After(s, LastLook(p));
              && OtherPopsStay(s, after, p) && after.pool == s.pool
              && if p in s.channels then At(after, s.channels[p], Returned(p)) else after.pops[p] == Failed
  {
    if Enabled(s, TimeOut(p)) {
      WithoutKeeps(s.pool.waiters, p);
      forall a, b | Ahead(s.pool.waiters, a, b) && a != p && b != p ensures Ahead(Without(s.pool.waiters, p), a, b) {
        WithoutOrder(s.pool.waiters, p, a, b);
      }
    }
  }

  /** Closing drops what is pooled, and nothing else; the queue is left to time out. */
  lemma CloseServes(s: Sys)
    requires Inv(s)
    ensures var after := After(s, Close);
            && after.pool.closed && after.pool.conns == {} && after.pool.waiters == s.pool.waiters && after.pops == s.pops
            && (forall c :: At(after, c, Dropped) <==> At(s, c, Dropped) || At(s, c, InPool))
            && (forall c, pl: Place :: !pl.Dropped? && !pl.InPool? ==> (At(after, c, pl) <==> At(s, c, pl)))
  {
  }

  // ---- in order ----------------------------------------------------------------------------

  /** `a` stands in the queue before `b`. */
  ghost predicate Ahead(queue: seq<Pop>, a: Pop, b: Pop) {
    exists i, j :: 0 <= i < j < |queue| && queue[i] == a && queue[j] == b
  }

  lemma {:induction false} WithoutOrder(queue: seq<Pop>, w: Pop, a: Pop, b: Pop)
    requires Ahead(queue, a, b) && a != w && b != w
    ensures Ahead(Without(queue, w), a, b)
  {
    var i, j :| 0 <= i < j < |queue| && queue[i] == a && queue[j] == b;
    var rest := Without(queue[1..], w);
    if queue[0] == w {
      assert queue[1..][i - 1] == a && queue[1..][j - 1] == b;
    } else if i == 0 {
      var k := WithoutFinds(queue[1..], w, j - 1);
      assert ([queue[0]] + rest)[0] == a && ([queue[0]] + rest)[k + 1] == b;
    } else {
      assert queue[1..][i - 1] == a && queue[1..][j - 1] == b;
      WithoutOrder(queue[1..], w, a, b);
      var m, n :| 0 <= m < n < |rest| && rest[m] == a && rest[n] == b;
      assert ([queue[0]] + rest)[m + 1] == a && ([queue[0]] + rest)[n + 1] == b;
    }
  }

  lemma {:induction false} WithoutFinds(queue: seq<Pop>, w: Pop, j: nat) returns (k: nat)
    requires j < |queue| && queue[j] != w
    ensures k < |Without(queue, w)| && Without(queue, w)[k] == queue[j]
  {
    if queue[0] == w {
      k := j - 1;
    } else if j == 0 {
      k := 0;
    } else {
      var m := WithoutFinds(queue[1..], w, j - 1);
      k := m + 1;
    }
  }

  /** A pop that has queued once never queues again. */
  predicate HasQueued(s: Sys, p: Pop) { p in s.pops && !s.pops[p].Looking? && !s.pops[p].Poking? }

  /** What a step can do to the queue. */
  lemma QueueStep(s: Sys, step: Step)
    requires Enabled(s, step)
    ensures var queue, queue' := s.pool.waiters, After(s, step).pool.waiters;
            || queue' == queue || (step.Park? && queue != [] && queue' == queue[1..])
            || (step.LookUp? && queue' == queue + [step.p]) || (step.TimeOut? && queue' == Without(queue, step.p))
  {
  }

  lemma HasQueuedStays(s: Sys, step: Step, a: Pop)
    requires Enabled(s, step) && HasQueued(s, a)
    ensures HasQueued(After(s, step), a)
  {
  }

  lemma OrderStep(s: Sys, step: Step, a: Pop, b: Pop)
    requires Inv(s) && Enabled(s, step) && HasQueued(s, a) && HasQueued(s, b)
    requires a in s.pool.waiters && b in s.pool.waiters ==> Ahead(s.pool.waiters, a, b)
    ensures var after := After(s, step);
            && HasQueued(after, a) && HasQueued(after, b)
            && (a in after.pool.waiters && b in after.pool.waiters ==> Ahead(after.pool.waiters, a, b))
  {
    var queue, queue' := s.pool.waiters, After(s, step).pool.waiters;
    HasQueuedStays(s, step, a);
    HasQueuedStays(s, step, b);
    QueueStep(s, step);
    if a in queue' && b in queue' && queue' != queue {
      QueueOrder(queue, queue', step, a, b);
    }
  }

  lemma QueueOrder(queue: seq<Pop>, queue': seq<Pop>, step: Step, a: Pop, b: Pop)
    requires Distinct(queue) && a in queue' && b in queue'
    requires a in queue && b in queue ==> Ahead(queue, a, b)
    requires || (step.Park? && queue != [] && queue' == queue[1..])
             || (step.LookUp? && step.p != a && step.p != b && queue' == queue + [step.p])
             || (step.TimeOut? && queue' == Without(queue, step.p))
    ensures Ahead(queue', a, b)
  {
    match step
    case TimeOut(p) => WithoutKeeps(queue, p); WithoutOrder(queue, p, a, b);
    case Park(_) => MovesUp(queue, a, b);
    case LookUp(p, _) => StaysAhead(queue, p, a, b);
  }

  lemma MovesUp(queue: seq<Pop>, a: Pop, b: Pop)
    requires queue != [] && Distinct(queue) && Ahead(queue, a, b) && a in queue[1..]
    ensures Ahead(queue[1..], a, b)
  {
    var i, j :| 0 <= i < j < |queue| && queue[i] == a && queue[j] == b;
    assert queue[1..][i - 1] == a && queue[1..][j - 1] == b;
  }

  lemma StaysAhead(queue: seq<Pop>, p: Pop, a: Pop, b: Pop)
    requires Ahead(queue, a, b)
    ensures Ahead(queue + [p], a, b)
  {
    var i, j :| 0 <= i < j < |queue| && queue[i] == a && queue[j] == b;
    assert (queue + [p])[i] == a && (queue + [p])[j] == b;
  }

  /** Whoever queued first stays first: as long as both queue, the order never changes. */
  lemma {:induction false} QueueKeepsOrder(run: seq<Sys>, steps: seq<Step>, i: nat, j: nat, a: Pop, b: Pop)
    requires IsRun(run, steps) && i <= j < |run| && Ahead(run[i].pool.waiters, a, b)
    ensures HasQueued(run[j], a) && HasQueued(run[j], b)
    ensures a in run[j].pool.waiters && b in run[j].pool.waiters ==> Ahead(run[j].pool.waiters, a, b)
  {
    if i == j {
      RunInv(run, steps, i);
      assert WaiterInv(run[i], a) && WaiterInv(run[i], b);
    } else {
      QueueKeepsOrder(run, steps, i, j - 1, a, b);
      RunInv(run, steps, j - 1);
      assert StepAt(run, steps, j - 1);
      OrderStep(run[j - 1], steps[j - 1], a, b);
    }
  }

  /** First come, first served: a connection parked for `b` finds nobody still queued who was ahead of it. */
  lemma ServedInOrder(run: seq<Sys>, steps: seq<Step>, i: nat, j: nat, a: Pop, b: Pop, c: Conn)
    requires IsRun(run, steps) && i <= j < |steps| && Ahead(run[i].pool.waiters, a, b)
    requires steps[j] == Park(c) && At(run[j + 1], c, InFlight(b))
    ensures a !in run[j].pool.waiters
  {
    QueueKeepsOrder(run, steps, i, j, a, b);
    RunInv(run, steps, j);
    assert StepAt(run, steps, j);
    ParkServes(run[j], c);
    assert !At(run[j], c, InFlight(b));
    HeadIsNotBehind(run[j].pool.waiters, a);
  }

  lemma HeadIsNotBehind(queue: seq<Pop>, a: Pop)
    requires Distinct(queue)
    ensures queue != [] ==> !Ahead(queue, a, queue[0])
  {
  }

  /** Once closed, closed for good: every later park is refused and every later look fails. */
  lemma {:induction false} ClosedForGood(run: seq<Sys>, steps: seq<Step>, i: nat, j: nat)
    requires IsRun(run, steps) && i <= j < |run| && (run[i].pool.closed || (i < j && steps[i] == Close))
    ensures run[j].pool.closed
    ensures j < |steps| && steps[j].Park? ==> At(run[j + 1], steps[j].c, Dropped)
    ensures j < |steps| && steps[j].LookUp? ==> steps[j].p in run[j + 1].pops && run[j + 1].pops[steps[j].p] == Failed
  {
    if i < j {
      if i == j - 1 {
        assert StepAt(run, steps, i);
      } else {
        ClosedForGood(run, steps, i, j - 1);
        assert StepAt(run, steps, j - 1);
      }
    }
    if j < |steps| {
      RunInv(run, steps, j);
      assert StepAt(run, steps, j);
    }
  }

  // ---- nobody stuck ------------------------------------------------------------------------

  /** A step that moves pop `p` on, or lets the watchdog it waits for finish. */
  predicate Helps(s: Sys, step: Step, p: Pop) {
    p in s.pops &&
    match step
    case LookUp(q, _) => q == p
    case Poked(q, _) => q == p
    case TimeOut(q) => q == p
    case LastLook(q) => q == p
    case Watch(c, _) => s.pops[p] == Poking(c)
    case _ => false
  }

  /** Every pop that has not returned can go on, whatever anybody else does; and what is on its way can be sent. */
  lemma NobodyStuck(run: seq<Sys>, steps: seq<Step>, i: nat, p: Pop) returns (step: Step)
    requires IsRun(run, steps) && i < |run|
    requires p in run[i].pops && !run[i].pops[p].Gave? && !run[i].pops[p].Failed?
    ensures Enabled(run[i], step) && Helps(run[i], step, p)
    ensures forall c :: c in run[i].sending ==> Enabled(run[i], Send(c))
    ensures run[i].pops[p].Waiting? && p in run[i].channels ==> Enabled(run[i], Receive(p))
    ensures Enabled(run[i], Close)
    ensures forall c :: Enabled(run[i], Park(c)) <==> c !in run[i].parked
    ensures forall q :: Enabled(run[i], Start(q)) <==> q !in run[i].pops
  {
    RunInv(run, steps, i);
    var s := run[i];
    assert PhaseInv(s, p);
    match s.pops[p]
    case Looking =>
      if s.pool.conns == {} {
        step := LookUp(p, 0);
      } else {
        var pick :| pick in s.pool.conns;
        step := LookUp(p, pick);
      }
    case Poking(c) => step := if s.pool.records[c].done then Poked(p, true) else Watch(c, false);
    case Waiting => step := TimeOut(p);
    case TimedOut => step := LastLook(p);
  }
}
