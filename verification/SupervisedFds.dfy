/**
 * What each step does to a supervised fd (internal/agent/notify.go, notifycap.go): who is
 * refused and why, what is open and tracked, and that everything taken is given back.
 */
module SupervisedFds {
  import opened Options
  import opened SuperviseCap
  import opened Supervising

  // ---- one step ------------------------------------------------------------------------

  /** Every thread but `t` is as it was. */
  predicate OthersStay(s: Sys, after: Sys, t: Tid) { after.threads - {t} == s.threads - {t} && after.works == s.works }

  predicate PhaseIs(s: Sys, t: Tid, was: Thread, phase: Phase) {
    t in s.threads && s.threads[t] == Thread(was.kind, was.fd, was.file, phase)
  }

  /** A probe handoff is refused at the check exactly when a supervisor already has its open file. */
  lemma CheckRefuses(max: nat, works: bool, run: seq<Sys>, steps: seq<Step>, i: nat, t: Tid)
    requires IsRun(max, works, run, steps) && i < |run| && Enabled(run[i], Check(t))
    ensures var s, after := run[i], After(run[i], Check(t));
            && OthersStay(s, after, t) && after.cap == s.cap && after.open == s.open
            && if works && exists u :: u in s.threads && s.threads[u].phase.Supervising? && s.threads[u].file == s.threads[t].file
               then PhaseIs(after, t, s.threads[t], Refused) && after.lock == s.lock
               else PhaseIs(after, t, s.threads[t], Checked) && after.lock == Some(t)
  {
    var s := run[i];
    RunInv(max, works, run, steps, i);
    assert ThreadInv(s, t);
    if works {
      forall u | u in s.threads && s.threads[u].phase.Supervising? && s.threads[u].file == s.threads[t].file
        ensures s.cap.IsDuplicate(s.threads[t].fd, s.open, works)
      {
        assert ThreadInv(s, u);
        assert Same(s.open, works, s.threads[t].fd, s.threads[u].fd);
      }
      if s.cap.IsDuplicate(s.threads[t].fd, s.open, works) {
        var fd :| fd in s.cap.fds && Same(s.open, works, s.threads[t].fd, fd);
        var u :| Supervises(s, u, fd);
        assert ThreadInv(s, u);
      }
    }
  }

  /** A slot is had exactly while fewer than `max` are held or being tried for. */
  lemma BumpTakes(max: nat, works: bool, run: seq<Sys>, steps: seq<Step>, i: nat, t: Tid)
    requires IsRun(max, works, run, steps) && i < |run| && Enabled(run[i], Bump(t))
    ensures var s, after := run[i], After(run[i], Bump(t));
            && OthersStay(s, after, t) && after.open == s.open && after.lock == s.lock
            && after.cap == s.cap.(n := s.cap.n + 1)
            && PhaseIs(after, t, s.threads[t],
                       if |CappedHeld(s.threads)| + |Overshooting(s.threads)| >= max then Over
                       else if s.threads[t].kind == Probe then Admitting else Parked)
  {
    RunInv(max, works, run, steps, i);
  }

  /** Going under supervision: tracked, and in one of the two buckets. */
  lemma Supervised(s: Sys, t: Tid)
    ensures Enabled(s, Insert(t)) ==>
              var after := After(s, Insert(t));
              && OthersStay(s, after, t) && after.open == s.open && after.lock == None
              && after.cap == s.cap.(fds := s.cap.fds + {s.threads[t].fd})
              && PhaseIs(after, t, s.threads[t], Supervising(Capped))
    ensures Enabled(s, Admit(t)) ==>
              var after := After(s, Admit(t));
              && OthersStay(s, after, t) && after.open == s.open && after.lock == s.lock
              && after.cap == s.cap.(fds := s.cap.fds + {s.threads[t].fd}, trusted := s.cap.trusted + 1)
              && PhaseIs(after, t, s.threads[t], Supervising(Trusted))
    ensures Enabled(s, Trade(t)) && s.cap.n > 0 ==>
              var after := After(s, Trade(t));
              && OthersStay(s, after, t) && after.open == s.open && after.lock == s.lock
              && after.cap == s.cap.(n := s.cap.n - 1) && PhaseIs(after, t, s.threads[t], Returned)
  {
  }

  /** Coming out of it: untracked before the close, closed before the slot is given back; a refused fd is closed too. */
  lemma GivenUp(s: Sys, t: Tid)
    requires t in s.threads
    ensures Enabled(s, Untrack(t)) ==>
              var after := After(s, Untrack(t));
              && OthersStay(s, after, t) && after.open == s.open && after.lock == s.lock
              && after.cap == s.cap.(fds := s.cap.fds - {s.threads[t].fd})
              && PhaseIs(after, t, s.threads[t], Untracked(s.threads[t].phase.slot))
    ensures Enabled(s, Close(t)) ==>
              var after := After(s, Close(t));
              && OthersStay(s, after, t) && after.open == s.open - {s.threads[t].fd} && after.cap == s.cap && after.lock == s.lock
              && (s.threads[t].phase == Refused ==> PhaseIs(after, t, s.threads[t], Done))
              && (s.threads[t].phase.Untracked? ==> PhaseIs(after, t, s.threads[t], Shut(s.threads[t].phase.slot)))
    ensures Enabled(s, Release(t)) && s.cap.n > 0 && s.cap.trusted > 0 ==>
              var after := After(s, Release(t));
              && OthersStay(s, after, t) && after.open == s.open && after.lock == s.lock && PhaseIs(after, t, s.threads[t], Done)
              && after.cap == if s.threads[t].phase.slot == Capped then s.cap.(n := s.cap.n - 1)
                              else s.cap.(trusted := s.cap.trusted - 1)
    ensures Enabled(s, Undo(t)) && s.cap.n > 0 ==>
              var after := After(s, Undo(t));
              && OthersStay(s, after, t) && after.open == s.open && after.cap == s.cap.(n := s.cap.n - 1)
              && PhaseIs(after, t, s.threads[t], Refused)
              && after.lock == if s.threads[t].kind == Probe then None else s.lock
    ensures Enabled(s, Reject(t)) ==>
              var after := After(s, Reject(t));
              && OthersStay(s, after, t) && after.open == s.open && after.cap == s.cap && after.lock == s.lock
              && PhaseIs(after, t, s.threads[t], Refused)
  {
  }

  /** Inside one probe's check nobody else checks, tracks or untracks, and its own way on is its own. */
  lemma LockExcludes(max: nat, works: bool, run: seq<Sys>, steps: seq<Step>, i: nat, step: Step)
    requires IsRun(max, works, run, steps) && i < |run| && run[i].lock.Some? && Enabled(run[i], step)
    ensures !step.Check? && !step.Admit? && !step.Untrack?
    ensures step.Insert? || (step.Bump? && run[i].threads[step.t].kind == Probe) ==> run[i].lock == Some(step.t)
  {
    RunInv(max, works, run, steps, i);
    if step.t in run[i].threads {
      assert ThreadInv(run[i], step.t);
    }
  }

  // ---- what is open --------------------------------------------------------------------------

  ghost predicate OwnedBy(s: Sys, fd: Fd, t: Tid) { t in s.threads && s.threads[t].Owns() && s.threads[t].fd == fd }

  ghost predicate Held(s: Sys) { forall fd :: fd in s.open ==> exists t :: OwnedBy(s, fd, t) }

  lemma HeldStep(s: Sys, step: Step)
    requires Held(s) && Enabled(s, step)
    ensures Held(After(s, step))
  {
    var after := After(s, step);
    forall fd | fd in after.open ensures exists t :: OwnedBy(after, fd, t) {
      if fd in s.open {
        var t :| OwnedBy(s, fd, t);
        assert OwnedBy(after, fd, t);
      } else {
        assert OwnedBy(after, fd, step.t);
      }
    }
  }

  lemma {:induction false} HeldAlways(max: nat, works: bool, run: seq<Sys>, steps: seq<Step>, i: nat)
    requires IsRun(max, works, run, steps) && i < |run|
    ensures Held(run[i])
  {
    if i > 0 {
      HeldAlways(max, works, run, steps, i - 1);
      assert StepAt(run, steps, i - 1);
      HeldStep(run[i - 1], steps[i - 1]);
    }
  }

  /** In every interleaving the open fds are exactly those of the threads that have yet to close theirs. */
  lemma OpenIsOwned(max: nat, works: bool, run: seq<Sys>, steps: seq<Step>, i: nat, fd: Fd)
    requires IsRun(max, works, run, steps) && i < |run|
    ensures fd in run[i].open <==> exists t :: OwnedBy(run[i], fd, t)
  {
    HeldAlways(max, works, run, steps, i);
    RunInv(max, works, run, steps, i);
    if t :| OwnedBy(run[i], fd, t) {
      assert ThreadInv(run[i], t);
    }
  }

  /** Everything taken is given back: once every thread is done no slot is held and no fd open or tracked. */
  lemma AllGivenBack(max: nat, works: bool, run: seq<Sys>, steps: seq<Step>, i: nat)
    requires IsRun(max, works, run, steps) && i < |run|
    requires forall t :: t in run[i].threads ==> run[i].threads[t].phase == Done
    ensures run[i].cap == State(max, 0, 0, {}) && run[i].open == map[] && run[i].lock == None
  {
    RunInv(max, works, run, steps, i);
    HeldAlways(max, works, run, steps, i);
    var s := run[i];
    assert CappedHeld(s.threads) == {} && TrustedHeld(s.threads) == {} && Overshooting(s.threads) == {};
    NothingKept(s);
  }

  lemma NothingKept(s: Sys)
    requires OwnersInv(s) && TrackedInv(s) && Held(s)
    ensures s.cap.fds != {} || s.open != map[] || s.lock.Some? ==>
            exists t :: t in s.threads && s.threads[t].phase != Done
  {
    if fd :| fd in s.cap.fds {
      var t :| Supervises(s, t, fd);
    } else if fd :| fd in s.open {
      var t :| OwnedBy(s, fd, t);
    } else if s.lock.Some? {
      assert ThreadInv(s, s.lock.value);
    }
    assert s.open != map[] ==> exists fd :: fd in s.open by {
      if s.open != map[] {
        assert s.open.Keys != {};
      }
    }
  }

  // ---- nobody stuck ------------------------------------------------------------------------

  /** Only a probe is checked. */
  ghost predicate KindsFit(s: Sys) {
    forall t :: t in s.threads ==>
      (s.threads[t].phase.Checked? ==> s.threads[t].kind == Probe)
  }

  lemma {:induction false} KindsAlwaysFit(max: nat, works: bool, run: seq<Sys>, steps: seq<Step>, i: nat)
    requires IsRun(max, works, run, steps) && i < |run|
    ensures KindsFit(run[i])
  {
    if i > 0 {
      KindsAlwaysFit(max, works, run, steps, i - 1);
      assert StepAt(run, steps, i - 1);
    }
  }

  /** A thread that is not done can go on, once the lock is free or its own; any free number can be handed over. */
  lemma NobodyStuck(max: nat, works: bool, run: seq<Sys>, steps: seq<Step>, i: nat, t: Tid) returns (step: Step)
    requires IsRun(max, works, run, steps) && i < |run| && t in run[i].threads && run[i].threads[t].phase != Done
    requires run[i].lock == None || run[i].lock == Some(t)
    ensures step.t == t && !step.Handoff? && Enabled(run[i], step)
    ensures forall u, kind, fd, file :: u !in run[i].threads && fd !in run[i].open ==> Enabled(run[i], Handoff(u, kind, fd, file))
  {
    RunInv(max, works, run, steps, i);
    var s, th := run[i], run[i].threads[t];
    assert ThreadInv(s, t);
    KindsAlwaysFit(max, works, run, steps, i);
    assert th.kind != Probe || !(th.phase.Checked? || th.phase.Over? || th.phase.Admitting?) ==> s.lock == None;
    match th.phase
    case Fresh => step := if th.kind == Probe then Check(t) else if th.kind == Stored then Bump(t) else Admit(t);
    case Checked => step := Bump(t);
    case Over => step := Undo(t);
    case Admitting => step := Insert(t);
    case Refused => step := Close(t);
    case Parked => step := Trade(t);
    case Returned => step := Admit(t);
    case Supervising(_) => step := Untrack(t);
    case Untracked(_) => step := Close(t);
    case Shut(_) => step := Release(t);
  }
}
