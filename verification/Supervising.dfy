/**
 * The supervisor threads of the guest agent (internal/agent/notify.go), interleaved at
 * every lock and every atomic add: probe handoffs, OCI handoffs and adopted fds.
 */
module Supervising {
  import opened Options
  import opened SuperviseCap

  type Tid = nat

  datatype Kind = Probe | Oci | Stored

  datatype Slot = Capped | Trusted

  /**
   * Checked and Admitting are inside admitProbe's lock; Over has overshot the cap and not
   * yet undone it; Parked and Returned are an adopted fd before and after its capped slot
   * is given back; Untracked and Shut are supervise's way out.
   */
  datatype Phase =
    | Fresh | Checked | Over | Admitting | Refused | Parked | Returned
    | Supervising(slot: Slot) | Untracked(slot: Slot) | Shut(slot: Slot) | Done

  datatype Thread = Thread(kind: Kind, fd: Fd, file: File, phase: Phase) {
    predicate HoldsCapped() {
      phase.Admitting? || phase.Parked? || ((phase.Supervising? || phase.Untracked? || phase.Shut?) && phase.slot.Capped?)
    }

    predicate HoldsTrusted() {
      (phase.Supervising? || phase.Untracked? || phase.Shut?) && phase.slot.Trusted?
    }

    predicate Overshoots() { phase.Over? }

    predicate Owns() { !phase.Shut? && !phase.Done? }

    predicate Locks() { kind.Probe? && (phase.Checked? || phase.Over? || phase.Admitting?) }
  }

  /** `open` are the process's fds; `works` says kcmp answers. */
  datatype Sys = Sys(
    cap: State, open: map<Fd, File>, lock: Option<Tid>, threads: map<Tid, Thread>, works: bool)

  datatype Step =
    | Handoff(t: Tid, kind: Kind, fd: Fd, file: File)
    | Reject(t: Tid)
    | Check(t: Tid)
    | Bump(t: Tid)
    | Undo(t: Tid)
    | Insert(t: Tid)
    | Trade(t: Tid)
    | Admit(t: Tid)
    | Untrack(t: Tid)
    | Close(t: Tid)
    | Release(t: Tid)

  predicate In(s: Sys, t: Tid, kind: Kind, phase: Phase) {
    t in s.threads && s.threads[t].kind == kind && s.threads[t].phase == phase
  }

  predicate At(s: Sys, t: Tid, phase: Phase) { t in s.threads && s.threads[t].phase == phase }

  predicate Enabled(s: Sys, step: Step) {
    match step
    case Handoff(t, _, fd, _) => t !in s.threads && fd !in s.open
    case Reject(t) => At(s, t, Fresh)
    case Check(t) => In(s, t, Probe, Fresh) && s.lock.None?
    case Bump(t) => In(s, t, Probe, Checked) || In(s, t, Stored, Fresh)
    case Undo(t) => At(s, t, Over)
    case Insert(t) => At(s, t, Admitting)
    case Trade(t) => At(s, t, Parked)
    case Admit(t) => (In(s, t, Oci, Fresh) || At(s, t, Returned)) && s.lock.None?
    case Untrack(t) => t in s.threads && s.threads[t].phase.Supervising? && s.lock.None?
    case Close(t) => t in s.threads && (s.threads[t].phase.Untracked? || s.threads[t].phase.Refused?)
    case Release(t) => t in s.threads && s.threads[t].phase.Shut?
  }

  function Go(s: Sys, t: Tid, phase: Phase): Sys
    requires t in s.threads
  {
    s.(threads := s.threads[t := s.threads[t].(phase := phase)])
  }

  /** An atomic add's result, never below zero: AddsStayAbove shows the floor is never needed. */
  function Less(n: nat): nat { if n == 0 then 0 else n - 1 }

  ghost function After(s: Sys, step: Step): Sys
    requires Enabled(s, step)
  {
    match step
    case Handoff(t, kind, fd, file) =>
      s.(open := s.open[fd := file], threads := s.threads[t := Thread(kind, fd, file, Fresh)])
    case Reject(t) => Go(s, t, Refused)
    case Check(t) =>
      if s.cap.IsDuplicate(s.threads[t].fd, s.open, s.works) then Go(s, t, Refused)
      else Go(s.(lock := Some(t)), t, Checked)
    case Bump(t) =>
      Go(s.(cap := s.cap.(n := s.cap.n + 1)), t,
         if s.cap.n + 1 > s.cap.max then Over else if s.threads[t].kind.Probe? then Admitting else Parked)
    case Undo(t) =>
      Go(s.(cap := s.cap.(n := Less(s.cap.n)), lock := if s.threads[t].kind.Probe? then None else s.lock), t, Refused)
    case Insert(t) =>
      Go(s.(cap := s.cap.(fds := s.cap.fds + {s.threads[t].fd}), lock := None), t, Supervising(Capped))
    case Trade(t) => Go(s.(cap := s.cap.(n := Less(s.cap.n))), t, Returned)
    case Admit(t) => Go(s.(cap := s.cap.AdmitTrusted(s.threads[t].fd)), t, Supervising(Trusted))
    case Untrack(t) =>
      Go(s.(cap := s.cap.(fds := s.cap.fds - {s.threads[t].fd})), t, Untracked(s.threads[t].phase.slot))
    case Close(t) =>
      Go(s.(open := s.open - {s.threads[t].fd}), t,
         if s.threads[t].phase.Refused? then Done else Shut(s.threads[t].phase.slot))
    case Release(t) =>
      Go(s.(cap := if s.threads[t].phase.slot.Capped? then s.cap.(n := Less(s.cap.n)) else s.cap.(trusted := Less(s.cap.trusted))),
         t, Done)
  }

  ghost predicate StepAt(run: seq<Sys>, steps: seq<Step>, i: nat)
    requires i + 1 < |run| && i < |steps|
  {
    Enabled(run[i], steps[i]) && run[i + 1] == After(run[i], steps[i])
  }

  ghost predicate IsRun(max: nat, works: bool, run: seq<Sys>, steps: seq<Step>) {
    && |run| == |steps| + 1 && run[0] == Sys(State(max, 0, 0, {}), map[], None, map[], works)
    && forall i :: 0 <= i < |steps| ==> StepAt(run, steps, i)
  }

  // ---- counting threads ---------------------------------------------------------------

  ghost function CappedHeld(threads: map<Tid, Thread>): set<Tid> { set t | t in threads && threads[t].HoldsCapped() }

  ghost function TrustedHeld(threads: map<Tid, Thread>): set<Tid> { set t | t in threads && threads[t].HoldsTrusted() }

  ghost function Overshooting(threads: map<Tid, Thread>): set<Tid> { set t | t in threads && threads[t].Overshoots() }

  function One(b: bool): nat { if b then 1 else 0 }

  lemma CountExcept(a: set<Tid>, t: Tid)
    ensures |a| == |a - {t}| + One(t in a)
  {
  }

  /** Two sets that agree but for one thread. */
  lemma CountChange(before: set<Tid>, after: set<Tid>, t: Tid)
    requires before - {t} == after - {t}
    ensures |after| == |before| + One(t in after) - One(t in before)
  {
    CountExcept(before, t);
    CountExcept(after, t);
  }

  /** Rewriting one thread changes each count by that thread alone. */
  lemma CountsChange(threads: map<Tid, Thread>, t: Tid, th: Thread)
    ensures var after, was := threads[t := th], t in threads;
            && |CappedHeld(after)| == |CappedHeld(threads)| + One(th.HoldsCapped()) - One(was && threads[t].HoldsCapped())
            && |TrustedHeld(after)| == |TrustedHeld(threads)| + One(th.HoldsTrusted()) - One(was && threads[t].HoldsTrusted())
            && |Overshooting(after)| == |Overshooting(threads)| + One(th.Overshoots()) - One(was && threads[t].Overshoots())
  {
    var after := threads[t := th];
    CountChange(CappedHeld(threads), CappedHeld(after), t);
    CountChange(TrustedHeld(threads), TrustedHeld(after), t);
    CountChange(Overshooting(threads), Overshooting(after), t);
  }

  ghost predicate CountInv(s: Sys) {
    && s.cap.n == |CappedHeld(s.threads)| + |Overshooting(s.threads)|
    && s.cap.trusted == |TrustedHeld(s.threads)|
    && |CappedHeld(s.threads)| <= s.cap.max
  }

  lemma CountStep(s: Sys, step: Step)
    requires CountInv(s) && Enabled(s, step)
    ensures CountInv(After(s, step))
  {
    CountsChange(s.threads, step.t, After(s, step).threads[step.t]);
  }

  // ---- who owns what --------------------------------------------------------------------

  ghost predicate ThreadInv(s: Sys, t: Tid)
    requires t in s.threads
  {
    var th := s.threads[t];
    && (th.Owns() ==> th.fd in s.open && s.open[th.fd] == th.file)
    && (th.phase.Supervising? ==> th.fd in s.cap.fds)
    && (th.Locks() <==> s.lock == Some(t))
    && (th.phase.Admitting? ==> th.kind.Probe?)
    && (th.phase.Parked? || th.phase.Returned? ==> th.kind.Stored?)
  }

  predicate SameNumber(a: Thread, b: Thread) { a.Owns() && b.Owns() && a.fd == b.fd }

  ghost predicate OwnersInv(s: Sys) {
    && (forall t :: t in s.threads ==> ThreadInv(s, t))
    && (forall t, u :: t in s.threads && u in s.threads && SameNumber(s.threads[t], s.threads[u]) ==> t == u)
    && (s.lock.Some? ==> s.lock.value in s.threads)
  }

  /** The supervisor of a tracked number. */
  ghost predicate Supervises(s: Sys, t: Tid, fd: Fd) {
    t in s.threads && s.threads[t].fd == fd && s.threads[t].phase.Supervising?
  }

  ghost predicate TrackedInv(s: Sys) {
    forall fd :: fd in s.cap.fds ==> exists t :: Supervises(s, t, fd)
  }

  /** While a probe thread is inside the lock, its file is tracked by nobody. */
  ghost predicate NewcomerInv(s: Sys) {
    s.works && s.lock.Some? && s.lock.value in s.threads ==>
      forall fd :: fd in s.cap.fds && fd in s.open ==> s.open[fd] != s.threads[s.lock.value].file
  }

  ghost predicate Inv(s: Sys) {
    CountInv(s) && OwnersInv(s) && TrackedInv(s) && NewcomerInv(s)
  }

  lemma ThreadStep(s: Sys, step: Step, t: Tid)
    requires OwnersInv(s) && Enabled(s, step) && t in After(s, step).threads
    ensures ThreadInv(After(s, step), t)
  {
    if t in s.threads {
      assert ThreadInv(s, t);
    }
    if step.t in s.threads {
      assert ThreadInv(s, step.t);
    }
  }

  lemma OwnersStep(s: Sys, step: Step)
    requires OwnersInv(s) && Enabled(s, step)
    ensures OwnersInv(After(s, step))
  {
    var s' := After(s, step);
    forall t | t in s'.threads ensures ThreadInv(s', t) {
      ThreadStep(s, step, t);
    }
    forall t, u | t in s'.threads && u in s'.threads && SameNumber(s'.threads[t], s'.threads[u]) ensures t == u {
      if t in s.threads { assert ThreadInv(s, t); }
      if u in s.threads { assert ThreadInv(s, u); }
    }
  }

  lemma TrackedStep(s: Sys, step: Step)
    requires OwnersInv(s) && TrackedInv(s) && Enabled(s, step)
    ensures TrackedInv(After(s, step))
  {
    var s' := After(s, step);
    forall fd | fd in s'.cap.fds ensures exists t :: Supervises(s', t, fd) {
      if fd in s.cap.fds {
        var t :| Supervises(s, t, fd);
        assert Supervises(s', t, fd);
      } else {
        assert Supervises(s', step.t, fd);
      }
    }
  }

  lemma NewcomerStep(s: Sys, step: Step)
    requires OwnersInv(s) && TrackedInv(s) && NewcomerInv(s) && Enabled(s, step)
    ensures NewcomerInv(After(s, step))
  {
  }

  lemma StepInv(s: Sys, step: Step)
    requires Inv(s) && Enabled(s, step)
    ensures Inv(After(s, step))
  {
    CountStep(s, step);
    OwnersStep(s, step);
    TrackedStep(s, step);
    NewcomerStep(s, step);
  }

  lemma {:induction false} RunInv(max: nat, works: bool, run: seq<Sys>, steps: seq<Step>, i: nat)
    requires IsRun(max, works, run, steps) && i < |run|
    ensures Inv(run[i]) && run[i].cap.max == max && run[i].works == works
  {
    if i > 0 {
      RunInv(max, works, run, steps, i - 1);
      assert StepAt(run, steps, i - 1);
      StepInv(run[i - 1], steps[i - 1]);
    }
  }

  // ---- what every interleaving keeps ------------------------------------------------------

  /** Capped slots held never exceed the cap; what the counter shows above them is adds about to be undone. */
  lemma HeldWithinCap(max: nat, works: bool, run: seq<Sys>, steps: seq<Step>, i: nat)
    requires IsRun(max, works, run, steps) && i < |run|
    ensures |CappedHeld(run[i].threads)| <= max
    ensures run[i].cap.n == |CappedHeld(run[i].threads)| + |Overshooting(run[i].threads)|
    ensures run[i].cap.trusted == |TrustedHeld(run[i].threads)|
  {
    RunInv(max, works, run, steps, i);
  }

  /** No atomic add ever takes a counter below zero. */
  lemma AddsStayAbove(max: nat, works: bool, run: seq<Sys>, steps: seq<Step>, i: nat)
    requires IsRun(max, works, run, steps) && i < |steps|
    ensures steps[i].Undo? || steps[i].Trade? ==> run[i].cap.n > 0
    ensures steps[i].Release? ==>
      var t := steps[i].t;
      t in run[i].threads && run[i].threads[t].phase.Shut? &&
      if run[i].threads[t].phase.slot.Capped? then run[i].cap.n > 0 else run[i].cap.trusted > 0
  {
    RunInv(max, works, run, steps, i);
    assert StepAt(run, steps, i);
    var threads, t := run[i].threads, steps[i].t;
    if t in threads {
      CountExcept(CappedHeld(threads), t);
      CountExcept(TrustedHeld(threads), t);
      CountExcept(Overshooting(threads), t);
    }
  }

  /** Every tracked number is an open fd, supervised by exactly one thread. */
  lemma TrackedIsOwned(max: nat, works: bool, run: seq<Sys>, steps: seq<Step>, i: nat, fd: Fd) returns (t: Tid)
    requires IsRun(max, works, run, steps) && i < |run| && fd in run[i].cap.fds
    ensures fd in run[i].open
    ensures forall u :: Supervises(run[i], u, fd) <==> u == t
  {
    RunInv(max, works, run, steps, i);
    t :| Supervises(run[i], t, fd);
    assert ThreadInv(run[i], t);
    forall u | Supervises(run[i], u, fd) ensures u == t {
      assert SameNumber(run[i].threads[t], run[i].threads[u]);
    }
  }

  /** A handoff is never compared with its own stale number: what is not supervised is not tracked. */
  lemma NeverItsOwnNumber(max: nat, works: bool, run: seq<Sys>, steps: seq<Step>, i: nat, t: Tid)
    requires IsRun(max, works, run, steps) && i < |run|
    requires t in run[i].threads && run[i].threads[t].Owns() && !run[i].threads[t].phase.Supervising?
    ensures run[i].threads[t].fd !in run[i].cap.fds
  {
    RunInv(max, works, run, steps, i);
    var fd := run[i].threads[t].fd;
    if fd in run[i].cap.fds {
      var u :| Supervises(run[i], u, fd);
      assert SameNumber(run[i].threads[t], run[i].threads[u]);
    }
  }

  lemma {:induction false} DistinctOwners(s: Sys, fds: set<Fd>) returns (owners: set<Tid>)
    requires OwnersInv(s) && TrackedInv(s) && fds <= s.cap.fds
    ensures |owners| == |fds|
    ensures forall t :: t in owners ==> t in s.threads && s.threads[t].phase.Supervising? && s.threads[t].fd in fds
    decreases fds
  {
    if fds == {} {
      owners := {};
    } else {
      var fd :| fd in fds;
      var rest := DistinctOwners(s, fds - {fd});
      var t :| Supervises(s, t, fd);
      owners := rest + {t};
    }
  }

  /** Tracked fds never outnumber the slots held. */
  lemma TrackedWithinHeld(max: nat, works: bool, run: seq<Sys>, steps: seq<Step>, i: nat)
    requires IsRun(max, works, run, steps) && i < |run|
    ensures |run[i].cap.fds| <= |CappedHeld(run[i].threads)| + |TrustedHeld(run[i].threads)|
  {
    RunInv(max, works, run, steps, i);
    var capped, trusted := CappedHeld(run[i].threads), TrustedHeld(run[i].threads);
    var owners := DistinctOwners(run[i], run[i].cap.fds);
    assert owners <= capped + trusted;
    SubsetCount(owners, capped + trusted);
    assert |capped + trusted| <= |capped| + |trusted|;
  }

  lemma {:induction false} SubsetCount(a: set<Tid>, b: set<Tid>)
    requires a <= b
    ensures |a| <= |b|
  {
    if a != {} {
      var t :| t in a;
      SubsetCount(a - {t}, b - {t});
    }
  }

  /** While kcmp answers, no probe fd goes under supervision while the same open file is tracked. */
  lemma ProbeIsNewcomer(max: nat, run: seq<Sys>, steps: seq<Step>, i: nat, fd: Fd)
    requires IsRun(max, true, run, steps) && i < |steps| && steps[i].Insert?
    requires fd in run[i].cap.fds
    ensures steps[i].t in run[i].threads && fd in run[i].open
    ensures run[i].open[fd] != run[i].threads[steps[i].t].file
  {
    RunInv(max, true, run, steps, i);
    assert StepAt(run, steps, i);
    assert ThreadInv(run[i], steps[i].t);
    var t := TrackedIsOwned(max, true, run, steps, i, fd);
  }

  /** Two supervisors of one open file. */
  predicate Share(s: Sys, t: Tid, u: Tid) {
    && t != u && t in s.threads && u in s.threads
    && s.threads[t].phase.Supervising? && s.threads[u].phase.Supervising?
    && s.threads[t].file == s.threads[u].file
  }

  /** `t` goes under supervision as a trusted fd while `u` supervises the same open file. */
  predicate Joins(s: Sys, step: Step, t: Tid, u: Tid) {
    && step == Admit(t) && t in s.threads && u in s.threads
    && s.threads[u].phase.Supervising? && s.threads[u].file == s.threads[t].file
  }

  /** `t` is inserted as a probe fd, kcmp having been no help, while `u` supervises the same open file. */
  predicate Slips(s: Sys, step: Step, t: Tid, u: Tid) {
    && !s.works && step == Insert(t) && t in s.threads && u in s.threads
    && s.threads[u].phase.Supervising? && s.threads[u].file == s.threads[t].file
  }

  /**
   * They come to share it exactly when one of them is admitted as trusted, which nothing
   * compares, or, where kcmp does not answer, gets in as a probe fd.
   */
  lemma SharedExactly(max: nat, works: bool, run: seq<Sys>, steps: seq<Step>, i: nat, t: Tid, u: Tid)
    requires IsRun(max, works, run, steps) && i < |steps| && u != t
    ensures Share(run[i + 1], t, u) && !Share(run[i], t, u) <==>
            || Joins(run[i], steps[i], t, u) || Joins(run[i], steps[i], u, t)
            || Slips(run[i], steps[i], t, u) || Slips(run[i], steps[i], u, t)
  {
    RunInv(max, works, run, steps, i);
    assert StepAt(run, steps, i);
    ShareStep(run[i], steps[i], t, u);
  }

  lemma ShareStep(s: Sys, step: Step, t: Tid, u: Tid)
    requires Inv(s) && Enabled(s, step) && u != t
    ensures Share(After(s, step), t, u) && !Share(s, t, u) <==>
            Joins(s, step, t, u) || Joins(s, step, u, t) || Slips(s, step, t, u) || Slips(s, step, u, t)
  {
    if step.t == t {
      ShareOneWay(s, step, t, u);
    } else if step.t == u {
      ShareOneWay(s, step, u, t);
    }
  }

  lemma ShareOneWay(s: Sys, step: Step, t: Tid, u: Tid)
    requires OwnersInv(s) && NewcomerInv(s) && Enabled(s, step) && u != t && step.t == t
    ensures Share(After(s, step), t, u) && !Share(s, t, u) <==> Joins(s, step, t, u) || Slips(s, step, t, u)
  {
    if t in s.threads { assert ThreadInv(s, t); }
    if u in s.threads { assert ThreadInv(s, u); }
  }

  /** An adopted fd 3 and a probe's fd 4, one open file, at phases `p` and `q`. */
  function Pair(cap: State, lock: Option<Tid>, p: Phase, q: Phase): Sys {
    Sys(cap, map[3 := 9, 4 := 9], lock, map[0 := Thread(Stored, 3, 9, p), 1 := Thread(Probe, 4, 9, q)], true)
  }

  lemma PairGoes(cap: State, lock: Option<Tid>, p: Phase, q: Phase, r: Phase)
    ensures Go(Pair(cap, lock, p, q), 0, r) == Pair(cap, lock, r, q)
    ensures Go(Pair(cap, lock, p, q), 1, r) == Pair(cap, lock, p, r)
  {
  }

  /** From its handoff to its insertion the probe fd meets nothing tracked, whatever slot the adopted one holds. */
  lemma ProbeGetsIn(max: nat, n: nat, p: Phase) returns (run: seq<Sys>, steps: seq<Step>)
    requires n < max
    ensures steps == [Check(1), Bump(1), Insert(1)] && |run| == 4
    ensures run[0] == Pair(State(max, n, 0, {}), None, p, Fresh)
    ensures run[3] == Pair(State(max, n + 1, 0, {4}), None, p, Supervising(Capped))
    ensures forall i :: 0 <= i < 3 ==> StepAt(run, steps, i)
  {
    var cap := State(max, n, 0, {});
    var bumped := State(max, n + 1, 0, {});
    steps := [Check(1), Bump(1), Insert(1)];
    run := [Pair(cap, None, p, Fresh), Pair(cap, Some(1), p, Checked), Pair(bumped, Some(1), p, Admitting),
            Pair(State(max, n + 1, 0, {4}), None, p, Supervising(Capped))];
    PairGoes(cap, Some(1), p, Fresh, Checked);
    PairGoes(bumped, Some(1), p, Checked, Admitting);
    PairGoes(State(max, n + 1, 0, {4}), None, p, Admitting, Supervising(Capped));
    assert bumped.fds + {4} == {4};
  }

  /** An adopted fd takes its slot while the probe's fd 4 is handed over. */
  lemma AdoptedThenHanded(max: nat) returns (run: seq<Sys>, steps: seq<Step>)
    requires max >= 1
    ensures steps == [Handoff(0, Stored, 3, 9), Bump(0), Handoff(1, Probe, 4, 9)]
    ensures IsRun(max, true, run, steps) && run[3] == Pair(State(max, 1, 0, {}), None, Parked, Fresh)
  {
    var one := map[0 := Thread(Stored, 3, 9, Fresh)];
    var s1 := Sys(State(max, 0, 0, {}), map[3 := 9], None, one, true);
    var s2 := Sys(State(max, 1, 0, {}), map[3 := 9], None, one[0 := Thread(Stored, 3, 9, Parked)], true);
    steps := [Handoff(0, Stored, 3, 9), Bump(0), Handoff(1, Probe, 4, 9)];
    run := [Sys(State(max, 0, 0, {}), map[], None, map[], true), s1, s2, Pair(State(max, 1, 0, {}), None, Parked, Fresh)];
  }

  /** Two runs one after the other. */
  lemma Chained(max: nat, works: bool, run: seq<Sys>, steps: seq<Step>, later: seq<Sys>, more: seq<Step>)
    requires IsRun(max, works, run, steps)
    requires |later| == |more| + 1 && later[0] == run[|run| - 1]
    requires forall i :: 0 <= i < |more| ==> StepAt(later, more, i)
    ensures IsRun(max, works, run + later[1..], steps + more)
  {
    var all, every := run + later[1..], steps + more;
    forall i | 0 <= i < |every| ensures StepAt(all, every, i) {
      if i < |steps| {
        assert StepAt(run, steps, i);
      } else {
        assert StepAt(later, more, i - |steps|);
      }
    }
  }

  /** The trusted admission that ends both: nothing is compared. */
  lemma AdoptedFollows(cap: State)
    ensures Enabled(Pair(cap, None, Returned, Supervising(Capped)), Admit(0))
    ensures Share(After(Pair(cap, None, Returned, Supervising(Capped)), Admit(0)), 0, 1)
  {
  }

  lemma TradeGoes(max: nat, n: nat, fds: set<Fd>, q: Phase)
    requires n > 0
    ensures var s := Pair(State(max, n, 0, fds), None, Parked, q);
            Enabled(s, Trade(0)) && After(s, Trade(0)) == Pair(State(max, n - 1, 0, fds), None, Returned, q)
  {
    PairGoes(State(max, n - 1, 0, fds), None, Parked, q, Returned);
  }

  /** Sharing happens: a probe handoff of the file gets in after the adopted fd gave its capped slot back. */
  lemma SharingAfterTrade(max: nat) returns (run: seq<Sys>, steps: seq<Step>)
    requires max >= 1
    ensures IsRun(max, true, run, steps) && Share(run[|run| - 1], 0, 1)
    ensures steps == [Handoff(0, Stored, 3, 9), Bump(0), Handoff(1, Probe, 4, 9),
                      Trade(0), Check(1), Bump(1), Insert(1), Admit(0)]
  {
    var first, begun := AdoptedThenHanded(max);
    var traded := Pair(State(max, 0, 0, {}), None, Returned, Fresh);
    TradeGoes(max, 1, {}, Fresh);
    Chained(max, true, first, begun, [first[3], traded], [Trade(0)]);
    var later, probed := ProbeGetsIn(max, 0, Returned);
    Chained(max, true, first + [first[3], traded][1..], begun + [Trade(0)], later, probed);
    var most := first + [first[3], traded][1..] + later[1..];
    AdoptedFollows(later[3].cap);
    var done := After(later[3], Admit(0));
    Chained(max, true, most, begun + [Trade(0)] + probed, [later[3], done], [Admit(0)]);
    run, steps := most + [later[3], done][1..], begun + [Trade(0)] + probed + [Admit(0)];
  }

  /** And before the trade: an adopted fd is tracked by nobody until it is admitted, whatever slot it holds. */
  lemma SharingBeforeTrade(max: nat) returns (run: seq<Sys>, steps: seq<Step>)
    requires max >= 2
    ensures IsRun(max, true, run, steps) && Share(run[|run| - 1], 0, 1)
    ensures steps == [Handoff(0, Stored, 3, 9), Bump(0), Handoff(1, Probe, 4, 9),
                      Check(1), Bump(1), Insert(1), Trade(0), Admit(0)]
  {
    var first, begun := AdoptedThenHanded(max);
    var later, probed := ProbeGetsIn(max, 1, Parked);
    Chained(max, true, first, begun, later, probed);
    var traded := Pair(State(max, 1, 0, {4}), None, Returned, Supervising(Capped));
    TradeGoes(max, 2, {4}, Supervising(Capped));
    AdoptedFollows(traded.cap);
    var done := After(traded, Admit(0));
    assert forall i | 0 <= i < 2 :: StepAt([later[3], traded, done], [Trade(0), Admit(0)], i);
    Chained(max, true, first + later[1..], begun + probed, [later[3], traded, done], [Trade(0), Admit(0)]);
    run, steps := first + later[1..] + [later[3], traded, done][1..], begun + probed + [Trade(0), Admit(0)];
  }

  lemma OneProbeGetsIn(max: nat) returns (run: seq<Sys>, steps: seq<Step>)
    requires max >= 1
    ensures steps == [Handoff(0, Probe, 3, 9), Check(0), Bump(0), Insert(0)] && IsRun(max, false, run, steps)
    ensures run[4] == Sys(State(max, 1, 0, {3}), map[3 := 9], None, map[0 := Thread(Probe, 3, 9, Supervising(Capped))], false)
  {
    var one := map[0 := Thread(Probe, 3, 9, Fresh)];
    var s0 := Sys(State(max, 0, 0, {}), map[], None, map[], false);
    var s1 := Sys(State(max, 0, 0, {}), map[3 := 9], None, one, false);
    var s2 := Sys(State(max, 0, 0, {}), map[3 := 9], Some(0), one[0 := Thread(Probe, 3, 9, Checked)], false);
    var s3 := Sys(State(max, 1, 0, {}), map[3 := 9], Some(0), one[0 := Thread(Probe, 3, 9, Admitting)], false);
    steps := [Handoff(0, Probe, 3, 9), Check(0), Bump(0), Insert(0)];
    run := [s0, s1, s2, s3, After(s3, Insert(0))];
  }

  /** Without kcmp two probe handoffs of one file are both let in: no trusted fd is needed. */
  lemma SharingWithoutKcmp(max: nat) returns (run: seq<Sys>, steps: seq<Step>)
    requires max >= 2
    ensures IsRun(max, false, run, steps) && Share(run[|run| - 1], 0, 1)
    ensures steps == [Handoff(0, Probe, 3, 9), Check(0), Bump(0), Insert(0),
                      Handoff(1, Probe, 4, 9), Check(1), Bump(1), Insert(1)]
  {
    var first, begun := OneProbeGetsIn(max);
    var s5 := After(first[4], Handoff(1, Probe, 4, 9));
    var s6 := After(s5, Check(1));
    var s7 := After(s6, Bump(1));
    var later := [first[4], s5, s6, s7, After(s7, Insert(1))];
    var more := [Handoff(1, Probe, 4, 9), Check(1), Bump(1), Insert(1)];
    assert forall i | 0 <= i < 4 :: StepAt(later, more, i);
    Chained(max, false, first, begun, later, more);
    run, steps := first + later[1..], begun + more;
  }

  /** Adopting at most `max` stored fds before any probe handoff refuses none of them. */
  ghost function StoredThreads(threads: map<Tid, Thread>): set<Tid> {
    set t | t in threads && threads[t].kind.Stored?
  }

  ghost predicate QuietInv(s: Sys) {
    && Overshooting(s.threads) == {} && (forall t :: t in s.threads ==> !s.threads[t].kind.Probe?)
    && CappedHeld(s.threads) <= StoredThreads(s.threads)
  }

  lemma QuietBump(s: Sys, step: Step)
    requires Inv(s) && QuietInv(s) && Enabled(s, step) && step.Bump?
    requires |StoredThreads(s.threads)| <= s.cap.max
    ensures s.cap.n + 1 <= s.cap.max
  {
    var held := CappedHeld(s.threads);
    assert held + {step.t} <= StoredThreads(s.threads) && step.t !in held;
    SubsetCount(held + {step.t}, StoredThreads(s.threads));
  }

  lemma QuietStep(s: Sys, step: Step)
    requires Inv(s) && QuietInv(s) && Enabled(s, step) && !(step.Handoff? && step.kind.Probe?)
    requires |StoredThreads(s.threads)| <= s.cap.max
    ensures QuietInv(After(s, step))
  {
    if step.t in s.threads { assert ThreadInv(s, step.t); }
    if step.Bump? { QuietBump(s, step); }
    var threads := After(s, step).threads;
    forall t | t in threads
      ensures !threads[t].Overshoots() && (t in CappedHeld(threads) ==> t in StoredThreads(threads))
    {
      assert t !in Overshooting(s.threads) && (t in CappedHeld(s.threads) ==> t in StoredThreads(s.threads));
    }
  }

  lemma {:induction false} AdoptionNeverRefuses(max: nat, works: bool, run: seq<Sys>, steps: seq<Step>, i: nat)
    requires IsRun(max, works, run, steps) && i < |run|
    requires forall k :: 0 <= k < |steps| ==> !(steps[k].Handoff? && steps[k].kind.Probe?)
    requires forall k :: 0 <= k < |run| ==> |StoredThreads(run[k].threads)| <= max
    ensures QuietInv(run[i])
  {
    if i > 0 {
      AdoptionNeverRefuses(max, works, run, steps, i - 1);
      RunInv(max, works, run, steps, i - 1);
      assert StepAt(run, steps, i - 1);
      QuietStep(run[i - 1], steps[i - 1]);
    }
  }
}
