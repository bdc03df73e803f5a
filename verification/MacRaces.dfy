/**
 * The sync session and the test harness share one registry, and every sync operation takes
 * its lock more than once: what the harness does in between, exactly.
 */
module MacRaces {
  import opened MacHolder
  import opened MacSyncer
  import opened GuestAgent

  datatype Who = Sync | Harness

  /** What the session is in the middle of, between two of its locked sections. */
  datatype Task =
    | Idle
    | Adding(id: PortId, addr: Addr)
    | Failed(id: PortId)
    | Removing(ids: set<PortId>)

  /** The registry, who registered each entry, and the session's unfinished operation. */
  datatype Sys = Sys(st: State, whose: map<PortId, Who>, task: Task) {
    ghost predicate Has(id: PortId, who: Who) { id in whose && whose[id] == who }

    /** Registered by sync and not owned: no del, snapshot or cleanup will collect it. */
    ghost predicate Leaked(id: PortId) { Has(id, Sync) && id !in st.owned }

    ghost predicate Reserving(id: PortId) { (task.Adding? || task.Failed?) && task.id == id }

    ghost predicate Pending(id: PortId) { task.Removing? && id in task.ids }
  }

  /** One locked section each; the foreign calls in it may fail. */
  datatype Step =
    | Collect(ids: set<PortId>)
    | RemoveNext(id: PortId, f: Faults)
    | Reserve(id: PortId, addr: Addr)
    | Register(f: Faults)
    | GiveBack
    | HarnessAdd(id: PortId, addr: Addr, f: Faults)
    | HarnessRemove(id: PortId, f: Faults)

  const NO_FAULTS := Faults({}, {}, {})

  function Removal(ids: set<PortId>): Task { if ids == {} then Idle else Removing(ids) }

  /** A del, a snapshot and a cleanup all collect owned ports first and remove them one by one. */
  ghost predicate Enabled(s: Sys, step: Step) {
    match step
    case Collect(ids) => s.task.Idle? && ids <= s.st.owned
    case RemoveNext(id, _) => s.Pending(id)
    case Reserve(id, _) => s.task.Idle? && (id.proto == TCP || id.proto == UDP)
    case Register(_) => s.task.Adding?
    case GiveBack => s.task.Failed?
    case HarnessAdd(_, _, _) => true
    case HarnessRemove(_, _) => true
  }

  ghost function Added(s: Sys, id: PortId, addr: Addr, who: Who, f: Faults): Sys {
    s.(st := s.st.AddMacPort(id, addr, f), whose := if id in s.st.mac || !AddOk(id, f) then s.whose else s.whose[id := who])
  }

  ghost function Removed(s: Sys, id: PortId, f: Faults): Sys {
    s.(st := s.st.RemoveMacPort(id, f), whose := s.whose - {id})
  }

  ghost function After(s: Sys, step: Step): Sys
    requires Enabled(s, step)
  {
    match step
    case Collect(ids) => s.(task := Removal(ids))
    case RemoveNext(id, f) => Removed(s, id, f).(task := Removal(s.task.ids - {id}))
    case Reserve(id, addr) =>
      if id in s.st.mac then s else s.(st := s.st.(owned := s.st.owned + {id}), task := Adding(id, addr))
    case Register(f) =>
      var id := s.task.id;
      Added(s, id, s.task.addr, Sync, f).(task := if id in s.st.mac || !AddOk(id, f) then Failed(id) else Idle)
    case GiveBack => s.(st := s.st.(owned := s.st.owned - {s.task.id}), task := Idle)
    case HarnessAdd(id, addr, f) => Added(s, id, addr, Harness, f)
    case HarnessRemove(id, f) => Removed(s, id, f)
  }

  // --- nothing in between: the operations as a whole ------------------------------------

  /** Uninterrupted, the sections of an add are the add. */
  lemma AddUninterrupted(s: Sys, l: MacListener, f: Faults)
    requires s.task.Idle? && s.st.Paired() && IdOf(l).Some?
    ensures var id := IdOf(l).value;
            Enabled(s, Reserve(id, l.addr)) &&
            var r := After(s, Reserve(id, l.addr));
            if id in s.st.mac then r.st == s.st.AddSync(l, f) && r.task.Idle?
            else var a := After(r, Register(f));
                 if a.task.Idle? then a.st == s.st.AddSync(l, f)
                 else a.task.Failed? && After(a, GiveBack).st == s.st.AddSync(l, f)
  {
    var id := IdOf(l).value;
    assert id !in s.st.mac ==> s.st.owned + {id} - {id} == s.st.owned;
  }

  /** And the two sections of a del are the del. */
  lemma DelUninterrupted(s: Sys, l: MacListener, f: Faults)
    requires s.task.Idle? && IdOf(l).Some? && IdOf(l).value in s.st.owned
    ensures var id := IdOf(l).value;
            Enabled(s, Collect({id})) && Enabled(After(s, Collect({id})), RemoveNext(id, f)) &&
            var done := After(After(s, Collect({id})), RemoveNext(id, f));
            done.st == s.st.DelSync(l, f) && done.task.Idle?
  {
  }

  /** What the session may do next: only what it is in the middle of, and new work only when that is done. */
  lemma Goes(s: Sys, step: Step)
    ensures Enabled(s, step) <==>
            match step
            case Collect(ids) => s.task == Idle && forall id :: id in ids ==> id in s.st.owned
            case RemoveNext(id, _) => s.task.Removing? && id in s.task.ids
            case Reserve(id, _) => s.task == Idle && id.proto in {6, 17}
            case Register(_) => s.task.Adding?
            case GiveBack => s.task.Failed?
            case _ => true
  {
  }

  /** A collected port waits for its own removal and no longer; the last one removed ends the operation. */
  lemma RemovalGoesOn(s: Sys, id: PortId, f: Faults, x: PortId)
    requires Enabled(s, RemoveNext(id, f))
    ensures After(s, RemoveNext(id, f)).Pending(x) <==> s.Pending(x) && x != id
    ensures After(s, RemoveNext(id, f)).task.Idle? <==> forall y :: s.Pending(y) ==> y == id
    ensures forall ids :: Enabled(s, Collect(ids)) ==> (After(s, Collect(ids)).Pending(x) <==> x in ids)
  {
    var left := s.task.ids - {id};
    if y :| y in left {
      assert s.Pending(y) && y != id;
    } else {
      forall y | s.Pending(y) ensures y == id {
        assert y !in left;
      }
    }
  }

  // --- every interleaving ------------------------------------------------------------------

  /** The kernel map and the proxies are what `mac` says. */
  ghost predicate InStep(st: State) {
    st.Proxied() && forall k :: k in st.kernel <==> k.id in st.mac && st.mac[k.id] == k
  }

  /** Whose an owned port is, and what the session is about to remove or has reserved. */
  ghost predicate Owners(s: Sys) {
    && s.whose.Keys == s.st.mac.Keys
    && (forall id :: id in s.st.owned ==> s.Reserving(id) || s.Has(id, Sync))
    && (forall id :: s.Reserving(id) ==> !s.Has(id, Sync))
    && (forall id :: s.Pending(id) ==> !s.Leaked(id))
  }

  lemma InStepAdds(st: State, id: PortId, addr: Addr, f: Faults)
    requires InStep(st)
    ensures InStep(st.AddMacPort(id, addr, f))
  {
  }

  /** A failed delete takes them out of step exactly when there was an entry to delete. */
  lemma InStepRemoves(st: State, id: PortId, f: Faults)
    requires InStep(st)
    ensures InStep(st.RemoveMacPort(id, f)) <==> id !in st.mac || id !in f.noDelete
  {
    if id in st.mac && id in f.noDelete {
      assert st.mac[id] in st.RemoveMacPort(id, f).kernel;
    }
  }

  lemma AddedOwners(s: Sys, id: PortId, addr: Addr, who: Who, f: Faults, after: Sys)
    requires Owners(s) && after == Added(s, id, addr, who, f).(task := after.task)
    ensures after.whose.Keys == after.st.mac.Keys && after.st.owned == s.st.owned
    ensures forall x :: after.Has(x, Sync) <==>
              s.Has(x, Sync) || (who == Sync && x == id && id !in s.st.mac && AddOk(id, f))
  {
  }

  lemma RemovedOwners(s: Sys, id: PortId, f: Faults, after: Sys)
    requires Owners(s) && after == Removed(s, id, f).(task := after.task)
    ensures after.whose.Keys == after.st.mac.Keys
    ensures after.st.owned == if id in s.whose then s.st.owned - {id} else s.st.owned
    ensures forall x :: after.Has(x, Sync) <==> s.Has(x, Sync) && x != id
  {
  }

  lemma StepOwners(s: Sys, step: Step)
    requires Owners(s) && Enabled(s, step)
    ensures Owners(After(s, step))
  {
    var after := After(s, step);
    assert !step.Collect? ==> forall id :: after.Pending(id) ==> s.Pending(id);
    match step
    case RemoveNext(id, f) => RemovedOwners(s, id, f, after);
    case Register(f) => AddedOwners(s, s.task.id, s.task.addr, Sync, f, after);
    case HarnessAdd(id, addr, f) => AddedOwners(s, id, addr, Harness, f, after);
    case HarnessRemove(id, f) => RemovedOwners(s, id, f, after);
    case _ =>
  }

  /** The step removes an entry whose kernel key stays behind. */
  ghost predicate Strays(s: Sys, step: Step) {
    (step.RemoveNext? || step.HarnessRemove?) && step.id in s.st.mac && step.id in step.f.noDelete
  }

  lemma StepInStep(s: Sys, step: Step)
    requires InStep(s.st) && Enabled(s, step)
    ensures InStep(After(s, step).st) <==> !Strays(s, step)
  {
    match step
    case RemoveNext(id, f) => InStepRemoves(s.st, id, f);
    case Register(f) => InStepAdds(s.st, s.task.id, s.task.addr, f);
    case HarnessAdd(id, addr, f) => InStepAdds(s.st, id, addr, f);
    case HarnessRemove(id, f) => InStepRemoves(s.st, id, f);
    case _ =>
  }

  const START := Sys(State(map[], {}, {}, {}), map[], Idle)

  ghost predicate IsRun(run: seq<Sys>, steps: seq<Step>) {
    && |run| == |steps| + 1 && run[0] == START
    && (forall i: nat :: i < |steps| ==> StepAt(run, steps, i))
  }

  ghost predicate StepAt(run: seq<Sys>, steps: seq<Step>, i: nat)
    requires i < |steps| && |run| == |steps| + 1
  {
    Enabled(run[i], steps[i]) && run[i + 1] == After(run[i], steps[i])
  }

  /** Whatever the interleaving, an owned port is sync's own entry or is being reserved. */
  lemma {:induction false} OwnersAlways(run: seq<Sys>, steps: seq<Step>, i: nat)
    requires IsRun(run, steps) && i < |run|
    ensures Owners(run[i])
  {
    if i > 0 {
      OwnersAlways(run, steps, i - 1);
      assert StepAt(run, steps, i - 1);
      StepOwners(run[i - 1], steps[i - 1]);
    }
  }

  /**
   * Whatever the interleaving, map, proxies and registry agree up to the first failed delete
   * of an entry, and that takes them out of step.
   */
  lemma {:induction false} InStepUntil(run: seq<Sys>, steps: seq<Step>, i: nat)
    requires IsRun(run, steps) && i < |run|
    requires forall k :: 0 <= k < i - 1 ==> !Strays(run[k], steps[k])
    ensures InStep(run[i].st) <==> i == 0 || !Strays(run[i - 1], steps[i - 1])
  {
    if i > 0 {
      InStepUntil(run, steps, i - 1);
      assert StepAt(run, steps, i - 1);
      StepInStep(run[i - 1], steps[i - 1]);
    }
  }

  // --- a port taken from the harness --------------------------------------------------------

  /** Step `k` is the harness registering `id`. */
  ghost predicate GainsAt(run: seq<Sys>, steps: seq<Step>, k: nat, id: PortId)
    requires IsRun(run, steps) && k < |steps|
  {
    steps[k].HarnessAdd? && steps[k].id == id && id !in run[k].st.mac && id in run[k + 1].st.mac
  }

  ghost predicate GainedSince(run: seq<Sys>, steps: seq<Step>, i: nat, j: nat, id: PortId)
    requires IsRun(run, steps) && j < |run|
  {
    exists k: nat :: i <= k < j && GainsAt(run, steps, k, id)
  }

  /** Step `i` collected `id` among the ports to remove, and it is still to be removed at `j`. */
  ghost predicate PendingSince(run: seq<Sys>, steps: seq<Step>, i: nat, j: nat, id: PortId)
    requires IsRun(run, steps) && i < j < |run|
  {
    steps[i].Collect? && forall k :: i < k <= j ==> run[k].Pending(id)
  }

  lemma PendingStep(s: Sys, step: Step, id: PortId)
    requires Owners(s) && Enabled(s, step) && s.Pending(id) && After(s, step).Pending(id)
    ensures var gains := step.HarnessAdd? && step.id == id && id !in s.st.mac && id in After(s, step).st.mac;
            && (gains ==> After(s, step).Has(id, Harness))
            && (!gains && id in After(s, step).whose ==> id in s.whose && After(s, step).whose[id] == s.whose[id])
  {
  }

  /**
   * A removal takes an entry of the harness exactly when the harness registered the port
   * after it was collected, and did not remove it again.
   */
  lemma {:induction false} TakenExactly(run: seq<Sys>, steps: seq<Step>, i: nat, j: nat, id: PortId)
    requires IsRun(run, steps) && i < j < |run| && PendingSince(run, steps, i, j, id)
    ensures run[j].Has(id, Harness) <==> id in run[j].st.mac && GainedSince(run, steps, i, j, id)
    ensures run[j].Has(id, Sync) <==> id in run[j].st.mac && !GainedSince(run, steps, i, j, id)
  {
    OwnersAlways(run, steps, j);
    OwnersAlways(run, steps, j - 1);
    assert StepAt(run, steps, j - 1);
    if i + 1 < j {
      TakenExactly(run, steps, i, j - 1, id);
      PendingStep(run[j - 1], steps[j - 1], id);
      assert GainedSince(run, steps, i, j, id) <==>
             GainedSince(run, steps, i, j - 1, id) || GainsAt(run, steps, j - 1, id);
    }
  }

  // --- an entry sync loses track of -----------------------------------------------------------

  /** Step `k` is the harness removing the entry on `id`, which strikes a reservation too. */
  ghost predicate LosesAt(run: seq<Sys>, steps: seq<Step>, k: nat, id: PortId)
    requires IsRun(run, steps) && k < |steps|
  {
    steps[k].HarnessRemove? && steps[k].id == id && id in run[k].st.mac
  }

  ghost predicate LostSince(run: seq<Sys>, steps: seq<Step>, i: nat, j: nat, id: PortId)
    requires IsRun(run, steps) && j < |run|
  {
    exists k: nat :: i <= k < j && LosesAt(run, steps, k, id)
  }

  /** Step `i` reserved `id`, and the add is still to be carried out at `j`. */
  ghost predicate AddingSince(run: seq<Sys>, steps: seq<Step>, i: nat, j: nat, id: PortId)
    requires IsRun(run, steps) && i < j < |run|
  {
    steps[i].Reserve? && forall k :: i < k <= j ==> run[k].task.Adding? && run[k].task.id == id
  }

  /** A reservation is gone exactly when the harness removed an entry on its port since. */
  lemma {:induction false} ReservationLost(run: seq<Sys>, steps: seq<Step>, i: nat, j: nat, id: PortId)
    requires IsRun(run, steps) && i < j < |run| && AddingSince(run, steps, i, j, id)
    ensures id !in run[j].st.owned <==> LostSince(run, steps, i, j, id)
  {
    OwnersAlways(run, steps, j - 1);
    assert StepAt(run, steps, j - 1);
    if i + 1 < j {
      ReservationLost(run, steps, i, j - 1, id);
      assert LostSince(run, steps, i, j, id) <==> LostSince(run, steps, i, j - 1, id) || LosesAt(run, steps, j - 1, id);
    }
  }

  lemma LeakStep(s: Sys, step: Step, id: PortId)
    requires Owners(s) && Enabled(s, step)
    ensures After(s, step).Leaked(id) && !s.Leaked(id) <==>
            && step.Register? && s.task.id == id && id !in s.st.owned
            && id !in s.st.mac && AddOk(id, step.f)
    ensures s.Leaked(id) && !(step.HarnessRemove? && step.id == id) ==> After(s, step).Leaked(id)
  {
  }

  /** An entry is leaked by exactly one step: a successful add whose reservation the harness removed. */
  lemma LeakedExactly(run: seq<Sys>, steps: seq<Step>, i: nat, j: nat, id: PortId)
    requires IsRun(run, steps) && i < j < |steps| && AddingSince(run, steps, i, j, id)
    ensures run[j + 1].Leaked(id) <==>
            && steps[j].Register? && id !in run[j].st.mac && AddOk(id, steps[j].f)
            && LostSince(run, steps, i, j, id)
  {
    OwnersAlways(run, steps, j);
    assert StepAt(run, steps, j);
    ReservationLost(run, steps, i, j, id);
    LeakStep(run[j], steps[j], id);
  }

  /** Nothing sync does afterwards removes it, at the end of its session or in a later one. */
  lemma {:induction false} LeakedStays(run: seq<Sys>, steps: seq<Step>, i: nat, j: nat, id: PortId)
    requires IsRun(run, steps) && i <= j < |run| && run[i].Leaked(id)
    requires forall k :: i <= k < j ==> !(steps[k].HarnessRemove? && steps[k].id == id)
    ensures run[j].Leaked(id)
  {
    if i < j {
      LeakedStays(run, steps, i, j - 1, id);
      OwnersAlways(run, steps, j - 1);
      assert StepAt(run, steps, j - 1);
      LeakStep(run[j - 1], steps[j - 1], id);
    }
  }

  // --- both happen --------------------------------------------------------------------------------

  const WEB := PortId(TCP, 8080)

  /** The harness trades sync's entry for its own before the removal, which takes that. */
  lemma TakingHappens() returns (run: seq<Sys>, steps: seq<Step>)
    ensures steps == [Reserve(WEB, V4_ANY), Register(NO_FAULTS), Collect({WEB}), HarnessRemove(WEB, NO_FAULTS),
                      HarnessAdd(WEB, V4_ANY, NO_FAULTS), RemoveNext(WEB, NO_FAULTS)]
    ensures IsRun(run, steps) && run[5].Has(WEB, Harness) && WEB !in run[6].st.mac
  {
    var s1 := After(START, Reserve(WEB, V4_ANY));
    var s2 := After(s1, Register(NO_FAULTS));
    var s3 := After(s2, Collect({WEB}));
    var s4 := After(s3, HarnessRemove(WEB, NO_FAULTS));
    var s5 := After(s4, HarnessAdd(WEB, V4_ANY, NO_FAULTS));
    run := [START, s1, s2, s3, s4, s5, After(s5, RemoveNext(WEB, NO_FAULTS))];
    steps := [Reserve(WEB, V4_ANY), Register(NO_FAULTS), Collect({WEB}), HarnessRemove(WEB, NO_FAULTS),
              HarnessAdd(WEB, V4_ANY, NO_FAULTS), RemoveNext(WEB, NO_FAULTS)];
    assert forall i: nat | i < |steps| :: StepAt(run, steps, i);
  }

  /** The harness adds and removes the port between reservation and add. */
  lemma LeakHappens() returns (run: seq<Sys>, steps: seq<Step>)
    ensures steps == [Reserve(WEB, V4_ANY), HarnessAdd(WEB, V4_ANY, NO_FAULTS),
                      HarnessRemove(WEB, NO_FAULTS), Register(NO_FAULTS)]
    ensures IsRun(run, steps) && run[4].Leaked(WEB)
  {
    var s1 := After(START, Reserve(WEB, V4_ANY));
    var s2 := After(s1, HarnessAdd(WEB, V4_ANY, NO_FAULTS));
    var s3 := After(s2, HarnessRemove(WEB, NO_FAULTS));
    run := [START, s1, s2, s3, After(s3, Register(NO_FAULTS))];
    steps := [Reserve(WEB, V4_ANY), HarnessAdd(WEB, V4_ANY, NO_FAULTS), HarnessRemove(WEB, NO_FAULTS), Register(NO_FAULTS)];
    assert forall i: nat | i < |steps| :: StepAt(run, steps, i);
  }
}
