/**
 * When a single key of the mirror table is right: an exact law for each event, and, over
 * whole runs, which refused binds still show.
 */
module MirrorKeys {
  import opened Listeners
  import opened MacHolder
  import opened MirrorClient
  import opened Mirroring

  /** The key has no listener, or a mirror that counts all of them. */
  ghost predicate RightAt(st: State, cfg: Config, known: set<Listener>, k: Key) {
    Backing(cfg, known, k) == {} || ExactAt(st, cfg, known, k)
  }

  /** The event asks for a bind on `k` and the Mac refuses it. */
  ghost predicate Refuses(st: State, cfg: Config, ev: Event, mac: Mac, k: Key) {
    && k !in st.mirrors && !CanOpen(cfg.mirrorIP, mac, k)
    && match ev
       case Snapshot(ls) => k in Wanted(cfg, ls)
       case Add(l) => cfg.Tracked(l) && KeyOf(l) == k
       case Del(_) => false
  }

  // ---- one event ------------------------------------------------------------------

  lemma WantedIsBacked(cfg: Config, snap: seq<Listener>, known: set<Listener>, k: Key)
    requires multiset(snap) == multiset(known)
    ensures k in Wanted(cfg, snap) <==> Backing(cfg, known, k) != {}
  {
    assert forall l :: l in known <==> l in multiset(snap);
    if k in Wanted(cfg, snap) {
      var l :| l in snap && cfg.Tracked(l) && KeyOf(l) == k;
      assert l in Backing(cfg, known, k);
    }
  }

  /** A snapshot makes every key right but those it is refused. */
  lemma SnapshotRight(st: State, cfg: Config, known: set<Listener>, snap: seq<Listener>, mac: Mac, k: Key)
    requires multiset(snap) == multiset(known)
    ensures RightAt(st.Reconcile(cfg, snap, mac), cfg, known, k) <==> !Refuses(st, cfg, Snapshot(snap), mac, k)
  {
    CountIsBacking(cfg, snap, known, k);
    WantedIsBacked(cfg, snap, known, k);
  }

  /** An add leaves a key right exactly when it was and the add's bind is not refused. */
  lemma AddRight(st: State, cfg: Config, known: set<Listener>, l: Listener, mac: Mac, k: Key)
    requires RefsSound(st, cfg, known) && l !in known
    ensures RightAt(st.Add(cfg, l, mac), cfg, known + {l}, k) <==>
            RightAt(st, cfg, known, k) && !Refuses(st, cfg, Add(l), mac, k)
  {
    BackingStep(cfg, known, l, k);
    if cfg.Tracked(l) && KeyOf(l) !in st.mirrors {
      OpenOne(st, cfg, KeyOf(l), 1, false, mac);
    }
    NoneBacking(cfg, known, k);
    NoneBacking(cfg, known + {l}, k);
  }

  /** A del leaves a key right exactly when it was, or when it took the key's last listener. */
  lemma DelRight(st: State, cfg: Config, known: set<Listener>, l: Listener, k: Key)
    requires Skipless(st, cfg) && RefsSound(st, cfg, known) && l in known
    ensures RightAt(st.Del(cfg, l), cfg, known - {l}, k) <==>
            RightAt(st, cfg, known, k) || Backing(cfg, known - {l}, k) == {}
  {
    BackingStep(cfg, known, l, k);
    NoneBacking(cfg, known, k);
    NoneBacking(cfg, known - {l}, k);
  }

  lemma NoneBacking(cfg: Config, known: set<Listener>, k: Key)
    ensures Backing(cfg, known, k) == {} <==> |Backing(cfg, known, k)| == 0
  {
  }

  /** A reservation makes no key right and no key wrong. */
  lemma ReserveRight(st: State, cfg: Config, known: set<Listener>, port: Port, mac: Mac, k: Key)
    requires RefsSound(st, cfg, known)
    ensures RightAt(st.Reserve(cfg, port, mac), cfg, known, k) == RightAt(st, cfg, known, k)
  {
    if Key("tcp", port) !in st.mirrors {
      OpenOne(st, cfg, Key("tcp", port), 0, true, mac);
    }
  }

  /** Neither does its timer. */
  lemma ReleaseRight(st: State, cfg: Config, known: set<Listener>, timer: Socket, k: Key)
    requires RefsSound(st, cfg, known)
    ensures RightAt(st.Release(timer), cfg, known, k) == RightAt(st, cfg, known, k)
  {
  }

  // ---- one step of the system ------------------------------------------------------

  ghost predicate Right(cfg: Config, s: Sys, k: Key) { RightAt(s.client, cfg, Known(s), k) }

  ghost predicate Listenerless(cfg: Config, s: Sys, k: Key) { Backing(cfg, Known(s), k) == {} }

  /** The event a receive step is about to handle. */
  ghost function Next(s: Sys): Event
    requires s.session.Live? && s.session.ch in s.hub.channels && s.session.got < |Sent(s, s.session.ch)|
  {
    Sent(s, s.session.ch)[s.session.got]
  }

  /** The step reads a snapshot. */
  ghost predicate Refreshes(s: Sys, step: Step)
    requires Enabled(s, step)
  {
    step.Receive? && Next(s).Snapshot?
  }

  /** The step is refused a bind on `k`. */
  ghost predicate Loses(cfg: Config, s: Sys, step: Step, k: Key)
    requires Enabled(s, step)
  {
    step.Receive? && Refuses(s.client, cfg, Next(s), step.mac, k)
  }

  /** What a step does to the rightness of a key, exactly. */
  ghost predicate RightLaw(cfg: Config, s: Sys, step: Step, after: Sys, k: Key)
    requires Enabled(s, step)
  {
    Right(cfg, after, k) <==>
      || Listenerless(cfg, after, k)
      || ((Right(cfg, s, k) || Refreshes(s, step)) && !Loses(cfg, s, step, k))
  }

  lemma ReceiveRight(cfg: Config, s: Sys, mac: Mac, k: Key)
    requires Inv(cfg, s) && Enabled(s, Receive(mac))
    ensures RightLaw(cfg, s, Receive(mac), After(cfg, s, Receive(mac)), k)
  {
    var ch, got := s.session.ch, s.session.got;
    var ev, known := Next(s), Known(s);
    assert ChannelInv(s.hub, s.history, s.start, ch);
    NextEvent(Sent(s, ch), s.history, s.start[ch], got);
    assert Known(After(cfg, s, Receive(mac))) == Effect(known, ev);
    match ev
    case Snapshot(ls) => SnapshotRight(s.client, cfg, Effect(known, ev), ls, mac, k);
    case Add(l) => AddRight(s.client, cfg, known, l, mac, k);
    case Del(l) => DelRight(s.client, cfg, known, l, k);
  }

  lemma QuietRight(cfg: Config, s: Sys, step: Step, k: Key)
    requires Inv(cfg, s) && Enabled(s, step) && !step.Receive?
    ensures RightLaw(cfg, s, step, After(cfg, s, step), k)
  {
    if !step.CloseAll? {
      KnownStays(cfg, s, step);
    }
    match step
    case Reserve(req, mac) => ReserveRight(s.client, cfg, Known(s), req.port, mac, k);
    case Expire(timer) => ReleaseRight(s.client, cfg, Known(s), timer, k);
    case _ =>
  }

  lemma StepRight(cfg: Config, s: Sys, step: Step, k: Key)
    requires Inv(cfg, s) && Enabled(s, step)
    ensures RightLaw(cfg, s, step, After(cfg, s, step), k)
  {
    if step.Receive? {
      ReceiveRight(cfg, s, step.mac, k);
    } else {
      QuietRight(cfg, s, step, k);
    }
  }

  // ---- whole runs -----------------------------------------------------------------------

  /** Step `j` was refused a bind on `k`. */
  ghost predicate LostAt(cfg: Config, run: seq<Sys>, steps: seq<Step>, j: nat, k: Key)
    requires IsRun(cfg, run, steps) && j < |steps|
  {
    Loses(cfg, run[j], steps[j], k)
  }

  /** Moment `m` wipes the slate: the key has no listener, or the step just taken read a snapshot it did not lose. */
  ghost predicate WipedAt(cfg: Config, run: seq<Sys>, steps: seq<Step>, m: nat, k: Key)
    requires IsRun(cfg, run, steps) && 0 < m < |run|
  {
    Listenerless(cfg, run[m], k) || (Refreshes(run[m - 1], steps[m - 1]) && !Loses(cfg, run[m - 1], steps[m - 1], k))
  }

  /** Every refused bind on `k` so far was wiped since. */
  ghost predicate Unspoilt(cfg: Config, run: seq<Sys>, steps: seq<Step>, i: nat, k: Key)
    requires IsRun(cfg, run, steps) && i < |run|
  {
    forall j: nat :: j < i && LostAt(cfg, run, steps, j, k) ==> WipedSince(cfg, run, steps, j, i, k)
  }

  ghost predicate WipedSince(cfg: Config, run: seq<Sys>, steps: seq<Step>, j: nat, i: nat, k: Key)
    requires IsRun(cfg, run, steps) && i < |run|
  {
    exists m: nat :: j < m <= i && WipedAt(cfg, run, steps, m, k)
  }

  lemma UnspoiltStep(cfg: Config, run: seq<Sys>, steps: seq<Step>, i: nat, k: Key)
    requires IsRun(cfg, run, steps) && i < |steps|
    ensures Unspoilt(cfg, run, steps, i + 1, k) <==>
            || WipedAt(cfg, run, steps, i + 1, k)
            || (Unspoilt(cfg, run, steps, i, k) && !LostAt(cfg, run, steps, i, k))
  {
    forall j: nat | j < i
      ensures WipedSince(cfg, run, steps, j, i + 1, k) <==>
              WipedSince(cfg, run, steps, j, i, k) || WipedAt(cfg, run, steps, i + 1, k)
    {
    }
    assert WipedSince(cfg, run, steps, i, i + 1, k) <==> WipedAt(cfg, run, steps, i + 1, k);
  }

  /**
   * In every run a key is right exactly when each bind refused on it has been followed by
   * a moment without a listener on it, or by a snapshot that was not refused it.
   */
  lemma {:induction false} RightExactly(cfg: Config, run: seq<Sys>, steps: seq<Step>, i: nat, k: Key)
    requires IsRun(cfg, run, steps) && i < |run|
    ensures Right(cfg, run[i], k) <==> Unspoilt(cfg, run, steps, i, k)
  {
    if i == 0 {
      assert Listenerless(cfg, run[0], k);
    } else {
      RightExactly(cfg, run, steps, i - 1, k);
      UnspoiltStep(cfg, run, steps, i - 1, k);
      RunInv(cfg, run, steps, i - 1);
      StepRight(cfg, run[i - 1], steps[i - 1], k);
    }
  }

  /**
   * Refinement, key by key. Once a live session has caught up, the table agrees with the
   * hub on a key, listeners and count, exactly when no refused bind on it is left unwiped.
   */
  lemma KeyRefinesHub(cfg: Config, run: seq<Sys>, steps: seq<Step>, i: nat, k: Key)
    requires IsRun(cfg, run, steps) && i < |run| && CaughtUp(run[i])
    ensures var mirrors, backing := run[i].client.mirrors, Backing(cfg, run[i].hub.listeners, k);
            Unspoilt(cfg, run, steps, i, k) <==>
            if k in mirrors && !mirrors[k].pending then mirrors[k].refs == |backing| else backing == {}
  {
    RightExactly(cfg, run, steps, i, k);
    RunInv(cfg, run, steps, i);
    CaughtUpKnows(cfg, run[i]);
    NoneBacking(cfg, run[i].hub.listeners, k);
  }
}
