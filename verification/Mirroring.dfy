/**
 * The guest-to-Mac mirror as one system: the hub, one FIFO per subscriber, and
 * one client whose sessions, binds, reservations and timers interleave freely.
 */
module Mirroring {
  import opened Listeners
  import opened MacHolder
  import opened MirrorClient
  import Tracker = TrackerHub

  /** Live(ch, got): reading channel `ch`, `got` events processed. Ending: dropped, closeAll still to run. */
  datatype Session = Off | Live(ch: nat, got: nat) | Ending(ch: nat, got: nat)

  /**
   * `history` is every change the hub ever applied, `start[ch]` how much of it lay
   * behind the snapshot of `ch`; `unrefused` says no bind of this session was
   * refused so far; `timers` are the reservations' TTL timers not yet fired.
   */
  datatype Sys = Sys(
    hub: Tracker.State, history: seq<Event>, start: map<nat, nat>,
    client: State, session: Session, unrefused: bool, timers: set<Socket>)

  const INIT := Sys(Tracker.State({}, {}, map[], 0), [], map[], State(map[], 0, {}, multiset{}), Off, true, {})

  datatype Step =
    | Publish(op: Tracker.Op, l: Listener)
    | Subscribe(snap: seq<Listener>)
    | Cancel(ch: nat)
    | Take(ch: nat)
    | Connect(snap: seq<Listener>)
    | Receive(mac: Mac)
    | Drop
    | CloseAll
    | Reserve(req: ReserveReq, mac: Mac)
    | Expire(timer: Socket)

  ghost function Sent(s: Sys, ch: nat): seq<Event>
    requires ch in s.hub.channels
  {
    s.hub.channels[ch].sent
  }

  /** The listeners the current session's events add up to. */
  ghost function Known(s: Sys): set<Listener> {
    if s.session.Off? || s.session.ch !in s.hub.channels || s.session.got > |Sent(s, s.session.ch)| then {}
    else Fold(Sent(s, s.session.ch)[..s.session.got])
  }

  ghost predicate Enabled(s: Sys, step: Step) {
    match step
    case Publish(_, _) => s.hub.Valid()
    case Subscribe(snap) => multiset(snap) == multiset(s.hub.listeners)
    case Cancel(ch) => ch in s.hub.subs
    case Take(ch) => s.hub.CanTake(ch)
    case Connect(snap) => s.session.Off? && multiset(snap) == multiset(s.hub.listeners)
    case Receive(_) =>
      s.session.Live? && s.session.ch in s.hub.channels &&
      s.session.got < s.hub.channels[s.session.ch].taken <= |Sent(s, s.session.ch)|
    case Drop => s.session.Live?
    case CloseAll => s.session.Ending?
    case Reserve(_, _) => true
    case Expire(timer) => timer in s.timers
  }

  ghost function After(cfg: Config, s: Sys, step: Step): Sys
    requires Enabled(s, step)
  {
    match step
    case Publish(op, l) =>
      s.(hub := s.hub.Apply(op, l),
         history := Recorded(s.hub, s.history, op, l))
    case Subscribe(snap) =>
      s.(hub := s.hub.Subscribe(snap), start := s.start[s.hub.next := |s.history|])
    case Cancel(ch) => s.(hub := s.hub.Cancel(ch))
    case Take(ch) => s.(hub := s.hub.Take(ch))
    case Connect(snap) =>
      s.(hub := s.hub.Subscribe(snap), start := s.start[s.hub.next := |s.history|],
         session := Live(s.hub.next, 0), unrefused := true)
    case Receive(mac) =>
      var ev := Sent(s, s.session.ch)[s.session.got];
      s.(client := Handle(s.client, cfg, ev, mac), session := Live(s.session.ch, s.session.got + 1),
         unrefused := s.unrefused && Unrefused(s.client, cfg, ev, mac))
    case Drop => s.(session := Ending(s.session.ch, s.session.got))
    case CloseAll => s.(client := s.client.CloseAll(), session := Off)
    case Reserve(req, mac) =>
      if !Arbitrated(cfg, req) then s else
        var after := s.client.Reserve(cfg, req.port, mac);
        s.(client := after,
           timers := s.timers + if after.mirrors == s.client.mirrors then {} else {Socket(Key("tcp", req.port), after.clock)})
    case Expire(timer) => s.(client := s.client.Release(timer), timers := s.timers - {timer})
  }

  /** A run: any enabled step may come next. */
  ghost predicate IsRun(cfg: Config, run: seq<Sys>, steps: seq<Step>) {
    && |run| == |steps| + 1 && run[0] == INIT
    && (forall i :: 0 <= i < |steps| ==> Enabled(run[i], steps[i]) && run[i + 1] == After(cfg, run[i], steps[i]))
  }

  // --- the hub half ----------------------------------------------------------------

  /** `sent` is a snapshot of the history's first `from` changes, then the changes after it, none missing. */
  ghost predicate Replays(sent: seq<Event>, history: seq<Event>, from: nat) {
    && |sent| >= 1 && from + |sent| - 1 <= |history|
    && sent[0].Snapshot? && multiset(sent[0].listeners) == multiset(Fold(history[..from]))
    && sent[1..] == history[from..from + |sent| - 1]
  }

  ghost predicate ChannelInv(hub: Tracker.State, history: seq<Event>, start: map<nat, nat>, ch: nat) {
    && ch in hub.channels && ch in start && Replays(hub.channels[ch].sent, history, start[ch])
    && (ch in hub.subs ==> start[ch] + |hub.channels[ch].sent| - 1 == |history| && !hub.channels[ch].closed)
  }

  ghost predicate HubInv(hub: Tracker.State, history: seq<Event>, start: map<nat, nat>) {
    && hub.Valid() && hub.listeners == Fold(history) && Faithful(history)
    && (forall ev :: ev in history ==> !ev.Snapshot? && Tracker.EventWorthy(ev.l))
    && (forall ch :: ch in hub.channels ==> ChannelInv(hub, history, start, ch))
  }

  lemma ReplaysSnoc(sent: seq<Event>, history: seq<Event>, from: nat, ev: Event)
    requires Replays(sent, history, from)
    ensures Replays(sent, history + [ev], from)
    ensures from + |sent| - 1 == |history| ==> Replays(sent + [ev], history + [ev], from)
  {
    assert (history + [ev])[..from] == history[..from];
    assert (history + [ev])[from..from + |sent| - 1] == history[from..from + |sent| - 1];
    if from + |sent| - 1 == |history| {
      assert (sent + [ev])[1..] == sent[1..] + [ev];
    }
  }

  function Recorded(hub: Tracker.State, history: seq<Event>, op: Tracker.Op, l: Listener): seq<Event> {
    if hub.Changes(op, l) then history + [Tracker.EventOf(op, l)] else history
  }

  lemma PublishChannel(hub: Tracker.State, history: seq<Event>, start: map<nat, nat>, op: Tracker.Op, l: Listener, ch: nat)
    requires hub.Valid() && ChannelInv(hub, history, start, ch)
    ensures ChannelInv(hub.Apply(op, l), Recorded(hub, history, op, l), start, ch)
  {
    if hub.Changes(op, l) {
      ReplaysSnoc(hub.channels[ch].sent, history, start[ch], Tracker.EventOf(op, l));
    }
  }

  lemma PublishHistory(hub: Tracker.State, history: seq<Event>, op: Tracker.Op, l: Listener)
    requires hub.Valid() && hub.listeners == Fold(history) && Faithful(history)
    ensures hub.Apply(op, l).listeners == Fold(Recorded(hub, history, op, l)) && Faithful(Recorded(hub, history, op, l))
  {
    if hub.Changes(op, l) {
      FoldSnoc(history, Tracker.EventOf(op, l));
      FaithfulSnoc(history, Tracker.EventOf(op, l));
    }
  }

  lemma ApplyValid(hub: Tracker.State, op: Tracker.Op, l: Listener)
    requires hub.Valid()
    ensures hub.Apply(op, l).Valid()
  {
  }

  lemma PublishInv(hub: Tracker.State, history: seq<Event>, start: map<nat, nat>, op: Tracker.Op, l: Listener)
    requires HubInv(hub, history, start)
    ensures HubInv(hub.Apply(op, l), Recorded(hub, history, op, l), start)
  {
    forall ch | ch in hub.channels ensures ChannelInv(hub.Apply(op, l), Recorded(hub, history, op, l), start, ch) {
      PublishChannel(hub, history, start, op, l, ch);
    }
    PublishHistory(hub, history, op, l);
    ApplyValid(hub, op, l);
  }

  lemma SubscribeChannel(hub: Tracker.State, history: seq<Event>, start: map<nat, nat>, snap: seq<Listener>, ch: nat)
    requires HubInv(hub, history, start) && multiset(snap) == multiset(hub.listeners) && ch in hub.Subscribe(snap).channels
    ensures ChannelInv(hub.Subscribe(snap), history, start[hub.next := |history|], ch)
  {
    if ch == hub.next {
      assert history[..|history|] == history;
      assert Replays([Snapshot(snap)], history, |history|);
    } else {
      assert ChannelInv(hub, history, start, ch);
    }
  }

  lemma SubscribeInv(hub: Tracker.State, history: seq<Event>, start: map<nat, nat>, snap: seq<Listener>)
    requires HubInv(hub, history, start) && multiset(snap) == multiset(hub.listeners)
    ensures HubInv(hub.Subscribe(snap), history, start[hub.next := |history|])
  {
    forall ch | ch in hub.Subscribe(snap).channels
      ensures ChannelInv(hub.Subscribe(snap), history, start[hub.next := |history|], ch)
    {
      SubscribeChannel(hub, history, start, snap, ch);
    }
  }

  lemma CancelInv(hub: Tracker.State, history: seq<Event>, start: map<nat, nat>, ch: nat)
    requires HubInv(hub, history, start)
    ensures HubInv(hub.Cancel(ch), history, start)
  {
  }

  lemma TakeInv(hub: Tracker.State, history: seq<Event>, start: map<nat, nat>, ch: nat)
    requires HubInv(hub, history, start) && hub.CanTake(ch)
    ensures HubInv(hub.Take(ch), history, start)
  {
  }

  /** A replaying channel folds to the hub's set as of its last event, one event at a time. */
  lemma {:induction false} ReplayFolds(sent: seq<Event>, history: seq<Event>, from: nat, n: nat)
    requires Replays(sent, history, from) && 1 <= n <= |sent|
    requires Faithful(history) && forall ev :: ev in history ==> !ev.Snapshot?
    ensures Fold(sent[..n]) == Fold(history[..from + n - 1])
    ensures n < |sent| ==> !sent[n].Snapshot?
    ensures n < |sent| ==> FaithfulAt(sent, n)
  {
    if n == 1 {
      assert sent[..1] == [] + [sent[0]];
      FoldSnoc([], sent[0]);
      assert forall l :: l in sent[0].listeners <==> l in multiset(sent[0].listeners);
    } else {
      ReplayFolds(sent, history, from, n - 1);
      assert sent[..n] == sent[..n - 1] + [sent[n - 1]];
      assert history[..from + n - 1] == history[..from + n - 2] + [history[from + n - 2]];
      assert sent[n - 1] == sent[1..][n - 2] == history[from + n - 2];
      FoldSnoc(sent[..n - 1], sent[n - 1]);
      FoldSnoc(history[..from + n - 2], history[from + n - 2]);
    }
    if n < |sent| {
      assert sent[n] == sent[1..][n - 1] == history[from + n - 1];
      assert FaithfulAt(history, from + n - 1);
    }
  }

  // --- the client half -------------------------------------------------------------

  /** The session reads a channel that exists, no further than was taken off it. */
  ghost predicate SessionInv(s: Sys) {
    s.session.Off? ||
      (s.session.ch in s.hub.channels && s.session.got <= s.hub.channels[s.session.ch].taken)
  }

  ghost predicate TableInv(cfg: Config, client: State, known: set<Listener>, timers: set<Socket>) {
    && client.Valid() && Skipless(client, cfg) && RefsSound(client, cfg, known)
    && (forall t :: t in timers ==> t.born <= client.clock)
  }

  ghost predicate Inv(cfg: Config, s: Sys) {
    && HubInv(s.hub, s.history, s.start) && SessionInv(s)
    && TableInv(cfg, s.client, Known(s), s.timers)
    && (s.session.Live? && s.session.got > 0 && s.unrefused ==> RefsComplete(s.client, cfg, Known(s)))
  }

  /** One event of the session reaches the table. */
  lemma HandleInv(cfg: Config, st: State, known: set<Listener>, ev: Event, mac: Mac, complete: bool)
    requires st.Valid() && Skipless(st, cfg) && RefsSound(st, cfg, known)
    requires ev.Snapshot? ==> multiset(ev.listeners) == multiset(Effect(known, ev))
    requires ev.Add? ==> ev.l !in known
    requires ev.Del? ==> ev.l in known
    requires complete && !ev.Snapshot? ==> RefsComplete(st, cfg, known)
    ensures var after := Handle(st, cfg, ev, mac);
            && after.Valid() && Skipless(after, cfg) && RefsSound(after, cfg, Effect(known, ev))
            && (complete && Unrefused(st, cfg, ev, mac) ==> RefsComplete(after, cfg, Effect(known, ev)))
            && st.clock <= after.clock
  {
    match ev
    case Snapshot(ls) =>
      SnapshotRefs(st, cfg, Effect(known, ev), ls, mac);
      ReconcileValid(st, cfg, ls, mac);
    case Add(l) =>
      AddRefs(st, cfg, known, l, mac);
      AddValid(st, cfg, l, mac);
    case Del(l) =>
      DelRefs(st, cfg, known, l);
      DelValid(st, cfg, l);
  }

  /** The next event of a session is one its client's knowledge is ready for. */
  lemma NextEvent(sent: seq<Event>, history: seq<Event>, from: nat, got: nat)
    requires Replays(sent, history, from) && got < |sent|
    requires Faithful(history) && forall ev :: ev in history ==> !ev.Snapshot?
    ensures var ev, known := sent[got], Fold(sent[..got]);
            && (ev.Snapshot? <==> got == 0)
            && (ev.Snapshot? ==> multiset(ev.listeners) == multiset(Effect(known, ev)))
            && FaithfulAt(sent, got)
            && Fold(sent[..got + 1]) == Effect(known, ev)
  {
    assert sent[..got + 1] == sent[..got] + [sent[got]];
    FoldSnoc(sent[..got], sent[got]);
    ReplayFolds(sent, history, from, if got == 0 then 1 else got);
  }

  lemma ReceiveInv(cfg: Config, s: Sys, mac: Mac)
    requires Inv(cfg, s) && Enabled(s, Receive(mac))
    ensures Inv(cfg, After(cfg, s, Receive(mac)))
  {
    var ch, got := s.session.ch, s.session.got;
    var ev, known := Sent(s, ch)[got], Known(s);
    assert ChannelInv(s.hub, s.history, s.start, ch);
    NextEvent(Sent(s, ch), s.history, s.start[ch], got);
    assert Known(After(cfg, s, Receive(mac))) == Effect(known, ev);
    HandleInv(cfg, s.client, known, ev, mac, s.unrefused);
  }

  /** A step of the hub or of a serving goroutine leaves the client's half alone. */
  lemma HubStepInv(cfg: Config, s: Sys, step: Step)
    requires Inv(cfg, s) && Enabled(s, step)
    requires step.Publish? || step.Subscribe? || step.Cancel? || step.Take?
    ensures Inv(cfg, After(cfg, s, step))
  {
    var after := After(cfg, s, step);
    match step {
      case Publish(op, l) => PublishInv(s.hub, s.history, s.start, op, l);
      case Subscribe(snap) => SubscribeInv(s.hub, s.history, s.start, snap);
      case Cancel(ch) => CancelInv(s.hub, s.history, s.start, ch);
      case Take(ch) => TakeInv(s.hub, s.history, s.start, ch);
    }
    if !s.session.Off? {
      assert Sent(after, s.session.ch)[..s.session.got] == Sent(s, s.session.ch)[..s.session.got];
    }
  }

  lemma ConnectInv(cfg: Config, s: Sys, snap: seq<Listener>)
    requires Inv(cfg, s) && Enabled(s, Connect(snap))
    ensures Inv(cfg, After(cfg, s, Connect(snap)))
  {
    SubscribeInv(s.hub, s.history, s.start, snap);
    assert Sent(After(cfg, s, Connect(snap)), s.hub.next)[..0] == [];
  }

  lemma SweepInv(cfg: Config, s: Sys)
    requires Inv(cfg, s) && s.session.Ending?
    ensures Inv(cfg, After(cfg, s, CloseAll))
  {
  }

  lemma ReserveInv(cfg: Config, s: Sys, req: ReserveReq, mac: Mac)
    requires Inv(cfg, s)
    ensures Inv(cfg, After(cfg, s, Reserve(req, mac)))
  {
    assert Known(After(cfg, s, Reserve(req, mac))) == Known(s);
    if Arbitrated(cfg, req) {
      ReserveValid(s.client, cfg, req.port, mac);
      ReserveRefs(s.client, cfg, Known(s), req.port, mac);
    }
  }

  lemma ExpireInv(cfg: Config, s: Sys, timer: Socket)
    requires Inv(cfg, s) && timer in s.timers
    ensures Inv(cfg, After(cfg, s, Expire(timer)))
  {
    ReleaseValid(s.client, timer);
    ReleaseRefs(s.client, cfg, Known(s), timer);
  }

  lemma StepInv(cfg: Config, s: Sys, step: Step)
    requires Inv(cfg, s) && Enabled(s, step)
    ensures Inv(cfg, After(cfg, s, step))
  {
    match step
    case Publish(_, _) | Subscribe(_) | Cancel(_) | Take(_) => HubStepInv(cfg, s, step);
    case Connect(snap) => ConnectInv(cfg, s, snap);
    case Receive(mac) => ReceiveInv(cfg, s, mac);
    case Drop =>
    case CloseAll => SweepInv(cfg, s);
    case Reserve(req, mac) => ReserveInv(cfg, s, req, mac);
    case Expire(timer) => ExpireInv(cfg, s, timer);
  }

  lemma {:induction false} RunInv(cfg: Config, run: seq<Sys>, steps: seq<Step>, i: nat)
    requires IsRun(cfg, run, steps) && i < |run|
    ensures Inv(cfg, run[i])
  {
    if i > 0 {
      RunInv(cfg, run, steps, i - 1);
      StepInv(cfg, run[i - 1], steps[i - 1]);
    }
  }

  // --- what every run keeps --------------------------------------------------------

  /** The session is live, still registered with the hub, and has processed all that was sent to it. */
  ghost predicate CaughtUp(s: Sys) {
    s.session.Live? && s.session.ch in s.hub.subs && s.session.ch in s.hub.channels &&
    s.session.got == |Sent(s, s.session.ch)|
  }

  lemma CaughtUpKnows(cfg: Config, s: Sys)
    requires Inv(cfg, s) && CaughtUp(s)
    ensures Known(s) == s.hub.listeners
  {
    var ch := s.session.ch;
    assert ChannelInv(s.hub, s.history, s.start, ch);
    ReplayFolds(Sent(s, ch), s.history, s.start[ch], |Sent(s, ch)|);
    assert s.history[..|s.history|] == s.history;
  }

  /**
   * Refinement. Whenever a session is caught up and none of its binds was refused,
   * the non-pending mirrors are exactly the keys with a tracked listener in the
   * hub's set, each counting all of them.
   */
  lemma TableRefinesHub(cfg: Config, run: seq<Sys>, steps: seq<Step>, i: nat)
    requires IsRun(cfg, run, steps) && i < |run| && CaughtUp(run[i]) && run[i].unrefused
    ensures forall k :: Backing(cfg, run[i].hub.listeners, k) != {} <==>
      k in run[i].client.mirrors && !run[i].client.mirrors[k].pending
    ensures forall k :: k in run[i].client.mirrors && !run[i].client.mirrors[k].pending ==>
      run[i].client.mirrors[k].refs == |Backing(cfg, run[i].hub.listeners, k)|
  {
    RunInv(cfg, run, steps, i);
    var s := run[i];
    CaughtUpKnows(cfg, s);
    forall k | k in s.client.mirrors && !s.client.mirrors[k].pending
      ensures Backing(cfg, s.hub.listeners, k) != {}
    {
      assert |Backing(cfg, s.hub.listeners, k)| >= 1;
    }
  }

  /**
   * In any run, with any bind outcomes, reservations, expiries and drops: a mirror
   * counts at least one and at most all of the listeners the session knows of, so
   * a key without any holds at most a pending reservation.
   */
  lemma RefsBounded(cfg: Config, run: seq<Sys>, steps: seq<Step>, i: nat, k: Key)
    requires IsRun(cfg, run, steps) && i < |run| && k in run[i].client.mirrors
    ensures !run[i].client.mirrors[k].pending ==>
      1 <= run[i].client.mirrors[k].refs <= |Backing(cfg, Known(run[i]), k)|
    ensures Backing(cfg, Known(run[i]), k) == {} ==> run[i].client.mirrors[k].pending
  {
    RunInv(cfg, run, steps, i);
  }

  ghost predicate StillExact(cfg: Config, s: Sys, after: Sys, k: Key) {
    ExactAt(s.client, cfg, Known(s), k) && k in after.client.mirrors ==> ExactAt(after.client, cfg, Known(after), k)
  }

  lemma ReceiveExact(cfg: Config, s: Sys, mac: Mac, k: Key)
    requires Inv(cfg, s) && Enabled(s, Receive(mac))
    ensures StillExact(cfg, s, After(cfg, s, Receive(mac)), k)
  {
    var ch, got := s.session.ch, s.session.got;
    assert ChannelInv(s.hub, s.history, s.start, ch);
    NextEvent(Sent(s, ch), s.history, s.start[ch], got);
    if ExactAt(s.client, cfg, Known(s), k) && k in After(cfg, s, Receive(mac)).client.mirrors {
      ExactStays(s.client, cfg, Known(s), Sent(s, ch)[got], mac, k);
    }
  }

  /** A channel's stream only ever grows. */
  lemma SentExtends(cfg: Config, s: Sys, step: Step, ch: nat)
    requires s.hub.Valid() && Enabled(s, step) && ch in s.hub.channels
    ensures ch in After(cfg, s, step).hub.channels && Sent(s, ch) <= Sent(After(cfg, s, step), ch)
  {
  }

  lemma SamePrefix(a: seq<Event>, b: seq<Event>, n: nat)
    requires a <= b && n <= |a|
    ensures a[..n] == b[..n]
  {
  }

  /** Only reading the channel, or ending the session, changes what the session knows. */
  lemma KnownStays(cfg: Config, s: Sys, step: Step)
    requires Inv(cfg, s) && Enabled(s, step) && !step.Receive? && !step.CloseAll?
    ensures Known(After(cfg, s, step)) == Known(s)
  {
    if !s.session.Off? {
      SentExtends(cfg, s, step, s.session.ch);
      SamePrefix(Sent(s, s.session.ch), Sent(After(cfg, s, step), s.session.ch), s.session.got);
    }
  }

  lemma QuietExact(cfg: Config, s: Sys, step: Step, k: Key)
    requires Inv(cfg, s) && Enabled(s, step) && !step.Receive?
    ensures StillExact(cfg, s, After(cfg, s, step), k)
  {
    if !step.CloseAll? {
      KnownStays(cfg, s, step);
    }
  }

  lemma StepExact(cfg: Config, run: seq<Sys>, steps: seq<Step>, i: nat, k: Key)
    requires IsRun(cfg, run, steps) && i < |steps|
    ensures StillExact(cfg, run[i], run[i + 1], k)
  {
    RunInv(cfg, run, steps, i);
    if steps[i].Receive? {
      ReceiveExact(cfg, run[i], steps[i].mac, k);
    } else {
      QuietExact(cfg, run[i], steps[i], k);
    }
  }

  /** The mirror for `k` stands at every moment from `i` to `j`. */
  ghost predicate Stands(run: seq<Sys>, i: nat, j: nat, k: Key)
    requires i <= j < |run|
  {
    forall m :: i <= m <= j ==> k in run[m].client.mirrors
  }

  /** In any run, a mirror whose count is right keeps it right for as long as its key stays in the table. */
  lemma {:induction false} ExactUntilRemoved(cfg: Config, run: seq<Sys>, steps: seq<Step>, i: nat, j: nat, k: Key)
    requires IsRun(cfg, run, steps) && i <= j < |run|
    requires ExactAt(run[i].client, cfg, Known(run[i]), k) && Stands(run, i, j, k)
    ensures ExactAt(run[j].client, cfg, Known(run[j]), k)
  {
    if i < j {
      ExactUntilRemoved(cfg, run, steps, i, j - 1, k);
      StepExact(cfg, run, steps, j - 1, k);
    }
  }

  /** In any run the open sockets are exactly the table's, and none of them was ever stopped. */
  lemma OpenIsTable(cfg: Config, run: seq<Sys>, steps: seq<Step>, i: nat, x: Socket)
    requires IsRun(cfg, run, steps) && i < |run|
    ensures x in run[i].client.open <==> x.key in run[i].client.mirrors && run[i].client.mirrors[x.key].born == x.born
    ensures run[i].client.stops[x] <= 1
    ensures x in run[i].client.open ==> run[i].client.stops[x] == 0
  {
    RunInv(cfg, run, steps, i);
    assert run[i].client.Owns(x) <==> x in run[i].client.open;
  }

  lemma AccountedStays(cfg: Config, s: Sys, step: Step, x: Socket)
    requires s.client.Valid() && Enabled(s, step) && Accounted(s.client, x)
    ensures Accounted(After(cfg, s, step).client, x)
  {
    match step
    case Receive(mac) => EventAccounts(s.client, cfg, Sent(s, s.session.ch)[s.session.got], mac, x);
    case CloseAll => CloseAccounts(s.client, s.client.mirrors.Keys, x);
    case Expire(timer) => ReleaseAccounts(s.client, timer, x);
    case _ =>
  }

  lemma ClientValid(cfg: Config, run: seq<Sys>, steps: seq<Step>, i: nat)
    requires IsRun(cfg, run, steps) && i < |run|
    ensures run[i].client.Valid()
  {
    RunInv(cfg, run, steps, i);
  }

  lemma {:induction false} AccountedForever(cfg: Config, run: seq<Sys>, steps: seq<Step>, i: nat, j: nat, x: Socket)
    requires IsRun(cfg, run, steps) && i <= j < |run| && x in run[i].client.open
    ensures Accounted(run[j].client, x)
  {
    if i < j {
      AccountedForever(cfg, run, steps, i, j - 1, x);
      ClientValid(cfg, run, steps, j - 1);
      AccountedStays(cfg, run[j - 1], steps[j - 1], x);
    }
  }

  /**
   * Conservation. A listener that was ever open is, at any later moment, still open under
   * its own entry and never stopped, or its entry has gone and it was stopped exactly once.
   */
  lemma ListenersConserved(cfg: Config, run: seq<Sys>, steps: seq<Step>, i: nat, j: nat, x: Socket)
    requires IsRun(cfg, run, steps) && i <= j < |run| && x in run[i].client.open
    ensures var now := run[j].client;
            var entered := x.key in now.mirrors && now.mirrors[x.key].born == x.born;
            && (x in now.open <==> entered)
            && now.stops[x] == if entered then 0 else 1
  {
    OpenIsTable(cfg, run, steps, j, x);
    AccountedForever(cfg, run, steps, i, j, x);
  }

  /**
   * Replay. A registered subscriber's snapshot and events fold to the hub's set,
   * each add of an absent listener and each del of a present one; a subscriber that
   * overflowed was closed and unregistered, holding an unbroken piece of the history.
   */
  lemma HubReplays(cfg: Config, run: seq<Sys>, steps: seq<Step>, i: nat, ch: nat)
    requires IsRun(cfg, run, steps) && i < |run| && ch in run[i].hub.channels
    ensures ch in run[i].start && Replays(Sent(run[i], ch), run[i].history, run[i].start[ch])
    ensures ch in run[i].hub.subs ==> Fold(Sent(run[i], ch)) == run[i].hub.listeners
    ensures Faithful(Sent(run[i], ch))
    ensures run[i].hub.channels[ch].closed ==> ch !in run[i].hub.subs
  {
    RunInv(cfg, run, steps, i);
    var s := run[i];
    assert ChannelInv(s.hub, s.history, s.start, ch);
    assert s.history[..|s.history|] == s.history;
    ReplayIsFaithful(Sent(s, ch), s.history, s.start[ch]);
  }

  lemma ReplayIsFaithful(sent: seq<Event>, history: seq<Event>, from: nat)
    requires Replays(sent, history, from) && Faithful(history) && forall ev :: ev in history ==> !ev.Snapshot?
    ensures Faithful(sent) && Fold(sent) == Fold(history[..from + |sent| - 1])
  {
    assert sent[..|sent|] == sent;
    ReplayFolds(sent, history, from, |sent|);
    forall n: nat | n < |sent| ensures FaithfulAt(sent, n) {
      NextEvent(sent, history, from, n);
    }
  }

  lemma UnfedStep(cfg: Config, s: Sys, step: Step, ch: nat)
    requires s.hub.Valid() && Enabled(s, step) && step != Cancel(ch)
    requires ch in After(cfg, s, step).hub.channels && ch !in After(cfg, s, step).hub.subs
    ensures ch in s.hub.channels
    ensures ch in s.hub.subs || s.hub.channels[ch].closed ==> After(cfg, s, step).hub.channels[ch].closed
  {
  }

  /** No silent divergence: a subscriber the hub no longer feeds left by itself or had its channel closed. */
  lemma {:induction false} UnfedIsClosed(cfg: Config, run: seq<Sys>, steps: seq<Step>, i: nat, ch: nat)
    requires IsRun(cfg, run, steps) && i < |run| && ch in run[i].hub.channels && ch !in run[i].hub.subs
    requires forall j :: 0 <= j < i ==> steps[j] != Cancel(ch)
    ensures run[i].hub.channels[ch].closed
  {
    if i > 0 {
      assert run[i - 1].hub.Valid() by { RunInv(cfg, run, steps, i - 1); }
      UnfedStep(cfg, run[i - 1], steps[i - 1], ch);
      if ch !in run[i - 1].hub.subs {
        UnfedIsClosed(cfg, run, steps, i - 1, ch);
      }
    }
  }

  /** The timer of `t` can no longer do anything. */
  ghost predicate Spent(s: Sys, t: Socket) {
    t.born <= s.client.clock && !s.client.Lapses(t)
  }

  lemma SpentStays(cfg: Config, s: Sys, step: Step, t: Socket)
    requires Enabled(s, step) && Spent(s, t)
    ensures Spent(After(cfg, s, step), t)
  {
  }

  /** Stale timers: once a reservation was adopted, removed or replaced, its timer never changes the table again. */
  lemma {:induction false} StaleTimersDoNothing(cfg: Config, run: seq<Sys>, steps: seq<Step>, i: nat, j: nat, t: Socket)
    requires IsRun(cfg, run, steps) && i <= j < |run| && Spent(run[i], t)
    ensures run[j].client.Release(t) == run[j].client && Spent(run[j], t)
  {
    if i < j {
      StaleTimersDoNothing(cfg, run, steps, i, j - 1, t);
      SpentStays(cfg, run[j - 1], steps[j - 1], t);
    }
  }
}
