/**
 * The mirror measured against what the kernel tracker published (internal/agent/tracker.go):
 * which listeners the hub holds, who is sent what, and that a live session can always catch up.
 */
module HubDelivery {
  import opened Listeners
  import opened MacHolder
  import opened MirrorClient
  import opened Mirroring
  import opened MirrorKeys

  // ---- what was published --------------------------------------------------------------

  /** The tracker's adds and dels, taken at their word. */
  function Live(steps: seq<Step>): set<Listener> {
    if steps == [] then {}
    else
      var before := Live(steps[..|steps| - 1]);
      match steps[|steps| - 1]
      case Publish(OpAdd, l) => before + {l}
      case Publish(OpDel, l) => before - {l}
      case _ => before
  }

  /** The last thing published about `l` is that it came. */
  ghost predicate LastAdded(steps: seq<Step>, l: Listener) {
    exists j :: AddedAt(steps, j, l)
  }

  predicate AddedAt(steps: seq<Step>, j: int, l: Listener) {
    0 <= j < |steps| && steps[j] == Publish(Tracker.OpAdd, l) &&
    forall k :: j < k < |steps| ==> !(steps[k].Publish? && steps[k].l == l)
  }

  lemma {:induction false} LiveIsLastAdded(steps: seq<Step>, l: Listener)
    ensures l in Live(steps) <==> LastAdded(steps, l)
  {
    if steps != [] {
      var n := |steps| - 1;
      LiveIsLastAdded(steps[..n], l);
      if steps[n] == Publish(Tracker.OpAdd, l) {
        assert AddedAt(steps, n, l);
      } else if steps[n].Publish? && steps[n].l == l {
        assert forall j :: AddedAt(steps, j, l) ==> j != n;
      } else {
        forall j ensures AddedAt(steps[..n], j, l) <==> AddedAt(steps, j, l) {
          assert AddedAt(steps[..n], j, l) ==> steps[..n][j] == steps[j];
          assert AddedAt(steps, j, l) ==> j < n && steps[..n][j] == steps[j];
        }
      }
    }
  }

  /** UDP ports the kernel gives to clients: their churn is not passed on. */
  predicate Churn(l: Listener) { l.proto == "udp" && 32768 <= l.port <= 60999 }

  lemma HubStep(cfg: Config, s: Sys, step: Step, l: Listener)
    requires s.hub.Valid() && Enabled(s, step)
    ensures l in After(cfg, s, step).hub.listeners <==>
            if step.Publish? && step.l == l && !Churn(l) then step.op == Tracker.OpAdd else l in s.hub.listeners
  {
  }

  /** In every run the hub holds exactly the listeners, client UDP ports aside, that last came. */
  lemma {:induction false} HubFollowsTracker(cfg: Config, run: seq<Sys>, steps: seq<Step>, i: nat, l: Listener)
    requires IsRun(cfg, run, steps) && i < |run|
    ensures l in run[i].hub.listeners <==> LastAdded(steps[..i], l) && !Churn(l)
    ensures LastAdded(steps[..i], l) <==> l in Live(steps[..i])
  {
    LiveIsLastAdded(steps[..i], l);
    if i > 0 {
      HubFollowsTracker(cfg, run, steps, i - 1, l);
      RunInv(cfg, run, steps, i - 1);
      HubStep(cfg, run[i - 1], steps[i - 1], l);
      assert steps[..i][..i - 1] == steps[..i - 1];
    }
  }

  // ---- what is mirrored of it -------------------------------------------------------------

  /** A port this Mac is to have: TCP, or a service's UDP, on an address a guest client would use. */
  predicate ToMirror(cfg: Config, l: Listener) {
    && l.proto in {"tcp", "udp"} && !Churn(l)
    && l.addr in {"0.0.0.0", "::", "127.0.0.1", "::1"}
    && l.port != 0 && l.port != cfg.agentPort && l.port !in cfg.skip
    && l.port != if cfg.guestAgentPort == 0 then 4777 else cfg.guestAgentPort
  }

  /** Nothing a client tracks is withheld by the hub. */
  lemma TrackedIsPassedOn(cfg: Config, l: Listener)
    ensures cfg.Tracked(l) <==> ToMirror(cfg, l)
    ensures cfg.Tracked(l) ==> !Churn(l)
  {
  }

  /** The guest's listeners on a key, as the tracker published them. */
  function Guests(cfg: Config, steps: seq<Step>, k: Key): set<Listener> {
    set l | l in Live(steps) && ToMirror(cfg, l) && l.proto == k.proto && l.port == k.port
  }

  lemma BackingIsGuests(cfg: Config, run: seq<Sys>, steps: seq<Step>, i: nat, k: Key)
    requires IsRun(cfg, run, steps) && i < |run|
    ensures Backing(cfg, run[i].hub.listeners, k) == Guests(cfg, steps[..i], k)
  {
    forall l ensures l in Backing(cfg, run[i].hub.listeners, k) <==> l in Guests(cfg, steps[..i], k) {
      HubFollowsTracker(cfg, run, steps, i, l);
      TrackedIsPassedOn(cfg, l);
    }
  }

  /** The Mac has refused no bind on `k` so far. */
  ghost predicate NeverRefused(cfg: Config, steps: seq<Step>, i: nat, k: Key)
    requires i <= |steps|
  {
    forall j :: 0 <= j < i && steps[j].Receive? ==> CanOpen(cfg.mirrorIP, steps[j].mac, k)
  }

  lemma NeverRefusedIsUnspoilt(cfg: Config, run: seq<Sys>, steps: seq<Step>, i: nat, k: Key)
    requires IsRun(cfg, run, steps) && i < |run| && NeverRefused(cfg, steps, i, k)
    ensures Unspoilt(cfg, run, steps, i, k)
  {
    forall j: nat | j < i ensures !LostAt(cfg, run, steps, j, k) {
      assert steps[j].Receive? ==> CanOpen(cfg.mirrorIP, steps[j].mac, k);
    }
  }

  /**
   * The mirror against the tracker. A session that has caught up, on a key whose binds were
   * never refused, mirrors it exactly when the guest listens there, counting every listener.
   */
  lemma TableFollowsTracker(cfg: Config, run: seq<Sys>, steps: seq<Step>, i: nat, k: Key)
    requires IsRun(cfg, run, steps) && i < |run| && CaughtUp(run[i])
    requires Unspoilt(cfg, run, steps, i, k) || NeverRefused(cfg, steps, i, k)
    ensures var mirrors, guests := run[i].client.mirrors, Guests(cfg, steps[..i], k);
            && (k in mirrors && !mirrors[k].pending <==> guests != {})
            && (k in mirrors && !mirrors[k].pending ==> mirrors[k].refs == |guests|)
            && (guests != {} ==> Socket(k, mirrors[k].born) in run[i].client.open)
  {
    if NeverRefused(cfg, steps, i, k) {
      NeverRefusedIsUnspoilt(cfg, run, steps, i, k);
    }
    KeyRefinesHub(cfg, run, steps, i, k);
    BackingIsGuests(cfg, run, steps, i, k);
    RunInv(cfg, run, steps, i);
    var mirrors := run[i].client.mirrors;
    if k in mirrors && !mirrors[k].pending {
      OpenIsTable(cfg, run, steps, i, Socket(k, mirrors[k].born));
    }
  }

  // ---- who is sent what ----------------------------------------------------------------------

  /**
   * A change reaches every subscriber with fewer than 256 events unread; one with 256 is closed
   * and dropped, with what it had; and whoever had left already is left alone.
   */
  lemma ChangeIsSent(hub: Tracker.State, op: Tracker.Op, l: Listener, ch: nat)
    requires hub.Valid() && ch in hub.channels && !Churn(l) && (op == Tracker.OpAdd <==> l !in hub.listeners)
    ensures var after, was := hub.Apply(op, l), hub.channels[ch];
            && after.channels.Keys == hub.channels.Keys && after.next == hub.next
            && (ch in hub.subs && |was.sent| - was.taken < 256 ==>
                  && ch in after.subs
                  && after.channels[ch] == was.(sent := was.sent + [if op == Tracker.OpAdd then Add(l) else Del(l)]))
            && (ch in hub.subs && |was.sent| - was.taken >= 256 ==>
                  ch !in after.subs && after.channels[ch] == was.(closed := true))
            && (ch !in hub.subs ==> ch !in after.subs && after.channels[ch] == was)
  {
  }

  /** What changes nothing is sent to nobody. */
  lemma NoChangeIsSilent(hub: Tracker.State, op: Tracker.Op, l: Listener)
    requires hub.Valid() && (Churn(l) || (op == Tracker.OpAdd <==> l in hub.listeners))
    ensures hub.Apply(op, l) == hub
  {
  }

  // ---- catching up -----------------------------------------------------------------------------

  /** Events the session has still to process, those not yet taken off the channel counted twice. */
  ghost function Behind(s: Sys): int
    requires s.session.Live? && s.session.ch in s.hub.channels
  {
    2 * |Sent(s, s.session.ch)| - s.hub.channels[s.session.ch].taken - s.session.got
  }

  /** Taking the next event off the channel, or processing the one taken. */
  function Onward(s: Sys, mac: Mac): Step
    requires s.session.Live? && s.session.ch in s.hub.channels
  {
    if s.session.got < s.hub.channels[s.session.ch].taken then Receive(mac) else Take(s.session.ch)
  }

  lemma OnwardGains(cfg: Config, s: Sys, mac: Mac)
    requires Inv(cfg, s) && s.session.Live? && s.session.ch in s.hub.subs && !CaughtUp(s)
    ensures s.session.ch in s.hub.channels && Enabled(s, Onward(s, mac))
    ensures var after := After(cfg, s, Onward(s, mac));
            && after.session.Live? && after.session.ch == s.session.ch && after.session.ch in after.hub.subs
            && after.session.ch in after.hub.channels
            && after.hub.listeners == s.hub.listeners && 0 <= Behind(after) < Behind(s)
  {
  }

  lemma RunSnoc(cfg: Config, run: seq<Sys>, steps: seq<Step>, step: Step)
    requires IsRun(cfg, run, steps) && Enabled(run[|steps|], step)
    ensures IsRun(cfg, run + [After(cfg, run[|steps|], step)], steps + [step])
  {
  }

  /**
   * Every run whose session is live and registered can be taken on, by that session's own
   * goroutines alone, to a moment at which it has caught up with the hub as it is.
   */
  lemma {:induction false} CanCatchUp(cfg: Config, run: seq<Sys>, steps: seq<Step>, mac: Mac)
      returns (run': seq<Sys>, steps': seq<Step>)
    requires IsRun(cfg, run, steps)
    requires run[|steps|].session.Live? && run[|steps|].session.ch in run[|steps|].hub.subs
    requires run[|steps|].session.ch in run[|steps|].hub.channels
    ensures IsRun(cfg, run', steps') && steps <= steps' && run <= run' && CaughtUp(run'[|steps'|])
    ensures run'[|steps'|].hub.listeners == run[|steps|].hub.listeners
    ensures forall j :: |steps| <= j < |steps'| ==> steps'[j] in {Take(run[|steps|].session.ch), Receive(mac)}
    decreases Behind(run[|steps|])
  {
    var s := run[|steps|];
    run', steps' := run, steps;
    if !CaughtUp(s) {
      RunInv(cfg, run, steps, |steps|);
      OnwardGains(cfg, s, mac);
      var step := Onward(s, mac);
      RunSnoc(cfg, run, steps, step);
      run', steps' := CanCatchUp(cfg, run + [After(cfg, s, step)], steps + [step], mac);
    }
  }

  /** A session can begin whenever none is running, and whoever is registered can take what was sent. */
  lemma Goes(cfg: Config, run: seq<Sys>, steps: seq<Step>, i: nat, step: Step)
    requires IsRun(cfg, run, steps) && i < |run|
    requires match step
             case Connect(snap) => run[i].session.Off? && multiset(snap) == multiset(run[i].hub.listeners)
             case Subscribe(snap) => multiset(snap) == multiset(run[i].hub.listeners)
             case Cancel(ch) => ch in run[i].hub.subs
             case Drop => run[i].session.Live?
             case CloseAll => run[i].session.Ending?
             case Expire(t) => t in run[i].timers
             case Take(ch) => ch in run[i].hub.channels && run[i].hub.channels[ch].taken < |Sent(run[i], ch)|
             case Receive(_) => false
             case _ => true
    ensures Enabled(run[i], step)
  {
    RunInv(cfg, run, steps, i);
  }
}
