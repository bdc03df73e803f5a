/**
 * The two halves of Mac-to-guest sync together: where the agent ends up after the
 * Mac's diffs, and what its sessions may do to one another and to the harness.
 */
module MacSync {
  import opened Options
  import opened MacHolder
  import opened MacSyncer
  import opened GuestAgent

  // --- convergence -------------------------------------------------------------------

  ghost function Dels(s: State, dels: seq<MacListener>, f: Faults): State {
    if dels == [] then s else Dels(s, dels[..|dels| - 1], f).DelSync(dels[|dels| - 1], f)
  }

  ghost function Adds(s: State, adds: seq<MacListener>, f: Faults): State {
    if adds == [] then s else Adds(s, adds[..|adds| - 1], f).AddSync(adds[|adds| - 1], f)
  }

  ghost function Elements(ls: seq<MacListener>): set<MacListener> { set l | l in ls }

  lemma ProjectionSnoc(ls: seq<MacListener>)
    requires ls != []
    ensures var l := ls[|ls| - 1];
            Projection(Elements(ls)) == Projection(Elements(ls[..|ls| - 1])) + if IdOf(l).Some? then {IdOf(l).value} else {}
  {
  }

  lemma {:induction false} DelsOwned(s: State, dels: seq<MacListener>, f: Faults)
    requires s.owned <= s.mac.Keys
    ensures Dels(s, dels, f).owned == s.owned - Projection(Elements(dels))
    ensures Dels(s, dels, f).mac.Keys == s.mac.Keys - s.owned * Projection(Elements(dels))
  {
    if dels != [] {
      DelsOwned(s, dels[..|dels| - 1], f);
      ProjectionSnoc(dels);
    }
  }

  /** The ports an add event can bring into `s`. */
  ghost function Joinable(s: State, ids: set<PortId>, f: Faults): set<PortId> {
    set id | id in ids && id !in s.mac && AddOk(id, f)
  }

  lemma {:induction false} AddsOwned(s: State, adds: seq<MacListener>, f: Faults)
    ensures Adds(s, adds, f).owned == s.owned + Joinable(s, Projection(Elements(adds)), f)
    ensures Adds(s, adds, f).mac.Keys == s.mac.Keys + Joinable(s, Projection(Elements(adds)), f)
  {
    if adds != [] {
      AddsOwned(s, adds[..|adds| - 1], f);
      ProjectionSnoc(adds);
    }
  }

  /** One tick's events, each list in any order. */
  ghost predicate DiffOf(last: set<MacListener>, cur: set<MacListener>, dels: seq<MacListener>, adds: seq<MacListener>) {
    multiset(dels) == multiset(last - cur) && multiset(adds) == multiset(cur - last)
  }

  lemma ElementsOf(ls: seq<MacListener>, s: set<MacListener>)
    requires multiset(ls) == multiset(s)
    ensures Elements(ls) == s
  {
    assert forall l :: l in ls <==> l in multiset(ls);
  }

  lemma TickOwned(s: State, last: set<MacListener>, cur: set<MacListener>, dels: seq<MacListener>, adds: seq<MacListener>, f: Faults)
    requires s.owned <= s.mac.Keys && DiffOf(last, cur, dels, adds)
    ensures var mid, after := Dels(s, dels, f), Adds(Dels(s, dels, f), adds, f);
            && mid.owned == s.owned - Projection(last - cur)
            && mid.mac.Keys == s.mac.Keys - s.owned * Projection(last - cur)
            && after.owned == mid.owned + Joinable(mid, Projection(cur - last), f)
            && after.owned <= after.mac.Keys
  {
    ElementsOf(dels, last - cur);
    ElementsOf(adds, cur - last);
    DelsOwned(s, dels, f);
    AddsOwned(Dels(s, dels, f), adds, f);
  }

  /** Whatever fails, and whatever the harness holds, sync never owns a port the Mac does not offer. */
  lemma TickNeverExceeds(s: State, last: set<MacListener>, cur: set<MacListener>, dels: seq<MacListener>, adds: seq<MacListener>, f: Faults)
    requires s.owned <= s.mac.Keys && DiffOf(last, cur, dels, adds) && s.owned <= Projection(last)
    ensures Adds(Dels(s, dels, f), adds, f).owned <= Projection(cur)
  {
    TickOwned(s, last, cur, dels, adds, f);
    forall id | id in s.owned - Projection(last - cur) ensures id in Projection(cur) {
      var l :| l in last && IdOf(l) == Some(id);
      assert l in cur;
    }
  }

  /** The entry of `id` steers connects to the port and address of `l`: these are its sixteen bytes. */
  ghost predicate Keyed(s: State, id: PortId, l: MacListener) {
    IdOf(l) == Some(id) && id in s.mac && s.mac[id].id == id && V6(s.mac[id].addr16).Unmap() == l.addr.Unmap()
  }

  /** Sync owns nothing the Mac does not offer, at the address its entry is for. */
  ghost predicate Within(s: State, offered: set<MacListener>) {
    forall id :: id in s.owned ==> exists l :: l in offered && Keyed(s, id, l)
  }

  lemma {:induction false} DelsKeys(s: State, dels: seq<MacListener>, f: Faults)
    ensures forall id :: id in Dels(s, dels, f).mac ==> id in s.mac && Dels(s, dels, f).mac[id] == s.mac[id]
  {
    if dels != [] {
      DelsKeys(s, dels[..|dels| - 1], f);
    }
  }

  lemma {:induction false} AddsKeys(s: State, adds: seq<MacListener>, f: Faults)
    ensures forall id :: id in s.mac ==> id in Adds(s, adds, f).mac && Adds(s, adds, f).mac[id] == s.mac[id]
    ensures forall id :: id in Adds(s, adds, f).mac && id !in s.mac ==>
              exists l :: l in Elements(adds) && Keyed(Adds(s, adds, f), id, l)
  {
    if adds != [] {
      var init, l := adds[..|adds| - 1], adds[|adds| - 1];
      AddsKeys(s, init, f);
      forall id | id in Adds(s, adds, f).mac && id !in s.mac
        ensures exists l :: l in Elements(adds) && Keyed(Adds(s, adds, f), id, l)
      {
        if id in Adds(s, init, f).mac {
          var was :| was in Elements(init) && Keyed(Adds(s, init, f), id, was);
          assert was in Elements(adds) && Keyed(Adds(s, adds, f), id, was);
        } else {
          StoredAddress(id, l.addr);
          assert l in Elements(adds) && Keyed(Adds(s, adds, f), id, l);
        }
      }
    }
  }

  /** Whatever fails, each owned entry is for a listener the Mac offers, address included. */
  lemma TickKeepsKeys(s: State, last: set<MacListener>, cur: set<MacListener>, dels: seq<MacListener>, adds: seq<MacListener>, f: Faults)
    requires DiffOf(last, cur, dels, adds) && Within(s, last)
    ensures Within(Adds(Dels(s, dels, f), adds, f), cur)
  {
    var mid, after := Dels(s, dels, f), Adds(Dels(s, dels, f), adds, f);
    ElementsOf(adds, cur - last);
    TickOwned(s, last, cur, dels, adds, f);
    DelsKeys(s, dels, f);
    AddsKeys(mid, adds, f);
    forall id | id in after.owned ensures exists l :: l in cur && Keyed(after, id, l) {
      if id in mid.owned {
        var l :| l in last && Keyed(s, id, l);
        assert l in cur && Keyed(after, id, l);
      } else {
        var l :| l in Elements(adds) && Keyed(after, id, l);
        assert l in cur;
      }
    }
  }

  /** Every port that leaves by one address and stays by another also arrives by a new one. */
  ghost predicate NoOrphan(last: set<MacListener>, cur: set<MacListener>) {
    Projection(last - cur) * Projection(cur) <= Projection(cur - last)
  }

  /** Nothing outside sync stands in the way of the ports in `ids`. */
  ghost predicate Unhindered(s: State, ids: set<PortId>, f: Faults) {
    forall id :: id in ids ==>
      id.proto in {6, 17} && id !in f.noListen && id !in f.noPut && (id in s.mac ==> id in s.owned)
  }

  /** From a converged state, an unhindered tick converges exactly when it orphans no port. */
  lemma TickConverges(s: State, last: set<MacListener>, cur: set<MacListener>, dels: seq<MacListener>, adds: seq<MacListener>, f: Faults)
    requires s.owned <= s.mac.Keys && DiffOf(last, cur, dels, adds)
    requires s.owned == Projection(last) && Unhindered(s, Projection(cur), f)
    ensures Adds(Dels(s, dels, f), adds, f).owned == Projection(cur) <==> NoOrphan(last, cur)
  {
    TickOwned(s, last, cur, dels, adds, f);
    var after := Adds(Dels(s, dels, f), adds, f).owned;
    assert after == (Projection(last) - Projection(last - cur)) + Projection(cur - last);
    forall id ensures id in Projection(cur) <==> id in Projection(cur - last) || id in Projection(last * cur) {
      if l :| l in cur && IdOf(l) == Some(id) { assert l in cur - last || l in last * cur; }
    }
    assert Projection(last * cur) <= Projection(last);
    forall id | id in Projection(last) - Projection(last - cur) ensures id in Projection(cur) {
      var l :| l in last && IdOf(l) == Some(id);
      assert l in cur;
    }
  }

  ghost predicate OneAddressEach(ls: set<MacListener>) {
    forall a, b :: a in ls && b in ls && IdOf(a).Some? && IdOf(a) == IdOf(b) ==> a == b
  }

  lemma OneAddressNoOrphan(last: set<MacListener>, cur: set<MacListener>)
    requires OneAddressEach(last)
    ensures NoOrphan(last, cur)
  {
  }

  /** Two addresses on one port: closing one of them drops the port from the guest. */
  lemma TwoAddressesOrphan()
    ensures var one, any := MacListener("tcp", 8080, V4_LOOPBACK, false), MacListener("tcp", 8080, V4_ANY, false);
            !NoOrphan({one, any}, {any})
  {
    var one, any := MacListener("tcp", 8080, V4_LOOPBACK, false), MacListener("tcp", 8080, V4_ANY, false);
    var id := PortId(TCP, 8080);
    assert one in {one, any} - {any} && id in Projection({one, any} - {any});
    assert any in {any} && id in Projection({any});
    assert {any} - {one, any} == {} && Projection({}) == {};
    assert id in Projection({one, any} - {any}) * Projection({any});
  }

  /** One round of a session: the poll, the agent as the harness left it, the events, the faults, the agent after. */
  datatype Round = Round(
    cur: set<MacListener>, found: State, dels: seq<MacListener>, adds: seq<MacListener>, f: Faults, left: State)

  /** The harness adds and removes entries, never granting sync ownership; an entry is never rewritten. */
  ghost predicate HarnessOnly(s: State, found: State) {
    && found.owned <= s.owned && found.owned <= found.mac.Keys
    && forall id :: id in found.owned && id in s.mac ==> found.mac[id] == s.mac[id]
  }

  ghost predicate Follows(s: State, last: set<MacListener>, r: Round) {
    && HarnessOnly(s, r.found) && DiffOf(last, r.cur, r.dels, r.adds)
    && r.left == Adds(Dels(r.found, r.dels, r.f), r.adds, r.f)
  }

  /** A round nothing hinders: one address per port, no failing call, the harness out of the way. */
  ghost predicate Clean(s: State, r: Round) {
    OneAddressEach(r.cur) && Unhindered(r.found, Projection(r.cur), r.f) && r.found.owned == s.owned
  }

  /** How a session opens: the first poll, the agent before, the poll as listed on the wire, the agent after. */
  datatype Opening = Opening(cur: set<MacListener>, before: State, ls: seq<MacListener>, f: Faults, left: State)

  ghost predicate Opens(o: Opening) {
    o.before.owned == {} && multiset(o.ls) == multiset(o.cur) && o.left == o.before.ApplySnapshot(o.ls, o.f)
  }

  ghost function StateBefore(o: Opening, rounds: seq<Round>, i: nat): State
    requires i <= |rounds|
  {
    if i == 0 then o.left else rounds[i - 1].left
  }

  ghost function PollBefore(o: Opening, rounds: seq<Round>, i: nat): set<MacListener>
    requires i <= |rounds|
  {
    if i == 0 then o.cur else rounds[i - 1].cur
  }

  ghost predicate IsSession(o: Opening, rounds: seq<Round>) {
    && Opens(o)
    && (forall i: nat :: i < |rounds| ==> FollowsAt(o, rounds, i))
  }

  ghost predicate FollowsAt(o: Opening, rounds: seq<Round>, i: nat)
    requires i < |rounds|
  {
    Follows(StateBefore(o, rounds, i), PollBefore(o, rounds, i), rounds[i])
  }

  ghost predicate CleanAt(o: Opening, rounds: seq<Round>, i: nat)
    requires i < |rounds|
  {
    Clean(StateBefore(o, rounds, i), rounds[i])
  }

  lemma SnapshotOwned(before: State, ls: seq<MacListener>, f: Faults)
    ensures var after, w := before.ApplySnapshot(ls, f), Projection(Elements(ls));
            && after.owned == before.owned * w + Joinable(before.RemoveAll(before.owned - w, f), w, f)
            && (before.owned <= before.mac.Keys ==> after.owned <= after.mac.Keys)
  {
    WantOfSnapshot(ls);
  }

  lemma {:induction false} WantedAreListed(ls: seq<MacListener>)
    ensures forall id :: id in WantOf(ls) ==> WantOf(ls)[id] in ls
  {
    if ls != [] {
      WantedAreListed(ls[..|ls| - 1]);
    }
  }

  lemma SnapshotNeverExceeds(before: State, ls: seq<MacListener>, f: Faults)
    requires before.owned == {}
    ensures Within(before.ApplySnapshot(ls, f), Elements(ls))
  {
    var after, w := before.ApplySnapshot(ls, f), WantOf(ls);
    WantOfSnapshot(ls);
    WantedAreListed(ls);
    forall id | id in after.owned ensures exists l :: l in Elements(ls) && Keyed(after, id, l) {
      StoredAddress(id, w[id].addr);
      assert w[id] in Elements(ls) && Keyed(after, id, w[id]);
    }
  }

  lemma FollowNeverExceeds(s: State, last: set<MacListener>, r: Round)
    requires Follows(s, last, r) && Within(s, last)
    ensures Within(r.left, r.cur)
  {
    forall id | id in r.found.owned ensures exists l :: l in last && Keyed(r.found, id, l) {
      var l :| l in last && Keyed(s, id, l);
      assert Keyed(r.found, id, l);
    }
    TickKeepsKeys(r.found, last, r.cur, r.dels, r.adds, r.f);
  }

  /**
   * In every session, after the snapshot and after every round, what sync owns is offered by
   * the Mac's last poll, at the address connects are steered for.
   */
  lemma {:induction false} OwnedIsOffered(o: Opening, rounds: seq<Round>, n: nat)
    requires IsSession(o, rounds) && n <= |rounds|
    ensures Within(StateBefore(o, rounds, n), PollBefore(o, rounds, n))
  {
    if n == 0 {
      SnapshotNeverExceeds(o.before, o.ls, o.f);
      ElementsOf(o.ls, o.cur);
    } else {
      OwnedIsOffered(o, rounds, n - 1);
      assert FollowsAt(o, rounds, n - 1);
      FollowNeverExceeds(StateBefore(o, rounds, n - 1), PollBefore(o, rounds, n - 1), rounds[n - 1]);
    }
  }

  lemma {:induction false} PortsAreExactlyOffered(o: Opening, rounds: seq<Round>, n: nat)
    requires IsSession(o, rounds) && n <= |rounds|
    requires OneAddressEach(o.cur) && Unhindered(o.before, Projection(o.cur), o.f)
    requires forall i: nat :: i < n ==> CleanAt(o, rounds, i)
    ensures StateBefore(o, rounds, n).owned == Projection(PollBefore(o, rounds, n))
    ensures OneAddressEach(PollBefore(o, rounds, n))
  {
    if n == 0 {
      ElementsOf(o.ls, o.cur);
      SnapshotConverges(o.before, o.ls, o.f);
    } else {
      PortsAreExactlyOffered(o, rounds, n - 1);
      var r, last := rounds[n - 1], PollBefore(o, rounds, n - 1);
      assert FollowsAt(o, rounds, n - 1) && CleanAt(o, rounds, n - 1);
      OneAddressNoOrphan(last, r.cur);
      TickConverges(r.found, last, r.cur, r.dels, r.adds, r.f);
    }
  }

  /**
   * One address per port, no fault, no harness entry in the way: sync owns exactly the ports
   * the Mac offers, and connects are steered for exactly the address each is offered at.
   */
  lemma OwnedIsExactlyOffered(o: Opening, rounds: seq<Round>, n: nat)
    requires IsSession(o, rounds) && n <= |rounds|
    requires OneAddressEach(o.cur) && Unhindered(o.before, Projection(o.cur), o.f)
    requires forall i: nat :: i < n ==> CleanAt(o, rounds, i)
    ensures var s, offered := StateBefore(o, rounds, n), PollBefore(o, rounds, n);
            && s.owned == Projection(offered)
            && forall l :: l in offered && IdOf(l).Some? ==> Keyed(s, IdOf(l).value, l)
  {
    PortsAreExactlyOffered(o, rounds, n);
    OwnedIsOffered(o, rounds, n);
    var s, offered := StateBefore(o, rounds, n), PollBefore(o, rounds, n);
    forall l | l in offered && IdOf(l).Some? ensures Keyed(s, IdOf(l).value, l) {
      assert IdOf(l).value in s.owned;
      var k :| k in offered && Keyed(s, IdOf(l).value, k);
      assert k == l;
    }
  }

  /** The snapshot converges from nothing whenever it is unhindered, however many addresses it lists. */
  lemma SnapshotConverges(before: State, ls: seq<MacListener>, f: Faults)
    requires before.owned == {} && Unhindered(before, Projection(Elements(ls)), f)
    ensures before.ApplySnapshot(ls, f).owned == Projection(Elements(ls))
  {
    SnapshotOwned(before, ls, f);
  }

  /** Once a round is over, a reverse dial is let through for every port the guest steers, and reaches that port. */
  lemma OwnedIsDialable(s: State, offered: set<MacListener>, id: PortId)
    requires Within(s, offered) && id in s.owned && id.port != 0
    ensures HandleStream(Some(Projection(offered)), id) == if id.proto == TCP then DialTcp(id.port) else DialUdp(id.port)
  {
  }

  // --- sessions and the harness --------------------------------------------------------

  datatype SyncEvent = Snapshot(ls: seq<MacListener>) | Add(l: MacListener) | Del(l: MacListener)

  /**
   * The agent with its session lock: `holder` is the session inside, which has done
   * everything `addedBy` says it did; sessions queue outside until the cleanup is over.
   */
  datatype Host = Host(st: State, holder: Option<nat>, addedBy: map<PortId, nat>)

  datatype Step =
    | Enter(session: nat)
    | Handle(ev: SyncEvent, f: Faults)
    | Leave(f: Faults)
    | HarnessAdd(id: PortId, addr: Addr, f: Faults)
    | HarnessRemove(id: PortId, f: Faults)

  ghost function Handled(s: State, ev: SyncEvent, f: Faults): State {
    match ev
    case Snapshot(ls) => s.ApplySnapshot(ls, f)
    case Add(l) => s.AddSync(l, f)
    case Del(l) => s.DelSync(l, f)
  }

  ghost predicate Enabled(h: Host, step: Step) {
    match step
    case Enter(_) => h.holder.None?
    case Handle(_, _) => h.holder.Some?
    case Leave(_) => h.holder.Some?
    case HarnessAdd(_, _, _) => true
    case HarnessRemove(_, _) => true
  }

  ghost function After(h: Host, step: Step): Host
    requires Enabled(h, step)
  {
    match step
    case Enter(session) => h.(holder := Some(session))
    case Handle(ev, f) =>
      var after := Handled(h.st, ev, f);
      var added := map id | id in h.addedBy.Keys + after.owned ::
        if id in after.owned - h.st.owned || id !in h.addedBy then h.holder.value else h.addedBy[id];
      h.(st := after, addedBy := added)
    case Leave(f) => h.(st := h.st.RemoveAll(h.st.owned, f), holder := None)
    case HarnessAdd(id, addr, f) => h.(st := h.st.AddMacPort(id, addr, f))
    case HarnessRemove(id, f) => h.(st := h.st.RemoveMacPort(id, f))
  }

  /** Kernel deletes succeed. */
  ghost predicate DeletesWork(step: Step) { step.Enter? || step.f.noDelete == {} }

  ghost predicate HostInv(h: Host) {
    && h.st.Consistent()
    && (h.holder.None? ==> h.st.owned == {})
    && (forall id :: id in h.st.owned ==> id in h.addedBy && h.holder == Some(h.addedBy[id]))
  }

  lemma HandledConsistent(s: State, ev: SyncEvent, f: Faults)
    requires s.Consistent() && f.noDelete == {}
    ensures Handled(s, ev, f).Consistent()
  {
    match ev
    case Snapshot(ls) =>
      WantOfSnapshot(ls);
      RemoveAllConsistent(s, s.owned - WantOf(ls).Keys, f);
      AddAllConsistent(s.RemoveAll(s.owned - WantOf(ls).Keys, f), WantOf(ls), f);
    case Add(l) => AddSyncConsistent(s, l, f);
    case Del(l) => if IdOf(l).Some? { RemoveConsistent(s, IdOf(l).value, f); }
  }

  lemma AddAllConsistent(s: State, w: map<PortId, MacListener>, f: Faults)
    requires s.Consistent() && WellKeyed(w)
    ensures s.AddAll(w, w.Keys, f).Consistent()
  {
  }

  lemma StepInv(h: Host, step: Step)
    requires HostInv(h) && Enabled(h, step) && DeletesWork(step)
    ensures HostInv(After(h, step))
  {
    match step
    case Enter(_) =>
    case Handle(ev, f) => HandledConsistent(h.st, ev, f);
    case Leave(f) => RemoveAllConsistent(h.st, h.st.owned, f);
    case HarnessAdd(id, addr, f) => AddConsistent(h.st, id, addr, f);
    case HarnessRemove(id, f) => RemoveConsistent(h.st, id, f);
  }

  /** No event of a session and no cleanup, taken whole, takes or takes over a port the harness registered. */
  lemma SyncKeepsHarness(h: Host, step: Step)
    requires HostInv(h) && Enabled(h, step) && (step.Handle? || step.Leave? || step.Enter?)
    ensures KeepsHarness(h.st, After(h, step).st)
  {
  }

  /** One session inside at a time; the harness comes and goes as it likes. */
  lemma Goes(h: Host, step: Step)
    ensures Enabled(h, step) <==>
            match step
            case Enter(_) => h.holder == None
            case Handle(_, _) => h.holder != None
            case Leave(_) => h.holder != None
            case _ => true
  {
  }

  /**
   * What each step does, port by port: an event what the agent does for it, in the name of the
   * session inside; the end of a session takes what it owned; the harness its own adds and removals.
   */
  lemma StepDoes(h: Host, step: Step, id: PortId)
    requires HostInv(h) && Enabled(h, step)
    ensures var after := After(h, step);
            match step
            case Enter(session) => after == Host(h.st, Some(session), h.addedBy)
            case Handle(ev, f) =>
              && after.holder == h.holder
              && after.st == (match ev case Snapshot(ls) => h.st.ApplySnapshot(ls, f)
                                       case Add(l) => h.st.AddSync(l, f)
                                       case Del(l) => h.st.DelSync(l, f))
              && (id in after.st.owned ==>
                    id in after.addedBy &&
                    after.addedBy[id] == if id in h.st.owned then h.addedBy[id] else h.holder.value)
              && (id !in after.st.owned && id in h.addedBy ==> id in after.addedBy && after.addedBy[id] == h.addedBy[id])
            case Leave(f) =>
              && after.holder == None && after.addedBy == h.addedBy
              && (id in after.st.mac <==> id in h.st.mac && id !in h.st.owned)
              && (id in after.st.mac ==> after.st.mac[id] == h.st.mac[id]) && id !in after.st.owned
            case HarnessAdd(x, addr, f) => after == Host(h.st.AddMacPort(x, addr, f), h.holder, h.addedBy)
            case HarnessRemove(x, f) => after == Host(h.st.RemoveMacPort(x, f), h.holder, h.addedBy)
  {
  }

  /** An add event: its port is sync's from then on, at its address, unless taken, unknown or failing. */
  lemma AddEventDoes(s: State, l: MacListener, f: Faults, id: PortId)
    requires IdOf(l) == Some(id)
    ensures id !in s.mac && id !in f.noListen && id !in f.noPut ==>
              var after := s.AddSync(l, f);
              && id in after.mac && id in after.owned && after.mac[id].id == id
              && V6(after.mac[id].addr16).Unmap() == l.addr.Unmap()
    ensures id in s.mac || id in f.noListen || id in f.noPut ==> s.AddSync(l, f) == s
  {
    StoredAddress(id, l.addr);
  }

  /** A del event: its port goes if it was sync's, and only then. */
  lemma DelEventDoes(s: State, l: MacListener, f: Faults, id: PortId)
    requires IdOf(l) == Some(id) && s.Consistent()
    ensures id in s.owned ==> id !in s.DelSync(l, f).mac && id !in s.DelSync(l, f).owned
    ensures id !in s.owned ==> s.DelSync(l, f) == s
  {
  }

  const START := Host(State(map[], {}, {}, {}), None, map[])

  ghost predicate IsRun(run: seq<Host>, steps: seq<Step>) {
    && |run| == |steps| + 1 && run[0] == START
    && (forall i: nat :: i < |steps| ==> StepAt(run, steps, i))
  }

  ghost predicate StepAt(run: seq<Host>, steps: seq<Step>, i: nat)
    requires i < |steps| && |run| == |steps| + 1
  {
    Enabled(run[i], steps[i]) && DeletesWork(steps[i]) && run[i + 1] == After(run[i], steps[i])
  }

  /**
   * While kernel deletes succeed, every run keeps the three registries in step, owns
   * nothing between sessions, and lets a cleanup remove only what its own session added.
   */
  lemma {:induction false} RegistryInStep(run: seq<Host>, steps: seq<Step>, i: nat)
    requires IsRun(run, steps) && i < |run|
    ensures HostInv(run[i])
    ensures run[i].holder.None? ==> run[i].st.owned == {}
    ensures i < |steps| && steps[i].Leave? ==>
      && run[i + 1].st.owned == {}
      && forall id :: id in run[i].st.mac && id !in run[i + 1].st.mac ==>
           id in run[i].addedBy && Some(run[i].addedBy[id]) == run[i].holder
  {
    if i > 0 {
      RegistryInStep(run, steps, i - 1);
      assert StepAt(run, steps, i - 1);
      StepInv(run[i - 1], steps[i - 1]);
    }
    assert i < |steps| ==> StepAt(run, steps, i);
  }
}
