/**
 * The guest agent's registry of Mac-owned ports (internal/agent/agent.go) and
 * the sync session that drives it (internal/agent/macsync.go): `mac`, the kernel's
 * mac_ports map and the gateway proxies are kept in step.
 */
module GuestAgent {
  import opened Options
  import opened MacHolder
  import opened MacSyncer

  /** The kernel map key: addresses are stored in 16-byte form. */
  datatype PortKey = PortKey(id: PortId, addr16: Bits128)

  function KeyFor(id: PortId, addr: Addr): PortKey {
    PortKey(id, if addr.V4? then 0xffff_0000_0000 + addr.ip else addr.bits)
  }

  /** The sixteen bytes stored are the address, an IPv4 one in its v4-mapped form. */
  lemma StoredAddress(id: PortId, addr: Addr)
    ensures KeyFor(id, addr).id == id && V6(KeyFor(id, addr).addr16).Unmap() == addr.Unmap()
  {
    UnmapIs(addr);
    UnmapIs(V6(KeyFor(id, addr).addr16));
  }

  /** One key per port and address: an address and its v4-mapped form share theirs, no two others do. */
  lemma KeysTellApart(id: PortId, addr: Addr, id': PortId, addr': Addr)
    ensures KeyFor(id, addr) == KeyFor(id', addr') <==> id == id' && addr.Unmap() == addr'.Unmap()
  {
    StoredAddress(id, addr);
    StoredAddress(id', addr');
    UnmapIs(addr);
    UnmapIs(addr');
  }

  /** The outcomes of foreign calls, per port: proxies that will not listen, map updates that fail. */
  datatype Faults = Faults(noListen: set<PortId>, noPut: set<PortId>, noDelete: set<PortId>)

  function AddOk(id: PortId, f: Faults): bool {
    (id.proto == TCP || id.proto == UDP) && id !in f.noListen && id !in f.noPut
  }

  datatype State = State(mac: map<PortId, PortKey>, owned: set<PortId>, kernel: set<PortKey>, proxies: set<PortId>) {
    /** Traffic is steered only to ports whose gateway proxy listens. */
    ghost predicate Steered() { forall k :: k in kernel ==> k.id in proxies }

    /** Each entry of `mac` has its proxy. */
    ghost predicate Proxied() {
      proxies == mac.Keys && forall id :: id in mac ==> mac[id].id == id
    }

    ghost predicate Paired() { Proxied() && owned <= mac.Keys }

    /** Between operations mac_ports is what `mac` says. */
    ghost predicate Consistent() {
      && Paired()
      && (forall k :: k in kernel <==> k.id in mac && mac[k.id] == k)
    }

    ghost function AddMacPort(id: PortId, addr: Addr, f: Faults): State {
      if id in mac || !AddOk(id, f) then this
      else State(mac[id := KeyFor(id, addr)], owned, kernel + {KeyFor(id, addr)}, proxies + {id})
    }

    ghost function RemoveMacPort(id: PortId, f: Faults): State {
      if id !in mac then this
      else State(mac - {id}, owned - {id}, if id in f.noDelete then kernel else kernel - {mac[id]}, proxies - {id})
    }

    ghost function AddSync(l: MacListener, f: Faults): State {
      if IdOf(l).None? || IdOf(l).value in mac || !AddOk(IdOf(l).value, f) then this
      else this.(owned := owned + {IdOf(l).value}).AddMacPort(IdOf(l).value, l.addr, f)
    }

    ghost function RemoveAll(ids: set<PortId>, f: Faults): State {
      State(mac - ids, owned - ids,
            (set k | k in kernel && !(k.id in ids && k.id in mac && mac[k.id] == k && k.id !in f.noDelete)),
            proxies - (ids * mac.Keys))
    }

    ghost function Addable(w: map<PortId, MacListener>, ids: set<PortId>, f: Faults): set<PortId> {
      set id | id in w && id in ids && id !in mac && AddOk(id, f)
    }

    ghost function AddAll(w: map<PortId, MacListener>, ids: set<PortId>, f: Faults): State {
      var new_ := Addable(w, ids, f);
      State(map id | id in mac.Keys + new_ :: if id in mac then mac[id] else KeyFor(id, w[id].addr),
            owned + new_, kernel + KeysOf(w, new_), proxies + new_)
    }

    /** Drop what the snapshot does not list, then add what is missing. */
    ghost function ApplySnapshot(ls: seq<MacListener>, f: Faults): State {
      var w := WantOf(ls);
      RemoveAll(owned - w.Keys, f).AddAll(w, w.Keys, f)
    }

    ghost function DelSync(l: MacListener, f: Faults): State {
      if IdOf(l).None? || IdOf(l).value !in owned then this else RemoveMacPort(IdOf(l).value, f)
    }
  }

  /** The two states agree on every port but `id`. */
  ghost predicate ElsewhereSame(s: State, after: State, id: PortId) {
    forall x :: x != id ==>
      && (x in after.mac <==> x in s.mac) && (x in s.mac ==> after.mac[x] == s.mac[x])
      && (x in after.owned <==> x in s.owned) && (x in after.proxies <==> x in s.proxies)
  }

  /** An add takes exactly when the port is free, TCP or UDP, and neither its proxy nor its map entry fails. */
  lemma AddEffect(s: State, id: PortId, addr: Addr, f: Faults)
    requires s.Consistent()
    ensures var after := s.AddMacPort(id, addr, f);
            && ElsewhereSame(s, after, id) && after.owned == s.owned
            && (after != s <==> id !in s.mac && id.proto in {6, 17} && id !in f.noListen && id !in f.noPut)
            && (after != s ==>
                  && id in after.mac && id in after.proxies && after.kernel == s.kernel + {after.mac[id]}
                  && after.mac[id].id == id && V6(after.mac[id].addr16).Unmap() == addr.Unmap())
  {
    StoredAddress(id, addr);
    if id !in s.mac && AddOk(id, f) {
      assert id in s.AddMacPort(id, addr, f).mac;
    }
  }

  /** A removal takes the port's entry, proxy and ownership, and its key in the kernel unless that delete fails. */
  lemma RemoveEffect(s: State, id: PortId, f: Faults)
    requires s.Consistent()
    ensures var after := s.RemoveMacPort(id, f);
            && ElsewhereSame(s, after, id)
            && id !in after.mac && id !in after.owned && id !in after.proxies
            && (forall k :: k in after.kernel <==> k in s.kernel && (k.id == id ==> id in f.noDelete))
  {
  }

  lemma RemoveConsistent(s: State, id: PortId, f: Faults)
    requires s.Consistent() && id !in f.noDelete
    ensures s.RemoveMacPort(id, f).Consistent()
  {
  }

  lemma RemoveAllConsistent(s: State, ids: set<PortId>, f: Faults)
    requires s.Consistent() && f.noDelete == {}
    ensures s.RemoveAll(ids, f).Consistent()
  {
  }

  lemma AddConsistent(s: State, id: PortId, addr: Addr, f: Faults)
    requires s.Consistent()
    ensures s.AddMacPort(id, addr, f).Consistent()
  {
  }

  lemma AddSyncConsistent(s: State, l: MacListener, f: Faults)
    requires s.Consistent()
    ensures s.AddSync(l, f).Consistent()
  {
  }

  lemma RemoveMore(s: State, ids: set<PortId>, id: PortId, f: Faults)
    requires id !in ids && s.Paired()
    ensures s.RemoveAll(ids + {id}, f) == s.RemoveAll(ids, f).RemoveMacPort(id, f)
  {
  }

  /** A snapshot's listeners by port; a later one on the same port replaces an earlier one. */
  function WantOf(ls: seq<MacListener>): map<PortId, MacListener> {
    if ls == [] then map[] else
      var w, l := WantOf(ls[..|ls| - 1]), ls[|ls| - 1];
      if IdOf(l).Some? then w[IdOf(l).value := l] else w
  }

  ghost predicate WellKeyed(w: map<PortId, MacListener>) {
    forall id :: id in w ==> IdOf(w[id]) == Some(id)
  }

  lemma {:induction false} WantOfSnapshot(ls: seq<MacListener>)
    ensures WantOf(ls).Keys == Projection(set l | l in ls) && WellKeyed(WantOf(ls))
  {
    if ls != [] {
      WantOfSnapshot(ls[..|ls| - 1]);
      assert ls == ls[..|ls| - 1] + [ls[|ls| - 1]];
    }
  }

  /** The listener a snapshot wants on a port: the last it lists there. */
  lemma {:induction false} LastListedWins(ls: seq<MacListener>, id: PortId)
    ensures id in WantOf(ls) <==> exists i :: 0 <= i < |ls| && IdOf(ls[i]) == Some(id)
    ensures id in WantOf(ls) ==>
            exists i :: 0 <= i < |ls| && WantOf(ls)[id] == ls[i] && IsLastOn(ls, i, id)
  {
    if ls != [] {
      var n := |ls| - 1;
      LastListedWins(ls[..n], id);
      if IdOf(ls[n]) == Some(id) {
        assert IsLastOn(ls, n, id);
      } else if id in WantOf(ls[..n]) {
        var i :| 0 <= i < n && WantOf(ls[..n])[id] == ls[..n][i] && IsLastOn(ls[..n], i, id);
        assert IsLastOn(ls, i, id);
      }
    }
  }

  predicate IsLastOn(ls: seq<MacListener>, i: int, id: PortId) {
    0 <= i < |ls| && IdOf(ls[i]) == Some(id) && forall j :: i < j < |ls| ==> IdOf(ls[j]) != Some(id)
  }

  /**
   * A snapshot, port by port: the harness's entries and the owned ones it lists stay as they
   * are, the owned ones it does not list go, and a free port it lists comes, at the address
   * listed last, if nothing fails.
   */
  lemma SnapshotEffect(s: State, ls: seq<MacListener>, f: Faults, id: PortId)
    requires s.Paired()
    ensures var after, listed := s.ApplySnapshot(ls, f), exists i :: 0 <= i < |ls| && IdOf(ls[i]) == Some(id);
            && (id in s.mac && (id !in s.owned || listed) ==>
                  id in after.mac && after.mac[id] == s.mac[id] && (id in after.owned <==> id in s.owned))
            && (id in s.owned && !listed ==> id !in after.mac && id !in after.owned)
            && (id !in s.mac && !(listed && id.proto in {6, 17} && id !in f.noListen && id !in f.noPut) ==>
                  id !in after.mac && id !in after.owned)
            && (id !in s.mac && listed && id.proto in {6, 17} && id !in f.noListen && id !in f.noPut ==>
                  && id in after.mac && id in after.owned && after.mac[id].id == id
                  && exists i :: IsLastOn(ls, i, id) && V6(after.mac[id].addr16).Unmap() == ls[i].addr.Unmap())
  {
    LastListedWins(ls, id);
    if id in WantOf(ls) {
      StoredAddress(id, WantOf(ls)[id].addr);
    }
  }

  lemma AddNone(s: State, w: map<PortId, MacListener>, f: Faults)
    ensures s.AddAll(w, {}, f) == s
  {
  }

  lemma AddMore(s: State, w: map<PortId, MacListener>, ids: set<PortId>, id: PortId, f: Faults)
    requires WellKeyed(w) && id in w && id !in ids && ids <= w.Keys
    ensures s.AddAll(w, ids + {id}, f) == s.AddAll(w, ids, f).AddSync(w[id], f)
  {
    var now := s.Addable(w, ids, f);
    if id !in s.mac && AddOk(id, f) {
      assert s.Addable(w, ids + {id}, f) == now + {id};
      KeysMore(w, now, id);
      MacMore(s.mac, w, now, id);
    } else {
      assert s.Addable(w, ids + {id}, f) == now;
    }
  }

  lemma MacMore(mac: map<PortId, PortKey>, w: map<PortId, MacListener>, ids: set<PortId>, id: PortId)
    requires ids <= w.Keys && id in w && id !in mac
    ensures (map x | x in mac.Keys + (ids + {id}) :: if x in mac then mac[x] else KeyFor(x, w[x].addr)) ==
            (map x | x in mac.Keys + ids :: if x in mac then mac[x] else KeyFor(x, w[x].addr))[id := KeyFor(id, w[id].addr)]
  {
  }

  ghost function KeysOf(w: map<PortId, MacListener>, ids: set<PortId>): set<PortKey>
    requires ids <= w.Keys
  {
    set id | id in ids :: KeyFor(id, w[id].addr)
  }

  lemma KeysMore(w: map<PortId, MacListener>, ids: set<PortId>, id: PortId)
    requires ids <= w.Keys && id in w
    ensures KeysOf(w, ids + {id}) == KeysOf(w, ids) + {KeyFor(id, w[id].addr)}
  {
  }

  /** The harness's entries are those sync does not own; `after` still has them all. */
  ghost predicate KeepsHarness(s: State, after: State) {
    forall id :: id in s.mac && id !in s.owned ==> id in after.mac && id !in after.owned && after.mac[id] == s.mac[id]
  }

  class Agent {
    var mac: map<PortId, PortKey>
    var owned: set<PortId>
    var kernel: set<PortKey>
    var proxies: set<PortId>
    /** Every state the registry passed through, write by write. */
    ghost var trace: seq<State>

    ghost function View(): State reads this { State(mac, owned, kernel, proxies) }

    constructor ()
      ensures View() == State(map[], {}, {}, {}) && View().Consistent() && trace == []
    {
      mac, owned, kernel, proxies, trace := map[], {}, {}, {}, [];
    }

    /** All the states since `before` steer safely. */
    ghost predicate SafeSince(before: seq<State>)
      reads this`trace
    {
      before <= trace && forall i :: |before| <= i < |trace| ==> trace[i].Steered()
    }

    method Listen(id: PortId, f: Faults) returns (ok: bool)
      modifies this`proxies, this`trace
      ensures ok == (id !in f.noListen) && proxies == (if ok then old(proxies) + {id} else old(proxies))
      ensures trace == if ok then old(trace) + [View()] else old(trace)
    {
      ok := id !in f.noListen;
      if ok {
        proxies := proxies + {id};
        trace := trace + [View()];
      }
    }

    method CloseProxy(id: PortId)
      modifies this`proxies, this`trace
      ensures proxies == old(proxies) - {id} && trace == old(trace) + [View()]
    {
      proxies := proxies - {id};
      trace := trace + [View()];
    }

    method MapPut(k: PortKey, f: Faults) returns (ok: bool)
      modifies this`kernel, this`trace
      ensures ok == (k.id !in f.noPut) && kernel == (if ok then old(kernel) + {k} else old(kernel))
      ensures trace == if ok then old(trace) + [View()] else old(trace)
    {
      ok := k.id !in f.noPut;
      if ok {
        kernel := kernel + {k};
        trace := trace + [View()];
      }
    }

    method MapDelete(k: PortKey, ok: bool)
      modifies this`kernel, this`trace
      ensures kernel == (if ok then old(kernel) - {k} else old(kernel)) && trace == old(trace) + [View()]
    {
      if ok {
        kernel := kernel - {k};
      }
      trace := trace + [View()];
    }

    /** Proxy first, map second: the moment the entry exists, connects are steered to the proxy. */
    method AddMacPort(id: PortId, addr: Addr, f: Faults) returns (ok: bool)
      requires View().Proxied()
      modifies this
      ensures View().Proxied() && View() == old(View()).AddMacPort(id, addr, f)
      ensures ok == (id !in old(mac) && AddOk(id, f)) && old(trace) <= trace
      ensures old(View().Steered()) ==> SafeSince(old(trace))
    {
      if id in mac || !(id.proto == TCP || id.proto == UDP) {
        return false;
      }
      var listening := Listen(id, f);
      if !listening {
        return false;
      }
      var put := MapPut(KeyFor(id, addr), f);
      if !put {
        CloseProxy(id);
        return false;
      }
      mac := mac[id := KeyFor(id, addr)];
      return true;
    }

    /** Map entry first (stop steering), then the proxy. */
    method RemoveMacPort(id: PortId, f: Faults) returns (ok: bool)
      requires View().Paired()
      modifies this
      ensures View().Paired() && View() == old(View()).RemoveMacPort(id, f)
      ensures ok == (id in old(mac) && id !in f.noDelete) && old(trace) <= trace
      ensures old(View().Consistent()) ==> (SafeSince(old(trace)) <==> id !in old(mac) || id !in f.noDelete)
    {
      if id !in mac {
        return false;
      }
      MapDelete(mac[id], id !in f.noDelete);
      CloseProxy(id);
      assert id in f.noDelete && mac[id] in kernel ==> !trace[|trace| - 1].Steered();
      mac, owned := mac - {id}, owned - {id};
      return id !in f.noDelete;
    }

    method AddSyncPort(l: MacListener, f: Faults)
      requires View().Paired()
      modifies this
      ensures View().Paired() && View() == old(View()).AddSync(l, f) && old(trace) <= trace
      ensures old(View().Steered()) ==> SafeSince(old(trace))
    {
      var id := IdOf(l);
      if id.None? || id.value in mac {
        return;
      }
      owned := owned + {id.value}; // reserved before the Add below, which takes the lock anew
      var ok := AddMacPort(id.value, l.addr, f);
      if !ok {
        owned := owned - {id.value};
      }
    }

    method DelSyncPort(l: MacListener, f: Faults)
      requires View().Paired()
      modifies this
      ensures View().Paired() && View() == old(View()).DelSync(l, f) && old(trace) <= trace
      ensures old(View().Consistent()) ==>
                (SafeSince(old(trace)) <==> !(IdOf(l).Some? && IdOf(l).value in old(owned) && IdOf(l).value in f.noDelete))
    {
      var id := IdOf(l);
      if id.None? || id.value !in owned {
        return;
      }
      var ok := RemoveMacPort(id.value, f);
    }

    /** Remove every port in `ids`, one lock at a time. */
    method RemoveEach(ids: set<PortId>, f: Faults)
      requires View().Paired()
      modifies this
      ensures View().Paired() && View() == old(View()).RemoveAll(ids, f) && old(trace) <= trace
      ensures old(View().Consistent()) ==> (SafeSince(old(trace)) <==> ids * old(mac).Keys !! f.noDelete)
      ensures old(View().Consistent()) && ids * old(mac).Keys !! f.noDelete ==> View().Consistent()
    {
      ghost var before := View();
      var rest := ids;
      while rest != {}
        invariant rest <= ids && View() == before.RemoveAll(ids - rest, f)
        invariant View().Paired() && old(trace) <= trace
        invariant before.Consistent() ==> (SafeSince(old(trace)) <==> (ids - rest) * before.mac.Keys !! f.noDelete)
        invariant before.Consistent() && (ids - rest) * before.mac.Keys !! f.noDelete ==> View().Consistent()
      {
        var id :| id in rest;
        RemoveMore(before, ids - rest, id, f);
        if View().Consistent() && id !in f.noDelete {
          RemoveConsistent(View(), id, f);
        }
        assert ids - (rest - {id}) == ids - rest + {id};
        rest := rest - {id};
        var ok := RemoveMacPort(id, f);
      }
      assert ids - rest == ids;
    }

    method RemoveSyncOwned(f: Faults)
      requires View().Paired()
      modifies this
      ensures View().Paired() && View() == old(View()).RemoveAll(old(owned), f)
      ensures old(View().Consistent()) ==> (SafeSince(old(trace)) <==> old(owned) !! f.noDelete)
    {
      RemoveEach(owned, f);
    }

    method AddEach(want: map<PortId, MacListener>, f: Faults)
      requires View().Paired() && WellKeyed(want)
      modifies this
      ensures View().Paired() && View() == old(View()).AddAll(want, want.Keys, f) && old(trace) <= trace
      ensures old(View().Consistent()) ==> SafeSince(old(trace))
    {
      ghost var before := View();
      AddNone(before, want, f);
      var rest := want.Keys;
      while rest != {}
        invariant rest <= want.Keys && View() == before.AddAll(want, want.Keys - rest, f)
        invariant View().Paired() && old(trace) <= trace
        invariant before.Consistent() ==> View().Consistent() && SafeSince(old(trace))
      {
        var id :| id in rest;
        AddMore(before, want, want.Keys - rest, id, f);
        if before.Consistent() {
          AddSyncConsistent(View(), want[id], f);
        }
        assert want.Keys - (rest - {id}) == want.Keys - rest + {id};
        rest := rest - {id};
        AddSyncPort(want[id], f);
      }
      assert want.Keys - rest == want.Keys;
    }

    method ApplySyncSnapshot(ls: seq<MacListener>, f: Faults)
      requires View().Paired()
      modifies this
      ensures View().Paired() && View() == old(View()).ApplySnapshot(ls, f)
      ensures old(View().Consistent()) ==> (SafeSince(old(trace)) <==> old(owned) - WantOf(ls).Keys !! f.noDelete)
    {
      var want: map<PortId, MacListener> := map[];
      for i := 0 to |ls|
        invariant want == WantOf(ls[..i])
      {
        assert ls[..i + 1][..i] == ls[..i];
        var id := IdOf(ls[i]);
        if id.Some? {
          want := want[id.value := ls[i]];
        }
      }
      assert ls[..|ls|] == ls;
      WantOfSnapshot(ls);
      RemoveEach(owned - want.Keys, f);
      AddEach(want, f);
    }
  }
}
