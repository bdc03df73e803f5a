/**
 * The bind supervisor's bookkeeping (internal/agent/notifycap.go) and the adoption of
 * stored notify fds (internal/agent/fdstore.go), one call at a time.
 */
module SuperviseCap {
  type Fd = nat

  /** An open file description; kcmp compares these. */
  type File = nat

  datatype Verdict = Admitted | Duplicate | Full

  /** sameOpenFile: kcmp's answer while it works, else always no. */
  predicate Same(open: map<Fd, File>, works: bool, a: Fd, b: Fd) {
    works && a in open && b in open && open[a] == open[b]
  }

  datatype State = State(max: nat, n: nat, trusted: nat, fds: set<Fd>) {
    ghost predicate IsDuplicate(fd: Fd, open: map<Fd, File>, works: bool) {
      exists t :: t in fds && Same(open, works, fd, t)
    }

    ghost function Verdict(fd: Fd, open: map<Fd, File>, works: bool): Verdict {
      if IsDuplicate(fd, open, works) then Duplicate else if n + 1 > max then Full else Admitted
    }

    ghost function AdmitProbe(fd: Fd, open: map<Fd, File>, works: bool): State {
      if Verdict(fd, open, works) == Admitted then this.(n := n + 1, fds := fds + {fd}) else this
    }

    function AdmitTrusted(fd: Fd): State {
      this.(fds := fds + {fd}, trusted := trusted + 1)
    }
  }

  /**
   * A probe's fd is a duplicate exactly when kcmp answers and a tracked fd is the same open file,
   * is admitted with a slot of its own when a slot is free, and otherwise leaves nothing behind.
   */
  lemma AdmitsExactly(p: State, fd: Fd, open: map<Fd, File>, works: bool)
    requires fd in open && p.fds <= open.Keys
    ensures var v, after := p.Verdict(fd, open, works), p.AdmitProbe(fd, open, works);
            && (v == Duplicate <==> works && exists t :: t in p.fds && open[t] == open[fd])
            && (v == Full <==> v != Duplicate && p.n >= p.max)
            && after == (if v == Admitted then State(p.max, p.n + 1, p.trusted, p.fds + {fd}) else p)
    ensures p.AdmitTrusted(fd) == State(p.max, p.n, p.trusted + 1, p.fds + {fd})
  {
    if works {
      forall t | t in p.fds && open[t] == open[fd] ensures p.IsDuplicate(fd, open, works) {
        assert Same(open, works, fd, t);
      }
    }
  }

  class SuperviseCap {
    const max: nat
    var n: nat
    var trusted: nat
    var fds: set<Fd>

    ghost function View(): State reads this { State(max, n, trusted, fds) }

    constructor (max: nat)
      ensures View() == State(max, 0, 0, {})
    {
      this.max, n, trusted, fds := max, 0, 0, {};
    }

    /** The add that overshoots is undone before anyone is told. */
    method Acquire() returns (ok: bool)
      modifies this`n
      ensures ok == (old(n) < max) && n == (if ok then old(n) + 1 else old(n))
    {
      n := n + 1;
      if n > max {
        n := n - 1;
        return false;
      }
      return true;
    }

    method Release()
      requires n > 0
      modifies this`n
      ensures n == old(n) - 1
    {
      n := n - 1;
    }

    method AcquireTrusted() returns (count: nat)
      modifies this`trusted
      ensures count == trusted == old(trusted) + 1
    {
      trusted := trusted + 1;
      count := trusted;
    }

    method ReleaseTrusted()
      requires trusted > 0
      modifies this`trusted
      ensures trusted == old(trusted) - 1
    {
      trusted := trusted - 1;
    }

    method Track(fd: Fd)
      modifies this`fds
      ensures fds == old(fds) + {fd}
    {
      fds := fds + {fd};
    }

    method Untrack(fd: Fd)
      modifies this`fds
      ensures fds == old(fds) - {fd}
    {
      fds := fds - {fd};
    }

    method AdmitProbe(fd: Fd, open: map<Fd, File>, works: bool) returns (v: Verdict)
      modifies this
      ensures v == old(View()).Verdict(fd, open, works)
      ensures View() == old(View()).AdmitProbe(fd, open, works)
    {
      var rest := fds;
      while rest != {}
        invariant rest <= fds && View() == old(View())
        invariant forall t :: t in fds && t !in rest ==> !Same(open, works, fd, t)
      {
        var t :| t in rest;
        if Same(open, works, fd, t) {
          return Duplicate;
        }
        rest := rest - {t};
      }
      var ok := Acquire();
      if !ok {
        return Full;
      }
      Track(fd);
      return Admitted;
    }

    method AdmitTrusted(fd: Fd) returns (count: nat)
      modifies this
      ensures View() == old(View()).AdmitTrusted(fd) && count == trusted
    {
      Track(fd);
      count := AcquireTrusted();
    }
  }

  // ---- adoption at start-up ---------------------------------------------------------

  datatype Inherited = Inherited(fd: Fd, named: bool, listener: bool)

  /** One of ours, and a seccomp listener still. */
  predicate Eligible(i: Inherited) { i.named && i.listener }

  predicate AreEligible(s: seq<Inherited>) { forall k :: 0 <= k < |s| ==> Eligible(s[k]) }

  function Eligibles(inherited: seq<Inherited>): (r: seq<Inherited>)
    ensures |r| <= |inherited| && AreEligible(r)
  {
    if inherited == [] then []
    else
      var last := inherited[|inherited| - 1];
      Eligibles(inherited[..|inherited| - 1]) + if Eligible(last) then [last] else []
  }

  /** `some` are the records of `inherited` at the places in `rank`: those named ours and listeners still, in order. */
  ghost predicate Picks(inherited: seq<Inherited>, some: seq<Inherited>, rank: seq<nat>) {
    && |rank| == |some|
    && (forall k :: 0 <= k < |rank| ==> rank[k] < |inherited| && some[k] == inherited[rank[k]])
    && (forall a, b :: 0 <= a < b < |rank| ==> rank[a] < rank[b])
    && (forall i: nat :: i in rank <==> i < |inherited| && inherited[i].named && inherited[i].listener)
  }

  lemma {:induction false} EligiblesArePicked(inherited: seq<Inherited>) returns (rank: seq<nat>)
    ensures Picks(inherited, Eligibles(inherited), rank)
  {
    if inherited == [] {
      rank := [];
    } else {
      var n := |inherited| - 1;
      var before := EligiblesArePicked(inherited[..n]);
      rank := PickOneMore(inherited[..n], inherited[n], Eligibles(inherited[..n]), before);
      assert inherited[..n] + [inherited[n]] == inherited;
    }
  }

  lemma PickOneMore(init: seq<Inherited>, last: Inherited, some: seq<Inherited>, before: seq<nat>) returns (rank: seq<nat>)
    requires Picks(init, some, before)
    ensures Picks(init + [last], some + if last.named && last.listener then [last] else [], rank)
  {
    var n := |init|;
    rank := before;
    if last.named && last.listener {
      rank := before + [n];
      assert forall a :: 0 <= a < |before| ==> before[a] in before && before[a] < n;
    }
  }

  /** Every inherited fd is adopted or closed; `adopted` are the first eligible ones there are slots for. */
  ghost predicate Adoption(inherited: seq<Inherited>, free: nat, adopted: seq<Inherited>, closed: seq<Inherited>) {
    && adopted == Eligibles(inherited)[..if |Eligibles(inherited)| <= free then |Eligibles(inherited)| else free]
    && multiset(adopted) + multiset(closed) == multiset(inherited)
  }

  /** One more inherited fd: adopted exactly when it is eligible and a slot is free. */
  lemma AdoptOne(before: seq<Inherited>, i: Inherited, free: nat, adopted: seq<Inherited>, closed: seq<Inherited>)
    requires Adoption(before, free, adopted, closed)
    ensures if Eligible(i) && |adopted| < free
            then Adoption(before + [i], free, adopted + [i], closed)
            else Adoption(before + [i], free, adopted, closed + [i])
  {
  }

  /** AdoptStoredFds: a slot first, then the fd; `dropped` names also leave the store. */
  method AdoptStoredFds(cap: SuperviseCap, inherited: seq<Inherited>)
    returns (adopted: seq<Inherited>, closed: seq<Inherited>, dropped: seq<Inherited>)
    requires cap.n <= cap.max
    modifies cap`n
    ensures Adoption(inherited, cap.max - old(cap.n), adopted, closed)
    ensures cap.n == old(cap.n) + |adopted|
    ensures |Eligibles(inherited)| <= cap.max - old(cap.n) ==> adopted == Eligibles(inherited)
    ensures forall i :: i in dropped <==> i in closed && i.named
  {
    adopted, closed, dropped := [], [], [];
    var k := 0;
    while k < |inherited|
      invariant k <= |inherited|
      invariant cap.n == old(cap.n) + |adopted| <= cap.max
      invariant Adoption(inherited[..k], cap.max - old(cap.n), adopted, closed)
      invariant forall i :: i in dropped <==> i in closed && i.named
    {
      var i := inherited[k];
      assert inherited[..k + 1] == inherited[..k] + [i];
      AdoptOne(inherited[..k], i, cap.max - old(cap.n), adopted, closed);
      if !i.named {
        closed := closed + [i];
      } else if !i.listener {
        closed, dropped := closed + [i], dropped + [i];
      } else {
        var ok := cap.Acquire();
        if !ok {
          closed, dropped := closed + [i], dropped + [i];
        } else {
          adopted := adopted + [i];
        }
      }
      k := k + 1;
    }
    assert inherited[..k] == inherited;
  }
}
