/**
 * The agent's pool of parked reverse-dial connections (internal/agent/dialpool.go):
 * the critical sections as methods, then every interleaving of them.
 */
module DialPool {
  type Conn = nat
  type Pop = nat

  const POOL_CAP := 32

  /** A pooled connection's watchdog record. */
  datatype Record = Record(handoff: bool, bad: bool, done: bool)

  datatype Parking = Refused | HandTo(w: Pop) | Pooled

  datatype Look = Closed | Took(c: Conn) | Queued

  /** What the pool's mutex guards. A waiter's channel goes by the name of its pop call. */
  datatype State = State(conns: set<Conn>, waiters: seq<Pop>, closed: bool, records: map<Conn, Record>) {
    ghost predicate Valid() {
      && |conns| <= POOL_CAP && conns <= records.Keys
      && (waiters != [] ==> conns == {})
      && (closed ==> conns == {})
      && Distinct(waiters)
    }

    function Parking(): Parking {
      if closed || |conns| >= POOL_CAP then Refused
      else if |waiters| > 0 then HandTo(waiters[0])
      else Pooled
    }

    function Park(c: Conn): State {
      match Parking()
      case Refused => this
      case HandTo(_) => this.(waiters := waiters[1..])
      case Pooled => this.(conns := conns + {c}, records := records[c := Record(false, false, false)])
    }

    /** The watchdog's read returned; `junk` unless it was the deadline poke. */
    function Watched(c: Conn, junk: bool): State
      requires c in records
    {
      this.(conns := if records[c].handoff then conns else conns - {c},
            records := records[c := Record(records[c].handoff, junk, true)])
    }

    function Take(c: Conn): State
      requires c in records
    {
      this.(conns := conns - {c}, records := records[c := records[c].(handoff := true)])
    }

    function Queue(w: Pop): State { this.(waiters := waiters + [w]) }

    function Forget(w: Pop): State { this.(waiters := Without(waiters, w)) }

    function Close(): State { this.(closed := true, conns := {}) }
  }

  function Without(s: seq<Pop>, w: Pop): (r: seq<Pop>)
    ensures |r| <= |s|
  {
    if s == [] then [] else if s[0] == w then s[1..] else [s[0]] + Without(s[1..], w)
  }

  lemma {:induction false} WithoutAt(s: seq<Pop>, w: Pop, i: nat)
    requires i < |s| && s[i] == w && w !in s[..i]
    ensures Without(s, w) == s[..i] + s[i + 1..]
  {
    if i > 0 {
      assert s[1..][..i - 1] == s[..i][1..];
      WithoutAt(s[1..], w, i - 1);
      assert s[..i] == [s[0]] + s[1..][..i - 1];
    }
  }

  lemma {:induction false} WithoutAbsent(s: seq<Pop>, w: Pop)
    requires w !in s
    ensures Without(s, w) == s
  {
    if s != [] {
      WithoutAbsent(s[1..], w);
    }
  }

  predicate Distinct(s: seq<Pop>) { forall i, j :: 0 <= i < j < |s| ==> s[i] != s[j] }

  /** Dropping a waiter from a queue without repeats drops it for good, and nobody else. */
  lemma {:induction false} WithoutKeeps(s: seq<Pop>, w: Pop)
    requires Distinct(s)
    ensures forall x :: x in Without(s, w) <==> x in s && x != w
    ensures Distinct(Without(s, w))
  {
    if s != [] {
      var rest := s[1..];
      WithoutKeeps(rest, w);
      assert s == [s[0]] + rest && s[0] !in rest;
    }
  }

  /** What holds between critical sections holds again after any of them. */
  lemma SectionsKeepValid(p: State, c: Conn, w: Pop)
    requires p.Valid()
    ensures p.Park(c).Valid() && p.Close().Valid() && p.Forget(w).Valid()
    ensures forall junk :: c in p.records ==> p.Watched(c, junk).Valid()
    ensures c in p.records ==> p.Take(c).Valid()
    ensures p.conns == {} && w !in p.waiters ==> p.Queue(w).Valid()
  {
    WithoutKeeps(p.waiters, w);
  }

  class DialPool {
    var conns: set<Conn>
    var waiters: seq<Pop>
    var closed: bool
    var records: map<Conn, Record>

    ghost function View(): State reads this { State(conns, waiters, closed, records) }

    constructor ()
      ensures View() == State({}, [], false, map[]) && View().Valid()
    {
      conns, waiters, closed, records := {}, [], false, map[];
    }

    /** park up to its unlock; the caller then closes `c`, sends it to `w`, or starts its watchdog. */
    method Park(c: Conn) returns (r: Parking)
      requires View().Valid()
      modifies this
      ensures View().Valid() && r == old(View()).Parking() && View() == old(View()).Park(c)
    {
      if closed || |conns| >= POOL_CAP {
        return Refused;
      }
      if |waiters| > 0 {
        r := HandTo(waiters[0]);
        waiters := waiters[1..];
        return;
      }
      conns, records := conns + {c}, records[c := Record(false, false, false)];
      r := Pooled;
    }

    /** watch from its lock on; `close` tells it to close the connection. */
    method Watched(c: Conn, junk: bool) returns (close: bool)
      requires View().Valid() && c in records
      modifies this
      ensures View().Valid() && View() == old(View()).Watched(c, junk)
      ensures close == !old(records[c].handoff)
    {
      var handoff := records[c].handoff;
      if !handoff {
        conns := conns - {c};
      }
      records := records[c := Record(handoff, junk, true)];
      close := !handoff;
    }

    /** pop's locked look: closed, any pooled connection, or a place in the queue. */
    method LookUp(p: Pop) returns (r: Look)
      requires View().Valid() && p !in waiters
      modifies this
      ensures View().Valid()
      ensures match r
              case Closed => old(closed) && View() == old(View())
              case Took(c) => !old(closed) && c in old(conns) && c !in conns && View() == old(View()).Take(c)
              case Queued => !old(closed) && old(conns) == {} && View() == old(View()).Queue(p)
    {
      if closed {
        return Closed;
      }
      if conns != {} {
        var c :| c in conns;
        records := records[c := records[c].(handoff := true)];
        conns := conns - {c};
        return Took(c);
      }
      waiters := waiters + [p];
      return Queued;
    }

    /** pop's timeout branch: out of the queue, unless park already took it out. */
    method GiveUp(w: Pop)
      requires View().Valid()
      modifies this
      ensures View().Valid() && View() == old(View()).Forget(w)
    {
      WithoutKeeps(waiters, w);
      var i := 0;
      while i < |waiters|
        invariant i <= |waiters| && w !in waiters[..i]
        invariant View() == old(View())
      {
        if waiters[i] == w {
          WithoutAt(waiters, w, i);
          waiters := waiters[..i] + waiters[i + 1..];
          return;
        }
        i := i + 1;
      }
      WithoutAbsent(waiters, w);
    }

    /** The connections that were pooled are the caller's to close. */
    method Close() returns (dropped: set<Conn>)
      requires View().Valid()
      modifies this
      ensures View().Valid() && View() == old(View()).Close() && dropped == old(conns)
    {
      closed := true;
      dropped := conns;
      conns := {};
    }
  }
}
