/**
 * The guest agent's listener hub (internal/agent/tracker.go): one set, fanned
 * out to every subscriber as a snapshot followed by adds and dels.
 */
module TrackerHub {
  import opened Listeners

  const CHANNEL_CAP := 256

  datatype Op = OpAdd | OpDel

  /** A subscriber's buffered channel: the buffer is `sent[taken..]`. */
  datatype Channel = Channel(sent: seq<Event>, taken: nat, closed: bool) {
    ghost predicate Valid() { taken <= |sent| <= taken + CHANNEL_CAP }
    predicate Full() { |sent| >= taken + CHANNEL_CAP }
  }

  /** Hub contents: `subs` are the channels still registered, `channels` all that were ever made. */
  datatype State = State(listeners: set<Listener>, subs: set<nat>, channels: map<nat, Channel>, next: nat) {
    ghost predicate Valid() {
      && subs <= channels.Keys
      && (forall ch :: ch in channels ==> ch < next && channels[ch].Valid())
    }

    predicate Changes(op: Op, l: Listener) {
      EventWorthy(l) && (op.OpAdd? <==> l !in listeners)
    }

    ghost function Apply(op: Op, l: Listener): State
      requires Valid()
    {
      if !Changes(op, l) then this else
        var ev := EventOf(op, l);
        State(
          Effect(listeners, ev),
          set ch | ch in subs && !channels[ch].Full(),
          map ch | ch in channels :: if ch in subs then Offer(channels[ch], ev) else channels[ch],
          next)
    }

    ghost function Subscribe(snap: seq<Listener>): State {
      this.(subs := subs + {next},
            channels := channels[next := Channel([Snapshot(snap)], 0, false)],
            next := next + 1)
    }

    ghost function Cancel(ch: nat): State {
      this.(subs := subs - {ch})
    }

    ghost predicate CanTake(ch: nat) {
      ch in channels && channels[ch].taken < |channels[ch].sent|
    }

    /** The serving goroutine takes the next buffered event off its channel. */
    ghost function Take(ch: nat): State
      requires CanTake(ch)
    {
      this.(channels := channels[ch := channels[ch].(taken := channels[ch].taken + 1)])
    }
  }

  predicate EventWorthy(l: Listener) {
    !(l.proto == "udp" && LINUX_EPHEMERAL_LO <= l.port <= LINUX_EPHEMERAL_HI)
  }

  function EventOf(op: Op, l: Listener): Event {
    if op.OpAdd? then Add(l) else Del(l)
  }

  /** Sending without blocking: a full channel is closed instead. */
  function Offer(c: Channel, ev: Event): Channel {
    if c.Full() then c.(closed := true) else c.(sent := c.sent + [ev])
  }

  /** The exit state of the fan-out loop is the specified one. */
  lemma FannedOut(was: set<nat>, before: map<nat, Channel>, ev: Event, subs: set<nat>, channels: map<nat, Channel>)
    requires was <= before.Keys && subs <= was && channels.Keys == before.Keys
    requires forall ch :: ch in was ==> (ch in subs <==> !before[ch].Full())
    requires forall ch :: ch in before ==> channels[ch] == (if ch in was then Offer(before[ch], ev) else before[ch])
    ensures subs == set ch | ch in was && !before[ch].Full()
    ensures channels == map ch | ch in before :: if ch in was then Offer(before[ch], ev) else before[ch]
  {
  }

  class Hub {
    var listeners: set<Listener>
    var subs: set<nat>
    var channels: map<nat, Channel>
    var next: nat

    ghost function View(): State reads this { State(listeners, subs, channels, next) }

    constructor ()
      ensures View() == State({}, {}, map[], 0) && View().Valid()
    {
      listeners, subs, channels, next := {}, {}, map[], 0;
    }

    method Subscribe() returns (ch: nat)
      requires View().Valid()
      modifies this
      ensures View().Valid() && ch == old(next)
      ensures ch in channels && |channels[ch].sent| == 1 && channels[ch].sent[0].Snapshot?
      ensures var snap := channels[ch].sent[0].listeners;
              && multiset(snap) == multiset(old(listeners))
              && View() == old(View()).Subscribe(snap)
    {
      var snap: seq<Listener> := [];
      var rest := listeners;
      while rest != {}
        invariant rest <= listeners
        invariant multiset(snap) + multiset(rest) == multiset(listeners)
      {
        var l :| l in rest;
        snap, rest := snap + [l], rest - {l};
      }
      ch := next;
      subs := subs + {ch};
      channels := channels[ch := Channel([Snapshot(snap)], 0, false)];
      next := next + 1;
    }

    method Cancel(ch: nat)
      requires View().Valid()
      modifies this
      ensures View().Valid() && View() == old(View()).Cancel(ch)
    {
      subs := subs - {ch};
    }

    /** ok is false when the buffer is empty: the receive would block, or see the close. */
    method Take(ch: nat) returns (ok: bool, ev: Event)
      requires View().Valid() && ch in channels
      modifies this
      ensures View().Valid()
      ensures ok == (old(channels[ch].taken) < |old(channels[ch].sent)|)
      ensures ok ==> ev == old(channels[ch].sent[channels[ch].taken])
      ensures View() == if ok then old(View()).Take(ch) else old(View())
    {
      var c := channels[ch];
      ok, ev := c.taken < |c.sent|, Snapshot([]);
      if ok {
        ev := c.sent[c.taken];
        channels := channels[ch := c.(taken := c.taken + 1)];
      }
    }

    method Apply(op: Op, l: Listener)
      requires View().Valid()
      modifies this
      ensures View().Valid() && View() == old(View()).Apply(op, l)
    {
      if !EventWorthy(l) {
        return;
      }
      if op == OpAdd {
        if l in listeners {
          return;
        }
        listeners := listeners + {l};
      } else {
        if l !in listeners {
          return;
        }
        listeners := listeners - {l};
      }
      var ev := EventOf(op, l);
      ghost var was, before := subs, channels;
      var rest := subs;
      while rest != {}
        invariant rest <= subs <= was && channels.Keys == before.Keys
        invariant forall ch :: ch in was ==> (ch in subs <==> ch in rest || !before[ch].Full())
        invariant forall ch :: ch in before ==>
          channels[ch] == (if ch in was && ch !in rest then Offer(before[ch], ev) else before[ch])
        invariant next == old(next) && listeners == Effect(old(listeners), ev)
      {
        var ch :| ch in rest;
        rest := rest - {ch};
        if channels[ch].Full() {
          subs := subs - {ch};
        }
        channels := channels[ch := Offer(channels[ch], ev)];
      }
      FannedOut(was, before, ev, subs, channels);
    }
  }
}
