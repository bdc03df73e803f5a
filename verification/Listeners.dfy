/** Listener values as both ends of the mirror stream see them. */
module Listeners {

  const LINUX_EPHEMERAL_LO := 32768
  const LINUX_EPHEMERAL_HI := 60999

  type Port = p: int | 0 <= p < 0x1_0000

  /** One guest socket endpoint. `addr` is the canonical text of an unmapped address. */
  datatype Listener = Listener(proto: string, port: Port, addr: string)

  datatype Event =
    | Snapshot(listeners: seq<Listener>)
    | Add(l: Listener)
    | Del(l: Listener)

  /** What a receiver that takes events at their word knows after `ev`. */
  function Effect(known: set<Listener>, ev: Event): set<Listener> {
    match ev
    case Snapshot(ls) => set l | l in ls
    case Add(l) => known + {l}
    case Del(l) => known - {l}
  }

  function Fold(evs: seq<Event>): set<Listener> {
    if evs == [] then {} else Effect(Fold(evs[..|evs| - 1]), evs[|evs| - 1])
  }

  /** The event at `i` adds an absent listener or deletes a present one. */
  ghost predicate FaithfulAt(evs: seq<Event>, i: nat)
    requires i < |evs|
  {
    && (evs[i].Add? ==> evs[i].l !in Fold(evs[..i]))
    && (evs[i].Del? ==> evs[i].l in Fold(evs[..i]))
  }

  ghost predicate Faithful(evs: seq<Event>) {
    forall i: nat :: i < |evs| ==> FaithfulAt(evs, i)
  }

  lemma FoldSnoc(evs: seq<Event>, ev: Event)
    ensures Fold(evs + [ev]) == Effect(Fold(evs), ev)
  {
  }

  lemma FaithfulSnoc(evs: seq<Event>, ev: Event)
    requires Faithful(evs)
    requires ev.Add? ==> ev.l !in Fold(evs)
    requires ev.Del? ==> ev.l in Fold(evs)
    ensures Faithful(evs + [ev])
  {
    forall i: nat | i < |evs + [ev]| ensures FaithfulAt(evs + [ev], i) {
      assert (evs + [ev])[..i] == evs[..i];
      assert evs[..|evs|] == evs;
      assert i < |evs| ==> FaithfulAt(evs, i);
    }
  }
}
