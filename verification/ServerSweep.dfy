/**
 The connection sweep of the TCP servers. Both walk their connections from the last to the first and
 remove the ended ones in place: the grouped server by erasing, the query-control server by moving the
 last connection into the gap.
 */
module ServerSweep {
  import opened Common
  import opened Sums

  datatype Fate = Stays | Completes | Fails

  /** What one turn with its readiness entry does to a connection. */
  type Turn<!T, !E> = (T, E) -> (T, Fate)

  /** Every connection that was there, turned once with its own entry; the ended ones are dropped. */
  function Survivors<T, E>(connections: seq<T>, events: seq<E>, turn: Turn<T, E>): seq<T>
    requires |events| == |connections|
  {
    if connections == [] then []
    else
      var (next, fate) := turn(connections[0], events[0]);
      (if fate == Stays then [next] else []) + Survivors(connections[1..], events[1..], turn)
  }

  function Ended<T, E>(connections: seq<T>, events: seq<E>, turn: Turn<T, E>, fate: Fate): nat
    requires |events| == |connections|
  {
    if connections == [] then 0
    else Ended(connections[1..], events[1..], turn, fate) + if turn(connections[0], events[0]).1 == fate then 1 else 0
  }

  /** No connection is lost: each one survives, completed or failed. */
  lemma {:induction false} EveryConnectionAccounted<T, E>(connections: seq<T>, events: seq<E>, turn: Turn<T, E>)
    requires |events| == |connections|
    ensures |connections| ==
      |Survivors(connections, events, turn)| + Ended(connections, events, turn, Completes) + Ended(connections, events, turn, Fails)
  {
    if connections != [] {
      EveryConnectionAccounted(connections[1..], events[1..], turn);
    }
  }

  /** What accepting may meet. */
  datatype Arrival<+T> = AcceptError | NoneWaiting | Unusable | Usable(connection: T)

  /** Connections and counters after an accept loop. */
  datatype Admission<+T> = Admission(connections: seq<T>, accepted: nat, rejected: nat, errors: nat)

  function Admit<T>(maximum: nat, connections: seq<T>, arrivals: seq<Arrival<T>>): Admission<T>
    decreases |arrivals|
  {
    if arrivals == [] then Admission(connections, 0, 0, 0)
    else match arrivals[0]
      case AcceptError => Admission(connections, 0, 0, 1)
      case NoneWaiting => Admission(connections, 0, 0, 0)
      case Unusable =>
        var a := Admit(maximum, connections, arrivals[1..]);
        a.(rejected := a.rejected + 1)
      case Usable(c) =>
        if |connections| == maximum then
          var a := Admit(maximum, connections, arrivals[1..]);
          a.(rejected := a.rejected + 1)
        else
          var a := Admit(maximum, connections + [c], arrivals[1..]);
          a.(accepted := a.accepted + 1)
  }

  lemma {:induction false} AdmitStaysWithin<T>(maximum: nat, connections: seq<T>, arrivals: seq<Arrival<T>>)
    requires |connections| <= maximum
    ensures
      var a := Admit(maximum, connections, arrivals);
      |a.connections| == |connections| + a.accepted <= maximum && connections <= a.connections
    decreases |arrivals|
  {
    if arrivals != [] {
      AdmitStaysWithin(maximum, connections, arrivals[1..]);
      if arrivals[0].Usable? && |connections| < maximum {
        AdmitStaysWithin(maximum, connections + [arrivals[0].connection], arrivals[1..]);
      }
    }
  }

  /** How many accepts of a poll meet a connection, before the first error or the end of the queue. */
  function Met<T>(arrivals: seq<Arrival<T>>): (k: nat)
    ensures k <= |arrivals|
  {
    if arrivals == [] || arrivals[0].AcceptError? || arrivals[0].NoneWaiting? then 0 else 1 + Met(arrivals[1..])
  }

  /** The usable ones among the arrivals met. */
  function UsableOf<T>(arrivals: seq<Arrival<T>>): seq<T> {
    if arrivals == [] || arrivals[0].AcceptError? || arrivals[0].NoneWaiting? then []
    else (if arrivals[0].Usable? then [arrivals[0].connection] else []) + UsableOf(arrivals[1..])
  }

  /**
   An accept loop takes the first usable arrivals that fit, in order, and no others; every other one it met
   is rejected, and an error is counted exactly when it ended the loop.
   */
  lemma {:induction false} AdmitExactly<T>(maximum: nat, connections: seq<T>, arrivals: seq<Arrival<T>>)
    requires |connections| <= maximum
    ensures
      var a, usable, met := Admit(maximum, connections, arrivals), UsableOf(arrivals), Met(arrivals);
      && a.accepted == Min(maximum - |connections|, |usable|) && a.connections == connections + usable[..a.accepted]
      && a.rejected == met - a.accepted
      && a.errors == (if met < |arrivals| && arrivals[met].AcceptError? then 1 else 0)
    decreases |arrivals|
  {
    if arrivals == [] || arrivals[0].AcceptError? || arrivals[0].NoneWaiting? {
    } else if arrivals[0].Usable? && |connections| < maximum {
      var c, rest := arrivals[0].connection, UsableOf(arrivals[1..]);
      AdmitExactly(maximum, connections + [c], arrivals[1..]);
      var taken := Admit(maximum, connections + [c], arrivals[1..]).accepted;
      assert ([c] + rest)[..taken + 1] == [c] + rest[..taken];
    } else {
      AdmitExactly(maximum, connections, arrivals[1..]);
    }
  }

  /** The grouped query server. */
  class GroupedServer<T, E> {
    const maximum: nat
    const acceptsPerPoll: nat
    var connections: seq<T>
    var accepted: nat
    var completed: nat
    var failed: nat
    var rejected: nat
    var errors: nat
    var active: nat

    /** Accepted connections are completed, failed or still here, and there is room for the ones still here. */
    ghost predicate Valid()
      reads this
    {
      accepted == completed + failed + |connections| && active == |connections| <= maximum
    }

    constructor (maximum: nat, acceptsPerPoll: nat)
      ensures Valid() && connections == [] && this.maximum == maximum && this.acceptsPerPoll == acceptsPerPoll
    {
      this.maximum, this.acceptsPerPoll, connections := maximum, acceptsPerPoll, [];
      accepted, completed, failed, rejected, errors, active := 0, 0, 0, 0, 0, 0;
    }

    method RemoveConnection(index: nat, complete: bool)
      requires index < |connections|
      modifies this
      ensures connections == old(connections[..index] + connections[index + 1..]) && active == |connections|
      ensures completed == old(completed) + (if complete then 1 else 0) && failed == old(failed) + (if complete then 0 else 1)
      ensures unchanged(`accepted) && unchanged(`rejected) && unchanged(`errors)
    {
      connections := connections[..index] + connections[index + 1..];
      if complete {
        completed := completed + 1;
      } else {
        failed := failed + 1;
      }
      active := |connections|;
    }

    method Sweep(events: seq<E>, turn: Turn<T, E>)
      requires Valid() && |events| == |connections|
      modifies this
      ensures Valid() && connections == Survivors(old(connections), events, turn)
      ensures completed == old(completed) + Ended(old(connections), events, turn, Completes)
      ensures failed == old(failed) + Ended(old(connections), events, turn, Fails)
      ensures unchanged(`accepted) && unchanged(`rejected) && unchanged(`errors)
    {
      ghost var was := connections;
      var remaining := |connections|;
      while remaining > 0
        invariant 0 <= remaining <= |was| && active == |connections|
        invariant connections == was[..remaining] + Survivors(was[remaining..], events[remaining..], turn)
        invariant completed == old(completed) + Ended(was[remaining..], events[remaining..], turn, Completes)
        invariant failed == old(failed) + Ended(was[remaining..], events[remaining..], turn, Fails)
        invariant unchanged(`accepted) && unchanged(`rejected) && unchanged(`errors)
      {
        var index := remaining - 1;
        TailStep(was, events, turn, index);
        Splice(was, Survivors(was[remaining..], events[remaining..], turn), index, turn(was[index], events[index]).0);
        var (next, fate) := turn(connections[index], events[index]);
        if fate == Stays {
          connections := connections[index := next];
        } else {
          RemoveConnection(index, fate == Completes);
        }
        remaining := index;
      }
      assert was[0..] == was && events[0..] == events;
      EveryConnectionAccounted(was, events, turn);
    }

    /** `arrivals` is what each of the accepts of one poll would meet. */
    method AcceptReady(arrivals: seq<Arrival<T>>)
      requires Valid() && |arrivals| == acceptsPerPoll
      modifies this
      ensures Valid()
      ensures
        var a := Admit(maximum, old(connections), arrivals);
        && connections == a.connections && accepted == old(accepted) + a.accepted
        && rejected == old(rejected) + a.rejected && errors == old(errors) + a.errors
      ensures unchanged(`completed) && unchanged(`failed)
    {
      ghost var whole := Admit(maximum, connections, arrivals);
      var k := 0;
      while k < acceptsPerPoll
        invariant k <= |arrivals| && Valid() && unchanged(`completed) && unchanged(`failed) && errors == old(errors)
        invariant
          var rest := Admit(maximum, connections, arrivals[k..]);
          && whole.connections == rest.connections && old(accepted) + whole.accepted == accepted + rest.accepted
          && old(rejected) + whole.rejected == rejected + rest.rejected && whole.errors == rest.errors
      {
        assert arrivals[k..][0] == arrivals[k] && arrivals[k..][1..] == arrivals[k + 1..];
        match arrivals[k] {
          case AcceptError =>
            errors := errors + 1;
            return;
          case NoneWaiting =>
            return;
          case Unusable =>
            rejected := rejected + 1;
          case Usable(c) =>
            if |connections| == maximum {
              rejected := rejected + 1;
            } else {
              connections := connections + [c];
              accepted, active := accepted + 1, |connections|;
            }
        }
        k := k + 1;
      }
    }
  }

  lemma TailStep<T, E>(connections: seq<T>, events: seq<E>, turn: Turn<T, E>, index: nat)
    requires index < |connections| == |events|
    ensures
      var (next, fate) := turn(connections[index], events[index]);
      var tail, entries := connections[index + 1..], events[index + 1..];
      && Survivors(connections[index..], events[index..], turn)
         == (if fate == Stays then [next] else []) + Survivors(tail, entries, turn)
      && Ended(connections[index..], events[index..], turn, Completes)
         == Ended(tail, entries, turn, Completes) + (if fate == Completes then 1 else 0)
      && Ended(connections[index..], events[index..], turn, Fails)
         == Ended(tail, entries, turn, Fails) + (if fate == Fails then 1 else 0)
  {
  }

  /** Replacing or erasing the last element of the part not yet swept. */
  lemma Splice<T>(was: seq<T>, tail: seq<T>, index: nat, next: T)
    requires index < |was|
    ensures
      var all := was[..index + 1] + tail;
      && all[index] == was[index] && all[..index] + all[index + 1..] == was[..index] + ([] + tail)
      && all[index := next] == was[..index] + ([next] + tail)
  {
  }

  // ---- The query-control server ----

  const PROTOCOLS := 4

  function SaturatedNext(count: U64): U64 {
    if count < U64_MAX then count + 1 else count
  }

  /** The last connection moves into the gap. */
  function SwapPopped<T>(connections: seq<T>, index: nat): seq<T>
    requires index < |connections|
  {
    var last := |connections| - 1;
    if index == last then connections[..last] else connections[index := connections[last]][..last]
  }

  /** Before the gap nothing moves; behind it the same connections stay, in another order. */
  lemma SwapPopKeepsRest<T>(connections: seq<T>, index: nat)
    requires index < |connections|
    ensures
      var after := SwapPopped(connections, index);
      && |after| == |connections| - 1 && after[..index] == connections[..index]
      && multiset(after[index..]) == multiset(connections[index + 1..])
  {
    var after, last := SwapPopped(connections, index), |connections| - 1;
    if index < last {
      assert after[index..] == [connections[last]] + connections[index + 1..last];
      assert connections[index + 1..] == connections[index + 1..last] + [connections[last]];
    } else {
      assert after[index..] == [] && connections[index + 1..] == [];
    }
  }

  /** The connections after the one at `index` took its turn. */
  function TurnedAt<T, E>(connections: seq<T>, events: seq<E>, turn: Turn<T, E>, index: nat): seq<T>
    requires index < |connections| && index < |events|
  {
    var (next, fate) := turn(connections[index], events[index]);
    var turned := connections[index := next];
    if fate == Stays then turned else SwapPopped(turned, index)
  }

  /** Connections from `remaining` on are those of the erasing sweep, in some order; those before are untouched. */
  ghost predicate SweptFrom<T, E>(was: seq<T>, connections: seq<T>, events: seq<E>, turn: Turn<T, E>, remaining: nat)
    requires remaining <= |was| == |events|
  {
    && remaining <= |connections| && connections[..remaining] == was[..remaining]
    && multiset(connections[remaining..]) == multiset(Survivors(was[remaining..], events[remaining..], turn))
  }

  lemma SweptOneMore<T, E>(was: seq<T>, connections: seq<T>, events: seq<E>, turn: Turn<T, E>, index: nat)
    requires index < |was| == |events| && SweptFrom(was, connections, events, turn, index + 1)
    ensures connections[index] == was[index]
    ensures SweptFrom(was, TurnedAt(connections, events, turn, index), events, turn, index)
  {
    TailStep(was, events, turn, index);
    assert connections[index] == connections[..index + 1][index] == was[index];
    assert was[..index] == was[..index + 1][..index] == connections[..index];
    var tail, next := connections[index + 1..], turn(was[index], events[index]).0;
    var turned := connections[index := next];
    assert turned[index..] == [next] + tail && turned[index + 1..] == tail && turned[..index] == connections[..index];
    SwapPopKeepsRest(turned, index);
  }

  function Count(n: U64): nat {
    n
  }

  /** A counter raised `n` times. */
  function Raised(count: U64, n: nat): U64 {
    Min(count + n, U64_MAX)
  }

  /** The counter an ended connection goes to: that of the protocol it completed, or the last, of failures. */
  function CounterOf<T>(protocol: T -> nat, connection: T, fate: Fate): nat {
    if fate == Completes && protocol(connection) < PROTOCOLS then protocol(connection) else PROTOCOLS
  }

  /** How many connections of a sweep end up in counter `k`. */
  function EndedIn<T, E>(connections: seq<T>, events: seq<E>, turn: Turn<T, E>, protocol: T -> nat, k: nat): nat
    requires |events| == |connections|
  {
    if connections == [] then 0
    else
      var (next, fate) := turn(connections[0], events[0]);
      EndedIn(connections[1..], events[1..], turn, protocol, k) + One(fate != Stays && CounterOf(protocol, next, fate) == k)
  }

  lemma EndedInStep<T, E>(connections: seq<T>, events: seq<E>, turn: Turn<T, E>, protocol: T -> nat, index: nat, k: nat)
    requires index < |connections| == |events|
    ensures
      var (next, fate) := turn(connections[index], events[index]);
      EndedIn(connections[index..], events[index..], turn, protocol, k) ==
        EndedIn(connections[index + 1..], events[index + 1..], turn, protocol, k)
        + One(fate != Stays && CounterOf(protocol, next, fate) == k)
  {
  }

  /** Every connection of a sweep survives or is in exactly one counter. */
  lemma {:induction false} EveryConnectionCounted<T, E>(
    connections: seq<T>, events: seq<E>, turn: Turn<T, E>, protocol: T -> nat)
    requires |events| == |connections|
    ensures |connections| ==
      |Survivors(connections, events, turn)|
      + EndedIn(connections, events, turn, protocol, 0) + EndedIn(connections, events, turn, protocol, 1)
      + EndedIn(connections, events, turn, protocol, 2) + EndedIn(connections, events, turn, protocol, 3)
      + EndedIn(connections, events, turn, protocol, PROTOCOLS)
  {
    if connections == [] {
    } else {
      EveryConnectionCounted(connections[1..], events[1..], turn, protocol);
    }
  }

  /** `protocol` tells which of the protocols a completed connection spoke; any other counts as a failure. */
  class ControlServer<T(==), E> {
    const maximum: nat
    const acceptsPerPoll: nat
    const protocol: T -> nat
    var connections: seq<T>
    var accepted: U64
    var completed: seq<U64>
    var failed: U64
    var rejected: U64
    var errors: U64
    var active: nat

    /** Until the accepted counter saturates it is completed plus failed plus still here. */
    ghost predicate Valid()
      reads this
    {
      && |completed| == PROTOCOLS && active == |connections| <= maximum
      && (accepted < U64_MAX ==> accepted == Total(completed, Count) + failed + |connections|)
    }

    /** The completed counters, and behind them the failed one. */
    function Counters(): seq<U64>
      reads this
    {
      completed + [failed]
    }

    constructor (maximum: nat, acceptsPerPoll: nat, protocol: T -> nat)
      ensures Valid() && connections == [] && Counters() == [0, 0, 0, 0, 0]
      ensures this.maximum == maximum && this.acceptsPerPoll == acceptsPerPoll && this.protocol == protocol
    {
      this.maximum, this.acceptsPerPoll, this.protocol, connections := maximum, acceptsPerPoll, protocol, [];
      accepted, completed, failed, rejected, errors, active := 0, [0, 0, 0, 0], 0, 0, 0, 0;
      new;
      TotalBounded(completed, 0, Count);
    }

    method RemoveConnection(index: nat, complete: bool)
      requires Valid() && index < |connections|
      modifies this
      ensures Valid() && connections == SwapPopped(old(connections), index)
      ensures
        var k := CounterOf(protocol, old(connections)[index], if complete then Completes else Fails);
        Counters() == old(Counters())[k := Raised(old(Counters())[k], 1)]
      ensures unchanged(`accepted) && unchanged(`rejected) && unchanged(`errors)
    {
      var kind := protocol(connections[index]);
      if complete && kind < PROTOCOLS {
        TotalUpdate(completed, kind, SaturatedNext(completed[kind]), Count);
        completed := completed[kind := SaturatedNext(completed[kind])];
      } else {
        failed := SaturatedNext(failed);
      }
      if index + 1 != |connections| {
        connections := connections[index := connections[|connections| - 1]];
      }
      connections := connections[..|connections| - 1];
      active := |connections|;
    }

    /** Every counter has grown by the connections of `tail` that ended in it, up to saturation. */
    ghost predicate CountedUp(before: seq<U64>, tail: seq<T>, events: seq<E>, turn: Turn<T, E>)
      requires |events| == |tail| && |before| == PROTOCOLS + 1
      reads this
    {
      && |completed| == PROTOCOLS
      && forall k :: 0 <= k <= PROTOCOLS ==> Counters()[k] == Raised(before[k], EndedIn(tail, events, turn, protocol, k))
    }

    /** The connection at `index` takes its turn, and leaves if it ended. */
    method TurnOne(index: nat, events: seq<E>, turn: Turn<T, E>, ghost was: seq<T>, ghost before: seq<U64>)
      requires Valid() && index < |connections| && |events| == |was| && index < |was| && connections[index] == was[index]
      requires |before| == PROTOCOLS + 1 && CountedUp(before, was[index + 1..], events[index + 1..], turn)
      modifies this
      ensures Valid() && CountedUp(before, was[index..], events[index..], turn)
      ensures connections == TurnedAt(old(connections), events, turn, index)
      ensures unchanged(`accepted) && unchanged(`rejected) && unchanged(`errors)
    {
      forall k | 0 <= k <= PROTOCOLS
        ensures
          var (next, fate) := turn(was[index], events[index]);
          EndedIn(was[index..], events[index..], turn, protocol, k) ==
            EndedIn(was[index + 1..], events[index + 1..], turn, protocol, k)
            + One(fate != Stays && CounterOf(protocol, next, fate) == k)
      {
        EndedInStep(was, events, turn, protocol, index, k);
      }
      var (next, fate) := turn(connections[index], events[index]);
      connections := connections[index := next];
      if fate != Stays {
        RemoveConnection(index, fate == Completes);
      }
    }

    /** Leaves the same connections as the erasing sweep, in some order, and counts every one that ended. */
    method Sweep(events: seq<E>, turn: Turn<T, E>)
      requires Valid() && |events| == |connections|
      modifies this
      ensures Valid()
      ensures multiset(connections) == multiset(Survivors(old(connections), events, turn))
      ensures CountedUp(old(Counters()), old(connections), events, turn)
      ensures unchanged(`accepted) && unchanged(`rejected) && unchanged(`errors)
    {
      ghost var was, before := connections, Counters();
      var remaining := |connections|;
      assert connections[remaining..] == [] && connections[..remaining] == connections;
      while remaining > 0
        invariant 0 <= remaining <= |was| && Valid() && SweptFrom(was, connections, events, turn, remaining)
        invariant CountedUp(before, was[remaining..], events[remaining..], turn)
        invariant unchanged(`accepted) && unchanged(`rejected) && unchanged(`errors)
      {
        var index := remaining - 1;
        SweptOneMore(was, connections, events, turn, index);
        TurnOne(index, events, turn, was, before);
        remaining := index;
      }
      assert was[0..] == was && events[0..] == events && connections[0..] == connections;
    }

    /** `arrivals` is what each of the accepts of one poll would meet. */
    method AcceptReady(arrivals: seq<Arrival<T>>)
      requires Valid() && |arrivals| == acceptsPerPoll
      modifies this
      ensures Valid()
      ensures
        var a := Admit(maximum, old(connections), arrivals);
        && connections == a.connections && accepted == Raised(old(accepted), a.accepted)
        && rejected == Raised(old(rejected), a.rejected) && errors == Raised(old(errors), a.errors)
      ensures Counters() == old(Counters())
    {
      ghost var whole := Admit(maximum, connections, arrivals);
      var k := 0;
      while k < acceptsPerPoll
        invariant k <= |arrivals| && Valid() && Counters() == old(Counters()) && errors == old(errors)
        invariant Owes(whole, old(accepted), old(rejected), Admit(maximum, connections, arrivals[k..]))
      {
        assert arrivals[k..][0] == arrivals[k] && arrivals[k..][1..] == arrivals[k + 1..];
        match arrivals[k] {
          case AcceptError =>
            errors := SaturatedNext(errors);
            return;
          case NoneWaiting =>
            return;
          case Unusable =>
            rejected := SaturatedNext(rejected);
          case Usable(c) =>
            if |connections| == maximum {
              rejected := SaturatedNext(rejected);
            } else {
              connections := connections + [c];
              accepted, active := SaturatedNext(accepted), |connections|;
            }
        }
        k := k + 1;
      }
    }

    /** What is left of the accept loop leads from here to where the whole of it leads. */
    ghost predicate Owes(whole: Admission<T>, accepted0: U64, rejected0: U64, rest: Admission<T>)
      reads this
    {
      && whole.connections == rest.connections && whole.errors == rest.errors
      && Raised(accepted0, whole.accepted) == Raised(accepted, rest.accepted)
      && Raised(rejected0, whole.rejected) == Raised(rejected, rest.rejected)
    }
  }
}
