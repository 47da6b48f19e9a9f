/**
 * A round as the five phases in their fixed order, a run as a number of rounds,
 * and what every round keeps true.
 */
module Rounds {
  import opened Entities
  import opened Phases

  /** The arrivals an arrival generator produces for a round number. */
  type Generator = int -> Arrivals

  /**
   * The representation invariant of a simulation: at least one elevator, at least
   * two floors, a queue for exactly the floors `1..numFloors`, and every elevator
   * within its (positive) capacity.
   */
  ghost predicate Inv(s: State)
  {
    && s.numFloors >= 2
    && |s.cars| >= 1
    && FloorsAre(s.waiting, s.numFloors)
    && forall i :: 0 <= i < |s.cars| ==>
         1 <= s.cars[i].capacity && |s.cars[i].passengers| <= s.cars[i].capacity
  }

  /** Every arrival is on one of the floors `1..n`. */
  ghost predicate ArrivalsOnFloors(arrivals: Arrivals, n: int)
  {
    forall k :: 0 <= k < |arrivals| ==> 1 <= arrivals[k].0 <= n
  }

  /** Round `i`: record the round number, then disembark, arrive, board, move and update wait times. */
  function PlayRound(s: State, i: int, generate: Generator, policy: Policy): (r: State)
    ensures r.numFloors == s.numFloors && |r.cars| == |s.cars|
  {
    Ticking(Moving(Boarding(Arriving(Disembarking(s.(round := i)), generate(i))), policy))
  }

  /** What one round does to a state, given the round number. */
  type Round = (State, int) -> State

  /** Round `i` of a run with this arrival generator and dispatch policy. */
  function RoundOf(generate: Generator, policy: Policy): Round
  {
    (s: State, i: int) => PlayRound(s, i, generate, policy)
  }

  /** The state that playing rounds `i..n-1` in turn makes of `s`. */
  function Iterate(step: Round, s: State, i: int, n: int): State
    decreases n - i
  {
    if i >= n then s else Iterate(step, step(s, i), i + 1, n)
  }

  /** A run: rounds `i..n-1` of the simulation, in turn. It keeps the building and its elevators. */
  function RunRounds(s: State, i: int, n: int, generate: Generator, policy: Policy): (r: State)
    ensures r.numFloors == s.numFloors && |r.cars| == |s.cars|
  {
    var keep := (t: State) => t.numFloors == s.numFloors && |t.cars| == |s.cars|;
    IterateKeeps(RoundOf(generate, policy), keep, s, i, n);
    Iterate(RoundOf(generate, policy), s, i, n)
  }

  /** A property that every round `i..n-1` keeps holds after the whole run. */
  lemma {:induction false} IterateKeeps(step: Round, keep: State -> bool, s: State, i: int, n: int)
    requires keep(s)
    requires forall t, k :: i <= k < n && keep(t) ==> keep(step(t, k))
    ensures keep(Iterate(step, s, i, n))
    decreases n - i
  {
    if i < n {
      IterateKeeps(step, keep, step(s, i), i + 1, n);
    }
  }

  /** When every round records its number, a run of rounds `i..n-1` (at least one) ends reading `n - 1`. */
  lemma {:induction false} IterateSetsRound(step: Round, s: State, i: int, n: int)
    requires i < n
    requires forall t, k :: step(t, k).round == k
    ensures Iterate(step, s, i, n).round == n - 1
    decreases n - i
  {
    if i + 1 < n {
      IterateSetsRound(step, step(s, i), i + 1, n);
    }
  }

  lemma DisembarkingKeepsInv(s: State)
    requires Inv(s)
    ensures Inv(Disembarking(s))
  {
    forall i | 0 <= i < |s.cars| {
      DisembarkPartition(s.cars[i].passengers, s.cars[i].currentFloor);
    }
  }

  /**
   * Arrivals keep the invariant exactly when they are all on the building's floors:
   * an arrival anywhere else opens a queue for a floor the building does not have.
   */
  lemma ArrivingKeepsInvIff(s: State, arrivals: Arrivals)
    requires Inv(s)
    ensures Inv(Arriving(s, arrivals)) <==> ArrivalsOnFloors(arrivals, s.numFloors)
  {
    ArriveSpec(s.waiting, arrivals);
    if ArrivalsOnFloors(arrivals, s.numFloors) {
      assert ArrivalFloors(arrivals) <= s.waiting.Keys;
    } else {
      var k :| 0 <= k < |arrivals| && !(1 <= arrivals[k].0 <= s.numFloors);
      assert arrivals[k].0 in Arriving(s, arrivals).waiting;
    }
  }

  lemma BoardingKeepsInv(s: State)
    requires Inv(s)
    ensures Inv(Boarding(s))
  {
    BoardAllFrame(s.cars, s.waiting);
  }

  lemma MovingKeepsInv(s: State, policy: Policy)
    requires Inv(s)
    ensures Inv(Moving(s, policy))
  {
  }

  lemma TickingKeepsInv(s: State)
    requires Inv(s)
    ensures Inv(Ticking(s))
  {
  }

  /**
   * Every round keeps the representation invariant, provided the round's arrivals
   * are on known floors; it records the round number and keeps the building's size.
   */
  lemma RoundKeepsInv(s: State, i: int, generate: Generator, policy: Policy)
    requires Inv(s) && ArrivalsOnFloors(generate(i), s.numFloors)
    ensures Inv(PlayRound(s, i, generate, policy))
    ensures PlayRound(s, i, generate, policy).numFloors == s.numFloors
  {
    var s1 := Disembarking(s.(round := i));
    DisembarkingKeepsInv(s.(round := i));
    var s2 := Arriving(s1, generate(i));
    ArrivingKeepsInvIff(s1, generate(i));
    var s3 := Boarding(s2);
    BoardingKeepsInv(s2);
    var s4 := Moving(s3, policy);
    assert Inv(s4);
    assert Inv(Ticking(s4));
  }

  /** A run of any length keeps the invariant and the building's size, provided every round's arrivals are on known floors. */
  lemma RunKeepsInv(s: State, i: int, n: int, generate: Generator, policy: Policy)
    requires Inv(s)
    requires forall k :: i <= k < n ==> ArrivalsOnFloors(generate(k), s.numFloors)
    ensures Inv(RunRounds(s, i, n, generate, policy))
    ensures RunRounds(s, i, n, generate, policy).numFloors == s.numFloors
  {
    var keep := (t: State) => Inv(t) && t.numFloors == s.numFloors;
    forall t, k | i <= k < n && keep(t) ensures keep(RoundOf(generate, policy)(t, k)) {
      RoundKeepsInv(t, k, generate, policy);
    }
    IterateKeeps(RoundOf(generate, policy), keep, s, i, n);
  }

  /** After rounds `i..n-1` (at least one) the round counter reads `n - 1`, the last round played. */
  lemma RunSetsRound(s: State, i: int, n: int, generate: Generator, policy: Policy)
    requires i < n
    ensures RunRounds(s, i, n, generate, policy).round == n - 1
  {
    forall t, k ensures RoundOf(generate, policy)(t, k).round == k {
      RoundKeepsRound(t, k, generate, policy);
    }
    IterateSetsRound(RoundOf(generate, policy), s, i, n);
  }

  /** Every round records its own number. */
  lemma RoundKeepsRound(s: State, i: int, generate: Generator, policy: Policy)
    ensures PlayRound(s, i, generate, policy).round == i
  {
  }

  /** Within one round an elevator's floor changes by at most one. */
  lemma RoundMovesOneFloor(s: State, i: int, generate: Generator, policy: Policy)
    ensures |PlayRound(s, i, generate, policy).cars| == |s.cars|
    ensures forall k :: 0 <= k < |s.cars| ==>
      Distance(PlayRound(s, i, generate, policy).cars[k].currentFloor, s.cars[k].currentFloor) <= 1
  {
    var s1 := Disembarking(s.(round := i));
    var s2 := Arriving(s1, generate(i));
    var s3 := Boarding(s2);
    BoardAllFrame(s2.cars, s2.waiting);
    var ts := policy(s3.cars, s3.waiting, s3.numFloors);
    forall k | 0 <= k < |s.cars|
      ensures Distance(PlayRound(s, i, generate, policy).cars[k].currentFloor, s.cars[k].currentFloor) <= 1
    {
      assert s3.cars[k].currentFloor == s.cars[k].currentFloor;
      assert PlayRound(s, i, generate, policy).cars[k].currentFloor
          == Step(Retarget(s3.cars, ts)[k]).0.currentFloor;
    }
  }

  /** Every elevator in `cs` is at, and heading for, one of the floors `1..n`. */
  ghost predicate CarsOnFloors(cs: seq<Car>, n: int)
  {
    forall j :: 0 <= j < |cs| ==> 1 <= cs[j].currentFloor <= n && 1 <= cs[j].targetFloor <= n
  }

  /**
   * A dispatch policy that, in a building of `n` floors and given elevators on
   * floors `1..n`, only ever picks floors `1..n`.
   */
  ghost predicate PolicyInRange(policy: Policy, n: int)
  {
    forall cs, w, k :: CarsOnFloors(cs, n) && 0 <= k < |policy(cs, w, n)| ==> 1 <= policy(cs, w, n)[k] <= n
  }

  /**
   * The end-to-end sweep (from floor 1 head for the top floor, from the top
   * floor head for floor 1, in between keep the current target) keeps to any
   * building that has at least one floor.
   */
  lemma SweepInRange(n: int)
    requires n >= 1
    ensures PolicyInRange((cs: seq<Car>, w: Queues, m: int) =>
      seq(|cs|, k requires 0 <= k < |cs| =>
        if cs[k].currentFloor == 1 then m
        else if cs[k].currentFloor == m then 1
        else cs[k].targetFloor), n)
  {
  }

  /** Every elevator is at, and heading for, one of the building's floors. */
  ghost predicate OnFloors(s: State)
  {
    CarsOnFloors(s.cars, s.numFloors)
  }

  lemma RoundKeepsOnFloors(s: State, i: int, generate: Generator, policy: Policy)
    requires OnFloors(s) && PolicyInRange(policy, s.numFloors)
    ensures OnFloors(PlayRound(s, i, generate, policy))
  {
    var s1 := Disembarking(s.(round := i));
    var s2 := Arriving(s1, generate(i));
    var s3 := Boarding(s2);
    BoardAllFrame(s2.cars, s2.waiting);
    var ts := policy(s3.cars, s3.waiting, s3.numFloors);
    var rs := Retarget(s3.cars, ts);
    forall k | 0 <= k < |rs|
      ensures 1 <= rs[k].currentFloor <= s.numFloors && 1 <= rs[k].targetFloor <= s.numFloors
    {
      assert s3.cars[k].currentFloor == s.cars[k].currentFloor;
      assert s3.cars[k].targetFloor == s.cars[k].targetFloor;
    }
    forall k | 0 <= k < |rs| ensures 1 <= Step(rs[k]).0.currentFloor <= s.numFloors {
      StepStaysInRange(rs[k], s.numFloors);
    }
  }

  /** When the policy keeps to the building, every elevator stays on its floors for the whole run. */
  lemma RunKeepsOnFloors(s: State, i: int, n: int, generate: Generator, policy: Policy)
    requires OnFloors(s) && PolicyInRange(policy, s.numFloors)
    ensures OnFloors(RunRounds(s, i, n, generate, policy))
  {
    var keep := (t: State) => OnFloors(t) && t.numFloors == s.numFloors;
    forall t, k | i <= k < n && keep(t) ensures keep(RoundOf(generate, policy)(t, k)) {
      RoundKeepsOnFloors(t, k, generate, policy);
    }
    IterateKeeps(RoundOf(generate, policy), keep, s, i, n);
  }
}
