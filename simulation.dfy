/**
 * The simulation object: the elevators, the per-floor waiting queues and the
 * round counter, updated in place one phase at a time.
 */
module Simulator {
  import opened Entities
  import opened Phases
  import opened Rounds

  /** The statistics a run reports. */
  datatype Stats = Stats(numRounds: int, totalPeople: int, peopleCompleted: int, maxTime: int, avgTime: int)

  /** No two positions of the list hold the same elevator. */
  ghost predicate Distinct(es: seq<Elevator>)
  {
    forall i, j :: 0 <= i < |es| && 0 <= j < |es| && i != j ==> es[i] != es[j]
  }

  /** The statistics of a run; the source leaves every figure at zero. */
  function CalculateStats(): (r: Stats)
    ensures r.numRounds == 0 && r.totalPeople == 0 && r.peopleCompleted == 0 && r.maxTime == 0 && r.avgTime == 0
  {
    Stats(0, 0, 0, 0, 0)
  }

  /** The passengers who stay aboard at `floor`, collected front to back. */
  method StayingAboard(passengers: seq<Person>, floor: int) returns (remaining: seq<Person>)
    ensures remaining == Remaining(passengers, floor)
  {
    remaining := [];
    for k := 0 to |passengers|
      invariant remaining == Remaining(passengers[..k], floor)
    {
      assert passengers[..k + 1][..k] == passengers[..k];
      if passengers[k].target != floor {
        remaining := remaining + [passengers[k]];
      }
    }
    assert passengers[..|passengers|] == passengers;
  }

  /** Every person of a floor's queue waits one more round. */
  method IncrementWaits(people: seq<Person>) returns (ticked: seq<Person>)
    ensures ticked == TickQueue(people)
  {
    ticked := people;
    for k := 0 to |people|
      invariant |ticked| == |people|
      invariant forall j :: 0 <= j < k ==> ticked[j] == Tick(people[j])
      invariant forall j :: k <= j < |people| ==> ticked[j] == people[j]
    {
      ticked := ticked[k := ticked[k].(waitTime := ticked[k].waitTime + 1)];
    }
  }

  /** Every passenger whose target is not `floor` waits one more round. */
  method IncrementRiders(passengers: seq<Person>, floor: int) returns (ticked: seq<Person>)
    ensures ticked == TickRiding(passengers, floor)
  {
    ticked := passengers;
    for k := 0 to |passengers|
      invariant |ticked| == |passengers|
      invariant forall j :: 0 <= j < k ==> ticked[j] == TickRiding(passengers, floor)[j]
      invariant forall j :: k <= j < |passengers| ==> ticked[j] == passengers[j]
    {
      if floor != ticked[k].target {
        ticked := ticked[k := ticked[k].(waitTime := ticked[k].waitTime + 1)];
      }
    }
  }

  /** One elevator moves one floor toward its target, or stays there; returns the direction taken. */
  method MoveElevator(e: Elevator) returns (moved: Direction)
    modifies e
    ensures (e.View(), moved) == Step(old(e.View()))
  {
    if e.currentFloor < e.targetFloor {
      e.currentFloor := e.currentFloor + 1;
      moved := Up;
    } else if e.currentFloor > e.targetFloor {
      e.currentFloor := e.currentFloor - 1;
      moved := Down;
    } else {
      moved := Stay;
    }
  }

  class Simulation {
    const arrivalGenerator: Generator
    const movingAlgorithm: Policy
    const numFloors: int
    const elevators: seq<Elevator>
    var waiting: Queues
    var round: int

    /** The elevators as values, in list order. */
    function Cars(): (cs: seq<Car>)
      reads elevators
      ensures |cs| == |elevators|
      ensures forall i :: 0 <= i < |elevators| ==> cs[i] == elevators[i].View()
    {
      seq(|elevators|, i requires 0 <= i < |elevators| reads elevators => elevators[i].View())
    }

    /** The whole simulation as a value. */
    function Snapshot(): State
      reads this, elevators
    {
      State(numFloors, waiting, Cars(), round)
    }

    /** The representation invariant, over distinct elevator objects. */
    ghost predicate Valid()
      reads this, elevators
    {
      Distinct(elevators) && Inv(Snapshot())
    }

    /**
     * A building of `numFloors` floors with `numElevators` fresh elevators of the
     * given capacity, an empty queue on every floor and the round counter at 0,
     * driven by the given arrival generator and dispatch policy.
     */
    constructor (arrivalGenerator: Generator, movingAlgorithm: Policy,
                 numFloors: int, elevatorCapacity: int, numElevators: int)
      requires numFloors >= 2 && elevatorCapacity >= 1 && numElevators >= 1
      ensures Valid()
      ensures this.arrivalGenerator == arrivalGenerator && this.movingAlgorithm == movingAlgorithm
      ensures this.numFloors == numFloors && |elevators| == numElevators
      ensures forall i :: 0 <= i < numElevators ==>
        fresh(elevators[i]) && elevators[i].View() == Car(elevatorCapacity, 1, 1, [])
      ensures forall f :: f in waiting <==> 1 <= f <= numFloors
      ensures forall f :: f in waiting ==> waiting[f] == []
      ensures round == 0
    {
      var es: seq<Elevator> := [];
      for k := 0 to numElevators
        invariant |es| == k
        invariant Distinct(es)
        invariant forall i :: 0 <= i < k ==> fresh(es[i]) && es[i].View() == Car(elevatorCapacity, 1, 1, [])
      {
        var e := new Elevator(elevatorCapacity);
        es := es + [e];
      }
      var w: Queues := map[];
      for f := 1 to numFloors + 1
        invariant forall g :: g in w <==> 1 <= g < f
        invariant forall g :: g in w ==> w[g] == []
      {
        w := w[f := []];
      }
      this.arrivalGenerator := arrivalGenerator;
      this.movingAlgorithm := movingAlgorithm;
      this.numFloors := numFloors;
      elevators := es;
      waiting := w;
      round := 0;
    }

    /** Stage 1: every elevator lets off the passengers whose target is its current floor. */
    method HandleDisembarking()
      requires Valid()
      modifies elevators
      ensures Valid()
      ensures Snapshot() == Disembarking(old(Snapshot()))
    {
      for i := 0 to |elevators|
        invariant forall j :: 0 <= j < i ==> elevators[j].View() == Disembark(old(elevators[j].View()))
        invariant forall j :: i <= j < |elevators| ==> elevators[j].View() == old(elevators[j].View())
      {
        var e := elevators[i];
        e.passengers := StayingAboard(e.passengers, e.currentFloor);
      }
      assert Cars() == DisembarkAll(old(Cars()));
      DisembarkingKeepsInv(old(Snapshot()));
    }

    /**
     * Stage 2: the arrivals join the back of their floor's queue. The representation
     * invariant survives exactly when every arrival is on one of the building's floors.
     */
    method GenerateArrivals(roundNum: int)
      requires Valid()
      modifies this
      ensures Snapshot() == Arriving(old(Snapshot()), arrivalGenerator(roundNum))
      ensures Valid() <==> ArrivalsOnFloors(arrivalGenerator(roundNum), numFloors)
    {
      var arrivals := arrivalGenerator(roundNum);
      JoinQueues(arrivals);
      ArrivingKeepsInvIff(old(Snapshot()), arrivals);
    }

    /** The arrivals, in the order listed, extend their floor's queue or start a new one. */
    method JoinQueues(arrivals: Arrivals)
      modifies this
      ensures waiting == Arrive(old(waiting), arrivals) && round == old(round)
    {
      ghost var w0 := waiting;
      for k := 0 to |arrivals|
        invariant waiting == Arrive(w0, arrivals[..k]) && round == old(round)
      {
        assert arrivals[..k + 1][..k] == arrivals[..k];
        var (floor, people) := arrivals[k];
        if floor in waiting {
          waiting := waiting[floor := waiting[floor] + people];
        } else {
          waiting := waiting[floor := people];
        }
      }
      assert arrivals[..|arrivals|] == arrivals;
    }

    /**
     * Stage 3: in list order, each elevator takes people from the front of its
     * floor's queue until the queue is empty or the elevator is full.
     */
    method HandleBoarding()
      requires Valid()
      modifies this, elevators
      ensures Valid()
      ensures Snapshot() == Boarding(old(Snapshot()))
    {
      ghost var cars0 := Cars();
      ghost var w0 := waiting;
      for i := 0 to |elevators|
        invariant BoardedUpTo(i, cars0, w0) && round == old(round)
      {
        BoardNext(i, cars0, w0);
      }
      assert cars0[..|elevators|] == cars0;
      assert Cars() == BoardAll(cars0, w0).0;
      BoardingKeepsInv(old(Snapshot()));
    }

    /**
     * Elevators `0..i-1` hold what boarding them in turn from `w0` gives, the others
     * still hold their `cars0` values, and the queues are what those `i` boardings left.
     */
    ghost predicate BoardedUpTo(i: int, cars0: seq<Car>, w0: Queues)
      reads this, elevators
    {
      && 0 <= i <= |elevators| == |cars0|
      && |BoardAll(cars0[..i], w0).0| == i
      && (forall j :: 0 <= j < i ==> elevators[j].View() == BoardAll(cars0[..i], w0).0[j])
      && (forall j :: i <= j < |elevators| ==> elevators[j].View() == cars0[j])
      && waiting == BoardAll(cars0[..i], w0).1
    }

    /** Elevator `i` boards from the queues the elevators before it left. */
    method BoardNext(i: int, ghost cars0: seq<Car>, ghost w0: Queues)
      requires Distinct(elevators) && i < |elevators| && BoardedUpTo(i, cars0, w0)
      modifies this, elevators[i]
      ensures BoardedUpTo(i + 1, cars0, w0) && round == old(round)
    {
      BoardAllSnoc(cars0, i, w0);
      BoardElevator(elevators[i]);
    }

    /** One elevator boards: people leave the front of its floor's queue until it is empty or the elevator is full. */
    method BoardElevator(e: Elevator)
      modifies this, e
      ensures (e.View(), waiting) == BoardCar(old(e.View()), old(waiting))
      ensures round == old(round)
    {
      if e.currentFloor in waiting {
        var f := e.currentFloor;
        var queue := waiting[f];
        var ps := e.passengers;
        ghost var q0, p0, m := queue, ps, 0;
        while queue != [] && |ps| < e.capacity
          invariant 0 <= m <= |q0|
          invariant ps == p0 + q0[..m] && queue == q0[m..]
          invariant m == 0 || |p0| + m <= e.capacity
          decreases |queue|
        {
          var person := queue[0];
          queue := queue[1..];
          ps := ps + [person];
          assert q0[..m + 1] == q0[..m] + [person];
          m := m + 1;
        }
        assert m == Boarders(e.View(), |q0|);
        e.passengers := ps;
        waiting := waiting[f := queue];
      }
    }

    /**
     * Stage 4: the dispatch policy sets the target floors, then every elevator
     * moves one floor toward its target or stays; the directions taken are returned.
     */
    method MoveElevators() returns (directions: seq<Direction>)
      requires Valid()
      modifies elevators
      ensures Valid()
      ensures Snapshot() == Moving(old(Snapshot()), movingAlgorithm)
      ensures directions == Directions(Retarget(old(Cars()), movingAlgorithm(old(Cars()), waiting, numFloors)))
    {
      var targets := movingAlgorithm(Cars(), waiting, numFloors);
      SetTargets(targets);
      directions := StepElevators();
      MovingKeepsInv(old(Snapshot()), movingAlgorithm);
    }

    /** Elevator `i` takes `targets[i]` as its target floor; one the list does not reach keeps its own. */
    method SetTargets(targets: seq<int>)
      requires Distinct(elevators)
      modifies elevators
      ensures Cars() == Retarget(old(Cars()), targets)
    {
      for i := 0 to |elevators|
        invariant forall j :: 0 <= j < i ==> elevators[j].View() == Retarget(old(Cars()), targets)[j]
        invariant forall j :: i <= j < |elevators| ==> elevators[j].View() == old(elevators[j].View())
      {
        if i < |targets| {
          elevators[i].targetFloor := targets[i];
        }
      }
    }

    /** Every elevator, in list order, moves one floor toward its target or stays; returns the directions taken. */
    method StepElevators() returns (directions: seq<Direction>)
      requires Distinct(elevators)
      modifies elevators
      ensures Cars() == MoveAll(old(Cars())) && directions == Directions(old(Cars()))
    {
      directions := [];
      for i := 0 to |elevators|
        invariant |directions| == i
        invariant forall j :: 0 <= j < i ==>
          elevators[j].View() == Step(old(elevators[j].View())).0 && directions[j] == Step(old(elevators[j].View())).1
        invariant forall j :: i <= j < |elevators| ==> elevators[j].View() == old(elevators[j].View())
      {
        var moved := MoveElevator(elevators[i]);
        directions := directions + [moved];
      }
    }

    /**
     * Stage 5: everyone still queueing waits one more round, and so does every
     * passenger whose elevator is not at their target.
     */
    method UpdateWaitTimes()
      requires Valid()
      modifies this, elevators
      ensures Valid()
      ensures Snapshot() == Ticking(old(Snapshot()))
    {
      TickQueues();
      TickPassengers();
      TickingKeepsInv(old(Snapshot()));
    }

    /** Everyone queueing on a floor of the building waits one more round. */
    method TickQueues()
      requires numFloors >= 1 && FloorsAre(waiting, numFloors)
      modifies this
      ensures waiting == TickWaiting(old(waiting)) && round == old(round)
    {
      ghost var w0 := waiting;
      for f := 1 to numFloors + 1
        invariant waiting.Keys == w0.Keys && round == old(round)
        invariant forall g :: g in waiting ==> waiting[g] == if g < f then TickQueue(w0[g]) else w0[g]
      {
        var people := IncrementWaits(waiting[f]);
        waiting := waiting[f := people];
      }
      assert forall g :: g in waiting ==> waiting[g] == TickWaiting(w0)[g];
    }

    /** In every elevator, each passenger not at their target waits one more round. */
    method TickPassengers()
      requires Distinct(elevators)
      modifies elevators
      ensures Cars() == TickAll(old(Cars()))
    {
      for i := 0 to |elevators|
        invariant forall j :: 0 <= j < i ==> elevators[j].View() == TickRiders(old(elevators[j].View()))
        invariant forall j :: i <= j < |elevators| ==> elevators[j].View() == old(elevators[j].View())
      {
        var e := elevators[i];
        e.passengers := IncrementRiders(e.passengers, e.currentFloor);
      }
    }

    /** Round `i`: record the round number, then run the five stages in order. */
    method RunRound(i: int)
      requires Valid() && ArrivalsOnFloors(arrivalGenerator(i), numFloors)
      modifies this, elevators
      ensures Valid()
      ensures Snapshot() == PlayRound(old(Snapshot()), i, arrivalGenerator, movingAlgorithm)
    {
      ghost var s0 := Snapshot();
      round := i;
      assert Snapshot() == s0.(round := i);
      HandleDisembarking();
      ghost var s1 := Snapshot();
      GenerateArrivals(i);
      ghost var s2 := Snapshot();
      assert s2 == Arriving(s1, arrivalGenerator(i));
      HandleBoarding();
      ghost var s3 := Snapshot();
      var moves := MoveElevators();
      assert Snapshot() == Moving(s3, movingAlgorithm);
      UpdateWaitTimes();
    }

    /**
     * Runs rounds `0..numRounds-1` in turn and returns the run's statistics. Every
     * round's arrivals must be on the building's floors, as the representation
     * invariant demands of the queues.
     */
    method Run(numRounds: int) returns (stats: Stats)
      requires Valid()
      requires numRounds >= 1
      requires forall i :: 0 <= i < numRounds ==> ArrivalsOnFloors(arrivalGenerator(i), numFloors)
      modifies this, elevators
      ensures Valid()
      ensures Snapshot() == RunRounds(old(Snapshot()), 0, numRounds, arrivalGenerator, movingAlgorithm)
      ensures round == numRounds - 1
      ensures stats == Stats(0, 0, 0, 0, 0)
    {
      for i := 0 to numRounds
        invariant Valid()
        invariant RunRounds(Snapshot(), i, numRounds, arrivalGenerator, movingAlgorithm)
               == RunRounds(old(Snapshot()), 0, numRounds, arrivalGenerator, movingAlgorithm)
        invariant i > 0 ==> round == i - 1
      {
        ghost var before := Snapshot();
        RunRound(i);
        RoundKeepsRound(before, i, arrivalGenerator, movingAlgorithm);
      }
      stats := CalculateStats();
    }
  }
}
