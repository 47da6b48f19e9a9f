/**
 * The five phases of a round, each as a function from one state value to the next,
 * with the properties each phase promises.
 */
module Phases {
  import opened Entities

  /** The queues have a key for exactly the floors `1..n`. */
  ghost predicate FloorsAre(w: Queues, n: int)
  {
    forall f :: f in w <==> 1 <= f <= n
  }

  function Min(a: int, b: int): int
  {
    if a <= b then a else b
  }

  lemma AppendAssoc(a: seq<Person>, b: seq<Person>, c: seq<Person>)
    ensures a + (b + c) == (a + b) + c
  {
  }

  // ---------------------------------------------------------------------------
  // Stage 1: disembarking
  // ---------------------------------------------------------------------------

  /** The passengers of `ps` who stay aboard at `floor`, in their original order. */
  function Remaining(ps: seq<Person>, floor: int): (r: seq<Person>)
    ensures |r| <= |ps|
  {
    if ps == [] then []
    else
      var last := ps[|ps| - 1];
      Remaining(ps[..|ps| - 1], floor) + (if last.target == floor then [] else [last])
  }

  /** The passengers of `ps` who get off at `floor`, in their original order. */
  function Leaving(ps: seq<Person>, floor: int): seq<Person>
  {
    if ps == [] then []
    else
      var last := ps[|ps| - 1];
      Leaving(ps[..|ps| - 1], floor) + (if last.target == floor then [last] else [])
  }

  /** Everybody who stays aboard at `floor` is going elsewhere; everybody who gets off there has arrived. */
  lemma {:induction false} DisembarkSorts(ps: seq<Person>, floor: int)
    ensures forall i :: 0 <= i < |Remaining(ps, floor)| ==> Remaining(ps, floor)[i].target != floor
    ensures forall i :: 0 <= i < |Leaving(ps, floor)| ==> Leaving(ps, floor)[i].target == floor
  {
    if ps != [] {
      var n := |ps| - 1;
      DisembarkSorts(ps[..n], floor);
    }
  }

  /** Disembarking splits the passengers in two: nobody is lost or duplicated. */
  lemma {:induction false} DisembarkPartition(ps: seq<Person>, floor: int)
    ensures multiset(Remaining(ps, floor)) + multiset(Leaving(ps, floor)) == multiset(ps)
    ensures |Remaining(ps, floor)| + |Leaving(ps, floor)| == |ps|
  {
    if ps != [] {
      var n := |ps| - 1;
      var init, last := ps[..n], ps[n];
      DisembarkPartition(init, floor);
      assert ps == init + [last];
      assert multiset(ps) == multiset(init) + multiset{last};
    }
  }

  /** Filtering keeps order: the stayers of a concatenation are the stayers of each part, in turn. */
  lemma {:induction false} RemainingAppend(a: seq<Person>, b: seq<Person>, floor: int)
    ensures Remaining(a + b, floor) == Remaining(a, floor) + Remaining(b, floor)
  {
    if b == [] {
      assert a + b == a;
    } else {
      var n := |b| - 1;
      assert (a + b)[..|a + b| - 1] == a + b[..n];
      RemainingAppend(a, b[..n], floor);
    }
  }

  /** When nobody is going to `floor`, every passenger stays, in the same order. */
  lemma {:induction false} RemainingKeepsAll(ps: seq<Person>, floor: int)
    requires forall i :: 0 <= i < |ps| ==> ps[i].target != floor
    ensures Remaining(ps, floor) == ps
  {
    if ps != [] {
      var n := |ps| - 1;
      var init := ps[..n];
      assert forall i :: 0 <= i < |init| ==> init[i] == ps[i];
      RemainingKeepsAll(init, floor);
      assert ps == init + [ps[n]];
    }
  }

  /** Disembarking twice at the same floor lets nobody more off than disembarking once. */
  lemma {:induction false} RemainingIdempotent(ps: seq<Person>, floor: int)
    ensures Remaining(Remaining(ps, floor), floor) == Remaining(ps, floor)
  {
    DisembarkSorts(ps, floor);
    RemainingKeepsAll(Remaining(ps, floor), floor);
  }

  function Disembark(c: Car): Car
  {
    c.(passengers := Remaining(c.passengers, c.currentFloor))
  }

  function DisembarkAll(cars: seq<Car>): seq<Car>
  {
    seq(|cars|, i requires 0 <= i < |cars| => Disembark(cars[i]))
  }

  function Disembarking(s: State): State
  {
    s.(cars := DisembarkAll(s.cars))
  }

  // ---------------------------------------------------------------------------
  // Stage 2: arrivals
  // ---------------------------------------------------------------------------

  /** The queue on `floor`, or the empty queue for a floor `w` does not have. */
  function QueueAt(w: Queues, floor: int): seq<Person>
  {
    if floor in w then w[floor] else []
  }

  /** The people the arrivals bring to `floor`, in the order they are listed. */
  function ArrivalsAt(arrivals: Arrivals, floor: int): seq<Person>
  {
    if arrivals == [] then []
    else
      var n := |arrivals| - 1;
      ArrivalsAt(arrivals[..n], floor) + (if arrivals[n].0 == floor then arrivals[n].1 else [])
  }

  /** The floors the arrivals name. */
  function ArrivalFloors(arrivals: Arrivals): set<int>
  {
    set k | 0 <= k < |arrivals| :: arrivals[k].0
  }

  /**
   * The arrivals are handled in the order listed: people arriving on a floor that
   * has a queue join its back; a floor without one gets a new queue holding them.
   */
  function Arrive(waiting: Queues, arrivals: Arrivals): (r: Queues)
    ensures waiting.Keys <= r.Keys
  {
    if arrivals == [] then waiting
    else
      var n := |arrivals| - 1;
      var w := Arrive(waiting, arrivals[..n]);
      var (floor, people) := arrivals[n];
      if floor in w then w[floor := w[floor] + people] else w[floor := people]
  }

  /** The floors named by a list of arrivals are those of all but the last, plus the last one's. */
  lemma ArrivalFloorsSnoc(arrivals: Arrivals)
    requires arrivals != []
    ensures ArrivalFloors(arrivals) == ArrivalFloors(arrivals[..|arrivals| - 1]) + {arrivals[|arrivals| - 1].0}
  {
    var n := |arrivals| - 1;
    assert forall k :: 0 <= k < n ==> arrivals[..n][k] == arrivals[k];
  }

  /** A floor the arrivals do not name gets nobody. */
  lemma {:induction false} ArrivalsAtElsewhere(arrivals: Arrivals, floor: int)
    requires floor !in ArrivalFloors(arrivals)
    ensures ArrivalsAt(arrivals, floor) == []
  {
    if arrivals != [] {
      var n := |arrivals| - 1;
      assert forall k :: 0 <= k < n ==> arrivals[..n][k] == arrivals[k];
      ArrivalsAtElsewhere(arrivals[..n], floor);
    }
  }

  /**
   * After the arrivals there is a queue for every floor there was one for and every
   * floor the arrivals name, and no other; each queue is the old one (or nothing)
   * followed by the people who arrived on that floor, in the order listed.
   */
  lemma ArriveSpec(waiting: Queues, arrivals: Arrivals)
    ensures Arrive(waiting, arrivals).Keys == waiting.Keys + ArrivalFloors(arrivals)
    ensures forall f :: f in Arrive(waiting, arrivals) ==>
      Arrive(waiting, arrivals)[f] == QueueAt(waiting, f) + ArrivalsAt(arrivals, f)
  {
    ArriveKeys(waiting, arrivals);
    ArriveQueues(waiting, arrivals);
  }

  /** The floor set part of `ArriveSpec`, by induction on the arrivals. */
  lemma {:induction false} ArriveKeys(waiting: Queues, arrivals: Arrivals)
    ensures Arrive(waiting, arrivals).Keys == waiting.Keys + ArrivalFloors(arrivals)
  {
    if arrivals != [] {
      ArriveKeys(waiting, arrivals[..|arrivals| - 1]);
      ArrivalFloorsSnoc(arrivals);
    }
  }

  /** The queue part of `ArriveSpec`, by induction on the arrivals. */
  lemma {:induction false} ArriveQueues(waiting: Queues, arrivals: Arrivals)
    ensures forall f :: f in Arrive(waiting, arrivals) ==>
      Arrive(waiting, arrivals)[f] == QueueAt(waiting, f) + ArrivalsAt(arrivals, f)
  {
    if arrivals != [] {
      var n := |arrivals| - 1;
      var init := arrivals[..n];
      var w := Arrive(waiting, init);
      var (floor, people) := arrivals[n];
      ArriveQueues(waiting, init);
      forall f | f in Arrive(waiting, arrivals)
        ensures Arrive(waiting, arrivals)[f] == QueueAt(waiting, f) + ArrivalsAt(arrivals, f)
      {
        if f == floor {
          if floor in w {
            AppendAssoc(QueueAt(waiting, f), ArrivalsAt(init, f), people);
          } else {
            ArriveKeys(waiting, init);
            ArrivalsAtElsewhere(init, f);
          }
        }
      }
    }
  }

  /** The queues keep exactly their floors when, and only when, every arrival is on one of them. */
  lemma ArriveKeepsFloorsIff(waiting: Queues, arrivals: Arrivals)
    ensures Arrive(waiting, arrivals).Keys == waiting.Keys <==> ArrivalFloors(arrivals) <= waiting.Keys
  {
    ArriveSpec(waiting, arrivals);
  }

  function Arriving(s: State, arrivals: Arrivals): State
  {
    s.(waiting := Arrive(s.waiting, arrivals))
  }

  // ---------------------------------------------------------------------------
  // Stage 3: boarding
  // ---------------------------------------------------------------------------

  /** How many of `queued` waiting people an elevator takes: until the queue is empty or it is full. */
  function Boarders(c: Car, queued: nat): (k: nat)
    ensures k <= queued
    ensures |c.passengers| <= c.capacity ==> k == Min(queued, c.capacity - |c.passengers|)
    ensures k == queued || |c.passengers| + k >= c.capacity
  {
    if |c.passengers| < c.capacity then Min(queued, c.capacity - |c.passengers|) else 0
  }

  /** One elevator boards from the front of its floor's queue, as many people as `Boarders` allows. */
  function BoardCar(c: Car, waiting: Queues): (r: (Car, Queues))
    ensures r.1.Keys == waiting.Keys
  {
    if c.currentFloor in waiting then
      var q := waiting[c.currentFloor];
      var k := Boarders(c, |q|);
      (c.(passengers := c.passengers + q[..k]), waiting[c.currentFloor := q[k..]])
    else
      (c, waiting)
  }

  /**
   * Boarding one elevator changes only its passengers, by appending; the people who
   * leave the front of the queue are exactly the people appended; it takes as many
   * as fit, so afterwards it is full or the queue is empty; other floors are untouched.
   */
  lemma BoardCarSpec(c: Car, waiting: Queues)
    ensures var r := BoardCar(c, waiting);
      && r.1.Keys == waiting.Keys
      && r.0 == c.(passengers := r.0.passengers)
      && c.passengers <= r.0.passengers
      && (|c.passengers| <= c.capacity ==> |r.0.passengers| <= c.capacity)
      && (c.currentFloor !in waiting ==> r == (c, waiting))
      && (c.currentFloor in waiting ==>
            c.passengers + waiting[c.currentFloor] == r.0.passengers + r.1[c.currentFloor])
      && (c.currentFloor in waiting && |c.passengers| <= c.capacity ==>
            |r.0.passengers| - |c.passengers| == Min(|waiting[c.currentFloor]|, c.capacity - |c.passengers|))
      && (c.currentFloor in waiting && |c.passengers| <= c.capacity ==>
            |r.0.passengers| == c.capacity || r.1[c.currentFloor] == [])
      && (forall f :: f in waiting && f != c.currentFloor ==> r.1[f] == waiting[f])
  {
  }

  /** The elevators board one after another, in list order, each from the queues the previous ones left. */
  function BoardAll(cars: seq<Car>, waiting: Queues): (r: (seq<Car>, Queues))
    ensures |r.0| == |cars| && r.1.Keys == waiting.Keys
  {
    if cars == [] then ([], waiting)
    else
      var n := |cars| - 1;
      var (done, rest) := BoardAll(cars[..n], waiting);
      var (c, w) := BoardCar(cars[n], rest);
      (done + [c], w)
  }

  /** Boarding the first `i + 1` elevators is boarding the first `i`, then elevator `i` from the queues they left. */
  lemma BoardAllSnoc(cars: seq<Car>, i: int, waiting: Queues)
    requires 0 <= i < |cars|
    ensures var (done, rest) := BoardAll(cars[..i], waiting);
      BoardAll(cars[..i + 1], waiting) == (done + [BoardCar(cars[i], rest).0], BoardCar(cars[i], rest).1)
  {
    assert cars[..i + 1][..i] == cars[..i];
  }

  /**
   * Boarding only appends passengers, never changes floors or capacities, keeps
   * every elevator within capacity, and leaves an elevator on a floor without a
   * queue exactly as it was.
   */
  lemma {:induction false} BoardAllFrame(cars: seq<Car>, waiting: Queues)
    ensures |BoardAll(cars, waiting).0| == |cars|
    ensures BoardAll(cars, waiting).1.Keys == waiting.Keys
    ensures forall i :: 0 <= i < |cars| ==>
      var c' := BoardAll(cars, waiting).0[i];
      && c' == cars[i].(passengers := c'.passengers)
      && cars[i].passengers <= c'.passengers
      && (|cars[i].passengers| <= cars[i].capacity ==> |c'.passengers| <= c'.capacity)
      && (cars[i].currentFloor !in waiting ==> c' == cars[i])
  {
    if cars != [] {
      var n := |cars| - 1;
      BoardAllFrame(cars[..n], waiting);
    }
  }

  /**
   * The people boarded at `floor`: what each elevator standing there gained, in
   * list order.
   */
  function Gained(before: seq<Car>, after: seq<Car>, floor: int): seq<Person>
    requires |before| == |after|
    requires forall i :: 0 <= i < |before| ==> before[i].passengers <= after[i].passengers
  {
    if before == [] then []
    else
      var n := |before| - 1;
      Gained(before[..n], after[..n], floor)
        + (if before[n].currentFloor == floor then after[n].passengers[|before[n].passengers|..] else [])
  }

  /**
   * Boarding conserves people floor by floor: each queue before boarding is the
   * people boarded there, in boarding order, followed by the queue that is left,
   * and an elevator on a floor without a queue gains nobody.
   */
  lemma BoardAllConserves(cars: seq<Car>, waiting: Queues)
    ensures |BoardAll(cars, waiting).0| == |cars|
    ensures forall i :: 0 <= i < |cars| ==> cars[i].passengers <= BoardAll(cars, waiting).0[i].passengers
    ensures forall i :: 0 <= i < |cars| && cars[i].currentFloor !in waiting ==> BoardAll(cars, waiting).0[i] == cars[i]
    ensures forall f :: f in waiting ==>
      f in BoardAll(cars, waiting).1 &&
      waiting[f] == Gained(cars, BoardAll(cars, waiting).0, f) + BoardAll(cars, waiting).1[f]
  {
    BoardAllFrame(cars, waiting);
    forall f | f in waiting
      ensures f in BoardAll(cars, waiting).1
      ensures waiting[f] == Gained(cars, BoardAll(cars, waiting).0, f) + BoardAll(cars, waiting).1[f]
    {
      BoardAllConservesAt(cars, waiting, f);
    }
  }

  /** Conservation on one floor, by induction on the elevators. */
  lemma {:induction false} BoardAllConservesAt(cars: seq<Car>, waiting: Queues, f: int)
    requires f in waiting
    ensures |BoardAll(cars, waiting).0| == |cars|
    ensures forall i :: 0 <= i < |cars| ==> cars[i].passengers <= BoardAll(cars, waiting).0[i].passengers
    ensures f in BoardAll(cars, waiting).1
    ensures waiting[f] == Gained(cars, BoardAll(cars, waiting).0, f) + BoardAll(cars, waiting).1[f]
  {
    BoardAllFrame(cars, waiting);
    if cars != [] {
      var n := |cars| - 1;
      var prev := BoardAll(cars[..n], waiting);
      BoardAllConservesAt(cars[..n], waiting, f);
      ConservesSnoc(cars[..n], prev.0, cars[n], prev.1, waiting[f], f);
      assert cars == cars[..n] + [cars[n]];
    }
  }

  /** The induction step of conservation: one more elevator boards from the queues the others left. */
  lemma ConservesSnoc(before: seq<Car>, after: seq<Car>, b: Car, rest: Queues, q: seq<Person>, f: int)
    requires |before| == |after|
    requires forall i :: 0 <= i < |before| ==> before[i].passengers <= after[i].passengers
    requires f in rest && q == Gained(before, after, f) + rest[f]
    ensures f in BoardCar(b, rest).1
    ensures b.passengers <= BoardCar(b, rest).0.passengers
    ensures q == Gained(before + [b], after + [BoardCar(b, rest).0], f) + BoardCar(b, rest).1[f]
  {
    var r := BoardCar(b, rest);
    BoardCarSpec(b, rest);
    var took := if b.currentFloor == f then r.0.passengers[|b.passengers|..] else [];
    var g := Gained(before, after, f);
    BoardCarSplitsQueue(b, rest, f);
    assert rest[f] == took + r.1[f];
    GainedSnoc(before, after, b, r.0, f);
    assert Gained(before + [b], after + [r.0], f) == g + took;
    AppendAssoc(g, took, r.1[f]);
  }


  /** One elevator splits its floor's queue into the people it took and the people it left; other queues stay. */
  lemma BoardCarSplitsQueue(c: Car, waiting: Queues, f: int)
    requires f in waiting
    ensures f in BoardCar(c, waiting).1
    ensures waiting[f] == (if c.currentFloor == f then BoardCar(c, waiting).0.passengers[|c.passengers|..] else [])
      + BoardCar(c, waiting).1[f]
  {
  }

  /** What one more elevator gained at `floor` comes after what the others gained. */
  lemma GainedSnoc(before: seq<Car>, after: seq<Car>, b: Car, a: Car, floor: int)
    requires |before| == |after|
    requires forall i :: 0 <= i < |before| ==> before[i].passengers <= after[i].passengers
    requires b.passengers <= a.passengers
    ensures Gained(before + [b], after + [a], floor) == Gained(before, after, floor)
      + (if b.currentFloor == floor then a.passengers[|b.passengers|..] else [])
  {
  }

  /** After boarding, each elevator that could board is full or has left its floor's queue empty. */
  lemma {:induction false} BoardAllSaturates(cars: seq<Car>, waiting: Queues)
    ensures |BoardAll(cars, waiting).0| == |cars|
    ensures BoardAll(cars, waiting).1.Keys == waiting.Keys
    ensures forall i :: 0 <= i < |cars| && cars[i].currentFloor in waiting && |cars[i].passengers| <= cars[i].capacity ==>
      |BoardAll(cars, waiting).0[i].passengers| == cars[i].capacity
      || BoardAll(cars, waiting).1[cars[i].currentFloor] == []
  {
    BoardAllFrame(cars, waiting);
    if cars != [] {
      var n := |cars| - 1;
      var (done, rest) := BoardAll(cars[..n], waiting);
      var (c, w) := BoardCar(cars[n], rest);
      BoardAllSaturates(cars[..n], waiting);
      BoardAllFrame(cars[..n], waiting);
      forall i | 0 <= i < n && cars[i].currentFloor in waiting && |cars[i].passengers| <= cars[i].capacity
        ensures |(done + [c])[i].passengers| == cars[i].capacity || w[cars[i].currentFloor] == []
      {
        assert cars[..n][i] == cars[i];
        var f := cars[i].currentFloor;
        if rest[f] == [] && f == cars[n].currentFloor {
          assert cars[n].passengers + [] == c.passengers + w[f];
        }
      }
    }
  }

  function Boarding(s: State): State
  {
    var (cs, w) := BoardAll(s.cars, s.waiting);
    s.(cars := cs, waiting := w)
  }

  // ---------------------------------------------------------------------------
  // Stage 4: moving
  // ---------------------------------------------------------------------------

  /** The target floors a dispatch policy picks, given the elevators, the queues and the number of floors. */
  type Policy = (seq<Car>, Queues, int) -> seq<int>

  /** The policy sets targets in place: elevator `i` gets `targets[i]`; one it gives no target keeps its own. */
  function Retarget(cars: seq<Car>, targets: seq<int>): (r: seq<Car>)
    ensures |r| == |cars|
  {
    seq(|cars|, i requires 0 <= i < |cars| =>
      if i < |targets| then cars[i].(targetFloor := targets[i]) else cars[i])
  }

  function Distance(a: int, b: int): nat
  {
    if a <= b then b - a else a - b
  }

  /**
   * One elevator moves one floor toward its target, or stays when it is there:
   * the distance to the target shrinks by exactly one unless it was already zero,
   * and the direction reported matches the change of floor.
   */
  function Step(c: Car): (r: (Car, Direction))
    ensures r.0 == c.(currentFloor := r.0.currentFloor)
    ensures Distance(r.0.currentFloor, c.targetFloor) ==
      if c.currentFloor == c.targetFloor then 0 else Distance(c.currentFloor, c.targetFloor) - 1
    ensures Distance(r.0.currentFloor, c.currentFloor) <= 1
    ensures r.1 == Up <==> r.0.currentFloor == c.currentFloor + 1
    ensures r.1 == Down <==> r.0.currentFloor == c.currentFloor - 1
    ensures r.1 == Stay <==> r.0.currentFloor == c.currentFloor
  {
    if c.currentFloor < c.targetFloor then (c.(currentFloor := c.currentFloor + 1), Up)
    else if c.currentFloor > c.targetFloor then (c.(currentFloor := c.currentFloor - 1), Down)
    else (c, Stay)
  }

  /** An elevator whose floor and target both lie in `1..n` stays in `1..n`. */
  lemma StepStaysInRange(c: Car, n: int)
    requires 1 <= c.currentFloor <= n && 1 <= c.targetFloor <= n
    ensures 1 <= Step(c).0.currentFloor <= n
  {
  }

  function MoveAll(cars: seq<Car>): (r: seq<Car>)
    ensures |r| == |cars|
  {
    seq(|cars|, i requires 0 <= i < |cars| => Step(cars[i]).0)
  }

  function Directions(cars: seq<Car>): (r: seq<Direction>)
    ensures |r| == |cars|
  {
    seq(|cars|, i requires 0 <= i < |cars| => Step(cars[i]).1)
  }

  function Moving(s: State, policy: Policy): State
  {
    s.(cars := MoveAll(Retarget(s.cars, policy(s.cars, s.waiting, s.numFloors))))
  }

  // ---------------------------------------------------------------------------
  // Stage 5: wait times
  // ---------------------------------------------------------------------------

  function Tick(p: Person): Person
  {
    p.(waitTime := p.waitTime + 1)
  }

  /** Everyone in a queue waits one more round. */
  function TickQueue(q: seq<Person>): seq<Person>
  {
    seq(|q|, i requires 0 <= i < |q| => Tick(q[i]))
  }

  /** Every passenger not yet at their target waits one more round. */
  function TickRiding(ps: seq<Person>, floor: int): (r: seq<Person>)
    ensures |r| == |ps|
  {
    seq(|ps|, i requires 0 <= i < |ps| => if ps[i].target != floor then Tick(ps[i]) else ps[i])
  }

  function TickWaiting(w: Queues): (r: Queues)
    ensures r.Keys == w.Keys
  {
    map f | f in w :: TickQueue(w[f])
  }

  function TickRiders(c: Car): Car
  {
    c.(passengers := TickRiding(c.passengers, c.currentFloor))
  }

  function TickAll(cars: seq<Car>): seq<Car>
  {
    seq(|cars|, i requires 0 <= i < |cars| => TickRiders(cars[i]))
  }

  function Ticking(s: State): State
  {
    s.(waiting := TickWaiting(s.waiting), cars := TickAll(s.cars))
  }

  /** The wait times of a sequence of people, added up. */
  function TotalWait(ps: seq<Person>): int
  {
    if ps == [] then 0 else TotalWait(ps[..|ps| - 1]) + ps[|ps| - 1].waitTime
  }

  /** A queue's total wait grows by exactly its length: each waiting person gains one round. */
  lemma {:induction false} TickQueueTotal(q: seq<Person>)
    ensures TotalWait(TickQueue(q)) == TotalWait(q) + |q|
  {
    if q != [] {
      var n := |q| - 1;
      assert TickQueue(q)[..n] == TickQueue(q[..n]);
      TickQueueTotal(q[..n]);
    }
  }

  /**
   * The passengers' total wait grows by exactly the number of them who are not at
   * their target, i.e. who would stay aboard at this floor.
   */
  lemma {:induction false} TickRidingTotal(ps: seq<Person>, floor: int)
    ensures TotalWait(TickRiding(ps, floor)) == TotalWait(ps) + |Remaining(ps, floor)|
  {
    if ps != [] {
      var n := |ps| - 1;
      assert TickRiding(ps, floor)[..n] == TickRiding(ps[..n], floor);
      TickRidingTotal(ps[..n], floor);
    }
  }

  /** Ticking changes nobody's target and lowers nobody's wait; queue members gain exactly one round. */
  lemma TickKeepsPeople(q: seq<Person>, ps: seq<Person>, floor: int)
    ensures |TickQueue(q)| == |q| && |TickRiding(ps, floor)| == |ps|
    ensures forall i :: 0 <= i < |q| ==>
      TickQueue(q)[i].target == q[i].target && TickQueue(q)[i].waitTime == q[i].waitTime + 1
    ensures forall i :: 0 <= i < |ps| ==>
      && TickRiding(ps, floor)[i].target == ps[i].target
      && TickRiding(ps, floor)[i].waitTime >= ps[i].waitTime
      && (TickRiding(ps, floor)[i].waitTime == ps[i].waitTime + 1 <==> ps[i].target != floor)
  {
  }
}
