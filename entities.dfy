/** The entities the simulation works on: riders, elevators and the state of a run. */
module Entities {

  /** One rider: the floor they are going to and the rounds they have spent so far. */
  datatype Person = Person(target: int, waitTime: int)

  /** The value of one elevator at some moment of a run. */
  datatype Car = Car(capacity: int, currentFloor: int, targetFloor: int, passengers: seq<Person>)

  /** The direction an elevator took in one round, as reported to the visualizer. */
  datatype Direction = Up | Down | Stay

  /** The people waiting on each floor, front of the queue first. */
  type Queues = map<int, seq<Person>>

  /** A round's new arrivals as the generator lists them: a floor and the people arriving there. */
  type Arrivals = seq<(int, seq<Person>)>

  /** The value of a whole simulation at some moment of a run. */
  datatype State = State(numFloors: int, waiting: Queues, cars: seq<Car>, round: int)

  /** An elevator; the simulation updates its floor, target and passengers in place. */
  class Elevator {
    const capacity: int
    var currentFloor: int
    var targetFloor: int
    var passengers: seq<Person>

    /** A new elevator stands empty at floor 1 with floor 1 as its target. */
    constructor (capacity: int)
      ensures View() == Car(capacity, 1, 1, [])
    {
      this.capacity := capacity;
      currentFloor := 1;
      targetFloor := 1;
      passengers := [];
    }

    function View(): Car
      reads this
    {
      Car(capacity, currentFloor, targetFloor, passengers)
    }
  }
}
