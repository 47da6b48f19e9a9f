# Elevator simulation: a Dafny model of the round-based `Simulation`

This project models the `Simulation` class of `nothing.py`. The class is a
discrete, round-based elevator simulation. A building has `num_floors` floors,
a list of elevators and a queue of waiting people on each floor. Each round
sets the round counter and then runs five stages in a fixed order:

1. Passengers whose target is their elevator's current floor get off.
2. New arrivals join the back of their floor's queue.
3. In list order, each elevator takes people from the front of its floor's
   queue until the queue is empty or the elevator is full.
4. The dispatch policy sets target floors, and every elevator moves one
   floor toward its target or stays where it is.
5. Everyone still queueing waits one more round, and so does every passenger
   who has not reached their target.

The model is imperative, like the source:

- `Simulator.Simulation` is a class. Its `const` fields are the arrival
  generator, the dispatch policy, the number of floors and the elevator list.
  Its mutable fields are the per-floor queues and the round counter.
- Every stage is a method that updates those fields and the `Entities.Elevator`
  objects in place, with loops and their invariants.
- Each method is proved against a pure function of module `Phases`:
  `Disembarking`, `Arriving`, `Boarding`, `Moving` and `Ticking`.
  `Snapshot()` is the whole simulation read as a value. Each method ensures
  `Snapshot() == Phase(old(Snapshot()))`.
- The properties the simulation promises are proved as lemmas about those
  functions. Examples: conservation of people during boarding, FIFO order,
  capacity bounds, one-floor moves, exact wait-time increments, and the
  representation invariant of `nothing.py:42-45`.
- Module `Rounds` composes the stages into a round and a run, and proves what
  whole runs keep.

People are values (`Entities.Person`, holding a target floor and a wait time).
An elevator's state as a value is `Entities.Car`.

The model follows the code where the documented intent differs:

- Statistics are a stub that reports zeros.
- A target floor the policy picks outside the building is applied as-is; it is
  not rejected.
- An arrival on a floor outside the building is not rejected by
  `generate_arrivals` itself: it opens a new queue for that floor
  (`nothing.py:153-154`), and the model does the same. That new queue breaks the
  class invariant (`nothing.py:45`), so the contract-checking decorator
  (`nothing.py:27`) aborts the run with an assertion error when
  `generate_arrivals` returns. The model proves the exact condition under which
  the invariant survives (`GenerateArrivals`), and replaces the abort by a
  requirement of `RunRound` and `Run` that every round's arrivals are on the
  building's floors.
- A person's origin floor is not modelled, because the code never reads it.

## Model

| member | source | states |
|---|---|---|
| Entities.Elevator.constructor | nothing.py:73 | a new elevator has the given capacity, stands at floor 1 with target 1 and carries nobody (the elevator's own class is not part of this model; this initial state is assumed) |
| Simulator.Simulation.constructor | nothing.py:54-77 | the new simulation satisfies the representation invariant; it has the given generator, policy and floor count; it has `num_elevators` fresh, distinct, empty elevators of the configured capacity; it has a queue for exactly the floors `1..num_floors`, each empty; the round counter is 0 |
| Rounds.Inv | nothing.py:42-45 | the representation invariant as a property of a state value: at least one elevator, at least two floors, a queue for exactly the floors `1..num_floors`; its two capacity conjuncts (`1 <= capacity`, at most `capacity` passengers) are not in these lines but come from the elevator's own invariant (its class is not part of this model), which the constructor's precondition `elevator_capacity >= 1` (nothing.py:61) and the boarding guard (nothing.py:163) uphold |
| Simulator.Simulation.Valid | nothing.py:42-45 | the representation invariant of the object: `Rounds.Inv` of its snapshot, over pairwise distinct elevator objects |
| Phases.Remaining | nothing.py:138-145 | the passengers who stay aboard at a floor, in order; never more than there were (its full meaning is proved in `DisembarkSorts`, `DisembarkPartition` and `RemainingAppend`) |
| Simulator.StayingAboard | nothing.py:138-145 | the loop collects exactly `Remaining(passengers, floor)`: the passengers not going to `floor`, in their original order |
| Simulator.Simulation.HandleDisembarking | nothing.py:137-146 | each elevator's passengers become the old ones not going to its current floor; floors, targets, capacities, queues and the round are unchanged; the invariant is kept |
| Phases.DisembarkSorts | nothing.py:139-143 | everyone who stays aboard has a target other than the current floor; everyone who leaves has that floor as target |
| Phases.DisembarkPartition | nothing.py:137-145 | the people who stay and the people who leave together make up exactly the old passengers, as a multiset and in number: nobody is lost or duplicated |
| Phases.RemainingAppend | nothing.py:139-143 | filtering preserves order: the people staying aboard out of `a + b` are those out of `a` followed by those out of `b` |
| Phases.RemainingKeepsAll | nothing.py:139-145 | when nobody is going to the floor, disembarking is a no-op |
| Phases.RemainingIdempotent | nothing.py:137-145 | disembarking twice at the same floor leaves the same passengers as disembarking once |
| Simulator.Simulation.GenerateArrivals | nothing.py:148-156 | the queues become `Arrive(old queues, generate(round))` and nothing else changes; afterwards the representation invariant holds if and only if every arrival is on one of the floors `1..num_floors` |
| Simulator.Simulation.JoinQueues | nothing.py:152-154 | the loop over the listed arrivals yields `Arrive(old queues, arrivals)`: an existing floor's queue is extended, a missing floor gets a new queue; the round is unchanged |
| Phases.Arrive | nothing.py:152-154 | the arrivals handled in listed order, extending an existing queue or opening a new one; no floor loses its queue (its closed form is `ArriveSpec`) |
| Phases.ArriveKeys | nothing.py:152-154 | the floors with a queue after the arrivals are exactly the old ones plus the floors the arrivals name |
| Phases.ArriveQueues | nothing.py:152-154 | each queue after the arrivals is the old queue (or nothing) followed by that floor's arrivals in listed order |
| Phases.ArriveSpec | nothing.py:152-154 | after arrivals, the floors with a queue are exactly the old ones plus the arrival floors; each queue is the old queue (or nothing) followed by that floor's arrivals in listed order, so prior order is kept and newcomers go to the back |
| Phases.ArrivalsAtElsewhere | nothing.py:152-154 | a floor no arrival names gets nobody, so its queue is unchanged |
| Phases.ArriveKeepsFloorsIff | nothing.py:152-154 | the set of floors with a queue is unchanged if and only if every arrival floor already has a queue |
| Rounds.ArrivingKeepsInvIff | nothing.py:42-45 | from a valid state, the arrivals keep the representation invariant if and only if they are all on the building's floors |
| Simulator.Simulation.HandleBoarding | nothing.py:158-167 | the elevators and queues become `Boarding` of the old state: elevators board one after another, in list order, each from the queues the earlier ones left; the invariant (so the capacity bound) is kept |
| Simulator.Simulation.BoardNext | nothing.py:160-165 | one step of the boarding loop: elevator `i` boards from what elevators `0..i-1` left, and the elevators after it are untouched |
| Simulator.Simulation.BoardElevator | nothing.py:161-165 | the while loop that pops the front of the queue and appends it to the passengers computes `BoardCar`; a floor with no queue leaves everything as it was |
| Phases.Boarders | nothing.py:163 | the number boarded never exceeds the queue length; when the elevator is within capacity it is `min(queue length, capacity - passengers)`; either the whole queue boards or the elevator ends full |
| Phases.BoardCar | nothing.py:161-165 | one elevator boards from the front of its floor's queue; the set of floors with a queue is unchanged (its full contract is `BoardCarSpec`) |
| Phases.BoardAll | nothing.py:160-165 | the elevators board one after another in list order, each from the queues the earlier ones left; the number of elevators and the floors with a queue are unchanged (its laws are `BoardAllFrame`, `BoardAllConserves` and `BoardAllSaturates`) |
| Phases.BoardCarSpec | nothing.py:161-165 | one elevator's boarding changes only its passengers, by appending, and only its floor's queue; passengers plus old queue equal new passengers plus new queue (FIFO, conservation); the count is `min(queue, free places)`; afterwards it is full or the queue is empty; the capacity bound is kept |
| Phases.BoardCarSplitsQueue | nothing.py:162-165 | each queue splits into the people the elevator took from its front, followed by the people it left |
| Phases.BoardAllFrame | nothing.py:160-165 | boarding all elevators keeps their number, floors, targets and capacities and the set of floors with queues; every elevator's old passengers are a prefix of its new ones; within-capacity elevators stay within capacity; an elevator on a floor without a queue is left exactly as it was (the `if elevator.current_floor in self.waiting` guard at nothing.py:161) |
| Phases.BoardAllConserves | nothing.py:160-165 | for every floor, the old queue equals the people the elevators at that floor gained, in boarding order, followed by the queue that is left; an elevator on a floor without a queue gains nobody, so boarding creates no one |
| Phases.BoardAllConservesAt | nothing.py:160-165 | the same conservation law on a single floor |
| Phases.ConservesSnoc | nothing.py:160-165 | conservation on a floor survives one more elevator boarding from the queues the others left |
| Phases.BoardAllSaturates | nothing.py:160-165 | after boarding, every within-capacity elevator standing at a floor with a queue is full, or that floor's queue is empty |
| Simulator.Simulation.MoveElevators | nothing.py:171-190 | the elevators become `Moving` of the old state under the policy; the directions returned are those of the moves of the retargeted elevators, in list order; queues, round and the invariant are kept |
| Phases.Retarget | nothing.py:174 | the policy's targets applied in place, one per elevator; the number of elevators is unchanged |
| Phases.MoveAll | nothing.py:177-186 | every elevator takes one `Step`; the number of elevators is unchanged |
| Phases.Directions | nothing.py:176-188 | the directions of the elevators' steps, one per elevator, in list order |
| Simulator.Simulation.SetTargets | nothing.py:174 | elevator `i` gets target `targets[i]`; an elevator the list does not reach keeps its target; nothing else changes |
| Simulator.Simulation.StepElevators | nothing.py:176-188 | every elevator takes one `Step`, and the directions list records each step's direction in list order |
| Simulator.MoveElevator | nothing.py:178-186 | one elevator's floor and the reported direction are exactly those of `Step` on its old state |
| Phases.Step | nothing.py:178-188 | only the current floor changes; the distance to the target drops by exactly one unless it is already zero; the floor changes by at most one; the direction is Up, Down or Stay if and only if the floor went up by one, went down by one or stayed the same |
| Phases.StepStaysInRange | nothing.py:178-183 | an elevator whose floor and target lie in `1..n` still lies in `1..n` after its step |
| Simulator.Simulation.UpdateWaitTimes | nothing.py:192-207 | the state becomes `Ticking` of the old state; the invariant is kept |
| Simulator.Simulation.TickQueues | nothing.py:200-202 | every queue on every floor is ticked; the round is unchanged |
| Simulator.Simulation.TickPassengers | nothing.py:204-207 | every elevator's passengers are ticked, except those at their target |
| Simulator.IncrementWaits | nothing.py:201-202 | the loop computes `TickQueue`: every queued person's wait grows by one |
| Simulator.IncrementRiders | nothing.py:205-207 | the loop computes `TickRiding`: a passenger's wait grows by one exactly when their target is not the current floor |
| Phases.TickWaiting | nothing.py:200-202 | every queue is ticked; the floors with a queue are unchanged |
| Phases.TickRiding | nothing.py:204-207 | a passenger list ticked at a floor; its length is unchanged (its full meaning is `TickKeepsPeople` and `TickRidingTotal`) |
| Phases.TickQueueTotal | nothing.py:200-202 | a queue's total wait grows by exactly its length |
| Phases.TickRidingTotal | nothing.py:204-207 | the passengers' total wait grows by exactly the number of them not at their target |
| Phases.TickKeepsPeople | nothing.py:200-207 | ticking keeps every list's length and every target; queue members gain exactly one round; no wait decreases; a passenger gains one round if and only if their target is not the current floor |
| Rounds.DisembarkingKeepsInv | nothing.py:42-45 | disembarking keeps the representation invariant |
| Rounds.BoardingKeepsInv | nothing.py:160-165 | boarding keeps the representation invariant; in particular the guard `len(passengers) < capacity` keeps every elevator within capacity |
| Rounds.MovingKeepsInv | nothing.py:42-45 | moving keeps the representation invariant, whatever the policy |
| Rounds.TickingKeepsInv | nothing.py:42-45 | updating wait times keeps the representation invariant |
| Rounds.PlayRound | nothing.py:100-117 | round `i` as the five stages in order after setting the counter; it keeps the number of floors and of elevators |
| Rounds.RunRounds | nothing.py:100-117 | rounds `i..n-1` played in turn; the run keeps the number of floors and of elevators |
| Rounds.RoundKeepsInv | nothing.py:100-117 | a round whose arrivals are on the building's floors keeps the representation invariant and the number of floors |
| Rounds.RoundKeepsRound | nothing.py:101 | after round `i`, the round counter reads `i` |
| Rounds.RoundMovesOneFloor | nothing.py:100-117 | within one round, every elevator's floor changes by at most one |
| Rounds.RoundKeepsOnFloors | nothing.py:100-117 | with a policy that, in this building of `num_floors` floors, only picks floors `1..num_floors` when every elevator is on those floors, a round keeps every elevator's floor and target in `1..num_floors` |
| Rounds.IterateKeeps | nothing.py:100 | a property every round keeps holds after the whole run |
| Rounds.IterateSetsRound | nothing.py:100-101 | when every round records its number, a run of rounds `i..n-1` (at least one) ends with the counter at `n - 1` |
| Rounds.RunKeepsInv | nothing.py:100-117 | a run whose arrivals are all on the building's floors keeps the representation invariant and the number of floors |
| Rounds.RunSetsRound | nothing.py:100-101 | after rounds `i..n-1` (at least one) the round counter reads `n - 1`, the last round played |
| Rounds.RunKeepsOnFloors | nothing.py:100-117 | with a policy that, in this building of `num_floors` floors, only picks floors `1..num_floors` when every elevator is on those floors, every elevator stays on the building's floors for the whole run |
| Rounds.SweepInRange | nothing.py:248 | the end-to-end sweep configured for the example run (from floor 1 head for the top floor, from the top floor head for floor 1, in between keep the current target; its class is not part of this model, so this is its documented behaviour) meets the hypothesis of `RoundKeepsOnFloors` and `RunKeepsOnFloors` in every building with at least one floor |
| Simulator.Simulation.RunRound | nothing.py:100-117 | one round sets the counter, then disembarks, takes arrivals, boards, moves and updates wait times, in that order: the state becomes `PlayRound` of the old one; the invariant is kept |
| Simulator.CalculateStats | nothing.py:212-227 | the statistics stub: every figure (rounds, people, completed, maximum and average time) is zero |
| Simulator.Simulation.Run | nothing.py:88-125 | runs exactly rounds `0..num_rounds-1` in order: the final state is `RunRounds` of the initial one; the round counter ends at `num_rounds - 1`; the invariant is kept; the statistics returned are all zero, as the stub at nothing.py:221-227 reports |

## Left out

- The visualizer and console output are not modelled: `render_header`, `show_disembarking`, `show_arrivals`, `show_boarding`, `show_elevator_moves`, `wait`, `wait_for_exit`, `elevator.update()` and `print("staying")`. They are user-interface side effects that never change the simulation's state.
- The arrival generator and the dispatch policy live in `a1_algorithms`, which is not part of this model. Each is a parameter of the constructor, given as a total function. The generator maps a round number to its list of (floor, people) arrivals, in the dict's iteration order. The policy maps the elevators, the queues and the number of floors to one target floor per elevator. A policy with its own state, randomness, or any effect beyond setting target floors is therefore not captured.
- `a1_entities` is not part of this model. People and elevators carry only the fields the simulation reads. An elevator's initial state (floor 1, target 1, no passengers) is an assumption.
- People are modelled as values. The source shares `Person` objects and arrival lists by reference; an arrival list stored as a new floor's queue is aliased with the generator's list, and that aliasing is not modelled.
- `update_wait_times` visits the floors `1..num_floors`. The source visits every key of `waiting`; under the representation invariant these are the same floors.
- `_calculate_stats` is modelled as the stub it is (`Simulator.CalculateStats`, all zeros). The intended statistics (people completed, maximum and average time) are not implemented by the code and are not modelled.
- `run_example_simulation`, the module's import-time call and the `python_ta` boilerplate are not modelled. They are an entry point and tooling.
- The rest of the repository is not modelled: the `bodiesv4` physics wrappers and the `main.py` training script. They are foreign calls, floating point and randomness.
- Simulator.Simulation.Run: requires every round's arrivals to lie on the floors `1..num_floors`. In the source, `generate_arrivals` opens a new queue for an arrival elsewhere, and the contract-checking decorator then aborts the run with an assertion error. The model proves when that happens (`GenerateArrivals`) but replaces the abort by this requirement.
- Simulator.Simulation.RunRound: requires the round's arrivals to lie on the building's floors, for the same reason as `Run`.
