/** The AI component of Chapter 4: a state machine over named states. The
    states' own OnEnter, OnExit and Update bodies are game code outside the
    model; the component's part is which of them it calls, in which order,
    and which state is current afterwards. Those calls are recorded as a
    trace of events. */
module AI {
  import opened ResourceCache
  import opened Actors

  /** A state the component can be in, known by its name. */
  class AIState {
    const name: string

    constructor(name: string)
      ensures this.name == name
    {
      this.name := name;
    }
  }

  /** A call the component makes on one of its states. */
  datatype AIEvent =
    | Entered(entered: AIState)
    | Exited(exited: AIState)
    | Updated(updated: AIState, deltaTime: real)

  /** The current state after a ChangeState call and the calls it makes. */
  datatype Transition = Transition(next: AIState?, events: seq<AIEvent>)

  /** Every state is registered under its own name. */
  predicate KeysNamed(states: map<string, AIState>)
  {
    forall n :: n in states ==> states[n].name == n
  }

  /** The current state is null or the state registered under its name. */
  predicate CurrentRegistered(states: map<string, AIState>, current: AIState?)
  {
    current != null ==> current.name in states && states[current.name] == current
  }

  /** AIComponent::ChangeState: asking for the current state's name does
      nothing; otherwise the current state, if any, is exited first, and then
      the named state becomes current and is entered, or, when no state has
      that name, there is no current state. */
  function ChangeOutcome(states: map<string, AIState>, current: AIState?, name: string): Transition
  {
    if current != null && current.name == name then Transition(current, [])
    else
      var exits := if current == null then [] else [Exited(current)];
      if name in states then Transition(states[name], exits + [Entered(states[name])])
      else Transition(null, exits)
  }

  /** The number of Entered events in a trace. */
  function Entries(events: seq<AIEvent>): nat
  {
    if events == [] then 0
    else (if events[0].Entered? then 1 else 0) + Entries(events[1..])
  }

  lemma {:induction false} EntriesAppend(a: seq<AIEvent>, b: seq<AIEvent>)
    ensures Entries(a + b) == Entries(a) + Entries(b)
  {
    if a == [] {
      assert a + b == b;
    } else {
      assert (a + b)[1..] == a[1..] + b;
      EntriesAppend(a[1..], b);
    }
  }

  /** Changing to the state that is already current calls nothing and keeps it. */
  lemma ChangeToCurrent(states: map<string, AIState>, current: AIState, name: string)
    requires current.name == name
    ensures ChangeOutcome(states, current, name) == Transition(current, [])
  {
  }

  /** A registered name, when it is not the current state's: the old state
      is exited first, then the named state becomes current and is entered
      exactly once, as the last call. */
  lemma ChangeToRegistered(states: map<string, AIState>, current: AIState?, name: string)
    requires name in states
    requires current == null || current.name != name
    ensures var t := ChangeOutcome(states, current, name);
      && t.next == states[name]
      && t.events != [] && t.events[|t.events| - 1] == Entered(states[name])
      && Entries(t.events) == 1
      && (current != null ==> t.events[0] == Exited(current))
  {
    var t := ChangeOutcome(states, current, name);
    var exits := if current == null then [] else [Exited(current)];
    assert t.events == exits + [Entered(states[name])];
    EntriesAppend(exits, [Entered(states[name])]);
    assert Entries([Entered(states[name])]) == 1 by {
      assert [Entered(states[name])][1..] == [];
    }
    if current != null {
      assert Entries(exits) == 0 by {
        assert exits[1..] == [];
      }
    }
  }

  /** An unregistered name: the old state, if any and if it has another name,
      is still exited, and then no state is current and none is entered. */
  lemma ChangeToUnregistered(states: map<string, AIState>, current: AIState?, name: string)
    requires name !in states
    requires current == null || current.name != name
    ensures var t := ChangeOutcome(states, current, name);
      && t.next == null
      && t.events == (if current == null then [] else [Exited(current)])
      && Entries(t.events) == 0
  {
    if current != null {
      assert [Exited(current)][1..] == [];
    }
  }

  /** Changing state keeps the current state a registered one. */
  lemma ChangeKeepsCurrentRegistered(states: map<string, AIState>, current: AIState?, name: string)
    requires KeysNamed(states)
    requires CurrentRegistered(states, current)
    ensures CurrentRegistered(states, ChangeOutcome(states, current, name).next)
  {
  }

  /** Asking for the same state twice: the second request calls nothing and
      changes nothing, so the state is entered at most once. */
  lemma {:induction false} ChangeTwiceEntersOnce(states: map<string, AIState>, current: AIState?, name: string)
    requires KeysNamed(states)
    ensures var first := ChangeOutcome(states, current, name);
      var second := ChangeOutcome(states, first.next, name);
      second == Transition(first.next, []) && Entries(first.events + second.events) <= 1
  {
    var first := ChangeOutcome(states, current, name);
    var second := ChangeOutcome(states, first.next, name);
    if current != null && current.name == name {
      assert first == Transition(current, []);
    } else if name in states {
      ChangeToRegistered(states, current, name);
    } else {
      ChangeToUnregistered(states, current, name);
    }
    assert first.events + second.events == first.events;
  }

  /** AIComponent::RegisterState under the state's own name keeps every state
      registered under its name, and an earlier state of the same name stays. */
  lemma RegisterKeepsNames(states: map<string, AIState>, state: AIState)
    requires KeysNamed(states)
    ensures KeysNamed(Emplace(states, state.name, state))
    ensures state.name in states ==> Emplace(states, state.name, state) == states
    ensures state.name !in states ==> Emplace(states, state.name, state)[state.name] == state
  {
  }

  /** The Enemy's life: starting with no state, "Patrol" is entered; later
      "Death" exits patrol and enters death; the destructor's second
      "Death" calls nothing. */
  lemma EnemyLifecycle(states: map<string, AIState>)
    requires KeysNamed(states)
    requires "Patrol" in states && "Death" in states
    ensures var patrol, death := states["Patrol"], states["Death"];
      var t1 := ChangeOutcome(states, null, "Patrol");
      var t2 := ChangeOutcome(states, t1.next, "Death");
      var t3 := ChangeOutcome(states, t2.next, "Death");
      && t1.events + t2.events + t3.events == [Entered(patrol), Exited(patrol), Entered(death)]
      && t3.next == death
  {
  }

  class AIComponent {
    const owner: Actor
    var stateMap: map<string, AIState>
    var current: AIState?
    /** The calls the component has made on its states, oldest first. */
    var events: seq<AIEvent>

    /** Every state is registered under its name, and the current state is a
        registered one. */
    predicate Valid()
      reads this
    {
      KeysNamed(stateMap) && CurrentRegistered(stateMap, current)
    }

    /** AIComponent::AIComponent: no states and no current state. */
    constructor(owner: Actor)
      ensures this.owner == owner
      ensures stateMap == map[] && current == null && events == []
      ensures Valid()
    {
      this.owner := owner;
      stateMap := map[];
      current := null;
      events := [];
    }

    /** AIComponent::Update: delegate to the current state, if there is one. */
    method Update(deltaTime: real)
      modifies this`events
      ensures current != null ==> events == old(events) + [Updated(current, deltaTime)]
      ensures current == null ==> events == old(events)
    {
      if current != null {
        events := events + [Updated(current, deltaTime)];
      }
    }

    /** AIComponent::ChangeState. */
    method ChangeState(name: string)
      modifies this`current, this`events
      ensures current == ChangeOutcome(stateMap, old(current), name).next
      ensures events == old(events) + ChangeOutcome(stateMap, old(current), name).events
      ensures old(Valid()) ==> Valid()
    {
      if current != null {
        if current.name == name {
          return;
        }
        events := events + [Exited(current)];
      }
      if name in stateMap {
        current := stateMap[name];
        events := events + [Entered(current)];
      } else {
        current := null;
      }
    }

    /** AIComponent::RegisterState: emplace under the state's name. */
    method RegisterState(state: AIState)
      modifies this`stateMap
      ensures stateMap == Emplace(old(stateMap), state.name, state)
      ensures old(Valid()) ==> Valid()
    {
      stateMap := Emplace(stateMap, state.name, state);
      if old(Valid()) {
        RegisterKeepsNames(old(stateMap), state);
      }
    }
  }
}
