/**
 * The in-memory state driver (engine/state/drivers/in-memory-driver/src/index.ts):
 * a transaction works on its own copy of the state (a current location, a
 * current storylet and a record of quality values); the driver adopts that
 * copy on commit and drops it on rollback. The `TransactionBase` rules of
 * engine/state/api/src/index.ts are the transaction's `Set`, `Unset`,
 * `Increment` and `Decrement`. The source's `async` is dropped: every
 * operation completes before the next begins.
 */
module InMemoryDriver {
  import opened Common
  import opened StateApi

  datatype State = State(location: Option<string>, storylet: Option<string>, qualities: map<string, int>)

  /** The state `clear` leaves, and a driver's state when it is built without one. */
  const Empty: State := State(None, None, map[])

  /** `get`: the stored value, 0 for a name that has none. */
  function Value(qualities: map<string, int>, name: string): int
  {
    if name in qualities then qualities[name] else 0
  }

  /** `update`: a value of 0 deletes the entry, any other value is stored. */
  function Stored(qualities: map<string, int>, name: string, value: int): (r: map<string, int>)
    ensures Value(r, name) == value && (value == 0 <==> name !in r)
    ensures forall other :: other != name ==> Value(r, other) == Value(qualities, other)
    ensures forall other :: other != name ==> (other in r <==> other in qualities)
  {
    if value == 0 then qualities - {name} else qualities[name := value]
  }

  /** The operations a transaction offers that change its state. */
  datatype Operation =
    | SetQuality(name: string, value: int)
    | UnsetQuality(name: string, value: int)
    | IncrementQuality(name: string, step: int)
    | DecrementQuality(name: string, step: int)
    | SetLocation(location: string)
    | UnsetLocation
    | SetStorylet(id: string)
    | CommitStorylet
    | Clear

  /** The effect a rule reports, stored. */
  function Effected(s: State, name: string, effect: Option<Effect>): State
  {
    if effect.Some? then s.(qualities := Stored(s.qualities, name, effect.value.after)) else s
  }

  /** `commitStorylet`: a current storylet counts once more and is no longer current; a missing or empty id is falsy, so nothing happens. */
  function Committed(s: State): State
  {
    if s.storylet.Some? && s.storylet.value != "" then
      var id := s.storylet.value;
      Effected(s, id, IncrementRule(Value(s.qualities, id), 1)).(storylet := None)
    else s
  }

  /** The state after one operation. */
  function Step(s: State, op: Operation): State
  {
    match op
    case SetQuality(name, value) => Effected(s, name, SetRule(Value(s.qualities, name), value))
    case UnsetQuality(name, value) => Effected(s, name, UnsetRule(Value(s.qualities, name), value))
    case IncrementQuality(name, step) => Effected(s, name, IncrementRule(Value(s.qualities, name), step))
    case DecrementQuality(name, step) => Effected(s, name, DecrementRule(Value(s.qualities, name), step))
    case SetLocation(name) =>
      State(Some(name), s.storylet, Stored(s.qualities, name, Value(s.qualities, name) + 1))
    case UnsetLocation => s.(location := None)
    case SetStorylet(id) => Committed(s).(storylet := Some(id))
    case CommitStorylet => Committed(s)
    case Clear => Empty
  }

  /** The state after a run of operations, in order. */
  function Run(s: State, ops: seq<Operation>): State
    decreases |ops|
  {
    if ops == [] then s else Run(Step(s, ops[0]), ops[1..])
  }

  /** Every stored value is positive: 0 is never stored, and no rule goes below 0. */
  predicate Positive(s: State)
  {
    forall name :: name in s.qualities ==> s.qualities[name] > 0
  }

  lemma StepKeepsPositive(s: State, op: Operation)
    requires Positive(s)
    ensures Positive(Step(s, op))
  {
    match op
    case SetQuality(name, value) =>
      assert Value(s.qualities, name) >= 0;
    case UnsetQuality(name, value) =>
    case IncrementQuality(name, step) =>
      assert Value(s.qualities, name) >= 0;
    case DecrementQuality(name, step) =>
    case SetLocation(name) =>
      assert Value(s.qualities, name) >= 0;
    case UnsetLocation =>
    case SetStorylet(id) =>
      if s.storylet.Some? && s.storylet.value != "" {
        assert Value(s.qualities, s.storylet.value) >= 0;
      }
    case CommitStorylet =>
      if s.storylet.Some? && s.storylet.value != "" {
        assert Value(s.qualities, s.storylet.value) >= 0;
      }
    case Clear =>
  }

  /** Stored values stay positive, whatever the transaction does. */
  lemma {:induction false} RunKeepsPositive(s: State, ops: seq<Operation>)
    requires Positive(s)
    ensures Positive(Run(s, ops))
    decreases |ops|
  {
    if ops != [] {
      StepKeepsPositive(s, ops[0]);
      RunKeepsPositive(Step(s, ops[0]), ops[1..]);
    }
  }

  /** `set` never lowers a quality, and `unset` and `decrement` never raise one; no other quality changes. */
  lemma RulesAreMonotone(s: State, op: Operation, other: string)
    requires op.SetQuality? || op.UnsetQuality? || op.DecrementQuality?
    ensures op.SetQuality? ==> Value(Step(s, op).qualities, op.name) >= Value(s.qualities, op.name)
    ensures !op.SetQuality? ==> Value(Step(s, op).qualities, op.name) <= Value(s.qualities, op.name)
    ensures other != op.name ==> Value(Step(s, op).qualities, other) == Value(s.qualities, other)
    ensures Step(s, op).location == s.location && Step(s, op).storylet == s.storylet
  {
  }

  /** A value read as not negative never goes negative by `decrement`. */
  lemma DecrementStaysNatural(s: State, name: string, step: int)
    requires Value(s.qualities, name) >= 0
    ensures Value(Step(s, DecrementQuality(name, step)).qualities, name) >= 0
    ensures step > 0 && Value(s.qualities, name) > 0
            <==> Value(Step(s, DecrementQuality(name, step)).qualities, name) < Value(s.qualities, name)
  {
  }

  /** `unset` to 0 never changes anything. */
  lemma UnsetZero(s: State, name: string)
    ensures Step(s, UnsetQuality(name, 0)) == s
  {
  }

  /**
   * `setStorylet` first commits the current storylet: its count goes up by
   * one, and the new id becomes current.
   */
  lemma SetStoryletCountsPrevious(s: State, id: string)
    requires s.storylet.Some? && s.storylet.value != ""
    ensures Value(Step(s, SetStorylet(id)).qualities, s.storylet.value) == Value(s.qualities, s.storylet.value) + 1
    ensures Step(s, SetStorylet(id)).storylet == Some(id)
    ensures Step(s, SetStorylet(id)).location == s.location
  {
  }

  /** `setLocation` counts each visit. */
  lemma LocationVisitCounts(s: State, name: string)
    ensures Value(Step(Step(s, SetLocation(name)), SetLocation(name)).qualities, name) == Value(s.qualities, name) + 2
    ensures Step(s, SetLocation(name)).location == Some(name)
  {
  }

  /** `InMemoryTransaction`: its own copy of the state, changed in place. */
  class Transaction {
    var location: Option<string>
    var storylet: Option<string>
    var qualities: map<string, int>

    function GetState(): State
      reads this
    {
      State(location, storylet, qualities)
    }

    constructor (initial: State)
      ensures GetState() == initial
    {
      location := initial.location;
      storylet := initial.storylet;
      qualities := initial.qualities;
    }

    /** `get`. */
    method Get(name: string) returns (v: int)
      ensures v == Value(qualities, name)
    {
      if name in qualities {
        v := qualities[name];
      } else {
        v := 0;
      }
    }

    /** `getLocation`. */
    method GetLocation() returns (l: Option<string>)
      ensures l == location
    {
      l := location;
    }

    /** `getStorylet`. */
    method GetStorylet() returns (id: Option<string>)
      ensures id == storylet
    {
      id := storylet;
    }

    /** `update`. */
    method Update(name: string, value: int)
      modifies this
      ensures GetState() == old(GetState()).(qualities := Stored(old(qualities), name, value))
    {
      if value == 0 {
        qualities := qualities - {name};
      } else {
        qualities := qualities[name := value];
      }
    }

    /** `set`. */
    method Set(name: string, value: int) returns (effect: Option<Effect>)
      modifies this
      ensures effect == SetRule(Value(old(qualities), name), value)
      ensures GetState() == Step(old(GetState()), SetQuality(name, value))
    {
      var current := Get(name);
      if current < value {
        Update(name, value);
        return Some(Effect(current, value));
      }
      return None;
    }

    /** `unset`. */
    method Unset(name: string, value: int) returns (effect: Option<Effect>)
      modifies this
      ensures effect == UnsetRule(Value(old(qualities), name), value)
      ensures GetState() == Step(old(GetState()), UnsetQuality(name, value))
    {
      if value > 0 {
        var current := Get(name);
        if current > value {
          Update(name, value);
          return Some(Effect(current, value));
        }
      }
      return None;
    }

    /** `increment`. */
    method Increment(name: string, step: int) returns (effect: Option<Effect>)
      modifies this
      ensures effect == IncrementRule(Value(old(qualities), name), step)
      ensures GetState() == Step(old(GetState()), IncrementQuality(name, step))
    {
      var current := Get(name);
      var next := current + step;
      if next > current {
        Update(name, next);
        return Some(Effect(current, next));
      }
      return None;
    }

    /** `decrement`. */
    method Decrement(name: string, step: int) returns (effect: Option<Effect>)
      modifies this
      ensures effect == DecrementRule(Value(old(qualities), name), step)
      ensures GetState() == Step(old(GetState()), DecrementQuality(name, step))
    {
      var current := Get(name);
      var next := Max(0, current - step);
      if next < current {
        Update(name, next);
        return Some(Effect(current, next));
      }
      return None;
    }

    /** `setLocation`: the location becomes current and its visit count goes up by one. */
    method SetLocation(name: string)
      modifies this
      ensures GetState() == Step(old(GetState()), Operation.SetLocation(name))
    {
      location := Some(name);
      var visits := Get(name);
      Update(name, visits + 1);
    }

    /** `unsetLocation`. */
    method UnsetLocation()
      modifies this
      ensures GetState() == Step(old(GetState()), Operation.UnsetLocation)
    {
      location := None;
    }

    /** `commitStorylet`. */
    method CommitStorylet()
      modifies this
      ensures GetState() == Committed(old(GetState()))
    {
      if storylet.Some? && storylet.value != "" {
        var _ := Increment(storylet.value, 1);
        storylet := None;
      }
    }

    /** `setStorylet`. */
    method SetStorylet(id: string)
      modifies this
      ensures GetState() == Step(old(GetState()), Operation.SetStorylet(id))
    {
      CommitStorylet();
      storylet := Some(id);
    }

    /** `clear`. */
    method Clear()
      modifies this
      ensures GetState() == Empty
    {
      location := None;
      storylet := None;
      qualities := map[];
    }

    /** One operation, as the code run inside a transaction calls it. */
    method Perform(op: Operation)
      modifies this
      ensures GetState() == Step(old(GetState()), op)
    {
      match op
      case SetQuality(name, value) => var _ := Set(name, value);
      case UnsetQuality(name, value) => var _ := Unset(name, value);
      case IncrementQuality(name, step) => var _ := Increment(name, step);
      case DecrementQuality(name, step) => var _ := Decrement(name, step);
      case SetLocation(name) => SetLocation(name);
      case UnsetLocation => UnsetLocation();
      case SetStorylet(id) => SetStorylet(id);
      case CommitStorylet => CommitStorylet();
      case Clear => Clear();
    }
  }

  /** `InMemoryStateDriver`: the committed state. */
  class StateDriver {
    var state: State

    constructor (initial: Option<State>)
      ensures state == if initial.Some? then initial.value else Empty
    {
      state := if initial.Some? then initial.value else Empty;
    }

    /** `getState`: a copy, which later changes to the driver do not reach. */
    method GetState() returns (s: State)
      ensures s == state
    {
      s := state;
    }

    /** `begin`: a fresh transaction on a copy of the committed state. */
    method Begin() returns (t: Transaction)
      ensures fresh(t) && t.GetState() == state
    {
      t := new Transaction(state);
    }

    /** `commit`: the transaction's state becomes the committed one. */
    method Commit(t: Transaction)
      modifies this
      ensures state == t.GetState()
    {
      state := t.GetState();
    }

    /** `rollback`: nothing to undo, since the transaction only ever changed its copy. */
    method Rollback(t: Transaction)
    {
    }

    /**
     * `withTransaction` for code that performs `ops` and then completes
     * (the transaction commits) or fails (it rolls back).
     */
    method WithTransaction(ops: seq<Operation>, completes: bool)
      modifies this
      ensures state == if completes then Run(old(state), ops) else old(state)
    {
      var t := Begin();
      var i := 0;
      while i < |ops|
        invariant 0 <= i <= |ops|
        invariant state == old(state)
        invariant Run(t.GetState(), ops[i..]) == Run(old(state), ops)
      {
        t.Perform(ops[i]);
        assert ops[i..][1..] == ops[i + 1..];
        i := i + 1;
      }
      assert ops[i..] == [];
      if completes {
        Commit(t);
      } else {
        Rollback(t);
      }
    }
  }
}
