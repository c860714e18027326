/**
 * What the counters of one type mean: replaying the special member calls
 * made on the objects of a counted type `T`, the balance of its record is the
 * number of objects of `T` alive at that moment.
 */
module Lifetime {
  import opened Counters

  /** An object of `T`, by identity. */
  type Id = nat

  /** One special member call on objects of `T`. */
  datatype Op =
    | DefaultConstruct(id: Id)
    | CopyConstructFrom(source: Id, id: Id)
    | MoveConstructFrom(source: Id, id: Id)
    | Destroy(id: Id)
    | CopyAssignFrom(target: Id, source: Id)
    | MoveAssignFrom(target: Id, source: Id)

  /** The slot each call bumps. */
  function SlotOf(op: Op): Slot
  {
    match op
    case DefaultConstruct(_) => Constructions
    case CopyConstructFrom(_, _) => CopyConstructions
    case MoveConstructFrom(_, _) => MoveConstructions
    case Destroy(_) => Destructions
    case CopyAssignFrom(_, _) => CopyAssignments
    case MoveAssignFrom(_, _) => MoveAssignments
  }

  /** The record of `T` after the calls, starting from the zeroed record `add` returns. */
  function Tally(ops: seq<Op>): Record
    decreases |ops|
  {
    if ops == [] then Zero() else Bump(Tally(ops[..|ops| - 1]), SlotOf(ops[|ops| - 1]))
  }

  /** The objects alive after the calls. */
  function Live(ops: seq<Op>): set<Id>
    decreases |ops|
  {
    if ops == [] then {}
    else
      var live := Live(ops[..|ops| - 1]);
      match ops[|ops| - 1]
      case DefaultConstruct(id) => live + {id}
      case CopyConstructFrom(_, id) => live + {id}
      case MoveConstructFrom(_, id) => live + {id}
      case Destroy(id) => live - {id}
      case CopyAssignFrom(_, _) => live
      case MoveAssignFrom(_, _) => live
  }

  /** A call C++ allows on the objects alive: constructing a new object, using or destroying a live one. */
  predicate Allowed(live: set<Id>, op: Op)
  {
    match op
    case DefaultConstruct(id) => id !in live
    case CopyConstructFrom(source, id) => source in live && id !in live
    case MoveConstructFrom(source, id) => source in live && id !in live
    case Destroy(id) => id in live
    case CopyAssignFrom(target, source) => target in live && source in live
    case MoveAssignFrom(target, source) => target in live && source in live
  }

  /** A program run with no double destruction and no use of a dead object. */
  predicate Legal(ops: seq<Op>)
    decreases |ops|
  {
    ops == [] || (Legal(ops[..|ops| - 1]) && Allowed(Live(ops[..|ops| - 1]), ops[|ops| - 1]))
  }

  /** The balance of `T`'s record equals the number of live objects of `T`. */
  lemma {:induction false} BalanceIsLiveCount(ops: seq<Op>)
    requires Legal(ops)
    ensures Balance(Tally(ops)) == |Live(ops)|
  {
    if ops != [] {
      var prefix := ops[..|ops| - 1];
      var op := ops[|ops| - 1];
      BalanceIsLiveCount(prefix);
      BumpBalance(Tally(prefix), SlotOf(op));
      var live := Live(prefix);
      match op
      case DefaultConstruct(id) => assert |live + {id}| == |live| + 1;
      case CopyConstructFrom(_, id) => assert |live + {id}| == |live| + 1;
      case MoveConstructFrom(_, id) => assert |live + {id}| == |live| + 1;
      case Destroy(id) => assert |live - {id}| == |live| - 1;
      case CopyAssignFrom(_, _) =>
      case MoveAssignFrom(_, _) =>
    }
  }

  /** Once every object of `T` is destroyed, `validate` reports nothing for `T`. */
  lemma AllDestroyedPasses(ops: seq<Op>, name: string)
    requires Legal(ops) && Live(ops) == {}
    ensures Balance(Tally(ops)) == 0 && Diagnosis(Tally(ops), name) == []
  {
    BalanceIsLiveCount(ops);
  }

  /** An object of `T` still alive is reported as a leak of `T`, counting every live object. */
  lemma LiveObjectIsLeak(ops: seq<Op>, name: string)
    requires Legal(ops) && Live(ops) != {}
    ensures Diagnosis(Tally(ops), name) == [Leaks(name, |Live(ops)|)]
  {
    BalanceIsLiveCount(ops);
  }

  /** Destroying an object of `T` once more after all were destroyed is reported as multiple frees. */
  lemma DoubleDestroyIsMultipleFree(ops: seq<Op>, id: Id, name: string)
    requires Legal(ops) && Live(ops) == {}
    ensures Diagnosis(Tally(ops + [Destroy(id)]), name) == [MultipleFrees(name, -1)]
  {
    BalanceIsLiveCount(ops);
    var all := ops + [Destroy(id)];
    assert all[..|all| - 1] == ops;
    BumpBalance(Tally(ops), Destructions);
  }
}
