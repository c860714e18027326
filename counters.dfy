/**
 * Lifetime-counter instrumentation: the process-wide registry of per-type
 * event records (`counters`) and the per-type hook (`type_counters<T>`) that
 * bumps one slot of its type's record in every special member function.
 */
module Counters {

  // Slot indices of a record, in the order of the `counters` enumeration.
  const Constructions: nat := 0
  const CopyConstructions: nat := 1
  const MoveConstructions: nat := 2
  const Destructions: nat := 3
  const CopyAssignments: nat := 4
  const MoveAssignments: nat := 5
  const Last: nat := MoveAssignments
  const Num: nat := Last + 1

  type Slot = k: nat | k < Num

  /** The six counts kept for one registered type (`std::array<int, num>`). */
  type Record = r: seq<int> | |r| == Num witness [0, 0, 0, 0, 0, 0]

  /** A value-initialised record: every slot zero. */
  function Zero(): (r: Record)
    ensures forall k :: 0 <= k < Num ==> r[k] == 0
  {
    [0, 0, 0, 0, 0, 0]
  }

  /** `++record[slot]`: that slot grows by one, the other five keep their counts. */
  function Bump(rec: Record, slot: Slot): (r: Record)
    ensures r[slot] == rec[slot] + 1
    ensures forall k :: 0 <= k < Num && k != slot ==> r[k] == rec[k]
  {
    rec[slot := rec[slot] + 1]
  }

  /** Objects of the type brought into existence minus objects destroyed. */
  function Balance(rec: Record): int
  {
    rec[Constructions] + rec[CopyConstructions] + rec[MoveConstructions] - rec[Destructions]
  }

  /** How one event of the given slot moves the balance. */
  function BalanceChange(slot: Slot): int
  {
    if slot < Destructions then 1 else if slot == Destructions then -1 else 0
  }

  lemma BumpBalance(rec: Record, slot: Slot)
    ensures Balance(Bump(rec, slot)) == Balance(rec) + BalanceChange(slot)
    ensures slot == CopyAssignments || slot == MoveAssignments ==> Balance(Bump(rec, slot)) == Balance(rec)
  {
  }

  /** Every registered type has a zero balance. */
  predicate Balanced(data: seq<Record>)
  {
    forall i :: 0 <= i < |data| ==> Balance(data[i]) == 0
  }

  /** One diagnostic line of `validate`, without its text. */
  datatype Report = Leaks(name: string, balance: int) | MultipleFrees(name: string, balance: int)

  /** What `validate` reports for one type: a positive balance is a leak, a negative one multiple frees. */
  function Diagnosis(rec: Record, name: string): (r: seq<Report>)
    ensures r == [] <==> Balance(rec) == 0
    ensures Balance(rec) > 0 ==> r == [Leaks(name, Balance(rec))]
    ensures Balance(rec) < 0 ==> r == [MultipleFrees(name, Balance(rec))]
  {
    var b := Balance(rec);
    if b > 0 then [Leaks(name, b)] else if b < 0 then [MultipleFrees(name, b)] else []
  }

  /** The reports of `validate` over all registered types, in registration order. */
  function Diagnoses(data: seq<Record>, names: seq<string>): seq<Report>
    requires |data| == |names|
    decreases |data|
  {
    if data == [] then []
    else Diagnoses(data[..|data| - 1], names[..|names| - 1]) + Diagnosis(data[|data| - 1], names[|names| - 1])
  }

  /** No report at all exactly when every balance is zero. */
  lemma {:induction false} DiagnosesEmptyIffBalanced(data: seq<Record>, names: seq<string>)
    requires |data| == |names|
    ensures Diagnoses(data, names) == [] <==> Balanced(data)
  {
    if data != [] {
      var n := |data| - 1;
      DiagnosesEmptyIffBalanced(data[..n], names[..n]);
      BalancedSplit(data);
      var last := Diagnosis(data[n], names[n]);
      assert Diagnoses(data, names) == Diagnoses(data[..n], names[..n]) + last;
      assert Diagnoses(data, names) == [] <==> Diagnoses(data[..n], names[..n]) == [] && last == [];
    }
  }

  lemma BalancedSplit(data: seq<Record>)
    requires data != []
    ensures Balanced(data) <==> Balanced(data[..|data| - 1]) && Balance(data[|data| - 1]) == 0
  {
    var n := |data| - 1;
    assert forall i :: 0 <= i < n ==> data[..n][i] == data[i];
  }

  /**
   * Every type with a non-zero balance is reported with its own name and balance,
   * as a leak when positive and as multiple frees when negative, and every report
   * is the diagnosis of some registered type.
   */
  lemma {:induction false} DiagnosesClassify(data: seq<Record>, names: seq<string>, i: nat)
    requires |data| == |names| && i < |data|
    ensures Balance(data[i]) > 0 ==> Leaks(names[i], Balance(data[i])) in Diagnoses(data, names)
    ensures Balance(data[i]) < 0 ==> MultipleFrees(names[i], Balance(data[i])) in Diagnoses(data, names)
  {
    var n := |data| - 1;
    if i < n {
      DiagnosesClassify(data[..n], names[..n], i);
    }
  }

  /** Each report comes from one registered type, named and counted as that type's record says. */
  lemma {:induction false} DiagnosesSound(data: seq<Record>, names: seq<string>, r: Report)
    requires |data| == |names|
    requires r in Diagnoses(data, names)
    ensures exists i :: 0 <= i < |data| && Diagnosis(data[i], names[i]) == [r]
  {
    var n := |data| - 1;
    if r in Diagnoses(data[..n], names[..n]) {
      DiagnosesSound(data[..n], names[..n], r);
      var i :| 0 <= i < n && Diagnosis(data[..n][i], names[..n][i]) == [r];
      assert Diagnosis(data[i], names[i]) == [r];
    } else {
      assert Diagnosis(data[n], names[n]) == [r];
    }
  }

  /**
   * The reports depend on the records only through their balances, so the
   * copy- and move-assignment slots never influence `validate`.
   */
  lemma {:induction false} DiagnosesDependOnBalancesOnly(d1: seq<Record>, d2: seq<Record>, names: seq<string>)
    requires |d1| == |d2| == |names|
    requires forall i :: 0 <= i < |d1| ==> Balance(d1[i]) == Balance(d2[i])
    ensures Diagnoses(d1, names) == Diagnoses(d2, names)
  {
    if d1 != [] {
      var n := |d1| - 1;
      DiagnosesDependOnBalancesOnly(d1[..n], d2[..n], names[..n]);
    }
  }

  lemma AssignmentsInvisibleToValidate(data: seq<Record>, names: seq<string>, i: nat, slot: Slot)
    requires |data| == |names| && i < |data|
    requires slot == CopyAssignments || slot == MoveAssignments
    ensures Diagnoses(data[i := Bump(data[i], slot)], names) == Diagnoses(data, names)
    ensures Balanced(data[i := Bump(data[i], slot)]) <==> Balanced(data)
  {
    var d2 := data[i := Bump(data[i], slot)];
    forall k | 0 <= k < |data|
      ensures Balance(d2[k]) == Balance(data[k])
    {
      BumpBalance(data[k], slot);
    }
    DiagnosesDependOnBalancesOnly(d2, data, names);
  }

  /** Column `j` of the overall statistics: slot `j` summed over every registered type. */
  function ColumnSum(data: seq<Record>, j: Slot): int
    decreases |data|
  {
    if data == [] then 0 else ColumnSum(data[..|data| - 1], j) + data[|data| - 1][j]
  }

  /** The sum of the per-type balances. */
  function TotalBalance(data: seq<Record>): int
    decreases |data|
  {
    if data == [] then 0 else TotalBalance(data[..|data| - 1]) + Balance(data[|data| - 1])
  }

  /** The balance read off the overall column sums is the sum of the per-type balances. */
  lemma {:induction false} OverallBalanceIsTotal(data: seq<Record>)
    ensures ColumnSum(data, Constructions) + ColumnSum(data, CopyConstructions)
          + ColumnSum(data, MoveConstructions) - ColumnSum(data, Destructions) == TotalBalance(data)
  {
    if data != [] {
      OverallBalanceIsTotal(data[..|data| - 1]);
    }
  }

  /** When `validate` passes, the overall statistics balance too (the converse fails: leaks and double frees of two types can cancel). */
  lemma {:induction false} BalancedTotalIsZero(data: seq<Record>)
    requires Balanced(data)
    ensures TotalBalance(data) == 0
  {
    if data != [] {
      var n := |data| - 1;
      assert Balanced(data[..n]) by {
        forall i | 0 <= i < n ensures Balance(data[..n][i]) == 0 {
          assert data[..n][i] == data[i];
        }
      }
      BalancedTotalIsZero(data[..n]);
    }
  }

  /** The registry: one record and one name per registered type, appended in lock-step. */
  class Registry {
    var data: seq<Record>
    var names: seq<string>

    ghost predicate Valid()
      reads this
    {
      |data| == |names|
    }

    /** The private default constructor run once by `instance()`. */
    constructor ()
      ensures Valid() && data == [] && names == []
    {
      data := [];
      names := [];
    }

    /**
     * Appends a zeroed record and the type's name. The result designates the
     * new record (the source returns a reference into its deque, which stays
     * valid as later records are appended).
     */
    method Add(name: string) returns (index: nat)
      requires Valid()
      modifies this
      ensures Valid()
      ensures data == old(data) + [Zero()] && names == old(names) + [name]
      ensures index == |old(data)| && data[index] == Zero()
    {
      data := data + [Zero()];
      names := names + [name];
      index := |data| - 1;
    }

    /**
     * Computes every balance; passes only when all are zero, and yields one
     * report per type whose balance is not.
     */
    method Validate() returns (ok: bool, reports: seq<Report>)
      requires Valid()
      ensures ok <==> Balanced(data)
      ensures reports == Diagnoses(data, names)
    {
      var problemFound := false;
      reports := [];
      var i := 0;
      while i < |data|
        invariant 0 <= i <= |data|
        invariant problemFound <==> exists k :: 0 <= k < i && Balance(data[k]) != 0
        invariant reports == Diagnoses(data[..i], names[..i])
      {
        var stats := data[i];
        var balance := stats[Constructions] + stats[CopyConstructions] + stats[MoveConstructions] - stats[Destructions];
        problemFound := problemFound || balance != 0;
        if balance > 0 {
          reports := reports + [Leaks(names[i], balance)];
        } else if balance < 0 {
          reports := reports + [MultipleFrees(names[i], balance)];
        }
        assert data[..i + 1][..i] == data[..i] && names[..i + 1][..i] == names[..i];
        i := i + 1;
      }
      assert data[..i] == data && names[..i] == names;
      ok := !problemFound;
    }

    /** The `overall` table of `print`: slot `j` summed over every registered type. */
    method Overall() returns (overall: Record)
      requires Valid()
      ensures forall j: Slot :: overall[j] == ColumnSum(data, j)
    {
      var sums := new int[Num](_ => 0);
      var i := 0;
      while i < |data|
        invariant 0 <= i <= |data|
        invariant forall j: Slot :: sums[j] == ColumnSum(data[..i], j)
      {
        var j := 0;
        while j < Num
          invariant 0 <= j <= Num
          invariant forall k: Slot :: k < j ==> sums[k] == ColumnSum(data[..i + 1], k)
          invariant forall k: Slot :: j <= k ==> sums[k] == ColumnSum(data[..i], k)
        {
          assert data[..i + 1][..i] == data[..i];
          sums[j] := sums[j] + data[i][j];
          j := j + 1;
        }
        i := i + 1;
      }
      assert data[..i] == data;
      overall := sums[..];
    }
  }

  /** Between two states, exactly `slot` of `tc`'s record grew by one; no other record and no name changed. */
  twostate predicate Recorded(tc: TypeCounters, slot: Slot)
    reads tc, tc.registry
  {
    && old(tc.Valid()) && tc.Valid()
    && tc.registry.names == old(tc.registry.names)
    && tc.registry.data == old(tc.registry.data)[tc.index := Bump(old(tc.registry.data[tc.index]), slot)]
  }

  /**
   * The registration of one counted type `T` (the static member
   * `type_counters<T>::counters_`) together with the hooks its special member
   * functions run; every object of `T` shares it.
   */
  class TypeCounters {
    const registry: Registry
    const index: nat

    /**
     * Static initialisation: registers `T` under its name and keeps its
     * record. The initialiser runs once per type and the name is the type's
     * own, so the name is not yet registered, and afterwards exactly one
     * record carries it.
     */
    constructor Register(registry: Registry, name: string)
      requires registry.Valid()
      requires name !in registry.names
      modifies registry
      ensures this.registry == registry && Valid()
      ensures registry.data == old(registry.data) + [Zero()] && registry.names == old(registry.names) + [name]
      ensures index == |old(registry.data)| && Counts() == Zero()
      ensures forall i :: 0 <= i < |registry.names| && registry.names[i] == name ==> i == index
    {
      var k := registry.Add(name);
      this.registry := registry;
      index := k;
    }

    ghost predicate Valid()
      reads this, registry
    {
      registry.Valid() && index < |registry.data|
    }

    /** The record of `T`. */
    function Counts(): Record
      reads this, registry
      requires Valid()
    {
      registry.data[index]
    }

    /** `++counters_[slot]`. */
    method Count(slot: Slot)
      requires Valid()
      modifies registry
      ensures Recorded(this, slot)
    {
      registry.data := registry.data[index := Bump(registry.data[index], slot)];
    }

    /** Default construction of a `T`. */
    method Construct()
      requires Valid()
      modifies registry
      ensures Recorded(this, Constructions)
      ensures Balance(Counts()) == old(Balance(Counts())) + 1
    {
      Count(Constructions);
    }

    /** Copy construction of a `T`. */
    method CopyConstruct()
      requires Valid()
      modifies registry
      ensures Recorded(this, CopyConstructions)
      ensures Balance(Counts()) == old(Balance(Counts())) + 1
    {
      Count(CopyConstructions);
    }

    /** Move construction of a `T`. */
    method MoveConstruct()
      requires Valid()
      modifies registry
      ensures Recorded(this, MoveConstructions)
      ensures Balance(Counts()) == old(Balance(Counts())) + 1
    {
      Count(MoveConstructions);
    }

    /** Destruction of a `T`. */
    method Destruct()
      requires Valid()
      modifies registry
      ensures Recorded(this, Destructions)
      ensures Balance(Counts()) == old(Balance(Counts())) - 1
    {
      Count(Destructions);
    }

    /** Copy assignment to a `T`: only the slot moves. */
    method CopyAssign()
      requires Valid()
      modifies registry
      ensures Recorded(this, CopyAssignments)
      ensures Balance(Counts()) == old(Balance(Counts()))
    {
      Count(CopyAssignments);
    }

    /** Move assignment to a `T`. */
    method MoveAssign()
      requires Valid()
      modifies registry
      ensures Recorded(this, MoveAssignments)
      ensures Balance(Counts()) == old(Balance(Counts()))
    {
      Count(MoveAssignments);
    }
  }
}
