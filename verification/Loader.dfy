/** The row checks of load_workload_csv: what a loaded program is known to satisfy, and
    exactly which rows are refused.  Rows are given as parsed columns. */
module Loader {
  import opened Instructions

  /** A non-empty line: too few columns, or the parsed columns (`op` is None when the
      operation name is not one of the three). */
  datatype Row = Short | Columns(id: nat, op: OptionalOp, latency: nat, memoryBytes: nat, deps: seq<nat>)

  datatype OptionalOp = NoOp | SomeOp(value: OpType)

  datatype LoadError =
    | TooFewColumns(row: nat)
    | DuplicateId(id: nat)
    | UnsupportedOp(row: nat)
    | MissingDependency(id: nat)

  datatype LoadResult = Loaded(program: seq<Instruction>) | Refused(error: LoadError)

  ghost predicate GoodRow(rows: seq<Row>, k: nat) {
    && k < |rows| && rows[k].Columns? && rows[k].op.SomeOp?
    && forall j :: 0 <= j < k && rows[j].Columns? ==> rows[j].id != rows[k].id
  }

  ghost predicate GoodRows(rows: seq<Row>, n: nat) {
    n <= |rows| && forall k :: 0 <= k < n ==> GoodRow(rows, k)
  }

  /** The first check row `k` fails, in the order the source makes them. */
  ghost predicate FailsWith(rows: seq<Row>, k: nat, e: LoadError) {
    k < |rows| && match rows[k]
    case Short => e == TooFewColumns(k)
    case Columns(id, op, _, _, _) =>
      if exists j :: 0 <= j < k && rows[j].Columns? && rows[j].id == id then e == DuplicateId(id)
      else op.NoOp? && e == UnsupportedOp(k)
  }

  ghost predicate HasId(rows: seq<Row>, d: nat) {
    exists j :: 0 <= j < |rows| && rows[j].Columns? && rows[j].id == d
  }

  ghost predicate DepsKnown(rows: seq<Row>, k: nat) {
    k < |rows| && (rows[k].Columns? ==> forall d :: d in rows[k].deps ==> HasId(rows, d))
  }

  function InstructionOf(row: Row): Instruction
    requires row.Columns? && row.op.SomeOp?
  {
    Instruction(row.id, row.op.value, if row.latency == 0 then 1 else row.latency, row.memoryBytes, row.deps,
                Fetch, 0, 0, 0)
  }

  ghost predicate Matches(rows: seq<Row>, w: seq<Instruction>) {
    |w| <= |rows| && forall k :: 0 <= k < |w| ==> GoodRow(rows, k) && w[k] == InstructionOf(rows[k])
  }

  /** The rows pass every check, and `w` is what they load as. */
  ghost predicate LoadsAs(rows: seq<Row>, w: seq<Instruction>) {
    && GoodRows(rows, |rows|) && (forall k :: 0 <= k < |rows| ==> DepsKnown(rows, k))
    && |w| == |rows| && Matches(rows, w)
  }

  /** Loading succeeds exactly on good rows whose dependencies all exist; otherwise the error
      is that of the first bad row, or the first missing dependency. */
  method Load(rows: seq<Row>) returns (r: LoadResult)
    ensures r.Loaded? <==> GoodRows(rows, |rows|) && forall k :: 0 <= k < |rows| ==> DepsKnown(rows, k)
    ensures r.Loaded? ==> LoadsAs(rows, r.program) && |r.program| == |rows|
    ensures r.Loaded? ==> forall k :: 0 <= k < |rows| ==> rows[k].Columns? && FieldsOf(rows[k], r.program[k])
    ensures r.Refused? ==>
      || (exists k :: 0 <= k < |rows| && GoodRows(rows, k) && FailsWith(rows, k, r.error))
      || (GoodRows(rows, |rows|) && exists k :: 0 <= k < |rows| && FirstMissing(rows, k, r.error))
  {
    var program: seq<Instruction> := [];
    var ids: set<nat> := {};
    for k := 0 to |rows|
      invariant GoodRows(rows, k) && |program| == k
      invariant Matches(rows, program)
      invariant forall j :: 0 <= j < k ==> program[j].id in ids
      invariant forall d :: d in ids ==> exists j :: 0 <= j < k && rows[j].Columns? && rows[j].id == d
    {
      match rows[k]
      case Short =>
        assert !GoodRow(rows, k) && FailsWith(rows, k, TooFewColumns(k));
        return Refused(TooFewColumns(k));
      case Columns(id, op, latency, memoryBytes, deps) =>
        if id in ids {
          assert !GoodRow(rows, k) && FailsWith(rows, k, DuplicateId(id));
          return Refused(DuplicateId(id));
        }
        ids := ids + {id};
        if op.NoOp? {
          assert !GoodRow(rows, k) && FailsWith(rows, k, UnsupportedOp(k));
          return Refused(UnsupportedOp(k));
        }
        assert GoodRow(rows, k);
        program := program + [
          Instruction(id, op.value, if latency == 0 then 1 else latency, memoryBytes, deps, Fetch, 0, 0, 0)];
    }
    assert forall d :: d in ids <==> HasId(rows, d);
    for k := 0 to |program|
      invariant Matches(rows, program)
      invariant forall j :: 0 <= j < k ==> DepsKnown(rows, j)
    {
      for m := 0 to |program[k].deps|
        invariant forall n :: 0 <= n < m ==> program[k].deps[n] in ids
      {
        if program[k].deps[m] !in ids {
          assert GoodRow(rows, k);
          assert rows[k].deps[m] in rows[k].deps && !DepsKnown(rows, k);
          assert FirstMissing(rows, k, MissingDependency(rows[k].deps[m]));
          return Refused(MissingDependency(rows[k].deps[m]));
        }
      }
      assert GoodRow(rows, k) && DepsKnown(rows, k);
    }
    LoadedProgram(rows, program);
    return Loaded(program);
  }

  /** Row `k` is the first with an unknown dependency, and `e` names its first one. */
  ghost predicate FirstMissing(rows: seq<Row>, k: nat, e: LoadError) {
    && k < |rows| && rows[k].Columns? && (forall j :: 0 <= j < k ==> DepsKnown(rows, j))
    && e.MissingDependency?
    && exists m :: 0 <= m < |rows[k].deps| && rows[k].deps[m] == e.id && !HasId(rows, e.id)
                   && forall n :: 0 <= n < m ==> HasId(rows, rows[k].deps[n])
  }

  /** What a loaded program is, column by column: distinct ids, known dependencies, and a latency
      of zero read as one. */
  lemma LoadedProgram(rows: seq<Row>, w: seq<Instruction>)
    requires LoadsAs(rows, w)
    ensures DistinctIds(w)
    ensures DepsNamed(w)
    ensures forall i :: 0 <= i < |w| ==> rows[i].Columns? && FieldsOf(rows[i], w[i])
    ensures forall i :: 0 <= i < |w| ==> w[i].latency >= 1 && ExecCycles(w[i]) == w[i].latency
  {
    forall i, j | 0 <= i < j < |w| ensures w[i].id != w[j].id {
      assert GoodRow(rows, i) && GoodRow(rows, j);
    }
    forall i, k | 0 <= i < |w| && 0 <= k < |w[i].deps| ensures NamedBelow(w, |w|, w[i].deps[k]) {
      assert GoodRow(rows, i) && DepsKnown(rows, i) && HasId(rows, w[i].deps[k]);
      var j :| 0 <= j < |rows| && rows[j].Columns? && rows[j].id == w[i].deps[k];
      assert GoodRow(rows, j) && w[j].id == w[i].deps[k];
    }
    forall i | 0 <= i < |w| ensures rows[i].Columns? && FieldsOf(rows[i], w[i]) {
      assert GoodRow(rows, i);
    }
  }

  /** The instruction carries the columns of its row. */
  ghost predicate FieldsOf(row: Row, x: Instruction)
    requires row.Columns?
  {
    && x.id == row.id && SomeOp(x.op) == row.op && x.memoryBytes == row.memoryBytes && x.deps == row.deps
    && x.latency >= 1 && (row.latency >= 1 ==> x.latency == row.latency) && (row.latency == 0 ==> x.latency == 1)
  }

  /** Nothing but the difference of latencies zero and one is lost: two inputs that load as one
      program have the same columns. */
  lemma LoadForgetsOnlyZero(a: seq<Row>, b: seq<Row>, w: seq<Instruction>)
    requires LoadsAs(a, w) && LoadsAs(b, w)
    ensures |a| == |b|
    ensures forall i :: 0 <= i < |a| ==>
      a[i].Columns? && b[i].Columns? && (a[i] == b[i] || (a[i] == b[i].(latency := a[i].latency)
        && a[i].latency <= 1 && b[i].latency <= 1))
  {
    hide LoadsAs, DistinctIds, DepsNamed;
    LoadedProgram(a, w);
    LoadedProgram(b, w);
    LoadLength(a, w);
    LoadLength(b, w);
    forall i | 0 <= i < |a|
      ensures a[i].Columns? && b[i].Columns? && (a[i] == b[i] || (a[i] == b[i].(latency := a[i].latency)
        && a[i].latency <= 1 && b[i].latency <= 1))
    {
      assert FieldsOf(a[i], w[i]) && FieldsOf(b[i], w[i]);
    }
  }

  lemma LoadLength(rows: seq<Row>, w: seq<Instruction>)
    requires LoadsAs(rows, w)
    ensures |rows| == |w|
  {
  }
}
