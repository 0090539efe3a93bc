/** The records the pipeline works on: operations, stages, instructions and the
    machine configuration (include/accelsim/model), with the dependency gate of
    src/scheduler.cpp.  Identifiers, cycle numbers and latencies are unbounded naturals. */
module Instructions {

  datatype OpType = Compute | Load | Store

  datatype Stage = Fetch | Decode | Dispatch | Ready | Execute | Retire | Done

  datatype Instruction = Instruction(
    id: nat, op: OpType, latency: nat, memoryBytes: nat, deps: seq<nat>,
    stage: Stage, enqueueCycle: nat, issueCycle: nat, completeCycle: nat)

  datatype Config = Config(
    fetchWidth: nat, decodeWidth: nat, dispatchWidth: nat, issueWidth: nat,
    computeUnits: nat, memoryPorts: nat,
    dispatchCapacity: nat, readyCapacity: nat)

  predicate IsMemoryOp(op: OpType) {
    op == Load || op == Store
  }

  /** Every dependency is among the retired ids. */
  predicate DepsSatisfied(x: Instruction, retired: set<nat>) {
    forall k :: 0 <= k < |x.deps| ==> x.deps[k] in retired
  }

  /** Cycles an instruction really holds its unit: a zero latency still costs one. */
  function ExecCycles(x: Instruction): nat {
    if x.latency == 0 then 1 else x.latency
  }

  ghost predicate DistinctIds(w: seq<Instruction>) {
    forall i, j :: 0 <= i < j < |w| ==> w[i].id != w[j].id
  }

  /** Instruction `i` depends on instruction `j`. */
  ghost predicate DependsOn(w: seq<Instruction>, i: nat, j: nat) {
    i < |w| && j < |w| && w[j].id in w[i].deps
  }

  /** One of the first `i` instructions carries the id `d`. */
  ghost predicate NamedBelow(w: seq<Instruction>, i: nat, d: nat) {
    exists j: nat :: j < i && j < |w| && w[j].id == d
  }

  /** Every dependency id belongs to some instruction. */
  ghost predicate DepsNamed(w: seq<Instruction>) {
    forall i, k :: 0 <= i < |w| && 0 <= k < |w[i].deps| ==> NamedBelow(w, |w|, w[i].deps[k])
  }
}
