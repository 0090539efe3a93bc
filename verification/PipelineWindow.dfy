/** A small abstraction of the pipeline that decides whether a run ends: a window of
    dispatched instructions of bounded size, from which an instruction leaves once
    instructions that already left carry all its dependency ids. */
module PipelineWindow {
  import opened Instructions
  import opened Arithmetic

  /** The first `p` instructions were dispatched; those in `gone` left the dispatch queue. */
  datatype Window = Window(p: nat, gone: set<nat>)

  function Ids(w: seq<Instruction>, c: set<nat>): set<nat> {
    set i | i in c && i < |w| :: w[i].id
  }

  predicate Proper(w: seq<Instruction>, v: Window) {
    v.p <= |w| && v.gone <= UpTo(v.p)
  }

  function Leavers(w: seq<Instruction>, v: Window): set<nat> {
    set i: nat | i < v.p && i < |w| && i !in v.gone && DepsSatisfied(w[i], Ids(w, v.gone))
  }

  predicate CanEnter(w: seq<Instruction>, cap: nat, v: Window) {
    v.p < |w| && v.p - |v.gone| < cap
  }

  function AllOf(w: seq<Instruction>): set<nat> {
    UpTo(|w|)
  }

  lemma GoneSize(w: seq<Instruction>, v: Window)
    requires Proper(w, v)
    ensures |v.gone| <= v.p <= |w| && |v.gone + Leavers(w, v)| <= v.p
  {
    UpToSize(v.p);
    SubsetSize(v.gone, UpTo(v.p));
    SubsetSize(v.gone + Leavers(w, v), UpTo(v.p));
  }

  lemma LeaversGrow(w: seq<Instruction>, v: Window)
    requires Proper(w, v) && Leavers(w, v) != {}
    ensures |v.gone + Leavers(w, v)| > |v.gone|
  {
    var i :| i in Leavers(w, v);
    SubsetSize(v.gone + {i}, v.gone + Leavers(w, v));
  }

  /** Let everything leave that can, admit one more, and repeat until nothing moves. */
  function Close(w: seq<Instruction>, cap: nat, v: Window): (r: Window)
    requires Proper(w, v)
    ensures Proper(w, r)
    decreases 2 * |w| - v.p - |v.gone|
  {
    GoneSize(w, v);
    if Leavers(w, v) != {} then
      LeaversGrow(w, v);
      Close(w, cap, Window(v.p, v.gone + Leavers(w, v)))
    else if CanEnter(w, cap, v) then
      Close(w, cap, Window(v.p + 1, v.gone))
    else v
  }

  /** Every instruction gets through the window. */
  predicate WindowCompletes(w: seq<Instruction>, cap: nat) {
    Close(w, cap, Window(0, {})).gone == AllOf(w)
  }

  predicate Jammed(w: seq<Instruction>, cap: nat, v: Window) {
    Proper(w, v) && Leavers(w, v) == {} && !CanEnter(w, cap, v)
  }

  predicate Within(a: Window, b: Window) {
    a.p <= b.p && a.gone <= b.gone
  }

  lemma {:induction false} CloseIsJammed(w: seq<Instruction>, cap: nat, v: Window)
    requires Proper(w, v)
    ensures Jammed(w, cap, Close(w, cap, v)) && Within(v, Close(w, cap, v))
    decreases 2 * |w| - v.p - |v.gone|
  {
    GoneSize(w, v);
    if Leavers(w, v) != {} {
      LeaversGrow(w, v);
      CloseIsJammed(w, cap, Window(v.p, v.gone + Leavers(w, v)));
    } else if CanEnter(w, cap, v) {
      CloseIsJammed(w, cap, Window(v.p + 1, v.gone));
    }
  }

  /** A jammed window bounds every window below it: what can leave below has left above. */
  lemma JammedBoundsLeavers(w: seq<Instruction>, cap: nat, v: Window, top: Window, i: nat)
    requires Proper(w, v) && Jammed(w, cap, top) && Within(v, top)
    requires i < v.p && i < |w| && DepsSatisfied(w[i], Ids(w, v.gone))
    ensures i in top.gone
  {
    assert DepsSatisfied(w[i], Ids(w, top.gone)) by {
      forall k | 0 <= k < |w[i].deps| ensures w[i].deps[k] in Ids(w, top.gone) {
        assert w[i].deps[k] in Ids(w, v.gone);
      }
    }
    assert i !in Leavers(w, top);
  }

  /** And what can enter below has entered above. */
  lemma JammedBoundsEntry(w: seq<Instruction>, cap: nat, v: Window, top: Window)
    requires Proper(w, v) && Jammed(w, cap, top) && Within(v, top) && CanEnter(w, cap, v)
    ensures v.p < top.p
  {
    if v.p == top.p {
      SubsetSize(v.gone, top.gone);
    }
  }

  lemma {:induction false} CloseStaysWithin(w: seq<Instruction>, cap: nat, v: Window, top: Window)
    requires Proper(w, v) && Jammed(w, cap, top) && Within(v, top)
    ensures Within(Close(w, cap, v), top)
    decreases 2 * |w| - v.p - |v.gone|
  {
    GoneSize(w, v);
    if Leavers(w, v) != {} {
      LeaversGrow(w, v);
      forall i | i in Leavers(w, v) ensures i in top.gone { JammedBoundsLeavers(w, cap, v, top, i); }
      CloseStaysWithin(w, cap, Window(v.p, v.gone + Leavers(w, v)), top);
    } else if CanEnter(w, cap, v) {
      JammedBoundsEntry(w, cap, v, top);
      CloseStaysWithin(w, cap, Window(v.p + 1, v.gone), top);
    }
  }

  /** The order of moves does not matter: every jammed window reachable from below contains
      the closure, so the closure decides completion. */
  lemma JammedBelowAll(w: seq<Instruction>, cap: nat, top: Window)
    requires Jammed(w, cap, top) && top.gone != AllOf(w)
    ensures !WindowCompletes(w, cap)
  {
    CloseStaysWithin(w, cap, Window(0, {}), top);
    CloseIsJammed(w, cap, Window(0, {}));
  }

  // ---------- programs whose dependencies point backwards ----------

  /** Every dependency id belongs to an earlier instruction. */
  ghost predicate BackwardDeps(w: seq<Instruction>) {
    forall i, k :: 0 <= i < |w| && 0 <= k < |w[i].deps| ==> NamedBelow(w, i, w[i].deps[k])
  }

  /** The oldest instruction still in the window can always leave. */
  lemma BackwardLeaves(w: seq<Instruction>, v: Window, i: nat)
    requires BackwardDeps(w) && Proper(w, v) && i < v.p && i !in v.gone
    requires forall j: nat :: j < i ==> j in v.gone
    ensures i in Leavers(w, v)
  {
    forall k | 0 <= k < |w[i].deps| ensures w[i].deps[k] in Ids(w, v.gone) {
      assert NamedBelow(w, i, w[i].deps[k]);
      var j: nat :| j < i && j < |w| && w[j].id == w[i].deps[k];
      assert j in v.gone;
    }
  }

  lemma Oldest(v: Window, n: nat) returns (i: nat)
    requires n <= v.p
    ensures i <= n && (forall j: nat :: j < i ==> j in v.gone) && (i < n ==> i !in v.gone)
  {
    i := 0;
    while i < n && i in v.gone
      invariant i <= n && forall j: nat :: j < i ==> j in v.gone
    {
      i := i + 1;
    }
  }

  /** Backward dependencies always get through, with any dispatch capacity of at least one. */
  lemma BackwardCompletes(w: seq<Instruction>, cap: nat)
    requires BackwardDeps(w) && cap > 0
    ensures WindowCompletes(w, cap)
  {
    var v := Close(w, cap, Window(0, {}));
    CloseIsJammed(w, cap, Window(0, {}));
    var i := Oldest(v, v.p);
    if i < v.p {
      BackwardLeaves(w, v, i);
    }
    assert v.gone == UpTo(v.p);
    UpToSize(v.p);
  }
}
