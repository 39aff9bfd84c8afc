/**
 * Reset, Step and SaveStatus of src/behaviourtree.ts as functions on the
 * arena state.  Each is a walk over the subtree of a node; the methods of
 * `BehaviourTree.Tree` are proved to compute exactly these values, and the
 * lemmas here state what the walks guarantee.
 */
module BehaviourReset {
  import opened Wrappers
  import opened BehaviourShape
  import opened BehaviourState

  /** What each class's Reset override does after BehaviorNode.Reset. */
  function ResetOwn(k: Kind, ns: NodeState): (r: NodeState)
    ensures r.status == ns.status && r.lastResult == ns.lastResult
  {
    match k
    case Sequence => ns.(cursor := 1)
    case Selector => ns.(cursor := 1)
    case Loop(_) => ns.(cursor := 1, rep := 0)
    case Random => ns.(choice := None)
    case Priority(_, _, _) => ns.(choice := None)
    case Event(_) => ns.(triggered := false)
    case _ => ns
  }

  /**
   * BehaviorNode.Reset followed by the class override: a node that is not
   * READY becomes READY and resets its children, in order; then the
   * override clears the class's own cursor or flag.
   */
  function ResetF(shape: seq<Shape>, s: seq<NodeState>, i: nat): (r: seq<NodeState>)
    requires WellFormed(shape) && |s| == |shape| && i < |shape|
    ensures |r| == |s|
    decreases |shape| - i, 1
  {
    var s1 := if s[i].status != Ready then ResetFirst(shape, s[i := s[i].(status := Ready)], i, |shape[i].children|) else s;
    s1[i := ResetOwn(shape[i].kind, s1[i])]
  }

  /** Resets the first `n` children of `i`, in order. */
  function ResetFirst(shape: seq<Shape>, s: seq<NodeState>, i: nat, n: nat): (r: seq<NodeState>)
    requires WellFormed(shape) && |s| == |shape| && i < |shape| && n <= |shape[i].children|
    ensures |r| == |s|
    decreases |shape| - i, 0, n
  {
    if n == 0 then s else ResetF(shape, ResetFirst(shape, s, i, n - 1), shape[i].children[n - 1])
  }

  /**
   * Step: a node that is not RUNNING is Reset, a RUNNING one steps its
   * children.  ParallelNode instead resets its SUCCESS Condition children,
   * and EventNode clears `triggered` afterwards.
   */
  function StepF(shape: seq<Shape>, s: seq<NodeState>, i: nat): (r: seq<NodeState>)
    requires WellFormed(shape) && |s| == |shape| && i < |shape|
    ensures |r| == |s|
    decreases |shape| - i, 1
  {
    var s1 :=
      if s[i].status != Running then ResetF(shape, s, i)
      else if shape[i].kind.Parallel? then RearmFirst(shape, s, i, |shape[i].children|)
      else StepFirst(shape, s, i, |shape[i].children|);
    if shape[i].kind.Event? then s1[i := s1[i].(triggered := false)] else s1
  }

  /** Steps the first `n` children of `i`, in order. */
  function StepFirst(shape: seq<Shape>, s: seq<NodeState>, i: nat, n: nat): (r: seq<NodeState>)
    requires WellFormed(shape) && |s| == |shape| && i < |shape| && n <= |shape[i].children|
    ensures |r| == |s|
    decreases |shape| - i, 0, n
  {
    if n == 0 then s else StepF(shape, StepFirst(shape, s, i, n - 1), shape[i].children[n - 1])
  }

  /** ParallelNode.Step on a RUNNING node: reset each SUCCESS Condition child among the first `n`. */
  function RearmFirst(shape: seq<Shape>, s: seq<NodeState>, i: nat, n: nat): (r: seq<NodeState>)
    requires WellFormed(shape) && |s| == |shape| && i < |shape| && n <= |shape[i].children|
    ensures |r| == |s|
    decreases n
  {
    if n == 0 then s
    else
      var s1 := RearmFirst(shape, s, i, n - 1);
      var c := shape[i].children[n - 1];
      if s1[c].status == Success && shape[c].kind.Condition? then ResetF(shape, s1, c) else s1
  }

  /** SaveStatus: copy status into lastResult, then do the same for every child. */
  function SaveF(shape: seq<Shape>, s: seq<NodeState>, i: nat): (r: seq<NodeState>)
    requires WellFormed(shape) && |s| == |shape| && i < |shape|
    ensures |r| == |s|
    decreases |shape| - i, 1
  {
    SaveFirst(shape, s[i := s[i].(lastResult := s[i].status)], i, |shape[i].children|)
  }

  function SaveFirst(shape: seq<Shape>, s: seq<NodeState>, i: nat, n: nat): (r: seq<NodeState>)
    requires WellFormed(shape) && |s| == |shape| && i < |shape| && n <= |shape[i].children|
    ensures |r| == |s|
    decreases |shape| - i, 0, n
  {
    if n == 0 then s else SaveF(shape, SaveFirst(shape, s, i, n - 1), shape[i].children[n - 1])
  }

  /** The node `i` and the subtrees of its first `n` children. */
  ghost predicate InFirst(shape: seq<Shape>, i: nat, n: nat, j: nat)
    requires i < |shape| && n <= |shape[i].children| && j < |shape|
  {
    exists m :: 0 <= m < n && Under(shape, shape[i].children[m], j)
  }

  lemma InFirstUnder(shape: seq<Shape>, i: nat, n: nat, j: nat)
    requires WellFormed(shape) && i < |shape| && n <= |shape[i].children| && j < |shape|
    requires InFirst(shape, i, n, j)
    ensures Under(shape, i, j) && j != i
  {
    var m :| 0 <= m < n && Under(shape, shape[i].children[m], j);
    UnderChild(shape, i, shape[i].children[m], j);
    ChildParent(shape, i, shape[i].children[m]);
    UnderAtLeast(shape, shape[i].children[m], j);
  }

  /** Neither `i` itself nor anything outside its subtree is below one of its children. */
  lemma OutsideNotInFirst(shape: seq<Shape>, i: nat, n: nat)
    requires WellFormed(shape) && i < |shape| && n <= |shape[i].children|
    ensures forall j :: 0 <= j < |shape| && (j == i || !Under(shape, i, j)) ==> !InFirst(shape, i, n, j)
  {
    forall j | 0 <= j < |shape| && (j == i || !Under(shape, i, j))
      ensures !InFirst(shape, i, n, j)
    {
      if InFirst(shape, i, n, j) {
        InFirstUnder(shape, i, n, j);
      }
    }
  }

  // ---------------------------------------------------------------- Reset

  /** Reset only touches the subtree of the node it is called on. */
  lemma {:induction false} ResetFrame(shape: seq<Shape>, s: seq<NodeState>, i: nat)
    requires WellFormed(shape) && |s| == |shape| && i < |shape|
    ensures Confined(shape, s, ResetF(shape, s, i), i)
    decreases |shape| - i, 1
  {
    if s[i].status != Ready {
      var s0 := s[i := s[i].(status := Ready)];
      ResetFirstFrame(shape, s0, i, |shape[i].children|);
      OutsideNotInFirst(shape, i, |shape[i].children|);
    }
  }

  lemma {:induction false} ResetFirstFrame(shape: seq<Shape>, s: seq<NodeState>, i: nat, n: nat)
    requires WellFormed(shape) && |s| == |shape| && i < |shape| && n <= |shape[i].children|
    ensures var r := ResetFirst(shape, s, i, n);
      forall j :: 0 <= j < |s| && !InFirst(shape, i, n, j) ==> r[j] == s[j]
    decreases |shape| - i, 0, n
  {
    if n > 0 {
      var s1 := ResetFirst(shape, s, i, n - 1);
      var c := shape[i].children[n - 1];
      ResetFirstFrame(shape, s, i, n - 1);
      ChildParent(shape, i, c);
      ResetFrame(shape, s1, c);
      forall j | 0 <= j < |s| && !InFirst(shape, i, n, j)
        ensures ResetFirst(shape, s, i, n)[j] == s[j]
      {
        ConfinedAt(shape, s1, ResetF(shape, s1, c), c, j);
      }
    }
  }

  /** Reset makes the node READY and applies its class override; nothing else of it changes. */
  lemma ResetRoot(shape: seq<Shape>, s: seq<NodeState>, i: nat)
    requires WellFormed(shape) && |s| == |shape| && i < |shape|
    ensures ResetF(shape, s, i)[i] == ResetOwn(shape[i].kind, s[i].(status := Ready))
  {
    if s[i].status != Ready {
      var s0 := s[i := s[i].(status := Ready)];
      ResetFirstFrame(shape, s0, i, |shape[i].children|);
      OutsideNotInFirst(shape, i, |shape[i].children|);
    }
  }

  /** Resetting a READY node leaves its children untouched. */
  lemma ResetReadyShallow(shape: seq<Shape>, s: seq<NodeState>, i: nat)
    requires WellFormed(shape) && |s| == |shape| && i < |shape| && s[i].status == Ready
    ensures ResetF(shape, s, i) == s[i := ResetOwn(shape[i].kind, s[i])]
  {
  }

  /** Reset never changes a saved result. */
  lemma {:induction false} ResetKeepsResults(shape: seq<Shape>, s: seq<NodeState>, i: nat)
    requires WellFormed(shape) && |s| == |shape| && i < |shape|
    ensures ResultsKept(s, ResetF(shape, s, i))
    decreases |shape| - i, 1
  {
    if s[i].status != Ready {
      ResetFirstKeepsResults(shape, s[i := s[i].(status := Ready)], i, |shape[i].children|);
    }
  }

  lemma {:induction false} ResetFirstKeepsResults(shape: seq<Shape>, s: seq<NodeState>, i: nat, n: nat)
    requires WellFormed(shape) && |s| == |shape| && i < |shape| && n <= |shape[i].children|
    ensures ResultsKept(s, ResetFirst(shape, s, i, n))
    decreases |shape| - i, 0, n
  {
    if n > 0 {
      ResetFirstKeepsResults(shape, s, i, n - 1);
      ChildParent(shape, i, shape[i].children[n - 1]);
      ResetKeepsResults(shape, ResetFirst(shape, s, i, n - 1), shape[i].children[n - 1]);
    }
  }

  /** Resetting a node that was not READY leaves each of its children READY. */
  lemma ResetChildrenReady(shape: seq<Shape>, s: seq<NodeState>, i: nat, k: nat)
    requires WellFormed(shape) && |s| == |shape| && i < |shape| && k < |shape[i].children|
    requires s[i].status != Ready
    ensures ResetF(shape, s, i)[shape[i].children[k]].status == Ready
  {
    var s0 := s[i := s[i].(status := Ready)];
    ResetFirstChildReady(shape, s0, i, |shape[i].children|, k);
    ChildParent(shape, i, shape[i].children[k]);
  }

  lemma {:induction false} ResetFirstChildReady(shape: seq<Shape>, s: seq<NodeState>, i: nat, n: nat, k: nat)
    requires WellFormed(shape) && |s| == |shape| && i < |shape| && n <= |shape[i].children| && k < n
    ensures ResetFirst(shape, s, i, n)[shape[i].children[k]].status == Ready
    decreases n
  {
    var c := shape[i].children[n - 1];
    var s1 := ResetFirst(shape, s, i, n - 1);
    ChildParent(shape, i, c);
    if k == n - 1 {
      ResetRoot(shape, s1, c);
    } else {
      ResetFirstChildReady(shape, s, i, n - 1, k);
      ResetFrame(shape, s1, c);
      Links(shape, i);
      SiblingNotUnder(shape, i, c, shape[i].children[k]);
      ChildParent(shape, i, shape[i].children[k]);
      ConfinedAt(shape, s1, ResetF(shape, s1, c), c, shape[i].children[k]);
    }
  }

  /** Reset is idempotent. */
  lemma ResetIdempotent(shape: seq<Shape>, s: seq<NodeState>, i: nat)
    requires WellFormed(shape) && |s| == |shape| && i < |shape|
    ensures ResetF(shape, ResetF(shape, s, i), i) == ResetF(shape, s, i)
  {
    var r := ResetF(shape, s, i);
    ResetRoot(shape, s, i);
    ResetReadyShallow(shape, r, i);
    ResetOwnIdempotent(shape[i].kind, s[i].(status := Ready));
  }

  lemma ResetOwnIdempotent(k: Kind, ns: NodeState)
    ensures ResetOwn(k, ResetOwn(k, ns)) == ResetOwn(k, ns)
  {
  }

  /** Reset keeps every node's bounds. */
  lemma {:induction false} ResetKeepsOK(shape: seq<Shape>, s: seq<NodeState>, i: nat)
    requires WellFormed(shape) && StateOK(shape, s) && i < |shape|
    ensures StateOK(shape, ResetF(shape, s, i))
    decreases |shape| - i, 1
  {
    if s[i].status != Ready {
      ResetFirstKeepsOK(shape, s[i := s[i].(status := Ready)], i, |shape[i].children|);
    }
    ResetRoot(shape, s, i);
  }

  lemma {:induction false} ResetFirstKeepsOK(shape: seq<Shape>, s: seq<NodeState>, i: nat, n: nat)
    requires WellFormed(shape) && StateOK(shape, s) && i < |shape| && n <= |shape[i].children|
    ensures StateOK(shape, ResetFirst(shape, s, i, n))
    decreases |shape| - i, 0, n
  {
    if n > 0 {
      ResetFirstKeepsOK(shape, s, i, n - 1);
      ChildParent(shape, i, shape[i].children[n - 1]);
      ResetKeepsOK(shape, ResetFirst(shape, s, i, n - 1), shape[i].children[n - 1]);
    }
  }

  // ---------------------------------------------------------------- Step

  /** Step only touches the subtree of the node it is called on. */
  lemma {:induction false} StepFrame(shape: seq<Shape>, s: seq<NodeState>, i: nat)
    requires WellFormed(shape) && |s| == |shape| && i < |shape|
    ensures Confined(shape, s, StepF(shape, s, i), i)
    decreases |shape| - i, 1
  {
    var n := |shape[i].children|;
    OutsideNotInFirst(shape, i, n);
    if s[i].status != Running {
      ResetFrame(shape, s, i);
    } else if shape[i].kind.Parallel? {
      RearmFirstFrame(shape, s, i, n);
    } else {
      StepFirstFrame(shape, s, i, n);
    }
  }

  lemma {:induction false} StepFirstFrame(shape: seq<Shape>, s: seq<NodeState>, i: nat, n: nat)
    requires WellFormed(shape) && |s| == |shape| && i < |shape| && n <= |shape[i].children|
    ensures var r := StepFirst(shape, s, i, n);
      forall j :: 0 <= j < |s| && !InFirst(shape, i, n, j) ==> r[j] == s[j]
    decreases |shape| - i, 0, n
  {
    if n > 0 {
      var s1 := StepFirst(shape, s, i, n - 1);
      var c := shape[i].children[n - 1];
      StepFirstFrame(shape, s, i, n - 1);
      ChildParent(shape, i, c);
      StepFrame(shape, s1, c);
      forall j | 0 <= j < |s| && !InFirst(shape, i, n, j)
        ensures StepFirst(shape, s, i, n)[j] == s[j]
      {
        ConfinedAt(shape, s1, StepF(shape, s1, c), c, j);
      }
    }
  }

  lemma {:induction false} RearmFirstFrame(shape: seq<Shape>, s: seq<NodeState>, i: nat, n: nat)
    requires WellFormed(shape) && |s| == |shape| && i < |shape| && n <= |shape[i].children|
    ensures var r := RearmFirst(shape, s, i, n);
      forall j :: 0 <= j < |s| && !InFirst(shape, i, n, j) ==> r[j] == s[j]
    decreases n
  {
    if n > 0 {
      var s1 := RearmFirst(shape, s, i, n - 1);
      var c := shape[i].children[n - 1];
      RearmFirstFrame(shape, s, i, n - 1);
      ChildParent(shape, i, c);
      ResetFrame(shape, s1, c);
      forall j | 0 <= j < |s| && !InFirst(shape, i, n, j)
        ensures RearmFirst(shape, s, i, n)[j] == s[j]
      {
        ConfinedAt(shape, s1, ResetF(shape, s1, c), c, j);
      }
    }
  }

  /**
   * After Step a node is READY or RUNNING: RUNNING exactly when it was
   * RUNNING before, and an Event node is no longer triggered.
   */
  lemma StepRoot(shape: seq<Shape>, s: seq<NodeState>, i: nat)
    requires WellFormed(shape) && |s| == |shape| && i < |shape|
    ensures var r := StepF(shape, s, i);
      && r[i].status == (if s[i].status == Running then Running else Ready)
      && (shape[i].kind.Event? ==> !r[i].triggered)
      && r[i].lastResult == s[i].lastResult
  {
    var n := |shape[i].children|;
    if s[i].status != Running {
      ResetRoot(shape, s, i);
    } else if shape[i].kind.Parallel? {
      RearmFirstFrame(shape, s, i, n);
      OutsideNotInFirst(shape, i, n);
    } else {
      StepFirstFrame(shape, s, i, n);
      OutsideNotInFirst(shape, i, n);
    }
  }

  /** Step never changes a saved result. */
  lemma {:induction false} StepKeepsResults(shape: seq<Shape>, s: seq<NodeState>, i: nat)
    requires WellFormed(shape) && |s| == |shape| && i < |shape|
    ensures ResultsKept(s, StepF(shape, s, i))
    decreases |shape| - i, 1
  {
    var n := |shape[i].children|;
    if s[i].status != Running {
      ResetKeepsResults(shape, s, i);
    } else if shape[i].kind.Parallel? {
      RearmFirstKeepsResults(shape, s, i, n);
    } else {
      StepFirstKeepsResults(shape, s, i, n);
    }
  }

  lemma {:induction false} StepFirstKeepsResults(shape: seq<Shape>, s: seq<NodeState>, i: nat, n: nat)
    requires WellFormed(shape) && |s| == |shape| && i < |shape| && n <= |shape[i].children|
    ensures ResultsKept(s, StepFirst(shape, s, i, n))
    decreases |shape| - i, 0, n
  {
    if n > 0 {
      StepFirstKeepsResults(shape, s, i, n - 1);
      ChildParent(shape, i, shape[i].children[n - 1]);
      StepKeepsResults(shape, StepFirst(shape, s, i, n - 1), shape[i].children[n - 1]);
    }
  }

  lemma {:induction false} RearmFirstKeepsResults(shape: seq<Shape>, s: seq<NodeState>, i: nat, n: nat)
    requires WellFormed(shape) && |s| == |shape| && i < |shape| && n <= |shape[i].children|
    ensures ResultsKept(s, RearmFirst(shape, s, i, n))
    decreases n
  {
    if n > 0 {
      RearmFirstKeepsResults(shape, s, i, n - 1);
      ResetKeepsResults(shape, RearmFirst(shape, s, i, n - 1), shape[i].children[n - 1]);
    }
  }

  /** Step keeps every node's bounds. */
  lemma {:induction false} StepKeepsOK(shape: seq<Shape>, s: seq<NodeState>, i: nat)
    requires WellFormed(shape) && StateOK(shape, s) && i < |shape|
    ensures StateOK(shape, StepF(shape, s, i))
    decreases |shape| - i, 1
  {
    var n := |shape[i].children|;
    if s[i].status != Running {
      ResetKeepsOK(shape, s, i);
    } else if shape[i].kind.Parallel? {
      RearmFirstKeepsOK(shape, s, i, n);
      RearmFirstFrame(shape, s, i, n);
      OutsideNotInFirst(shape, i, n);
    } else {
      StepFirstKeepsOK(shape, s, i, n);
      StepFirstFrame(shape, s, i, n);
      OutsideNotInFirst(shape, i, n);
    }
    if s[i].status != Running {
      ResetRoot(shape, s, i);
    }
  }

  lemma {:induction false} StepFirstKeepsOK(shape: seq<Shape>, s: seq<NodeState>, i: nat, n: nat)
    requires WellFormed(shape) && StateOK(shape, s) && i < |shape| && n <= |shape[i].children|
    ensures StateOK(shape, StepFirst(shape, s, i, n))
    decreases |shape| - i, 0, n
  {
    if n > 0 {
      StepFirstKeepsOK(shape, s, i, n - 1);
      ChildParent(shape, i, shape[i].children[n - 1]);
      StepKeepsOK(shape, StepFirst(shape, s, i, n - 1), shape[i].children[n - 1]);
    }
  }

  lemma {:induction false} RearmFirstKeepsOK(shape: seq<Shape>, s: seq<NodeState>, i: nat, n: nat)
    requires WellFormed(shape) && StateOK(shape, s) && i < |shape| && n <= |shape[i].children|
    ensures StateOK(shape, RearmFirst(shape, s, i, n))
    decreases n
  {
    if n > 0 {
      RearmFirstKeepsOK(shape, s, i, n - 1);
      ResetKeepsOK(shape, RearmFirst(shape, s, i, n - 1), shape[i].children[n - 1]);
    }
  }

  // ---------------------------------------------------------------- SaveStatus

  /** SaveStatus records, for exactly the nodes of the subtree, their status as lastResult. */
  lemma {:induction false} SaveSpec(shape: seq<Shape>, s: seq<NodeState>, i: nat, j: nat)
    requires WellFormed(shape) && |s| == |shape| && i < |shape| && j < |shape|
    ensures SaveF(shape, s, i)[j] == if Under(shape, i, j) then s[j].(lastResult := s[j].status) else s[j]
    decreases |shape| - i, 1
  {
    var s0 := s[i := s[i].(lastResult := s[i].status)];
    var n := |shape[i].children|;
    if j == i {
      SaveFirstOutside(shape, s0, i, n, j);
    } else if Under(shape, i, j) {
      var k := UnderSomeChild(shape, i, j);
      SaveFirstInside(shape, s0, i, n, k, j);
      assert s0[j] == s[j];
    } else {
      SaveFirstOutside(shape, s0, i, n, j);
    }
  }

  lemma {:induction false} SaveFirstOutside(shape: seq<Shape>, s: seq<NodeState>, i: nat, n: nat, j: nat)
    requires WellFormed(shape) && |s| == |shape| && i < |shape| && n <= |shape[i].children| && j < |shape|
    requires j == i || !Under(shape, i, j)
    ensures SaveFirst(shape, s, i, n)[j] == s[j]
    decreases |shape| - i, 0, n
  {
    if n > 0 {
      var c := shape[i].children[n - 1];
      ChildParent(shape, i, c);
      SaveFirstOutside(shape, s, i, n - 1, j);
      SaveSpec(shape, SaveFirst(shape, s, i, n - 1), c, j);
      if Under(shape, c, j) {
        UnderChild(shape, i, c, j);
        UnderAtLeast(shape, c, j);
      }
    }
  }

  lemma {:induction false} SaveFirstInside(shape: seq<Shape>, s: seq<NodeState>, i: nat, n: nat, k: nat, j: nat)
    requires WellFormed(shape) && |s| == |shape| && i < |shape| && n <= |shape[i].children| && j < |shape|
    requires k < |shape[i].children| && Under(shape, shape[i].children[k], j)
    ensures SaveFirst(shape, s, i, n)[j] == if k < n then s[j].(lastResult := s[j].status) else s[j]
    decreases |shape| - i, 0, n
  {
    if n > 0 {
      var c := shape[i].children[n - 1];
      ChildParent(shape, i, c);
      SaveFirstInside(shape, s, i, n - 1, k, j);
      SaveSpec(shape, SaveFirst(shape, s, i, n - 1), c, j);
      if k != n - 1 {
        assert shape[i].children[k] in shape[i].children;
        Links(shape, i);
        SiblingsDisjoint(shape, i, shape[i].children[k], c, j);
      }
    }
  }
}
