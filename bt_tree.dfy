/**
 * The behaviour-tree nodes of src/behaviourtree.ts as one object: the
 * shape of the tree is fixed, the per-node fields are updated in place by
 * Visit, Reset, Step, SaveStatus and the Event callbacks.
 */
module BehaviourTree {
  import opened Wrappers
  import opened BehaviourShape
  import opened BehaviourState
  import opened BehaviourReset

  /** Which child statuses stop a left-to-right walk. */
  datatype ScanMode = SequenceScan | SelectorScan

  /** A Sequence (and a Loop) stops at RUNNING or FAILED, a Selector at RUNNING or SUCCESS. */
  predicate Halts(mode: ScanMode, st: Status)
  {
    st == Running || (if mode.SequenceScan? then st == Failed else st == Success)
  }

  /** The 1-based index a Sequence, Selector or Loop resumes from. */
  function ResumeCursor(ns: NodeState): (c: int)
    ensures ns.status != Running ==> c == 1
  {
    if ns.status == Running then ns.cursor else 1
  }

  /** NotDecorator, FailIfRunningDecorator and FailIfSuccessDecorator. */
  function Remap(k: Kind, child: Status): (r: Status)
    requires k.Not? || k.FailIfRunning? || k.FailIfSuccess?
    ensures k.Not? ==> (r == Failed <==> child == Success) && (r == Success <==> child == Failed)
                       && (child == Running || child == Ready ==> r == child)
    ensures k.FailIfRunning? ==> r != Running && (child != Running ==> r == child)
    ensures k.FailIfSuccess? ==> r != Success && (child != Success ==> r == child)
  {
    match k
    case Not => if child == Success then Failed else if child == Failed then Success else child
    case FailIfRunning => if child == Running then Failed else child
    case FailIfSuccess => if child == Success then Failed else child
  }

  /** Position `k` of a circular walk over `n` children that starts at `start`. */
  function Circ(start: nat, k: nat, n: nat): (r: nat)
    requires start < n && k < n
    ensures r < n
    ensures r == (start + k) % n
  {
    if start + k < n then start + k else start + k - n
  }

  /** Visit changed nothing outside the subtree and no saved result. */
  ghost predicate Framed(shape: seq<Shape>, s0: seq<NodeState>, s1: seq<NodeState>, i: nat)
  {
    Confined(shape, s0, s1, i) && ResultsKept(s0, s1)
  }

  /** The Priority ancestors of `i` with lasttime cleared, as EventNode.onEvent's DoToParents does. */
  ghost function ClearedAbove(shape: seq<Shape>, s: seq<NodeState>, i: nat): (r: seq<NodeState>)
    requires |s| == |shape| && i < |shape|
    ensures |r| == |s|
    ensures forall j :: 0 <= j < |s| ==>
      r[j] == if j != i && Under(shape, j, i) && shape[j].kind.Priority? then s[j].(lasttime := None) else s[j]
  {
    seq(|s|, j requires 0 <= j < |s| =>
      if j != i && Under(shape, j, i) && shape[j].kind.Priority? then s[j].(lasttime := None) else s[j])
  }

  /** The state right after EventNode.onEvent's own updates: the child reset if RUNNING, then triggered. */
  function Triggered(shape: seq<Shape>, s: seq<NodeState>, i: nat): (r: seq<NodeState>)
    requires WellFormed(shape) && |s| == |shape| && i < |shape| && shape[i].kind.Event?
    ensures |r| == |s| && r[i] == s[i].(triggered := true)
  {
    var s1 := if s[i].status == Running then ResetF(shape, s, shape[i].children[0]) else s;
    ChildParent(shape, i, shape[i].children[0]);
    ResetFrame(shape, s, shape[i].children[0]);
    NotUnderLater(shape, shape[i].children[0], i);
    ConfinedAt(shape, s, ResetF(shape, s, shape[i].children[0]), shape[i].children[0], i);
    s1[i := s1[i].(triggered := true)]
  }

  /** The Event nodes of the subtree of `i`. */
  ghost function EventsBelow(shape: seq<Shape>, i: nat): set<nat>
  {
    set j: nat | j < |shape| && Under(shape, i, j) && shape[j].kind.Event?
  }

  /** Priority's `doEval`: never evaluated, or the period has elapsed. */
  predicate DoEval(k: Kind, ns: NodeState, time: real)
    requires k.Priority?
  {
    ns.lasttime.None? || ns.lasttime.value + k.period < time
  }

  /**
   * Priority's `shouldTestAnyway` for child `m`: the previously selected
   * child `prev` is an Event node, and so is child `m`, with at least its
   * priority.
   */
  predicate TestAnyway(shape: seq<Shape>, i: nat, prev: Option<nat>, m: nat)
    requires WellFormed(shape) && i < |shape| && m < |shape[i].children|
    requires prev.Some? ==> prev.value < |shape[i].children|
  {
    var cs := shape[i].children;
    prev.Some? && shape[cs[prev.value]].kind.Event? && shape[cs[m]].kind.Event? &&
    shape[cs[prev.value]].kind.priority <= shape[cs[m]].kind.priority
  }

  /** Latch's test `GetTime() > currentlatchduration + lastlatchtime`, with -Infinity as None. */
  predicate LatchOpen(ns: NodeState, time: real)
  {
    ns.lastlatchtime.None? || time > ns.currentlatchduration + ns.lastlatchtime.value
  }

  /** Loop's stop test `maxreps !== null && rep >= maxreps`. */
  predicate LoopDone(k: Kind, rep: int)
    requires k.Loop?
  {
    k.maxreps.Some? && rep >= k.maxreps.value
  }

  /** What the Visit of child `k` leaves of its parent and its siblings. */
  lemma AfterChild(shape: seq<Shape>, s0: seq<NodeState>, before: seq<NodeState>, after: seq<NodeState>, i: nat, k: nat)
    requires WellFormed(shape) && i < |shape| && k < |shape[i].children|
    requires Framed(shape, s0, before, i) && Framed(shape, before, after, shape[i].children[k])
    ensures Framed(shape, s0, after, i) && after[i] == before[i]
    ensures forall m :: 0 <= m < |shape[i].children| && m != k ==>
      SubtreeSame(shape, before, after, shape[i].children[m]) &&
      after[shape[i].children[m]] == before[shape[i].children[m]]
  {
    var c := shape[i].children[k];
    ChildParent(shape, i, c);
    ConfinedChild(shape, before, after, i, c);
    ConfinedBefore(shape, before, after, c, i);
    forall m | 0 <= m < |shape[i].children| && m != k
      ensures SubtreeSame(shape, before, after, shape[i].children[m])
      ensures after[shape[i].children[m]] == before[shape[i].children[m]]
    {
      Links(shape, i);
      ConfinedSibling(shape, before, after, i, c, shape[i].children[m]);
    }
  }

  /** A Reset of a node is a Visit-like change of its subtree that leaves it READY. */
  lemma ResetFramed(shape: seq<Shape>, s: seq<NodeState>, c: nat)
    requires WellFormed(shape) && |s| == |shape| && c < |shape|
    ensures Framed(shape, s, ResetF(shape, s, c), c) && ResetF(shape, s, c)[c].status == Ready
  {
    ResetFrame(shape, s, c);
    ResetKeepsResults(shape, s, c);
    ResetRoot(shape, s, c);
  }

  /** Resetting all children of a node that was not READY changes only below it and leaves them READY. */
  lemma ResetChildrenFramed(shape: seq<Shape>, s: seq<NodeState>, i: nat)
    requires WellFormed(shape) && |s| == |shape| && i < |shape|
    ensures var r := ResetFirst(shape, s, i, |shape[i].children|);
      && Framed(shape, s, r, i) && r[i] == s[i]
      && forall m :: 0 <= m < |shape[i].children| ==> r[shape[i].children[m]].status == Ready
  {
    var n := |shape[i].children|;
    var r := ResetFirst(shape, s, i, n);
    ResetFirstFrame(shape, s, i, n);
    OutsideNotInFirst(shape, i, n);
    ConfinedIntro(shape, s, r, i);
    ResetFirstKeepsResults(shape, s, i, n);
    forall m | 0 <= m < n
      ensures r[shape[i].children[m]].status == Ready
    {
      ResetFirstChildReady(shape, s, i, n, m);
    }
  }

  /** Consecutive positions of a circular walk, and its return to the start. */
  lemma CircNext(start: nat, k: nat, n: nat)
    requires start < n && k < n
    ensures var next := if Circ(start, k, n) + 1 >= n then 0 else Circ(start, k, n) + 1;
      (k + 1 < n ==> next == Circ(start, k + 1, n)) && (next == start <==> k + 1 == n)
  {
  }

  /** A circular walk visits each child once. */
  lemma CircDistinct(start: nat, k1: nat, k2: nat, n: nat)
    requires start < n && k1 < n && k2 < n && k1 != k2
    ensures Circ(start, k1, n) != Circ(start, k2, n)
  {
  }

  /**
   * What ParallelNode's loop knows after the first `k` children: none of
   * them FAILED, its Condition children passed their test, `done` and
   * `anyDone` say whether none and whether some of them are RUNNING, and
   * the SUCCESS children that are not Conditions were not visited.
   */
  ghost predicate ParallelSoFar(shape: seq<Shape>, s0: seq<NodeState>, s: seq<NodeState>, i: nat, env: Env,
                                k: nat, done: bool, anyDone: bool)
    requires WellFormed(shape) && |s0| == |shape| && |s| == |shape| && i < |shape| && k <= |shape[i].children|
  {
    var cs := shape[i].children;
    && (done <==> forall m :: 0 <= m < k ==> s[cs[m]].status != Running)
    && (anyDone <==> exists m :: 0 <= m < k && s[cs[m]].status != Running)
    && (forall m :: 0 <= m < k ==> s[cs[m]].status != Failed)
    && (forall m :: 0 <= m < k && shape[cs[m]].kind.Condition? ==> s[cs[m]].status == Success && env.test(cs[m]))
    && (forall m :: 0 <= m < k && s0[cs[m]].status == Success && !shape[cs[m]].kind.Condition? ==>
          SubtreeSame(shape, s0, s, cs[m]))
  }

  /** One more child walked by ParallelNode's loop, and it did not FAIL. */
  lemma ParallelStep(shape: seq<Shape>, s0: seq<NodeState>, before: seq<NodeState>, after: seq<NodeState>,
                     i: nat, env: Env, k: nat, done: bool, anyDone: bool, done': bool, anyDone': bool)
    requires WellFormed(shape) && |s0| == |shape| && |before| == |shape| && |after| == |shape|
    requires i < |shape| && k < |shape[i].children|
    requires ParallelSoFar(shape, s0, before, i, env, k, done, anyDone)
    requires SubtreeSame(shape, s0, before, shape[i].children[k])
    requires forall m :: 0 <= m < |shape[i].children| && m != k ==>
      SubtreeSame(shape, before, after, shape[i].children[m]) &&
      after[shape[i].children[m]] == before[shape[i].children[m]]
    requires var c := shape[i].children[k];
      && (shape[c].kind.Condition? ==> after[c].status == if env.test(c) then Success else Failed)
      && (!shape[c].kind.Condition? && before[c].status == Success ==> after == before)
      && after[c].status != Failed
      && (done' <==> done && after[c].status != Running)
      && (anyDone' <==> anyDone || after[c].status != Running)
    ensures ParallelSoFar(shape, s0, after, i, env, k + 1, done', anyDone')
  {
    SubtreeRoot(shape, s0, before, shape[i].children[k]);
  }

  /** Changing only child `k`'s subtree keeps what the loop knows about the first `k` children. */
  lemma ParallelKeep(shape: seq<Shape>, s0: seq<NodeState>, before: seq<NodeState>, after: seq<NodeState>,
                     i: nat, env: Env, k: nat, done: bool, anyDone: bool)
    requires WellFormed(shape) && |s0| == |shape| && |before| == |shape| && |after| == |shape|
    requires i < |shape| && k <= |shape[i].children|
    requires ParallelSoFar(shape, s0, before, i, env, k, done, anyDone)
    requires forall m :: 0 <= m < k ==>
      SubtreeSame(shape, before, after, shape[i].children[m]) &&
      after[shape[i].children[m]] == before[shape[i].children[m]]
    ensures ParallelSoFar(shape, s0, after, i, env, k, done, anyDone)
  {
  }

  /** What the loop knows, spelled out child by child. */
  lemma ParallelOutcome(shape: seq<Shape>, s0: seq<NodeState>, s: seq<NodeState>, i: nat, env: Env,
                        k: nat, done: bool, anyDone: bool)
    requires WellFormed(shape) && |s0| == |shape| && |s| == |shape|
    requires i < |shape| && k <= |shape[i].children|
    requires ParallelSoFar(shape, s0, s, i, env, k, done, anyDone)
    ensures done <==> forall m :: 0 <= m < k ==> s[shape[i].children[m]].status != Running
    ensures anyDone <==> exists m :: 0 <= m < k && s[shape[i].children[m]].status != Running
    ensures forall m :: 0 <= m < k ==> s[shape[i].children[m]].status != Failed
    ensures forall m :: 0 <= m < k && shape[shape[i].children[m]].kind.Condition? ==>
      s[shape[i].children[m]].status == Success && env.test(shape[i].children[m])
    ensures forall m :: 0 <= m < k && s0[shape[i].children[m]].status == Success &&
                        !shape[shape[i].children[m]].kind.Condition? ==>
              SubtreeSame(shape, s0, s, shape[i].children[m])
  {
  }

  /**
   * What RandomNode's walk from `start` knows after `tried` children
   * failed: those children FAILED, and the children it has not reached
   * are untouched.
   */
  ghost predicate RandomSoFar(shape: seq<Shape>, s0: seq<NodeState>, s: seq<NodeState>, i: nat, start: nat, tried: nat)
    requires WellFormed(shape) && |s0| == |shape| && |s| == |shape| && i < |shape|
    requires start < |shape[i].children| && tried <= |shape[i].children|
  {
    var cs := shape[i].children; var n := |cs|;
    && (forall k :: 0 <= k < tried ==> s[cs[Circ(start, k, n)]].status == Failed)
    && (forall k :: tried < k < n ==> SubtreeSame(shape, s0, s, cs[Circ(start, k, n)]))
  }

  /** A change confined to the child at position `tried` (or to the node itself) keeps what the walk knows. */
  lemma RandomKeep(shape: seq<Shape>, s0: seq<NodeState>, before: seq<NodeState>, after: seq<NodeState>,
                   i: nat, start: nat, tried: nat)
    requires WellFormed(shape) && |s0| == |shape| && |before| == |shape| && |after| == |shape| && i < |shape|
    requires start < |shape[i].children| && tried < |shape[i].children|
    requires RandomSoFar(shape, s0, before, i, start, tried)
    requires forall m :: 0 <= m < |shape[i].children| && m != Circ(start, tried, |shape[i].children|) ==>
      SubtreeSame(shape, before, after, shape[i].children[m]) &&
      after[shape[i].children[m]] == before[shape[i].children[m]]
    ensures RandomSoFar(shape, s0, after, i, start, tried)
  {
    var n := |shape[i].children|;
    forall k | 0 <= k < n && k != tried
      ensures Circ(start, k, n) != Circ(start, tried, n)
    {
      CircDistinct(start, k, tried, n);
    }
  }

  /** The child at position `tried` FAILED: the walk knows one more failure. */
  lemma RandomStep(shape: seq<Shape>, s0: seq<NodeState>, before: seq<NodeState>, after: seq<NodeState>,
                   i: nat, start: nat, tried: nat)
    requires WellFormed(shape) && |s0| == |shape| && |before| == |shape| && |after| == |shape| && i < |shape|
    requires start < |shape[i].children| && tried < |shape[i].children|
    requires RandomSoFar(shape, s0, before, i, start, tried)
    requires forall m :: 0 <= m < |shape[i].children| && m != Circ(start, tried, |shape[i].children|) ==>
      SubtreeSame(shape, before, after, shape[i].children[m]) &&
      after[shape[i].children[m]] == before[shape[i].children[m]]
    requires after[shape[i].children[Circ(start, tried, |shape[i].children|)]].status == Failed
    ensures RandomSoFar(shape, s0, after, i, start, tried + 1)
    ensures tried + 1 < |shape[i].children| ==>
      SubtreeSame(shape, s0, after, shape[i].children[Circ(start, tried + 1, |shape[i].children|)])
  {
    RandomKeep(shape, s0, before, after, i, start, tried);
  }

  /** What the walk knows holds just as well against a state that differs from `s0` only at the node itself. */
  lemma RandomRebase(shape: seq<Shape>, s00: seq<NodeState>, s0: seq<NodeState>, s: seq<NodeState>,
                     i: nat, start: nat, tried: nat)
    requires WellFormed(shape) && |s00| == |shape| && |s0| == |shape| && |s| == |shape| && i < |shape|
    requires start < |shape[i].children| && tried <= |shape[i].children|
    requires forall m :: 0 <= m < |shape[i].children| ==> SubtreeSame(shape, s00, s0, shape[i].children[m])
    requires RandomSoFar(shape, s0, s, i, start, tried)
    ensures RandomSoFar(shape, s00, s, i, start, tried)
  {
  }

  /**
   * What PriorityNode's evaluation knows after trying or resetting the
   * first `k` children, `first` being the position of the first child
   * that qualified (the number of children while none has): the selected
   * child is that one or a later Event child tested anyway, and the node
   * carries its status; no other child seen is SUCCESS or RUNNING; and
   * every child after `first` that was not tested anyway is READY.
   */
  ghost predicate PrioritySoFar(shape: seq<Shape>, s: seq<NodeState>, i: nat, prev: Option<nat>, k: nat, first: nat)
    requires WellFormed(shape) && |s| == |shape| && i < |shape| && k <= |shape[i].children|
    requires prev.Some? ==> prev.value < |shape[i].children|
  {
    var cs := shape[i].children; var n := |cs|; var sel := s[i].choice;
    && first <= n
    && (first < n ==>
          && first < k && sel.Some? && first <= sel.value < k
          && (sel.value == first || TestAnyway(shape, i, prev, sel.value))
          && s[i].status == s[cs[sel.value]].status
          && (s[i].status == Success || s[i].status == Running))
    && (forall m :: 0 <= m < k && !(first < n && sel == Some(m)) ==>
          s[cs[m]].status != Success && s[cs[m]].status != Running)
    && (forall m :: first < m < k && !TestAnyway(shape, i, prev, m) ==> s[cs[m]].status == Ready)
  }

  /** Child `k` was reset, or tried without qualifying: the evaluation knows one more child. */
  lemma PrioritySkip(shape: seq<Shape>, before: seq<NodeState>, after: seq<NodeState>,
                     i: nat, prev: Option<nat>, k: nat, first: nat)
    requires WellFormed(shape) && |before| == |shape| && |after| == |shape| && i < |shape|
    requires k < |shape[i].children| && (prev.Some? ==> prev.value < |shape[i].children|)
    requires PrioritySoFar(shape, before, i, prev, k, first)
    requires after[i] == before[i]
    requires forall m :: 0 <= m < |shape[i].children| && m != k ==>
      after[shape[i].children[m]] == before[shape[i].children[m]]
    requires after[shape[i].children[k]].status != Success && after[shape[i].children[k]].status != Running
    requires first < |shape[i].children| && !TestAnyway(shape, i, prev, k) ==>
      after[shape[i].children[k]].status == Ready
    ensures PrioritySoFar(shape, after, i, prev, k + 1, first)
  {
  }

  /**
   * Child `k` qualified and becomes the selection; the selection it
   * replaces, if any, was reset, and every earlier child is unchanged or
   * READY.
   */
  lemma PrioritySelect(shape: seq<Shape>, before: seq<NodeState>, after: seq<NodeState>,
                       i: nat, prev: Option<nat>, k: nat, first: nat)
    requires WellFormed(shape) && |before| == |shape| && |after| == |shape| && i < |shape|
    requires k < |shape[i].children| && (prev.Some? ==> prev.value < |shape[i].children|)
    requires PrioritySoFar(shape, before, i, prev, k, first)
    requires first < |shape[i].children| ==> TestAnyway(shape, i, prev, k)
    requires after[i] == before[i].(status := after[shape[i].children[k]].status, choice := Some(k))
    requires after[shape[i].children[k]].status == Success || after[shape[i].children[k]].status == Running
    requires forall m :: 0 <= m < k ==>
      after[shape[i].children[m]] == before[shape[i].children[m]] || after[shape[i].children[m]].status == Ready
    requires first < |shape[i].children| ==>
      before[i].choice.Some? && before[i].choice.value < k &&
      after[shape[i].children[before[i].choice.value]].status == Ready
    ensures PrioritySoFar(shape, after, i, prev, k + 1, if first < |shape[i].children| then first else k)
  {
  }

  class Tree {
    const shape: seq<Shape>
    var state: seq<NodeState>
    /** The Event nodes whose callback is registered with ListenForEvent. */
    var listening: set<nat>

    ghost predicate Valid()
      reads this
    {
      WellFormed(shape) && StateOK(shape, state)
    }

    /** Builds every node; each EventNode constructor registers its callback. */
    constructor (shape: seq<Shape>)
      requires WellFormed(shape)
      ensures Valid() && this.shape == shape && state == InitState(shape)
      ensures listening == set j: nat | j < |shape| && shape[j].kind.Event?
    {
      this.shape := shape;
      state := InitState(shape);
      listening := set j: nat | j < |shape| && shape[j].kind.Event?;
    }

    // ------------------------------------------------------------ Reset, Step, SaveStatus

    method Reset(i: nat)
      requires Valid() && i < |shape|
      modifies this`state
      ensures Valid() && state == ResetF(shape, old(state), i)
      decreases |shape| - i, 1
    {
      if state[i].status != Ready {
        state := state[i := state[i].(status := Ready)];
        ghost var s0 := state;
        ResetChildren(i);
        ResetFirstFrame(shape, s0, i, |shape[i].children|);
        OutsideNotInFirst(shape, i, |shape[i].children|);
      }
      state := state[i := ResetOwn(shape[i].kind, state[i])];
    }

    /** `for (const child of this.children) child.Reset()`. */
    method ResetChildren(i: nat)
      requires Valid() && i < |shape|
      modifies this`state
      ensures Valid() && state == ResetFirst(shape, old(state), i, |shape[i].children|)
      decreases |shape| - i, 0
    {
      var n := 0;
      while n < |shape[i].children|
        invariant n <= |shape[i].children|
        invariant Valid() && state == ResetFirst(shape, old(state), i, n)
      {
        ChildParent(shape, i, shape[i].children[n]);
        Reset(shape[i].children[n]);
        n := n + 1;
      }
    }

    method Step(i: nat)
      requires Valid() && i < |shape|
      modifies this`state
      ensures Valid() && state == StepF(shape, old(state), i)
      decreases |shape| - i, 2
    {
      if state[i].status != Running {
        Reset(i);
      } else if shape[i].kind.Parallel? {
        RearmConditions(i);
      } else {
        StepChildren(i);
      }
      if shape[i].kind.Event? {
        state := state[i := state[i].(triggered := false)];
      }
    }

    method StepChildren(i: nat)
      requires Valid() && i < |shape|
      modifies this`state
      ensures Valid() && state == StepFirst(shape, old(state), i, |shape[i].children|)
      decreases |shape| - i, 0
    {
      var n := 0;
      while n < |shape[i].children|
        invariant n <= |shape[i].children|
        invariant Valid() && state == StepFirst(shape, old(state), i, n)
      {
        ChildParent(shape, i, shape[i].children[n]);
        Step(shape[i].children[n]);
        n := n + 1;
      }
    }

    /** ParallelNode.Step on a RUNNING node: reset each SUCCESS ConditionNode child. */
    method RearmConditions(i: nat)
      requires Valid() && i < |shape|
      modifies this`state
      ensures Valid() && state == RearmFirst(shape, old(state), i, |shape[i].children|)
      decreases |shape| - i, 0
    {
      var n := 0;
      while n < |shape[i].children|
        invariant n <= |shape[i].children|
        invariant Valid() && state == RearmFirst(shape, old(state), i, n)
      {
        var c := shape[i].children[n];
        ChildParent(shape, i, c);
        if state[c].status == Success && shape[c].kind.Condition? {
          Reset(c);
        }
        n := n + 1;
      }
    }

    method SaveStatus(i: nat)
      requires Valid() && i < |shape|
      modifies this`state
      ensures Valid() && state == SaveF(shape, old(state), i)
      decreases |shape| - i, 1
    {
      state := state[i := state[i].(lastResult := state[i].status)];
      var n := 0;
      ghost var s0 := state;
      while n < |shape[i].children|
        invariant n <= |shape[i].children|
        invariant Valid() && state == SaveFirst(shape, s0, i, n)
      {
        ChildParent(shape, i, shape[i].children[n]);
        SaveStatus(shape[i].children[n]);
        n := n + 1;
      }
    }

    // ------------------------------------------------------------ Stop and the Event callbacks

    /**
     * BehaviorNode.Stop walks the subtree and does nothing else: it never
     * calls EventNode.onStop, so the EventNode callbacks stay registered.
     */
    method Stop(i: nat)
      requires Valid() && i < |shape|
      ensures listening == old(listening) && state == old(state)
      decreases |shape| - i
    {
      for n := 0 to |shape[i].children| {
        ChildParent(shape, i, shape[i].children[n]);
        Stop(shape[i].children[n]);
      }
    }

    /** EventNode.onStop: unregister the callback, once. */
    method OnStop(i: nat)
      requires Valid() && i < |shape| && shape[i].kind.Event?
      modifies this`listening
      ensures listening == old(listening) - {i}
    {
      if i in listening {
        listening := listening - {i};
      }
    }

    /** Stop as evidently intended: every Event node of the subtree unregisters its callback. */
    method StopIntended(i: nat)
      requires Valid() && i < |shape|
      modifies this`listening
      ensures listening == old(listening) - EventsBelow(shape, i)
      decreases |shape| - i
    {
      if shape[i].kind.Event? {
        OnStop(i);
      }
      var n := 0;
      while n < |shape[i].children|
        invariant n <= |shape[i].children|
        invariant forall j :: j in listening <==>
          j in old(listening) && !(j < |shape| && (j == i || InFirst(shape, i, n, j)) && shape[j].kind.Event?)
      {
        var c := shape[i].children[n];
        ChildParent(shape, i, c);
        StopIntended(c);
        forall j: nat | j < |shape|
          ensures InFirst(shape, i, n + 1, j) <==> InFirst(shape, i, n, j) || Under(shape, c, j)
        {
          if InFirst(shape, i, n + 1, j) {
            var m :| 0 <= m < n + 1 && Under(shape, shape[i].children[m], j);
          }
        }
        n := n + 1;
      }
      forall j: nat | j < |shape|
        ensures (j == i || InFirst(shape, i, n, j)) <==> Under(shape, i, j)
      {
        if InFirst(shape, i, n, j) {
          InFirstUnder(shape, i, n, j);
        }
        if Under(shape, i, j) && j != i {
          var k := UnderSomeChild(shape, i, j);
        }
      }
    }

    /** DoToParents clearing `lasttime` on every Priority ancestor. */
    method ClearPriorityAncestors(i: nat)
      requires Valid() && i < |shape|
      modifies this`state
      ensures Valid() && state == ClearedAbove(shape, old(state), i)
    {
      Links(shape, i);
      var p: Option<nat> := shape[i].parent;
      while p.Some?
        invariant Valid()
        invariant p.Some? ==> p.value < |shape| && p.value != i && Under(shape, p.value, i)
        invariant forall j :: 0 <= j < |state| ==>
          state[j] == if j != i && Under(shape, j, i) && !(p.Some? && Under(shape, j, p.value)) && shape[j].kind.Priority?
                      then old(state)[j].(lasttime := None) else old(state)[j]
        decreases if p.Some? then p.value + 1 else 0
      {
        var a := p.value;
        if shape[a].kind.Priority? {
          state := state[a := state[a].(lasttime := None)];
        }
        Links(shape, a);
        p := shape[a].parent;
        if p.Some? {
          UnderTrans(shape, p.value, a, i);
        }
        forall j | 0 <= j < |shape|
          ensures Under(shape, j, a) <==> j == a || (p.Some? && Under(shape, j, p.value))
        {
        }
        if p.Some? && Under(shape, a, p.value) {
          UnderAtLeast(shape, a, p.value);
        }
      }
    }

    /**
     * EventNode.onEvent as written: the RUNNING child is reset and the
     * node is triggered; then, when the entity has a brain, the call
     * `inst.brain.forceUpdate()` names a method that Brain does not have
     * (it has ForceUpdate), so it throws and the Priority ancestors keep
     * their `lasttime`.
     */
    method OnEvent(i: nat, brainAttached: bool) returns (thrown: bool)
      requires Valid() && i < |shape| && shape[i].kind.Event?
      modifies this`state
      ensures Valid() && thrown == brainAttached
      ensures thrown ==> state == Triggered(shape, old(state), i)
      ensures !thrown ==> state == ClearedAbove(shape, Triggered(shape, old(state), i), i)
    {
      var c := shape[i].children[0];
      ChildParent(shape, i, c);
      if state[i].status == Running {
        Reset(c);
      }
      state := state[i := state[i].(triggered := true)];
      if brainAttached {
        return true;
      }
      thrown := false;
      ClearPriorityAncestors(i);
    }

    /**
     * EventNode.onEvent as evidently intended: the brain is told to update
     * (the caller runs Brain.ForceUpdate when `forceBrain` is set) and the
     * Priority ancestors always re-evaluate.
     */
    method OnEventIntended(i: nat, brainAttached: bool) returns (forceBrain: bool)
      requires Valid() && i < |shape| && shape[i].kind.Event?
      modifies this`state
      ensures Valid() && forceBrain == brainAttached
      ensures state == ClearedAbove(shape, Triggered(shape, old(state), i), i)
    {
      var c := shape[i].children[0];
      ChildParent(shape, i, c);
      if state[i].status == Running {
        Reset(c);
      }
      state := state[i := state[i].(triggered := true)];
      forceBrain := brainAttached;
      ClearPriorityAncestors(i);
    }

    // ------------------------------------------------------------ Visit

    /** BehaviorNode.Visit dispatched on the node's class. */
    method Visit(i: nat, env: Env)
      requires Valid() && i < |shape|
      modifies this`state
      ensures Valid() && Framed(shape, old(state), state, i)
      ensures shape[i].kind.Condition? ==> state[i].status == if env.test(i) then Success else Failed
      decreases |shape| - i, 3
    {
      match shape[i].kind
      case Base => VisitBase(i);
      case Condition => VisitCondition(i, env);
      case MultiCondition => VisitMultiCondition(i, env);
      case ConditionWait => VisitConditionWait(i, env);
      case Action => VisitAction(i);
      case Wait(_) => VisitWait(i, env);
      case Sequence => VisitSequence(i, env);
      case Selector => VisitSelector(i, env);
      case Not => VisitDecorator(i, env);
      case FailIfRunning => VisitDecorator(i, env);
      case FailIfSuccess => VisitDecorator(i, env);
      case Loop(_) => ghost var _ := VisitLoop(i, env);
      case Random => ghost var _ := VisitRandom(i, env);
      case Priority(_, _, _) => ghost var _ := VisitPriority(i, env);
      case Parallel(_) => ghost var _, _, _ := VisitParallel(i, env);
      case Event(_) => VisitEvent(i, env);
      case Latch(_) => VisitLatch(i, env);
    }

    /** Replaces node `i`'s own fields, keeping its saved result. */
    method SetOwn(i: nat, x: NodeState)
      requires Valid() && i < |shape| && x.lastResult == state[i].lastResult && LocalOK(shape[i], x)
      modifies this`state
      ensures Valid() && state == old(state)[i := x] && Framed(shape, old(state), state, i)
      ensures forall m :: 0 <= m < |shape[i].children| ==>
        SubtreeSame(shape, old(state), state, shape[i].children[m]) &&
        state[shape[i].children[m]] == old(state)[shape[i].children[m]]
    {
      OwnUpdate(shape, state, i, x);
      forall m | 0 <= m < |shape[i].children|
        ensures state[i := x][shape[i].children[m]] == state[shape[i].children[m]]
      {
        ChildParent(shape, i, shape[i].children[m]);
      }
      state := state[i := x];
    }

    /** A plain BehaviorNode or DecoratorNode fails. */
    method VisitBase(i: nat)
      requires Valid() && i < |shape| && shape[i].kind.Base?
      modifies this`state
      ensures Valid() && state == old(state)[i := old(state[i]).(status := Failed)]
    {
      state := state[i := state[i].(status := Failed)];
    }

    /** ConditionNode: SUCCESS exactly when the test holds, otherwise FAILED. */
    method VisitCondition(i: nat, env: Env)
      requires Valid() && i < |shape| && shape[i].kind.Condition?
      modifies this`state
      ensures Valid() && state == old(state)[i := old(state[i]).(status := state[i].status)]
      ensures state[i].status == Success || state[i].status == Failed
      ensures state[i].status == Success <==> env.test(i)
    {
      state := state[i := state[i].(status := if env.test(i) then Success else Failed)];
    }

    /**
     * MultiConditionNode: the start test while not running, the continue
     * test while running; SUCCESS exactly when the node is then running.
     */
    method VisitMultiCondition(i: nat, env: Env)
      requires Valid() && i < |shape| && shape[i].kind.MultiCondition?
      modifies this`state
      ensures Valid() && state == old(state)[i := old(state[i]).(status := state[i].status, running := state[i].running)]
      ensures state[i].running == if old(state[i].running) then env.proceed(i) else env.test(i)
      ensures state[i].status == Success || state[i].status == Failed
      ensures state[i].status == Success <==> state[i].running
    {
      var running := if !state[i].running then env.test(i) else env.proceed(i);
      state := state[i := state[i].(running := running, status := if running then Success else Failed)];
    }

    /** ConditionWaitNode: SUCCESS when the test holds, otherwise RUNNING; never FAILED. */
    method VisitConditionWait(i: nat, env: Env)
      requires Valid() && i < |shape| && shape[i].kind.ConditionWait?
      modifies this`state
      ensures Valid() && state == old(state)[i := old(state[i]).(status := state[i].status)]
      ensures state[i].status == Success || state[i].status == Running
      ensures state[i].status == Success <==> env.test(i)
    {
      state := state[i := state[i].(status := if env.test(i) then Success else Running)];
    }

    /** ActionNode: the action runs (a host call) and the node succeeds. */
    method VisitAction(i: nat)
      requires Valid() && i < |shape| && shape[i].kind.Action?
      modifies this`state
      ensures Valid() && state == old(state)[i := old(state[i]).(status := Success)]
    {
      state := state[i := state[i].(status := Success)];
    }

    /**
     * WaitNode: the first visit sets the wake time `now + waitTime`; the
     * node succeeds once `now` reaches it and otherwise stays RUNNING and
     * records a sleep of `now - wakeTime` milliseconds (a negative amount,
     * added to a time in seconds).
     */
    method VisitWait(i: nat, env: Env)
      requires Valid() && i < |shape| && shape[i].kind.Wait?
      modifies this`state
      ensures Valid()
      ensures state == old(state)[i := old(state[i]).(status := state[i].status, wakeTime := state[i].wakeTime,
                                                      nextUpdateTime := state[i].nextUpdateTime)]
      ensures state[i].wakeTime == if old(state[i].status) == Running then old(state[i].wakeTime)
                                   else env.now as real + shape[i].kind.waitTime
      ensures state[i].status == Success || state[i].status == Running
      ensures state[i].status == Success <==> env.now as real >= state[i].wakeTime
      ensures state[i].status == Running ==>
        state[i].nextUpdateTime == Seconds(env.now) + (env.now as real - state[i].wakeTime)
      ensures state[i].status == Success ==> state[i].nextUpdateTime == old(state[i].nextUpdateTime)
    {
      var currentTime := env.now as real;
      if state[i].status != Running {
        state := state[i := state[i].(wakeTime := currentTime + shape[i].kind.waitTime, status := Running)];
      }
      if currentTime >= state[i].wakeTime {
        state := state[i := state[i].(status := Success)];
      } else {
        state := state[i := state[i].(nextUpdateTime := Seconds(env.now) + (currentTime - state[i].wakeTime))];
      }
    }

    /**
     * The walk shared by Sequence, Selector and Loop: from the current
     * 1-based cursor, visit each child in order and stop at the first one
     * whose status halts the walk, leaving the cursor on it; otherwise the
     * cursor ends one past the last child.
     */
    method ScanChildren(i: nat, env: Env, mode: ScanMode) returns (halted: bool)
      requires Valid() && i < |shape| && IsCursorKind(shape[i].kind)
      modifies this`state
      ensures Valid() && Framed(shape, old(state), state, i)
      ensures state[i] == old(state[i]).(cursor := state[i].cursor)
      ensures old(state[i].cursor) <= state[i].cursor <= |shape[i].children| + 1
      ensures halted <==> state[i].cursor <= |shape[i].children|
      ensures halted ==> Halts(mode, state[shape[i].children[state[i].cursor - 1]].status)
      ensures forall m :: old(state[i].cursor) - 1 <= m < state[i].cursor - 1 ==>
        !Halts(mode, state[shape[i].children[m]].status)
      ensures forall m :: 0 <= m < |shape[i].children| && (m < old(state[i].cursor) - 1 || m >= state[i].cursor) ==>
        SubtreeSame(shape, old(state), state, shape[i].children[m])
      decreases |shape| - i, 1
    {
      var cs := shape[i].children;
      ghost var s0 := state;
      ghost var start := state[i].cursor;
      while state[i].cursor <= |cs|
        invariant Valid() && Framed(shape, s0, state, i)
        invariant state[i] == s0[i].(cursor := state[i].cursor)
        invariant start <= state[i].cursor <= |cs| + 1
        invariant forall m :: start - 1 <= m < state[i].cursor - 1 ==> !Halts(mode, state[cs[m]].status)
        invariant forall m :: 0 <= m < |cs| && (m < start - 1 || m >= state[i].cursor - 1) ==>
          SubtreeSame(shape, s0, state, cs[m])
        decreases |cs| + 1 - state[i].cursor
      {
        var k := state[i].cursor - 1;
        var c := cs[k];
        ghost var before := state;
        ChildParent(shape, i, c);
        Visit(c, env);
        AfterChild(shape, s0, before, state, i, k);
        if Halts(mode, state[c].status) {
          return true;
        }
        SetOwn(i, state[i].(cursor := k + 2));
      }
      halted := false;
    }

    /**
     * SequenceNode: resume at the saved child while RUNNING, else at the
     * first; the node takes the status of the first child that is RUNNING
     * or FAILED, and SUCCESS when every remaining child passed.
     */
    method VisitSequence(i: nat, env: Env)
      requires Valid() && i < |shape| && shape[i].kind.Sequence?
      modifies this`state
      ensures Valid() && Framed(shape, old(state), state, i)
      ensures var cs := shape[i].children; var c0 := ResumeCursor(old(state[i])); var c := state[i].cursor;
        && state[i] == old(state[i]).(status := state[i].status, cursor := c)
        && c0 <= c <= |cs| + 1
        && (forall m :: c0 - 1 <= m < c - 1 ==> state[cs[m]].status == Success || state[cs[m]].status == Ready)
        && (c <= |cs| ==> state[i].status == state[cs[c - 1]].status &&
                           (state[i].status == Running || state[i].status == Failed))
        && (c == |cs| + 1 ==> state[i].status == Success)
        && (forall m :: 0 <= m < |cs| && (m < c0 - 1 || m >= c) ==> SubtreeSame(shape, old(state), state, cs[m]))
      decreases |shape| - i, 2
    {
      if state[i].status != Running {
        SetOwn(i, state[i].(cursor := 1));
      }
      var halted := ScanChildren(i, env, SequenceScan);
      var cs := shape[i].children;
      if halted {
        SetOwn(i, state[i].(status := state[cs[state[i].cursor - 1]].status));
      } else {
        SetOwn(i, state[i].(status := Success));
      }
    }

    /**
     * SelectorNode: like Sequence, but it stops at the first child that is
     * RUNNING or SUCCESS and FAILS when every remaining child failed.
     */
    method VisitSelector(i: nat, env: Env)
      requires Valid() && i < |shape| && shape[i].kind.Selector?
      modifies this`state
      ensures Valid() && Framed(shape, old(state), state, i)
      ensures var cs := shape[i].children; var c0 := ResumeCursor(old(state[i])); var c := state[i].cursor;
        && state[i] == old(state[i]).(status := state[i].status, cursor := c)
        && c0 <= c <= |cs| + 1
        && (forall m :: c0 - 1 <= m < c - 1 ==> state[cs[m]].status == Failed || state[cs[m]].status == Ready)
        && (c <= |cs| ==> state[i].status == state[cs[c - 1]].status &&
                           (state[i].status == Running || state[i].status == Success))
        && (c == |cs| + 1 ==> state[i].status == Failed)
        && (forall m :: 0 <= m < |cs| && (m < c0 - 1 || m >= c) ==> SubtreeSame(shape, old(state), state, cs[m]))
      decreases |shape| - i, 2
    {
      if state[i].status != Running {
        SetOwn(i, state[i].(cursor := 1));
      }
      var halted := ScanChildren(i, env, SelectorScan);
      var cs := shape[i].children;
      if halted {
        SetOwn(i, state[i].(status := state[cs[state[i].cursor - 1]].status));
      } else {
        SetOwn(i, state[i].(status := Failed));
      }
    }

    /** The three decorators: visit the only child and map its status. */
    method VisitDecorator(i: nat, env: Env)
      requires Valid() && i < |shape|
      requires shape[i].kind.Not? || shape[i].kind.FailIfRunning? || shape[i].kind.FailIfSuccess?
      modifies this`state
      ensures Valid() && Framed(shape, old(state), state, i)
      ensures state[i] == old(state[i]).(status := Remap(shape[i].kind, state[shape[i].children[0]].status))
      decreases |shape| - i, 2
    {
      var c := shape[i].children[0];
      ghost var s0 := state;
      ChildParent(shape, i, c);
      Visit(c, env);
      AfterChild(shape, s0, s0, state, i, 0);
      SetOwn(i, state[i].(status := Remap(shape[i].kind, state[c].status)));
    }

    /**
     * LoopNode: a walk like Sequence's.  When every child passed, the
     * cursor returns to 1 and `rep` counts the repetition; the node then
     * succeeds if `maxreps` is reached and otherwise resets all children,
     * leaving its own status as it was.
     */
    method VisitLoop(i: nat, env: Env) returns (ghost halted: bool)
      requires Valid() && i < |shape| && shape[i].kind.Loop?
      modifies this`state
      ensures Valid() && Framed(shape, old(state), state, i)
      ensures var cs := shape[i].children; var c0 := ResumeCursor(old(state[i])); var c := state[i].cursor;
        var rep0 := if old(state[i].status) == Running then old(state[i].rep) else 0;
        && (halted ==>
              && c0 <= c <= |cs|
              && state[i] == old(state[i]).(status := state[cs[c - 1]].status, cursor := c, rep := rep0)
              && (state[i].status == Running || state[i].status == Failed)
              && (forall m :: c0 - 1 <= m < c - 1 ==> state[cs[m]].status == Success || state[cs[m]].status == Ready)
              && (forall m :: 0 <= m < |cs| && (m < c0 - 1 || m >= c) ==> SubtreeSame(shape, old(state), state, cs[m])))
        && (!halted && LoopDone(shape[i].kind, rep0 + 1) ==>
              && state[i] == old(state[i]).(status := Success, cursor := 1, rep := rep0 + 1)
              && (forall m :: c0 - 1 <= m < |cs| ==> state[cs[m]].status == Success || state[cs[m]].status == Ready))
        && (!halted && !LoopDone(shape[i].kind, rep0 + 1) ==>
              && state[i] == old(state[i]).(cursor := 1, rep := rep0 + 1)
              && (forall m :: 0 <= m < |cs| ==> state[cs[m]].status == Ready))
      decreases |shape| - i, 2
    {
      if state[i].status != Running {
        SetOwn(i, state[i].(cursor := 1, rep := 0));
      }
      var stopped := ScanChildren(i, env, SequenceScan);
      halted := stopped;
      var cs := shape[i].children;
      if stopped {
        SetOwn(i, state[i].(status := state[cs[state[i].cursor - 1]].status));
        return;
      }
      LoopWrap(i);
    }

    /** A LoopNode whose children all completed: one more repetition, then SUCCESS or a fresh round. */
    method LoopWrap(i: nat)
      requires Valid() && i < |shape| && shape[i].kind.Loop?
      modifies this`state
      ensures Valid() && Framed(shape, old(state), state, i)
      ensures LoopDone(shape[i].kind, old(state[i].rep) + 1) ==>
        state == old(state)[i := old(state[i]).(status := Success, cursor := 1, rep := old(state[i].rep) + 1)]
      ensures !LoopDone(shape[i].kind, old(state[i].rep) + 1) ==>
        && state[i] == old(state[i]).(cursor := 1, rep := old(state[i].rep) + 1)
        && state == ResetFirst(shape, old(state)[i := state[i]], i, |shape[i].children|)
        && forall m :: 0 <= m < |shape[i].children| ==> state[shape[i].children[m]].status == Ready
    {
      SetOwn(i, state[i].(cursor := 1, rep := state[i].rep + 1));
      if LoopDone(shape[i].kind, state[i].rep) {
        SetOwn(i, state[i].(status := Success));
      } else {
        ResetChildrenFramed(shape, state, i);
        ResetChildren(i);
      }
    }

    /**
     * RandomNode.  From READY it picks a start child and walks the children
     * circularly, taking the status of the first child that does not fail,
     * and FAILS when the walk returns to the start.  Otherwise it visits
     * the chosen child again and copies its status.  `tried` counts the
     * children of the walk that failed.
     */
    method VisitRandom(i: nat, env: Env) returns (ghost tried: nat)
      requires Valid() && i < |shape| && shape[i].kind.Random?
      modifies this`state
      ensures Valid() && Framed(shape, old(state), state, i)
      ensures state[i] == old(state[i]).(status := state[i].status, choice := state[i].choice)
      ensures state[i].choice.Some?
      ensures var cs := shape[i].children; var c := state[i].choice.value;
        old(state[i].status) != Ready ==>
          && state[i].choice == old(state[i].choice)
          && state[i].status == state[cs[c]].status
          && (forall m :: 0 <= m < |cs| && m != c ==> SubtreeSame(shape, old(state), state, cs[m]))
      ensures var n := |shape[i].children|; var start := env.pick(i) % n;
        old(state[i].status) == Ready ==>
          && tried <= n
          && (tried == n <==> state[i].status == Failed)
          && RandomSoFar(shape, old(state), state, i, start, tried)
          && (tried < n ==> state[i].choice == Some(Circ(start, tried, n)) &&
                            state[i].status == state[shape[i].children[Circ(start, tried, n)]].status)
          && (tried == n ==> state[i].choice == Some(start))
      decreases |shape| - i, 2
    {
      var cs := shape[i].children;
      var n := |cs|;
      if state[i].status == Ready {
        var start := env.pick(i) % n;
        var idx := start;
        SetOwn(i, state[i].(choice := Some(idx)));
        ghost var s1 := state;
        tried := 0;
        while true
          invariant Valid() && Framed(shape, s1, state, i)
          invariant tried < n && idx == Circ(start, tried, n)
          invariant state[i] == s1[i].(choice := Some(idx))
          invariant RandomSoFar(shape, s1, state, i, start, tried)
          invariant SubtreeSame(shape, s1, state, cs[idx])
          decreases n - tried
        {
          var finished := RandomNext(i, env, s1, start, tried);
          if finished {
            if state[i].status == Failed {
              tried := n;
            }
            RandomRebase(shape, old(state), s1, state, i, start, tried);
            return;
          }
          tried := tried + 1;
          idx := state[i].choice.value;
        }
      } else {
        tried := RandomResume(i, env);
      }
    }

    /** RandomNode already started: the chosen child is visited again and its status copied. */
    method RandomResume(i: nat, env: Env) returns (ghost k: nat)
      requires Valid() && i < |shape| && shape[i].kind.Random? && state[i].status != Ready
      modifies this`state
      ensures Valid() && Framed(shape, old(state), state, i)
      ensures var cs := shape[i].children;
        && state[i].choice.Some? && state[i].choice == old(state[i].choice)
        && state[i] == old(state[i]).(status := state[cs[state[i].choice.value]].status)
        && (forall m :: 0 <= m < |cs| && m != state[i].choice.value ==> SubtreeSame(shape, old(state), state, cs[m]))
      decreases |shape| - i, 1
    {
      var j := state[i].choice.value;
      var c := shape[i].children[j];
      k := j;
      ChildParent(shape, i, c);
      Visit(c, env);
      AfterChild(shape, old(state), old(state), state, i, j);
      SetOwn(i, state[i].(status := state[c].status));
    }

    /**
     * One pass of RandomNode's walk, on the child at position `tried`:
     * the node takes its status unless it FAILED; otherwise the walk moves
     * on, and the node FAILS when it is back at the start.
     */
    method RandomNext(i: nat, env: Env, ghost s0: seq<NodeState>, start: nat, ghost tried: nat) returns (finished: bool)
      requires Valid() && i < |shape| && shape[i].kind.Random? && |s0| == |shape|
      requires start < |shape[i].children| && tried < |shape[i].children|
      requires Framed(shape, s0, state, i) && state[i] == s0[i].(choice := Some(Circ(start, tried, |shape[i].children|)))
      requires RandomSoFar(shape, s0, state, i, start, tried)
      requires SubtreeSame(shape, s0, state, shape[i].children[Circ(start, tried, |shape[i].children|)])
      modifies this`state
      ensures Valid() && Framed(shape, s0, state, i)
      ensures var n := |shape[i].children|; var c := shape[i].children[Circ(start, tried, n)];
        && (finished && state[i].status != Failed ==>
              && state[i] == s0[i].(choice := Some(Circ(start, tried, n)), status := state[c].status)
              && RandomSoFar(shape, s0, state, i, start, tried))
        && (finished && state[i].status == Failed ==>
              && tried + 1 == n
              && state[i] == s0[i].(choice := Some(start), status := Failed)
              && RandomSoFar(shape, s0, state, i, start, n))
        && (!finished ==>
              && tried + 1 < n
              && state[i] == s0[i].(choice := Some(Circ(start, tried + 1, n)))
              && RandomSoFar(shape, s0, state, i, start, tried + 1)
              && SubtreeSame(shape, s0, state, shape[i].children[Circ(start, tried + 1, n)]))
      decreases |shape| - i, 1
    {
      var cs := shape[i].children;
      var n := |cs|;
      var idx := state[i].choice.value;
      var c := cs[idx];
      ghost var before := state;
      ChildParent(shape, i, c);
      Visit(c, env);
      AfterChild(shape, s0, before, state, i, idx);
      if state[c].status != Failed {
        RandomKeep(shape, s0, before, state, i, start, tried);
        SetOwn(i, state[i].(status := state[c].status));
        RandomKeep(shape, s0, before, state, i, start, tried);
        return true;
      }
      finished := RandomAdvance(i, s0, start, tried, before);
    }

    /** RandomNode's child at position `tried` FAILED: move to the next child, or FAIL once back at `start`. */
    method RandomAdvance(i: nat, ghost s0: seq<NodeState>, start: nat, ghost tried: nat, ghost before: seq<NodeState>)
      returns (finished: bool)
      requires Valid() && i < |shape| && shape[i].kind.Random? && |s0| == |shape| && |before| == |shape|
      requires start < |shape[i].children| && tried < |shape[i].children|
      requires Framed(shape, s0, state, i) && state[i] == s0[i].(choice := Some(Circ(start, tried, |shape[i].children|)))
      requires RandomSoFar(shape, s0, before, i, start, tried)
      requires forall m :: 0 <= m < |shape[i].children| && m != Circ(start, tried, |shape[i].children|) ==>
        SubtreeSame(shape, before, state, shape[i].children[m]) &&
        state[shape[i].children[m]] == before[shape[i].children[m]]
      requires state[shape[i].children[Circ(start, tried, |shape[i].children|)]].status == Failed
      modifies this`state
      ensures Valid() && Framed(shape, s0, state, i)
      ensures var n := |shape[i].children|;
        && (finished ==>
              && tried + 1 == n
              && state[i] == s0[i].(choice := Some(start), status := Failed)
              && RandomSoFar(shape, s0, state, i, start, n))
        && (!finished ==>
              && tried + 1 < n
              && state[i] == s0[i].(choice := Some(Circ(start, tried + 1, n)))
              && RandomSoFar(shape, s0, state, i, start, tried + 1)
              && SubtreeSame(shape, s0, state, shape[i].children[Circ(start, tried + 1, n)]))
    {
      var n := |shape[i].children|;
      var idx := state[i].choice.value;
      CircNext(start, tried, n);
      idx := idx + 1;
      if idx >= n {
        idx := 0;
      }
      SetOwn(i, state[i].(choice := Some(idx)));
      RandomStep(shape, s0, before, state, i, start, tried);
      if idx == start {
        SetOwn(i, state[i].(status := Failed));
        RandomStep(shape, s0, before, state, i, start, tried);
        return true;
      }
      finished := false;
    }

    /**
     * One child of a ParallelNode: a Condition child is reset, and a child
     * that is not SUCCESS is visited.
     */
    method ParallelChild(c: nat, env: Env)
      requires Valid() && c < |shape|
      modifies this`state
      ensures Valid() && Framed(shape, old(state), state, c)
      ensures shape[c].kind.Condition? ==> state[c].status == if env.test(c) then Success else Failed
      ensures !shape[c].kind.Condition? && old(state[c].status) == Success ==> state == old(state)
      decreases |shape| - c, 4
    {
      if shape[c].kind.Condition? {
        ResetFramed(shape, state, c);
        Reset(c);
      }
      if state[c].status != Success {
        Visit(c, env);
      }
    }

    /**
     * ParallelNode: visit every child that has not succeeded (Condition
     * children are reset first, so they are always re-tested); FAIL at the
     * first child that fails; otherwise SUCCESS when no child is RUNNING,
     * or, for ParallelNodeAny, when some child is not RUNNING; else RUNNING.
     */
    method VisitParallel(i: nat, env: Env) returns (ghost stop: nat, ghost done: bool, ghost anyDone: bool)
      requires Valid() && i < |shape| && shape[i].kind.Parallel?
      modifies this`state
      ensures Valid() && Framed(shape, old(state), state, i)
      ensures state[i] == old(state[i]).(status := state[i].status)
      ensures stop <= |shape[i].children|
      ensures ParallelSoFar(shape, old(state), state, i, env, stop, done, anyDone)
      ensures stop < |shape[i].children| ==>
        && state[i].status == Failed
        && state[shape[i].children[stop]].status == Failed
        && (old(state)[shape[i].children[stop]].status != Success || shape[shape[i].children[stop]].kind.Condition?)
        && (forall m :: stop < m < |shape[i].children| ==> SubtreeSame(shape, old(state), state, shape[i].children[m]))
      ensures stop == |shape[i].children| ==>
        state[i].status == if done || (shape[i].kind.stopOnAnyComplete && anyDone) then Success else Running
      decreases |shape| - i, 2
    {
      var failedAt, allDone, someDone := ParallelWalk(i, env);
      ghost var s1 := state;
      stop, done, anyDone := failedAt, allDone, someDone;
      if failedAt < |shape[i].children| {
        SetOwn(i, state[i].(status := Failed));
      } else {
        SetOwn(i, state[i].(status := if allDone || (shape[i].kind.stopOnAnyComplete && someDone) then Success else Running));
      }
      ParallelKeep(shape, old(state), s1, state, i, env, stop, done, anyDone);
    }

    /**
     * The loop of ParallelNode.Visit: children in order until one FAILS
     * (`stop` is its index, or the number of children), noting whether
     * none and whether some of the children walked are RUNNING.
     */
    method ParallelWalk(i: nat, env: Env) returns (stop: nat, done: bool, anyDone: bool)
      requires Valid() && i < |shape| && shape[i].kind.Parallel?
      modifies this`state
      ensures Valid() && Framed(shape, old(state), state, i) && state[i] == old(state[i])
      ensures stop <= |shape[i].children|
      ensures ParallelSoFar(shape, old(state), state, i, env, stop, done, anyDone)
      ensures stop < |shape[i].children| ==>
        state[shape[i].children[stop]].status == Failed &&
        (old(state)[shape[i].children[stop]].status != Success || shape[shape[i].children[stop]].kind.Condition?)
      ensures forall m :: stop < m < |shape[i].children| ==> SubtreeSame(shape, old(state), state, shape[i].children[m])
      decreases |shape| - i, 1
    {
      var n := |shape[i].children|;
      ghost var s0 := state;
      done := true;
      anyDone := false;
      stop := 0;
      while stop < n
        invariant stop <= n
        invariant Valid() && Framed(shape, s0, state, i) && state[i] == s0[i]
        invariant ParallelSoFar(shape, s0, state, i, env, stop, done, anyDone)
        invariant forall m :: stop <= m < n ==> SubtreeSame(shape, s0, state, shape[i].children[m])
      {
        var failed;
        failed, done, anyDone := ParallelNext(i, env, s0, stop, done, anyDone);
        if failed {
          return;
        }
        stop := stop + 1;
      }
    }

    /** One pass of ParallelNode's loop, on child `k`; `failed` when that child FAILED. */
    method ParallelNext(i: nat, env: Env, ghost s0: seq<NodeState>, k: nat, done: bool, anyDone: bool)
      returns (failed: bool, done': bool, anyDone': bool)
      requires Valid() && i < |shape| && k < |shape[i].children| && |s0| == |shape|
      requires Framed(shape, s0, state, i) && state[i] == s0[i]
      requires ParallelSoFar(shape, s0, state, i, env, k, done, anyDone)
      requires forall m :: k <= m < |shape[i].children| ==> SubtreeSame(shape, s0, state, shape[i].children[m])
      modifies this`state
      ensures Valid() && Framed(shape, s0, state, i) && state[i] == s0[i]
      ensures forall m :: k < m < |shape[i].children| ==> SubtreeSame(shape, s0, state, shape[i].children[m])
      ensures failed ==> ParallelSoFar(shape, s0, state, i, env, k, done, anyDone) &&
                         state[shape[i].children[k]].status == Failed && done' == done && anyDone' == anyDone &&
                         (s0[shape[i].children[k]].status != Success || shape[shape[i].children[k]].kind.Condition?)
      ensures !failed ==> ParallelSoFar(shape, s0, state, i, env, k + 1, done', anyDone')
      decreases |shape| - i, 0
    {
      var c := shape[i].children[k];
      ChildParent(shape, i, c);
      SubtreeRoot(shape, s0, state, c);
      ghost var before := state;
      ParallelChild(c, env);
      AfterChild(shape, s0, before, state, i, k);
      done', anyDone' := done, anyDone;
      if state[c].status == Failed {
        ParallelKeep(shape, s0, before, state, i, env, k, done, anyDone);
        return true, done', anyDone';
      }
      if state[c].status == Running {
        done' := false;
      } else {
        anyDone' := true;
      }
      ParallelStep(shape, s0, before, state, i, env, k, done, anyDone, done', anyDone');
      failed := false;
    }

    /**
     * EventNode: a READY node starts RUNNING once triggered; a RUNNING one
     * visits its child and copies its status.  A READY untriggered node,
     * or one that already finished, is left as it is.
     */
    method VisitEvent(i: nat, env: Env)
      requires Valid() && i < |shape| && shape[i].kind.Event?
      modifies this`state
      ensures Valid() && Framed(shape, old(state), state, i)
      ensures var c := shape[i].children[0];
        if old(state[i].status) == Running || (old(state[i].status) == Ready && old(state[i].triggered))
        then state[i] == old(state[i]).(status := state[c].status)
        else state == old(state)
      decreases |shape| - i, 2
    {
      if state[i].status == Ready && state[i].triggered {
        SetOwn(i, state[i].(status := Running));
      }
      if state[i].status == Running {
        var c := shape[i].children[0];
        ghost var s0 := state;
        ChildParent(shape, i, c);
        Visit(c, env);
        AfterChild(shape, old(state), s0, state, i, 0);
        SetOwn(i, state[i].(status := state[c].status));
      }
    }

    /**
     * LatchNode.  A READY latch opens when the current time is past the
     * end of the previous window: it records the time, takes a new
     * duration and starts RUNNING; otherwise it FAILS.  A RUNNING latch
     * visits its child and copies its status.
     */
    method VisitLatch(i: nat, env: Env)
      requires Valid() && i < |shape| && shape[i].kind.Latch?
      modifies this`state
      ensures Valid() && Framed(shape, old(state), state, i)
      ensures var c := shape[i].children[0]; var time := Seconds(env.now); var d := shape[i].kind.duration;
        && (old(state[i].status) == Ready && !LatchOpen(old(state[i]), time) ==>
              state == old(state)[i := old(state[i]).(status := Failed)])
        && (old(state[i].status) == Ready && LatchOpen(old(state[i]), time) ==>
              state[i] == old(state[i]).(status := state[c].status, lastlatchtime := Some(time),
                currentlatchduration := if d.Some? then d.value else env.latchLength(i)))
        && (old(state[i].status) == Running ==> state[i] == old(state[i]).(status := state[c].status))
        && (old(state[i].status) == Success || old(state[i].status) == Failed ==> state == old(state))
      decreases |shape| - i, 2
    {
      var time := Seconds(env.now);
      if state[i].status == Ready {
        if LatchOpen(state[i], time) {
          var duration := if shape[i].kind.duration.Some? then shape[i].kind.duration.value else env.latchLength(i);
          SetOwn(i, state[i].(lastlatchtime := Some(time), currentlatchduration := duration, status := Running));
        } else {
          SetOwn(i, state[i].(status := Failed));
        }
      }
      if state[i].status == Running {
        var c := shape[i].children[0];
        ghost var s0 := state;
        ChildParent(shape, i, c);
        Visit(c, env);
        AfterChild(shape, old(state), s0, state, i, 0);
        SetOwn(i, state[i].(status := state[c].status));
      }
    }
    /** A child a PriorityNode tries: reset first if it already finished, then visited. */
    method TryChild(c: nat, env: Env)
      requires Valid() && c < |shape|
      modifies this`state
      ensures Valid() && Framed(shape, old(state), state, c)
      decreases |shape| - c, 4
    {
      if state[c].status == Failed || state[c].status == Success {
        ResetFramed(shape, state, c);
        Reset(c);
      }
      Visit(c, env);
    }

    /**
     * PriorityNode.  When the period has elapsed (or there is no last
     * evaluation) it re-evaluates: the children are tried in order until
     * one is SUCCESS or RUNNING, which is selected and whose status the
     * node takes; later children are reset instead of tried, except Event
     * nodes whose priority is at least that of the previously selected
     * Event, which are tried and, if they qualify, replace the selection
     * (the replaced child is reset).  With no qualifying child the node
     * FAILS.  Between evaluations only a RUNNING selected child is visited
     * again, and `lasttime` is cleared once it stops RUNNING.
     */
    method VisitPriority(i: nat, env: Env) returns (ghost first: nat)
      requires Valid() && i < |shape| && shape[i].kind.Priority?
      modifies this`state
      ensures Valid() && Framed(shape, old(state), state, i)
      ensures var n := |shape[i].children|; var time := Seconds(env.now); var prev := old(state[i].choice);
        DoEval(shape[i].kind, old(state[i]), time) ==>
          && state[i] == old(state[i]).(status := state[i].status, choice := state[i].choice, lasttime := Some(time))
          && (first == n <==> state[i].status == Failed)
          && (first == n ==> state[i].choice == prev)
          && PrioritySoFar(shape, state, i, prev, n, first)
      ensures var cs := shape[i].children; var time := Seconds(env.now); var prev := old(state[i].choice);
        !DoEval(shape[i].kind, old(state[i]), time) ==>
          if prev.Some? && old(state[cs[prev.value]].status) == Running then
            && state[i] == old(state[i]).(status := state[cs[prev.value]].status,
                                          lasttime := if state[cs[prev.value]].status == Running then old(state[i].lasttime) else None)
            && (forall m :: 0 <= m < |cs| && m != prev.value ==> SubtreeSame(shape, old(state), state, cs[m]))
          else state == old(state)
      decreases |shape| - i, 2
    {
      var cs := shape[i].children;
      var n := |cs|;
      var time := Seconds(env.now);
      first := n;
      if DoEval(shape[i].kind, state[i], time) {
        var prev := state[i].choice;
        SetOwn(i, state[i].(lasttime := Some(time)));
        ghost var s0 := state;
        var found := false;
        var idx := 0;
        while idx < n
          invariant idx <= n
          invariant Valid() && Framed(shape, old(state), state, i)
          invariant state[i] == s0[i].(status := state[i].status, choice := state[i].choice)
          invariant PrioritySoFar(shape, state, i, prev, idx, first)
          invariant found <==> first < n
          invariant !found ==> state[i] == s0[i]
        {
          found, first := PriorityNext(i, env, prev, idx, found, first);
          idx := idx + 1;
        }
        if !found {
          SetOwn(i, state[i].(status := Failed));
        }
      } else {
        PriorityResume(i, env);
      }
    }

    /** PriorityNode between evaluations: a RUNNING selected child is visited again. */
    method PriorityResume(i: nat, env: Env)
      requires Valid() && i < |shape| && shape[i].kind.Priority?
      modifies this`state
      ensures Valid() && Framed(shape, old(state), state, i)
      ensures var cs := shape[i].children; var prev := old(state[i].choice);
        if prev.Some? && old(state[cs[prev.value]].status) == Running then
          && state[i] == old(state[i]).(status := state[cs[prev.value]].status,
                                        lasttime := if state[cs[prev.value]].status == Running then old(state[i].lasttime) else None)
          && (forall m :: 0 <= m < |cs| && m != prev.value ==> SubtreeSame(shape, old(state), state, cs[m]))
        else state == old(state)
      decreases |shape| - i, 1
    {
      var cs := shape[i].children;
      if state[i].choice.Some? {
        var k := state[i].choice.value;
        var c := cs[k];
        if state[c].status == Running {
          ChildParent(shape, i, c);
          Visit(c, env);
          AfterChild(shape, old(state), old(state), state, i, k);
          SetOwn(i, state[i].(status := state[c].status));
          if state[i].status != Running {
            SetOwn(i, state[i].(lasttime := None));
          }
        }
      }
    }
    /**
     * One pass of PriorityNode's evaluation, for child `idx`: it is tried
     * while no child has qualified or when it is tested anyway, and reset
     * otherwise; a child that qualifies becomes the selection and the
     * selection it replaces is reset.
     */
    method PriorityNext(i: nat, env: Env, prev: Option<nat>, idx: nat, found: bool, ghost first: nat)
      returns (found': bool, ghost first': nat)
      requires Valid() && i < |shape| && shape[i].kind.Priority? && idx < |shape[i].children|
      requires prev.Some? ==> prev.value < |shape[i].children|
      requires PrioritySoFar(shape, state, i, prev, idx, first)
      requires found <==> first < |shape[i].children|
      requires !found ==> state[i].choice == prev
      modifies this`state
      ensures Valid() && Framed(shape, old(state), state, i)
      ensures state[i] == old(state[i]).(status := state[i].status, choice := state[i].choice)
      ensures PrioritySoFar(shape, state, i, prev, idx + 1, first')
      ensures found' <==> first' < |shape[i].children|
      ensures found ==> found' && first' == first
      ensures !found' ==> state[i] == old(state[i])
      decreases |shape| - i, 1
    {
      var cs := shape[i].children;
      var child := cs[idx];
      var sta := TestAnyway(shape, i, prev, idx);
      ChildParent(shape, i, child);
      if !found || sta {
        found', first' := PriorityTry(i, env, prev, idx, found, first);
      } else {
        ResetFramed(shape, state, child);
        Reset(child);
        AfterChild(shape, old(state), old(state), state, i, idx);
        PrioritySkip(shape, old(state), state, i, prev, idx, first);
        found', first' := found, first;
      }
    }

    /** The pass for a child that is tried: while none has qualified, or when it is tested anyway. */
    method PriorityTry(i: nat, env: Env, prev: Option<nat>, idx: nat, found: bool, ghost first: nat)
      returns (found': bool, ghost first': nat)
      requires Valid() && i < |shape| && shape[i].kind.Priority? && idx < |shape[i].children|
      requires prev.Some? ==> prev.value < |shape[i].children|
      requires PrioritySoFar(shape, state, i, prev, idx, first)
      requires found <==> first < |shape[i].children|
      requires !found ==> state[i].choice == prev
      requires !found || TestAnyway(shape, i, prev, idx)
      modifies this`state
      ensures Valid() && Framed(shape, old(state), state, i)
      ensures state[i] == old(state[i]).(status := state[i].status, choice := state[i].choice)
      ensures PrioritySoFar(shape, state, i, prev, idx + 1, first')
      ensures found' <==> first' < |shape[i].children|
      ensures found ==> found' && first' == first
      ensures !found' ==> state[i] == old(state[i])
      decreases |shape| - i, 0
    {
      var cs := shape[i].children;
      var child := cs[idx];
      var sta := TestAnyway(shape, i, prev, idx);
      ChildParent(shape, i, child);
      found', first' := found, first;
      TryChild(child, env);
      AfterChild(shape, old(state), old(state), state, i, idx);
      var st := state[child].status;
      if st == Success || st == Running {
        first' := PriorityAdopt(i, prev, idx, found, first, old(state));
        found' := true;
      } else {
        PrioritySkip(shape, old(state), state, i, prev, idx, first);
      }
    }

    /**
     * Child `idx` qualified after being tried from state `before`: the
     * selection it replaces, if it was tested anyway, is reset, and it
     * becomes the selection whose status the node takes.
     */
    method PriorityAdopt(i: nat, prev: Option<nat>, idx: nat, found: bool, ghost first: nat,
                         ghost before: seq<NodeState>) returns (ghost first': nat)
      requires Valid() && i < |shape| && shape[i].kind.Priority? && idx < |shape[i].children|
      requires prev.Some? ==> prev.value < |shape[i].children|
      requires |before| == |shape| && PrioritySoFar(shape, before, i, prev, idx, first)
      requires found <==> first < |shape[i].children|
      requires !found ==> before[i].choice == prev
      requires found ==> TestAnyway(shape, i, prev, idx)
      requires state[i] == before[i]
      requires forall m :: 0 <= m < |shape[i].children| && m != idx ==>
        state[shape[i].children[m]] == before[shape[i].children[m]]
      requires state[shape[i].children[idx]].status == Success || state[shape[i].children[idx]].status == Running
      modifies this`state
      ensures Valid() && Framed(shape, old(state), state, i)
      ensures state[i] == old(state[i]).(status := state[shape[i].children[idx]].status, choice := Some(idx))
      ensures first' == if found then first else idx
      ensures PrioritySoFar(shape, state, i, prev, idx + 1, first')
    {
      var cs := shape[i].children;
      if TestAnyway(shape, i, prev, idx) && state[i].choice != Some(idx) {
        var k := state[i].choice.value;
        var o := cs[k];
        ChildParent(shape, i, o);
        ResetFramed(shape, state, o);
        Reset(o);
        AfterChild(shape, old(state), old(state), state, i, k);
      }
      SetOwn(i, state[i].(status := state[cs[idx]].status, choice := Some(idx)));
      PrioritySelect(shape, before, state, i, prev, idx, first);
      first' := if found then first else idx;
    }
  }

  // ------------------------------------------------------------ Counterexamples for the two Event findings

  /** EventNode(ActionNode): the smallest tree with an Event node. */
  const EventTree: seq<Shape> := [Shape(Event(0.0), [1], None), Shape(Action, [], Some(0))]

  /**
   * Stopping EventTree as written leaves node 0 in `listening` (Stop keeps
   * it unchanged), while Stop as intended removes it.
   */
  lemma StopKeepsEventListening()
    ensures WellFormed(EventTree)
    ensures 0 in EventsBelow(EventTree, 0)
  {
    EventTreeWellFormed();
    assert Under(EventTree, 0, 0);
  }

  lemma EventTreeWellFormed()
    ensures WellFormed(EventTree)
  {
    var t := EventTree;
    forall i | 0 <= i < |t|
      ensures NodeLinks(t, i) && ArityOK(t[i])
    {
      if i == 0 {
        assert t[0].children == [1] && t[1].parent == Some(0);
      } else {
        assert t[1].children == [] && t[0].children == [1];
      }
    }
    WellFormedIntro(t);
  }

  /** PriorityNode(EventNode(ActionNode)). */
  const PriorityEventTree: seq<Shape> :=
    [Shape(Priority(1.0, false, 0.0), [1], None), Shape(Event(0.0), [2], Some(0)), Shape(Action, [], Some(1))]

  /**
   * An event on node 1 of PriorityEventTree, with a brain attached: as
   * written the Priority root keeps its `lasttime`, so it does not
   * re-evaluate; as intended it is cleared.
   */
  lemma OnEventKeepsPriorityClock(s: seq<NodeState>)
    requires |s| == 3 && s[0].lasttime.Some?
    ensures WellFormed(PriorityEventTree)
    ensures Triggered(PriorityEventTree, s, 1)[0].lasttime.Some?
    ensures ClearedAbove(PriorityEventTree, Triggered(PriorityEventTree, s, 1), 1)[0].lasttime.None?
  {
    var t := PriorityEventTree;
    PriorityEventTreeWellFormed();
    ResetFrame(t, s, 2);
    ConfinedAt(t, s, ResetF(t, s, 2), 2, 0);
    assert Under(t, 0, 1);
  }

  lemma PriorityEventTreeWellFormed()
    ensures WellFormed(PriorityEventTree)
  {
    var t := PriorityEventTree;
    forall i | 0 <= i < |t|
      ensures NodeLinks(t, i) && ArityOK(t[i])
    {
      if i == 0 {
        assert t[0].children == [1] && t[1].parent == Some(0);
      } else if i == 1 {
        assert t[1].children == [2] && t[2].parent == Some(1) && t[0].children == [1];
      } else {
        assert t[2].children == [] && t[1].children == [2];
      }
    }
    WellFormedIntro(t);
  }
}
