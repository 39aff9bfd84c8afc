/**
 * The per-agent behaviour-tree handle `BT` of src/behaviourtree.ts: it
 * drives the root (node 0 of the arena) once per tick and carries the
 * force-update flag.  The agent instance it stores is not modelled.
 */
module BehaviourHandle {
  import opened Wrappers
  import opened BehaviourShape
  import opened BehaviourState
  import opened BehaviourReset
  import opened BehaviourTree
  import opened BehaviourSleep

  class BT {
    const tree: Tree
    var forceupdate: bool

    ghost predicate Valid()
      reads this, tree
    {
      tree.Valid() && |tree.shape| > 0
    }

    constructor (tree: Tree)
      requires tree.Valid() && |tree.shape| > 0
      ensures Valid() && this.tree == tree && !forceupdate
    {
      this.tree := tree;
      forceupdate := false;
    }

    method ForceUpdate()
      requires Valid()
      modifies this`forceupdate
      ensures Valid() && forceupdate
    {
      forceupdate := true;
    }

    /**
     * One tick: Visit the root, save every status as the last result, Step
     * the root, and clear the force-update flag.  `visited` is the state
     * right after the Visit.
     */
    method Update(env: Env) returns (ghost visited: seq<NodeState>)
      requires Valid()
      modifies this`forceupdate, tree`state
      ensures Valid() && !forceupdate
      ensures Framed(tree.shape, old(tree.state), visited, 0)
      ensures tree.state == StepF(tree.shape, SaveF(tree.shape, visited, 0), 0)
      ensures forall j :: 0 <= j < |tree.shape| && Under(tree.shape, 0, j) ==>
        tree.state[j].lastResult == visited[j].status
      ensures tree.state[0].status == if visited[0].status == Running then Running else Ready
    {
      tree.Visit(0, env);
      visited := tree.state;
      tree.SaveStatus(0);
      ghost var saved := tree.state;
      tree.Step(0);
      StepKeepsResults(tree.shape, saved, 0);
      StepRoot(tree.shape, saved, 0);
      forall j | 0 <= j < |tree.shape| && Under(tree.shape, 0, j)
        ensures tree.state[j].lastResult == visited[j].status
      {
        SaveSpec(tree.shape, visited, 0, j);
        assert Results(tree.state)[j] == Results(saved)[j];
      }
      SaveSpec(tree.shape, visited, 0, 0);
      forceupdate := false;
    }

    /** Resets the root: the whole tree when it was not READY. */
    method Reset()
      requires Valid()
      modifies tree`state
      ensures Valid() && tree.state == ResetF(tree.shape, old(tree.state), 0)
      ensures tree.state[0].status == Ready
    {
      tree.Reset(0);
      ResetRoot(tree.shape, old(tree.state), 0);
    }

    /**
     * BT.Stop stops the root. As written, BehaviorNode.Stop never reaches
     * EventNode.onStop, so no callback is unregistered and nothing changes.
     */
    method Stop()
      requires Valid()
      modifies tree`listening
      ensures Valid() && tree.state == old(tree.state)
      ensures tree.listening == old(tree.listening)
    {
      tree.Stop(0);
    }

    /** BT.Stop with BehaviorNode.Stop as evidently intended: every Event node of the tree unregisters its callback. */
    method StopIntended()
      requires Valid()
      modifies tree`listening
      ensures Valid() && tree.state == old(tree.state)
      ensures tree.listening == old(tree.listening) - EventsBelow(tree.shape, 0)
    {
      tree.StopIntended(0);
    }

    /**
     * BT.GetSleepTime: 0 while an update is forced, otherwise the root's
     * tree sleep time; never negative.
     */
    function GetSleepTime(now: int): (r: Option<real>)
      requires Valid()
      reads this, tree
      ensures forceupdate ==> r == Some(0.0)
      ensures !forceupdate ==> r == TreeSleep(tree.shape, tree.state, 0, now)
      ensures r.Some? ==> r.value >= 0.0
    {
      TreeSleepNonNegative(tree.shape, tree.state, 0, now);
      if forceupdate then Some(0.0) else TreeSleep(tree.shape, tree.state, 0, now)
    }
  }
}
