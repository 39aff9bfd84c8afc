/**
 * The tick scheduler BrainWrangler and the per-agent controller Brain of
 * src/brain.ts.  The wrangler's dictionaries are fields that its methods
 * update in place; each method is proved to compute the matching function
 * of BrainRegistry, whose lemmas carry the "exactly one list" invariant.
 */
module Brains {
  import opened Wrappers
  import opened BrainRegistry
  import opened BehaviourState
  import opened BehaviourReset
  import opened BehaviourTree
  import opened BehaviourHandle

  /** The record of `k` once the controllers in `done` have been evaluated and re-filed. */
  ghost function Record(r: Registry, done: set<Id>, k: Id, tick: nat, tickTime: real,
                        awake: Id -> bool, sleepTime: Id -> Option<real>): ListRef
    requires tickTime > 0.0 && k in r.instances
  {
    if k in done && awake(k) && Refile(sleepTime(k), tick, tickTime).Some?
    then Refile(sleepTime(k), tick, tickTime).value else r.instances[k]
  }

  /** The buckets Update creates for the controllers in `done`. */
  ghost function NewBuckets(done: set<Id>, tick: nat, tickTime: real,
                            awake: Id -> bool, sleepTime: Id -> Option<real>): set<nat>
    requires tickTime > 0.0
  {
    set k | k in done && awake(k) && Refile(sleepTime(k), tick, tickTime).Some? &&
            Refile(sleepTime(k), tick, tickTime).value.Waiters? :: Refile(sleepTime(k), tick, tickTime).value.tick
  }

  /**
   * What Update's second loop has done once it has evaluated the
   * controllers in `done`, starting from the registry `r1` it found after
   * popping the bucket: the same controllers are recorded, each evaluated
   * one where `Refile` says, and a bucket exists for every target tick.
   */
  ghost predicate UpdatedSoFar(r1: Registry, done: set<Id>, r: Registry, tick: nat, tickTime: real,
                               awake: Id -> bool, sleepTime: Id -> Option<real>)
    requires tickTime > 0.0
  {
    && Partitioned(r)
    && (forall k :: k in r.instances <==> k in r1.instances)
    && (forall k :: k in r.instances ==> r.instances[k] == Record(r1, done, k, tick, tickTime, awake, sleepTime))
    && (forall t :: t in r.tickwaiters <==>
          t in r1.tickwaiters || t in NewBuckets(done, tick, tickTime, awake, sleepTime))
  }

  lemma UpdateStart(r1: Registry, tick: nat, tickTime: real, awake: Id -> bool, sleepTime: Id -> Option<real>)
    requires Partitioned(r1) && tickTime > 0.0
    ensures UpdatedSoFar(r1, {}, r1, tick, tickTime, awake, sleepTime)
  {
  }

  /** Evaluating one more controller of the snapshot keeps UpdatedSoFar. */
  lemma UpdateStep(r1: Registry, done: set<Id>, before: Registry, after: Registry, k: Id, tick: nat, tickTime: real,
                   awake: Id -> bool, sleepTime: Id -> Option<real>)
    requires tickTime > 0.0 && Partitioned(r1) && k in r1.updaters && k !in done
    requires UpdatedSoFar(r1, done, before, tick, tickTime, awake, sleepTime)
    requires after == if awake(k) then RefileF(before, k, sleepTime(k), tick, tickTime) else before
    ensures UpdatedSoFar(r1, done + {k}, after, tick, tickTime, awake, sleepTime)
  {
    assert k in Members(r1, Updaters);
    assert before.instances[k] == Updaters;
    if awake(k) {
      RefilePartitioned(before, k, sleepTime(k), tick, tickTime);
    }
  }

  class BrainWrangler {
    var instances: map<Id, ListRef>
    var updaters: set<Id>
    var tickwaiters: map<nat, set<Id>>
    var hibernaters: set<Id>

    function Model(): (r: Registry)
      reads this
      ensures r.instances == instances && r.updaters == updaters
      ensures r.hibernaters == hibernaters && r.tickwaiters == tickwaiters
    {
      Registry(instances, updaters, hibernaters, tickwaiters)
    }

    /** Every registered controller is in exactly one list. */
    ghost predicate Valid()
      reads this
    {
      Partitioned(Model())
    }

    constructor ()
      ensures Valid() && Model() == Registry(map[], {}, {}, map[])
    {
      instances := map[];
      updaters := {};
      tickwaiters := map[];
      hibernaters := {};
    }

    /**
     * OnRemoveEntity: deregister the entity's brain, if it has one whose
     * key String(brain) is registered.
     */
    method OnRemoveEntity(brain: Brain?, now: int)
      requires brain != null && brain.bt != null ==> brain.bt.Valid()
      modifies this
      ensures brain == null ==> Model() == old(Model())
      ensures brain != null ==> Model() == if brain.Key(now) in old(instances)
        then RemoveInstanceF(old(Model()), brain.Key(now)) else old(Model())
    {
      if brain != null {
        var key := brain.Key(now);
        if key in instances {
          RemoveInstance(key);
        }
      }
    }

    method SendToList(inst: Id, list: Option<ListRef>)
      modifies this
      ensures Model() == SendToListF(old(Model()), inst, list)
    {
      if inst in instances && Some(instances[inst]) != list {
        var from := instances[inst];
        if from.Updaters? {
          updaters := updaters - {inst};
        } else if from.Hibernaters? {
          hibernaters := hibernaters - {inst};
        } else if from.tick in tickwaiters {
          tickwaiters := tickwaiters[from.tick := tickwaiters[from.tick] - {inst}];
        }
        assert Model() == Without(old(Model()), from, inst);
        if list.Some? {
          instances := instances[inst := list.value];
          var to := list.value;
          if to.Updaters? {
            updaters := updaters + {inst};
          } else if to.Hibernaters? {
            hibernaters := hibernaters + {inst};
          } else {
            tickwaiters := tickwaiters[to.tick := Bucket(Model(), to.tick) + {inst}];
          }
        } else {
          instances := instances - {inst};
        }
      }
    }

    method Wake(inst: Id)
      modifies this
      ensures Model() == WakeF(old(Model()), inst)
    {
      if inst in instances {
        SendToList(inst, Some(Updaters));
      }
    }

    method Hibernate(inst: Id)
      modifies this
      ensures Model() == HibernateF(old(Model()), inst)
    {
      if inst in instances {
        SendToList(inst, Some(Hibernaters));
      }
    }

    /** Sleep for `time` seconds from tick `tick`; GetTick() and GetTickTime() are parameters. */
    method Sleep(inst: Id, time: real, tick: nat, tickTime: real)
      requires tickTime > 0.0
      modifies this
      ensures Model() == SleepF(old(Model()), inst, time, tick, tickTime)
    {
      var target := SleepTarget(tick, time, tickTime);
      if target > tick {
        if target !in tickwaiters {
          tickwaiters := tickwaiters[target := {}];
        }
        SendToList(inst, Some(Waiters(target)));
      }
    }

    method RemoveInstance(inst: Id)
      modifies this
      ensures Model() == RemoveInstanceF(old(Model()), inst)
    {
      SendToList(inst, None);
      updaters := updaters - {inst};
      hibernaters := hibernaters - {inst};
      ghost var buckets := tickwaiters;
      RemoveFromBuckets(inst);
      assert tickwaiters == map t | t in buckets :: buckets[t] - {inst};
      instances := instances - {inst};
    }

    /** RemoveInstance's loop: `delete v[inst]` for every bucket `v`. */
    method RemoveFromBuckets(inst: Id)
      modifies this`tickwaiters
      ensures forall t :: t in tickwaiters <==> t in old(tickwaiters)
      ensures forall t :: t in tickwaiters ==> tickwaiters[t] == old(tickwaiters)[t] - {inst}
    {
      var keys := tickwaiters.Keys;
      while exists t :: t in keys
        invariant forall t :: t in keys ==> t in old(tickwaiters)
        invariant forall t :: t in tickwaiters <==> t in old(tickwaiters)
        invariant forall t :: t in tickwaiters ==>
          tickwaiters[t] == if t in keys then old(tickwaiters)[t] else old(tickwaiters)[t] - {inst}
        decreases |keys|
      {
        var t :| t in keys;
        tickwaiters := tickwaiters[t := tickwaiters[t] - {inst}];
        keys := keys - {t};
      }
    }

    method AddInstance(inst: Id)
      modifies this
      ensures Model() == AddInstanceF(old(Model()), inst)
    {
      instances := instances[inst := Updaters];
      updaters := updaters + {inst};
    }

    /** The first step of Update: empty bucket `tick` into `updaters` and delete it. */
    method PopBucket(tick: nat)
      modifies this
      ensures Model() == PopF(old(Model()), tick)
    {
      if tick in tickwaiters {
        var waiters := tickwaiters[tick];
        Promote(waiters);
        assert instances == map k | k in old(instances).Keys + waiters ::
          if k in waiters then Updaters else old(instances)[k];
        tickwaiters := tickwaiters - {tick};
      }
    }

    /** PopBucket's loop: record every controller of `waiters` with `updaters` and put it there. */
    method Promote(waiters: set<Id>)
      modifies this`updaters, this`instances
      ensures updaters == old(updaters) + waiters
      ensures forall k :: k in instances <==> k in old(instances) || k in waiters
      ensures forall k :: k in instances ==>
        instances[k] == if k in waiters then Updaters else old(instances)[k]
    {
      var todo := waiters;
      while exists k :: k in todo
        invariant todo <= waiters
        invariant updaters == old(updaters) + (waiters - todo)
        invariant forall k :: k in instances <==> k in old(instances) || (k in waiters && k !in todo)
        invariant forall k :: k in instances ==>
          instances[k] == if k in waiters && k !in todo then Updaters else old(instances)[k]
        decreases |todo|
      {
        var k :| k in todo;
        updaters := updaters + {k};
        instances := instances[k := Updaters];
        todo := todo - {k};
      }
    }

    /**
     * Update(current_tick) as written: pop the bucket of the tick, then
     * loop over `Object.entries(updaters)`.  That binds `k` to a key
     * string, so `k.inst` is undefined and reading `k.inst.entity` throws
     * a TypeError on the first updater: no controller is evaluated or
     * re-filed, and `threw` reports the exception.
     */
    method Update(tick: nat) returns (threw: bool)
      requires Valid()
      modifies this
      ensures Valid() && Model() == PopF(old(Model()), tick)
      ensures threw <==> PopF(old(Model()), tick).updaters != {}
    {
      PopPartitioned(Model(), tick);
      PopBucket(tick);
      threw := false;
      if exists k :: k in updaters {
        threw := true;
      }
    }

    /**
     * Update(current_tick) as intended, with each updater's brain at hand:
     * pop the bucket of the tick, then evaluate every controller of
     * `updaters` that is awake (its entity is valid and not asleep) and
     * re-file it by the sleep time it reports.  The host supplies
     * GetTickTime(), the awake test and the sleep time each controller
     * reports after its OnUpdate; the controllers are taken in an
     * unspecified order, as the source's object iteration gives them.
     */
    method UpdateIntended(tick: nat, tickTime: real, awake: Id -> bool, sleepTime: Id -> Option<real>)
      requires Valid() && tickTime > 0.0
      modifies this
      ensures Valid()
      ensures var r1 := PopF(old(Model()), tick);
        UpdatedSoFar(r1, r1.updaters, Model(), tick, tickTime, awake, sleepTime)
    {
      PopPartitioned(Model(), tick);
      PopBucket(tick);
      ghost var r1 := Model();
      UpdateStart(r1, tick, tickTime, awake, sleepTime);
      EvaluateAll(r1, tick, tickTime, awake, sleepTime);
    }

    /** UpdateIntended's second loop, over a snapshot of `updaters` taken after the pop. */
    method EvaluateAll(ghost r1: Registry, tick: nat, tickTime: real, awake: Id -> bool, sleepTime: Id -> Option<real>)
      requires tickTime > 0.0 && Partitioned(r1) && updaters == r1.updaters
      requires UpdatedSoFar(r1, {}, Model(), tick, tickTime, awake, sleepTime)
      modifies this
      ensures UpdatedSoFar(r1, r1.updaters, Model(), tick, tickTime, awake, sleepTime)
    {
      var todo := updaters;
      ghost var done: set<Id> := {};
      while exists k :: k in todo
        invariant done + todo == r1.updaters && done !! todo
        invariant UpdatedSoFar(r1, done, Model(), tick, tickTime, awake, sleepTime)
        decreases |todo|
      {
        var k :| k in todo;
        ghost var before := Model();
        UpdateOne(k, tick, tickTime, awake, sleepTime);
        UpdateStep(r1, done, before, Model(), k, tick, tickTime, awake, sleepTime);
        todo := todo - {k};
        done := done + {k};
      }
      assert done == r1.updaters;
    }

    /** The body of UpdateIntended's loop for controller `k`, which is filed in `updaters`. */
    method UpdateOne(k: Id, tick: nat, tickTime: real, awake: Id -> bool, sleepTime: Id -> Option<real>)
      requires tickTime > 0.0
      modifies this
      ensures Model() == if awake(k) then RefileF(old(Model()), k, sleepTime(k), tick, tickTime) else old(Model())
    {
      if awake(k) {
        var sleepAmount := sleepTime(k);
        if sleepAmount.Some? && sleepAmount.value != 0.0 {
          if sleepAmount.value > tickTime {
            Sleep(k, sleepAmount.value, tick, tickTime);
          }
        } else {
          Hibernate(k);
        }
      }
    }
  }

  /** An event handler, as an opaque reference; calling it is host code. */
  type Handler = nat

  /** The text every brain renders as: all of it for a brain without a tree, its first line otherwise. */
  const BrainText: string := "--brain--"

  /**
   * Brain: one agent's controller.  `manager` is the BrainManager singleton
   * and `bt` the behaviour tree a concrete brain installs (null when it has
   * none).  BrainManager files a brain under String(brain), its `Key`;
   * `showTime` and `showTree` are the host's renderings of a sleep time
   * (`${x}`) and of the tree's state (BT.toString).  The hooks OnStart,
   * OnStop, DoUpdate, OnInitializationComplete and the mod post-init
   * functions are host code and are not modelled.
   */
  class Brain {
    const manager: BrainWrangler
    const bt: BT?
    const showTime: Option<real> -> string
    const showTree: seq<NodeState> -> string
    var events: map<string, Handler>
    var paused: bool
    var stopped: bool

    constructor (manager: BrainWrangler, bt: BT?, showTime: Option<real> -> string, showTree: seq<NodeState> -> string)
      ensures this.manager == manager && this.bt == bt
      ensures this.showTime == showTime && this.showTree == showTree
      ensures events == map[] && !paused && !stopped
    {
      this.manager := manager;
      this.bt := bt;
      this.showTime := showTime;
      this.showTree := showTree;
      events := map[];
      paused := false;
      stopped := false;
    }

    /**
     * Brain.toString, the key BrainManager files this brain under: the
     * bare BrainText without a tree, otherwise BrainText followed by the
     * current sleep time and the tree's rendering, so that the key changes
     * whenever the tree's state or sleep time does.
     */
    function Key(now: int): (k: Id)
      requires bt != null ==> bt.Valid()
      reads if bt != null then {bt, bt.tree} else {}
      ensures bt == null ==> k == BrainText
      ensures bt != null ==> |k| > |BrainText|
    {
      if bt == null then BrainText
      else BrainText + "\nsleep time: " + showTime(GetSleepTime(now)) + "\n" + showTree(bt.tree.state)
    }
    /** Force the tree's next update and wake the brain in the scheduler. */
    method ForceUpdate(now: int)
      requires bt != null ==> bt.Valid()
      modifies manager, if bt != null then {bt} else {}
      ensures bt != null ==> bt.Valid() && bt.forceupdate
      ensures manager.Model() == WakeF(old(manager.Model()), Key(now))
    {
      if bt != null {
        bt.ForceUpdate();
      }
      manager.Wake(Key(now));
    }

    method AddEventHandler(event: string, fn: Handler)
      modifies this`events
      ensures events == old(events)[event := fn]
    {
      events := events[event := fn];
    }

    /**
     * The handler PushEvent calls with the event's data: the one registered
     * for `event`, if any.
     */
    method PushEvent(event: string) returns (called: Option<Handler>)
      ensures called.Some? <==> event in events
      ensures called.Some? ==> called.value == events[event]
    {
      if event in events {
        called := Some(events[event]);
      } else {
        called := None;
      }
    }

    /** The tree's sleep time, or 0 without a tree; never negative. */
    function GetSleepTime(now: int): (r: Option<real>)
      requires bt != null ==> bt.Valid()
      reads if bt != null then {bt, bt.tree} else {}
      ensures bt == null ==> r == Some(0.0)
      ensures bt != null && bt.forceupdate ==> r == Some(0.0)
      ensures r.Some? ==> r.value >= 0.0
    {
      if bt != null then bt.GetSleepTime(now) else Some(0.0)
    }

    /** Start: unless paused, mark running and register with the scheduler under the current key. */
    method Start(now: int)
      requires bt != null ==> bt.Valid()
      modifies this`stopped, manager
      ensures paused ==> stopped == old(stopped) && manager.Model() == old(manager.Model())
      ensures !paused ==> !stopped && manager.Model() == AddInstanceF(old(manager.Model()), Key(now))
    {
      if paused {
        return;
      }
      stopped := false;
      manager.AddInstance(Key(now));
    }

    /** One think: update the tree, if there is one. */
    method OnUpdate(env: Env) returns (ghost visited: seq<NodeState>)
      requires bt != null ==> bt.Valid()
      modifies if bt != null then {bt, bt.tree} else {}
      ensures bt != null ==> bt.Valid() && !bt.forceupdate
      ensures bt != null ==> Framed(bt.tree.shape, old(bt.tree.state), visited, 0) && |visited| == |bt.tree.shape|
      ensures bt != null ==> bt.tree.state == StepF(bt.tree.shape, SaveF(bt.tree.shape, visited, 0), 0)
    {
      visited := [];
      if bt != null {
        visited := bt.Update(env);
      }
    }

    /** Stop: unless paused, stop the tree, mark stopped and deregister the current key. */
    method Stop(now: int)
      requires bt != null ==> bt.Valid()
      modifies this`stopped, manager, if bt != null then {bt.tree} else {}
      ensures bt != null ==> bt.Valid() && bt.tree.state == old(bt.tree.state)
      ensures bt != null ==> bt.tree.listening == old(bt.tree.listening)
      ensures paused ==> stopped == old(stopped) && manager.Model() == old(manager.Model())
      ensures !paused ==> stopped && manager.Model() == RemoveInstanceF(old(manager.Model()), Key(now))
    {
      if paused {
        return;
      }
      if bt != null {
        bt.Stop();
      }
      stopped := true;
      manager.RemoveInstance(Key(now));
    }

    method Pause(now: int)
      requires bt != null ==> bt.Valid()
      modifies this`paused, manager
      ensures paused && manager.Model() == RemoveInstanceF(old(manager.Model()), Key(now))
    {
      paused := true;
      manager.RemoveInstance(Key(now));
    }

    method Resume(now: int)
      requires bt != null ==> bt.Valid()
      modifies this`paused, manager
      ensures !paused && manager.Model() == AddInstanceF(old(manager.Model()), Key(now))
    {
      paused := false;
      manager.AddInstance(Key(now));
    }
  }

  /**
   * Two brains without a tree render as the same key: once both have
   * started, stopping the first deregisters the second as well, though
   * the second was never stopped.
   */
  method TreelessBrainsCollide(now: int) returns (secondStopped: bool, secondRegistered: bool)
    ensures !secondStopped && !secondRegistered
  {
    var manager := new BrainWrangler();
    var first := new Brain(manager, null, _ => "", _ => "");
    var second := new Brain(manager, null, _ => "", _ => "");
    first.Start(now);
    second.Start(now);
    first.Stop(now);
    secondStopped := second.stopped;
    secondRegistered := second.Key(now) in manager.instances;
  }
}
