/**
 * The bookkeeping of BrainWrangler (src/brain.ts) as values.  Controllers
 * are filed under string keys, as the source's dictionaries index them by
 * String(brain).  Each registered controller is recorded in
 * `instances` with the list it is filed in.  The list is `updaters`
 * (thinks every tick), `hibernaters` (thinks only when woken) or the
 * bucket `tickwaiters[t]` (thinks again at tick `t`).  The source's `null`
 * record is the absence of a key.
 */
module BrainRegistry {
  import opened Wrappers

  type Id = string

  /** Which list a record points at. */
  datatype ListRef = Updaters | Hibernaters | Waiters(tick: nat)

  datatype Registry = Registry(
    instances: map<Id, ListRef>,
    updaters: set<Id>,
    hibernaters: set<Id>,
    tickwaiters: map<nat, set<Id>>)

  /** The bucket for tick `t`, empty when there is none. */
  function Bucket(r: Registry, t: nat): set<Id>
  {
    if t in r.tickwaiters then r.tickwaiters[t] else {}
  }

  /** The controllers filed in list `l`. */
  function Members(r: Registry, l: ListRef): set<Id>
  {
    match l
    case Updaters => r.updaters
    case Hibernaters => r.hibernaters
    case Waiters(t) => Bucket(r, t)
  }

  /**
   * Every controller sits in a list exactly when it is recorded there:
   * so a registered controller is in exactly one list and an unregistered
   * one in none.
   */
  ghost predicate Partitioned(r: Registry)
  {
    forall id, l :: id in Members(r, l) <==> id in r.instances && r.instances[id] == l
  }

  /** A registered controller of a partitioned registry is in its own list and no other. */
  lemma ExactlyOne(r: Registry, id: Id, l: ListRef)
    requires Partitioned(r) && id in r.instances
    ensures id in Members(r, l) <==> l == r.instances[id]
  {
  }

  /** `delete list[inst]`. */
  function Without(r: Registry, l: ListRef, id: Id): (r': Registry)
    ensures r'.instances == r.instances && r'.tickwaiters.Keys == r.tickwaiters.Keys
    ensures forall m :: Members(r', m) == if m == l then Members(r, m) - {id} else Members(r, m)
  {
    match l
    case Updaters => r.(updaters := r.updaters - {id})
    case Hibernaters => r.(hibernaters := r.hibernaters - {id})
    case Waiters(t) =>
      if t in r.tickwaiters then r.(tickwaiters := r.tickwaiters[t := r.tickwaiters[t] - {id}]) else r
  }

  /** `list[inst] = true`. */
  function With(r: Registry, l: ListRef, id: Id): (r': Registry)
    ensures r'.instances == r.instances
    ensures r'.tickwaiters.Keys == r.tickwaiters.Keys + (if l.Waiters? then {l.tick} else {})
    ensures forall m :: Members(r', m) == if m == l then Members(r, m) + {id} else Members(r, m)
  {
    match l
    case Updaters => r.(updaters := r.updaters + {id})
    case Hibernaters => r.(hibernaters := r.hibernaters + {id})
    case Waiters(t) => r.(tickwaiters := r.tickwaiters[t := Bucket(r, t) + {id}])
  }

  /**
   * SendToList: a recorded controller whose list differs from `list` is
   * taken out of its list, recorded with `list` (None is the source's
   * null) and put in it.  Otherwise nothing changes.
   */
  function SendToListF(r: Registry, id: Id, list: Option<ListRef>): (r': Registry)
    ensures id !in r.instances || Some(r.instances[id]) == list ==> r' == r
    ensures id in r.instances && Some(r.instances[id]) != list ==>
      && r'.instances == (if list.Some? then r.instances[id := list.value] else r.instances - {id})
      && r'.tickwaiters.Keys == r.tickwaiters.Keys + (if list.Some? && list.value.Waiters? then {list.value.tick} else {})
      && forall m :: Members(r', m) ==
           (if m == r.instances[id] then Members(r, m) - {id} else Members(r, m)) +
           (if Some(m) == list then {id} else {})
  {
    if id in r.instances && Some(r.instances[id]) != list then
      var r1 := Without(r, r.instances[id], id);
      if list.Some? then With(r1.(instances := r1.instances[id := list.value]), list.value, id)
      else r1.(instances := r1.instances - {id})
    else r
  }

  /** SendToList keeps every controller in exactly one list and files a moved one in the target. */
  lemma SendToListPartitioned(r: Registry, id: Id, list: Option<ListRef>)
    requires Partitioned(r)
    ensures var r' := SendToListF(r, id, list);
      && Partitioned(r')
      && (id in r.instances && list.Some? ==> id in r'.instances && r'.instances[id] == list.value)
  {
    var r' := SendToListF(r, id, list);
    if id in r.instances && Some(r.instances[id]) != list {
      forall x, l | true
        ensures x in Members(r', l) <==> x in r'.instances && r'.instances[x] == l
      {
        assert x in Members(r, l) <==> x in r.instances && r.instances[x] == l;
      }
    }
  }

  /** Wake: a registered controller moves to `updaters`. */
  function WakeF(r: Registry, id: Id): (r': Registry)
  {
    if id in r.instances then SendToListF(r, id, Some(Updaters)) else r
  }

  /** Hibernate: a registered controller moves to `hibernaters`. */
  function HibernateF(r: Registry, id: Id): (r': Registry)
  {
    if id in r.instances then SendToListF(r, id, Some(Hibernaters)) else r
  }

  /**
   * Wake and Hibernate file a registered controller in their list, and it
   * leaves every other list; an unregistered controller is unaffected.
   */
  lemma WakeHibernateMove(r: Registry, id: Id, l: ListRef)
    requires Partitioned(r)
    ensures id !in r.instances ==> WakeF(r, id) == r && HibernateF(r, id) == r
    ensures id in r.instances ==>
      && Partitioned(WakeF(r, id)) && Partitioned(HibernateF(r, id))
      && (id in Members(WakeF(r, id), l) <==> l == Updaters)
      && (id in Members(HibernateF(r, id), l) <==> l == Hibernaters)
  {
    SendToListPartitioned(r, id, Some(Updaters));
    SendToListPartitioned(r, id, Some(Hibernaters));
  }

  /**
   * Sleep's target tick: the current tick plus the wait in ticks, rounded
   * down, where a wait of zero ticks counts as one.
   */
  function SleepTarget(tick: nat, time: real, tickTime: real): (target: int)
    requires tickTime > 0.0
    ensures time == 0.0 ==> target == tick + 1
    ensures target as real <= tick as real + (if time == 0.0 then 1.0 else time / tickTime) < target as real + 1.0
  {
    var ticks := time / tickTime;
    (tick as real + (if ticks == 0.0 then 1.0 else ticks)).Floor
  }

  /** A wait longer than one tick always lands in a later tick. */
  lemma SleepTargetLater(tick: nat, time: real, tickTime: real)
    requires tickTime > 0.0 && time > tickTime
    ensures SleepTarget(tick, time, tickTime) > tick
  {
    assert time / tickTime > 1.0;
  }

  /**
   * Sleep: when the target tick is later than the current one, make sure
   * its bucket exists and send the controller there.
   */
  function SleepF(r: Registry, id: Id, time: real, tick: nat, tickTime: real): (r': Registry)
    requires tickTime > 0.0
  {
    var target := SleepTarget(tick, time, tickTime);
    if target > tick then
      var r1 := if target in r.tickwaiters then r else r.(tickwaiters := r.tickwaiters[target := {}]);
      SendToListF(r1, id, Some(Waiters(target)))
    else r
  }

  /**
   * Sleep files a registered controller in the bucket of its target tick,
   * when that tick is later than the current one, and keeps the partition;
   * the bucket exists afterwards even when the controller is unregistered.
   */
  lemma SleepFiles(r: Registry, id: Id, time: real, tick: nat, tickTime: real)
    requires Partitioned(r) && tickTime > 0.0
    ensures var r' := SleepF(r, id, time, tick, tickTime); var target := SleepTarget(tick, time, tickTime);
      && Partitioned(r')
      && (target <= tick ==> r' == r)
      && (target > tick ==> target in r'.tickwaiters)
      && (target > tick && id in r.instances ==> r'.instances == r.instances[id := Waiters(target)])
      && (id !in r.instances ==> r'.instances == r.instances)
  {
    var target := SleepTarget(tick, time, tickTime);
    if target > tick {
      var r1 := if target in r.tickwaiters then r else r.(tickwaiters := r.tickwaiters[target := {}]);
      assert forall l :: Members(r1, l) == Members(r, l);
      SendToListPartitioned(r1, id, Some(Waiters(target)));
    }
  }

  /**
   * RemoveInstance: send to null, delete from `updaters`, `hibernaters`
   * and every bucket, and drop the record.
   */
  function RemoveInstanceF(r: Registry, id: Id): (r': Registry)
  {
    var r1 := SendToListF(r, id, None);
    var r2 := r1.(updaters := r1.updaters - {id}, hibernaters := r1.hibernaters - {id});
    var r3 := r2.(tickwaiters := map t | t in r2.tickwaiters :: r2.tickwaiters[t] - {id});
    r3.(instances := r3.instances - {id})
  }

  /**
   * After RemoveInstance the controller is in no list and has no record;
   * every other controller keeps its lists and its record.
   */
  lemma RemoveInstanceClears(r: Registry, id: Id)
    ensures var r' := RemoveInstanceF(r, id);
      && r'.instances == r.instances - {id}
      && (forall l :: Members(r', l) == Members(r, l) - {id})
      && r'.tickwaiters.Keys == r.tickwaiters.Keys
  {
    var r1 := SendToListF(r, id, None);
    var r' := RemoveInstanceF(r, id);
    forall l
      ensures Members(r', l) == Members(r, l) - {id}
    {
      assert Members(r1, l) - {id} == Members(r, l) - {id};
      if l.Waiters? {
        assert Members(r', l) == Members(r1, l) - {id};
      }
    }
  }

  /** RemoveInstance keeps the partition. */
  lemma RemoveInstancePartitioned(r: Registry, id: Id)
    requires Partitioned(r)
    ensures Partitioned(RemoveInstanceF(r, id))
  {
    RemoveInstanceClears(r, id);
  }

  /** AddInstance: record the controller with `updaters` and put it there. */
  function AddInstanceF(r: Registry, id: Id): (r': Registry)
  {
    r.(instances := r.instances[id := Updaters], updaters := r.updaters + {id})
  }

  /**
   * AddInstance files the controller in `updaters` and leaves every other
   * list as it was; it keeps the partition when the controller was not
   * filed in another list.
   */
  lemma AddInstanceFiles(r: Registry, id: Id)
    ensures var r' := AddInstanceF(r, id);
      && r'.instances == r.instances[id := Updaters]
      && (forall l :: Members(r', l) == if l == Updaters then Members(r, l) + {id} else Members(r, l))
    ensures Partitioned(r) && (id !in r.instances || r.instances[id] == Updaters) ==>
      Partitioned(AddInstanceF(r, id))
  {
    var r' := AddInstanceF(r, id);
    assert forall l :: Members(r', l) == if l == Updaters then Members(r, l) + {id} else Members(r, l);
  }

  /**
   * AddInstance does not take a controller out of the list it is filed
   * in: adding a hibernating controller again leaves it in two lists.
   */
  lemma AddInstanceTwice(id: Id)
    ensures var r := Registry(map[id := Hibernaters], {}, {id}, map[]);
      Partitioned(r) && !Partitioned(AddInstanceF(r, id))
  {
    var r := Registry(map[id := Hibernaters], {}, {id}, map[]);
    forall k, l | true
      ensures k in Members(r, l) <==> k in r.instances && r.instances[k] == l
    {
      match l
      case Updaters =>
      case Hibernaters =>
      case Waiters(t) => assert Bucket(r, t) == {};
    }
    var r' := AddInstanceF(r, id);
    assert id in Members(r', Hibernaters) && r'.instances[id] == Updaters;
  }

  /**
   * Controllers filed under distinct keys are independent: adding or
   * removing one keeps every other controller's record and lists.
   */
  lemma OthersKept(r: Registry, id: Id, other: Id)
    requires other != id
    ensures var r' := AddInstanceF(r, id);
      && (other in r'.instances <==> other in r.instances)
      && (other in r.instances ==> r'.instances[other] == r.instances[other])
      && forall l :: other in Members(r', l) <==> other in Members(r, l)
    ensures var r' := RemoveInstanceF(r, id);
      && (other in r'.instances <==> other in r.instances)
      && (other in r.instances ==> r'.instances[other] == r.instances[other])
      && forall l :: other in Members(r', l) <==> other in Members(r, l)
  {
    AddInstanceFiles(r, id);
    RemoveInstanceClears(r, id);
  }

  /** Adding an unregistered controller and removing it again restores the registry. */
  lemma AddThenRemove(r: Registry, id: Id)
    requires Partitioned(r) && id !in r.instances
    ensures RemoveInstanceF(AddInstanceF(r, id), id) == r
  {
    var r' := RemoveInstanceF(AddInstanceF(r, id), id);
    RemoveInstanceClears(AddInstanceF(r, id), id);
    assert id !in r.updaters && id !in r.hibernaters by {
      assert id !in Members(r, Updaters) && id !in Members(r, Hibernaters);
    }
    assert r'.tickwaiters == r.tickwaiters by {
      forall t | t in r.tickwaiters
        ensures r'.tickwaiters[t] == r.tickwaiters[t]
      {
        assert Members(r', Waiters(t)) == Members(r, Waiters(t)) - {id};
        assert id !in Members(r, Waiters(t));
      }
    }
  }

  /**
   * Pause then Resume: the controller ends up registered in `updaters`
   * only, whatever list it was in, and every other controller is untouched.
   */
  lemma PauseThenResume(r: Registry, id: Id)
    requires Partitioned(r)
    ensures var r' := AddInstanceF(RemoveInstanceF(r, id), id);
      && Partitioned(r')
      && r'.instances == r.instances[id := Updaters]
      && (forall l :: Members(r', l) == if l == Updaters then Members(r, l) + {id} else Members(r, l) - {id})
  {
    var r1 := RemoveInstanceF(r, id);
    RemoveInstanceClears(r, id);
    RemoveInstancePartitioned(r, id);
    AddInstanceFiles(r1, id);
    assert r1.instances == r.instances - {id};
  }

  /** The first step of Update: every controller of bucket `tick` moves to `updaters`; the bucket goes. */
  function PopF(r: Registry, tick: nat): (r': Registry)
  {
    if tick in r.tickwaiters then
      var w := r.tickwaiters[tick];
      Registry(map k | k in r.instances.Keys + w :: if k in w then Updaters else r.instances[k],
               r.updaters + w, r.hibernaters, r.tickwaiters - {tick})
    else r
  }

  /**
   * Popping a bucket keeps the partition: its controllers are now in
   * `updaters`, the bucket is gone and nothing else moves.
   */
  lemma PopPartitioned(r: Registry, tick: nat)
    requires Partitioned(r)
    ensures var r' := PopF(r, tick);
      && Partitioned(r')
      && tick !in r'.tickwaiters
      && Members(r', Updaters) == Members(r, Updaters) + Bucket(r, tick)
      && (forall k :: k in r.instances ==> k in r'.instances)
      && (forall k :: k in Bucket(r, tick) ==> r'.instances[k] == Updaters)
      && (forall k :: k in r.instances && k !in Bucket(r, tick) ==> r'.instances[k] == r.instances[k])
  {
    var r' := PopF(r, tick);
    if tick in r.tickwaiters {
      forall x, l | true
        ensures x in Members(r', l) <==> x in r'.instances && r'.instances[x] == l
      {
        assert x in Members(r, l) <==> x in r.instances && r.instances[x] == l;
        assert x in Members(r, Waiters(tick)) <==> x in r.instances && r.instances[x] == Waiters(tick);
      }
    }
  }

  /**
   * Where Update re-files a controller that was evaluated, given the sleep
   * time it reported: None (the source's null) and 0 are falsy and mean
   * `hibernaters`; more than a tick means the bucket of its target tick;
   * anything else keeps it in `updaters` (None here).
   */
  function Refile(sleep: Option<real>, tick: nat, tickTime: real): (l: Option<ListRef>)
    requires tickTime > 0.0
    ensures sleep.None? || sleep.value == 0.0 ==> l == Some(Hibernaters)
    ensures sleep.Some? && sleep.value != 0.0 && sleep.value <= tickTime ==> l.None?
    ensures sleep.Some? && sleep.value > tickTime ==>
      l == Some(Waiters(SleepTarget(tick, sleep.value, tickTime))) && l.value.tick > tick
  {
    if sleep.Some? && sleep.value != 0.0 then
      if sleep.value > tickTime then
        SleepTargetLater(tick, sleep.value, tickTime);
        Some(Waiters(SleepTarget(tick, sleep.value, tickTime)))
      else None
    else Some(Hibernaters)
  }

  /** The re-filing of one evaluated controller `k`, as Update's loop body does it. */
  function RefileF(r: Registry, k: Id, sleep: Option<real>, tick: nat, tickTime: real): (r': Registry)
    requires tickTime > 0.0
  {
    if sleep.Some? && sleep.value != 0.0 then
      if sleep.value > tickTime then SleepF(r, k, sleep.value, tick, tickTime) else r
    else HibernateF(r, k)
  }

  /** Re-filing a controller of `updaters` moves it where `Refile` says and keeps the partition. */
  lemma RefilePartitioned(r: Registry, k: Id, sleep: Option<real>, tick: nat, tickTime: real)
    requires Partitioned(r) && tickTime > 0.0 && k in r.instances && r.instances[k] == Updaters
    ensures var r' := RefileF(r, k, sleep, tick, tickTime); var l := Refile(sleep, tick, tickTime);
      && Partitioned(r')
      && r'.instances == (if l.Some? then r.instances[k := l.value] else r.instances)
      && r'.tickwaiters.Keys == r.tickwaiters.Keys + (if l.Some? && l.value.Waiters? then {l.value.tick} else {})
  {
    var l := Refile(sleep, tick, tickTime);
    if sleep.Some? && sleep.value != 0.0 {
      if sleep.value > tickTime {
        SleepTargetLater(tick, sleep.value, tickTime);
        SleepFiles(r, k, sleep.value, tick, tickTime);
        var target := SleepTarget(tick, sleep.value, tickTime);
        var r1 := if target in r.tickwaiters then r else r.(tickwaiters := r.tickwaiters[target := {}]);
        assert SleepF(r, k, sleep.value, tick, tickTime) == SendToListF(r1, k, Some(Waiters(target)));
      }
    } else {
      WakeHibernateMove(r, k, Hibernaters);
    }
  }
}
