/** Steps of whole calls on a KVDB bucket, as parts from which particular runs are built. */
module BucketRuns {
  import opened Basics
  import opened Buckets
  import opened SharedBuckets

  ghost predicate EndsRun(conf: Conf, start: int, timely: bool, st: State)
    requires Valid(conf)
  {
    exists acts: seq<Action> ::
      Possible(conf, start, acts) && (timely ==> TimelyRun(conf, start, acts)) && After(conf, start, acts) == st
  }

  /** The end of some run, or of some run of timely re-creations, folded. */
  ghost predicate Reachable(conf: Conf, start: int, timely: bool, st: State)
    requires Valid(conf)
  {
    forall x :: x == st ==> EndsRun(conf, start, timely, x)
  }

  lemma ReachStep(conf: Conf, start: int, timely: bool, st: State, a: Action)
    requires Valid(conf) && Reachable(conf, start, timely, st) && Enabled(conf, st, a) && (timely ==> Timely(conf, st, a))
    ensures Reachable(conf, start, timely, Do(conf, st, a))
  {
    assert EndsRun(conf, start, timely, st);
    var acts: seq<Action> :|
      Possible(conf, start, acts) && (timely ==> TimelyRun(conf, start, acts)) && After(conf, start, acts) == st;
    var more := acts + [a];
    assert more[..|more| - 1] == acts;
    assert Possible(conf, start, more) && After(conf, start, more) == Do(conf, st, a);
    assert timely ==> TimelyRun(conf, start, more);
  }

  lemma ReachInit(conf: Conf, start: int, timely: bool)
    requires Valid(conf)
    ensures Reachable(conf, start, timely, Init(start))
  {
    assert Possible(conf, start, []) && After(conf, start, []) == Init(start);
  }

  function Waiting(inst: nat, now: int): Call {
    Call(inst, now, CAS_ATTEMPTS, Asking)
  }

  /** A call reads the clock, finds no refusal standing, and is about to ask. */
  lemma Starts(conf: Conf, start: int, timely: bool, st: State, id: nat, inst: nat)
    requires Valid(conf) && Reachable(conf, start, timely, st) && id !in st.calls && !MemoryStands(st, inst, st.clock)
    ensures Reachable(conf, start, timely, st.(calls := st.calls[id := Waiting(inst, st.clock)]))
  {
    ReachStep(conf, start, timely, st, Read(id, inst));
    var read := Do(conf, st, Read(id, inst));
    ReachStep(conf, start, timely, read, Check(id));
    assert Do(conf, read, Check(id)) == st.(calls := st.calls[id := Waiting(inst, st.clock)]);
  }

  /** A waiting call finds the bucket with a token for it, whatever its reading, and is admitted. */
  lemma Spends(conf: Conf, start: int, timely: bool, st: State, id: nat, inst: nat, now: int)
    requires Valid(conf) && Reachable(conf, start, timely, st) && id in st.calls && st.calls[id] == Waiting(inst, now)
    requires st.store.Some? && Refilled(st.store.value.cell, conf, now).tokens >= 1
    ensures Reachable(conf, start, timely, Spent(conf, st, id, now))
  {
    ReachStep(conf, start, timely, st, Get(id));
    var got := Do(conf, st, Get(id));
    ReachStep(conf, start, timely, got, Swap(id, true));
    var swapped := Do(conf, got, Swap(id, true));
    ReachStep(conf, start, timely, swapped, Extend(id, true));
    assert swapped.calls - {id} == st.calls - {id};
    assert Do(conf, swapped, Extend(id, true)) == Spent(conf, st, id, now);
  }

  function Spent(conf: Conf, st: State, id: nat, now: int): State
    requires Valid(conf) && st.store.Some?
  {
    var filled := Refilled(st.store.value.cell, conf, now);
    st.(store := Some(Stored(filled.(tokens := filled.tokens - 1), st.clock + IdleTTL(conf), filled.last, Set)),
        calls := st.calls - {id}, admitted := st.admitted + 1)
  }

  /** A waiting call finds no bucket and creates it, with its own reading. */
  lemma Creates(conf: Conf, start: int, timely: bool, st: State, id: nat, inst: nat, now: int)
    requires Valid(conf) && Reachable(conf, start, timely, st) && id in st.calls && st.calls[id] == Waiting(inst, now) && st.store.None?
    requires timely && st.born.Some? ==> now >= st.forgottenAt
    ensures Reachable(conf, start, timely, Created(conf, st, id, now))
  {
    ReachStep(conf, start, timely, st, Get(id));
    var got := Do(conf, st, Get(id));
    ReachStep(conf, start, timely, got, Create(id, true));
    assert got.calls - {id} == st.calls - {id};
    assert Do(conf, got, Create(id, true)) == Created(conf, st, id, now);
  }

  function Created(conf: Conf, st: State, id: nat, now: int): State
    requires Valid(conf)
  {
    st.(store := Some(Stored(Cell(conf.burst - 1, now), st.clock + IdleTTL(conf), now, Set)), calls := st.calls - {id},
        admitted := st.admitted + 1, born := if st.born.Some? then st.born else Some(now))
  }

  predicate AllWaiting(calls: map<nat, Call>, ids: set<nat>, now: int) {
    forall id :: id in ids ==> id in calls && calls[id] == Waiting(0, now)
  }

  /** The calls there were are there still. */
  predicate Grows(calls: map<nat, Call>, calls': map<nat, Call>) {
    forall id :: id in calls ==> id in calls' && calls'[id] == calls[id]
  }

  predicate NoOthers(calls: map<nat, Call>, calls': map<nat, Call>, ids: set<nat>) {
    forall id :: id in calls' ==> id in calls || id in ids
  }

  predicate Below(calls: map<nat, Call>, free: nat) {
    forall id :: id in calls ==> id < free
  }

  lemma OneMore(calls: map<nat, Call>, calls': map<nat, Call>, ids: set<nat>, id: nat, now: int)
    requires Below(calls, id) && Grows(calls[id := Waiting(0, now)], calls')
    requires NoOthers(calls[id := Waiting(0, now)], calls', ids)
    requires AllWaiting(calls', ids, now) && forall i :: i in ids ==> i > id
    ensures Grows(calls, calls') && AllWaiting(calls', ids + {id}, now) && |ids + {id}| == |ids| + 1
    ensures NoOthers(calls, calls', ids + {id})
  {
    var more := calls[id := Waiting(0, now)];
    assert id in more;
    assert forall i :: i in calls ==> i in more && more[i] == calls[i];
  }

  /** n calls read the clock now, under ids not in use. */
  lemma {:induction false} StartMany(conf: Conf, start: int, timely: bool, st: State, n: nat, free: nat)
    returns (st': State, ids: set<nat>, free': nat)
    requires Valid(conf) && Reachable(conf, start, timely, st) && st.memory == map[] && Below(st.calls, free)
    ensures Reachable(conf, start, timely, st') && st' == st.(calls := st'.calls)
    ensures |ids| == n && AllWaiting(st'.calls, ids, st.clock) && (forall id :: id in ids ==> id >= free)
    ensures Grows(st.calls, st'.calls) && Below(st'.calls, free') && NoOthers(st.calls, st'.calls, ids)
    decreases n
  {
    if n == 0 {
      st', ids, free' := st, {}, free;
    } else {
      Starts(conf, start, timely, st, free, 0);
      var one := st.(calls := st.calls[free := Waiting(0, st.clock)]);
      st', ids, free' := StartMany(conf, start, timely, one, n - 1, free + 1);
      OneMore(st.calls, st'.calls, ids, free, st.clock);
      ids := ids + {free};
    }
  }

  /** The bucket's first call creates it. */
  lemma FirstCreated(conf: Conf, start: int, timely: bool) returns (st: State)
    requires Valid(conf)
    ensures Reachable(conf, start, timely, st)
    ensures st == Init(start).(store := Some(Stored(Cell(conf.burst - 1, start), start + IdleTTL(conf), start, Set)), admitted := 1,
                               born := Some(start))
  {
    ReachInit(conf, start, timely);
    Starts(conf, start, timely, Init(start), 0, 0);
    var waiting := Init(start).(calls := map[0 := Waiting(0, start)]);
    Creates(conf, start, timely, waiting, 0, 0, start);
    st := Created(conf, waiting, 0, start);
    assert st.calls == map[];
  }

  /** As many calls as there are tokens take them all, at a reading without a refill. */
  lemma {:induction false} Drain(conf: Conf, start: int, timely: bool, st: State, ids: set<nat>, now: int) returns (st': State)
    requires Valid(conf) && Reachable(conf, start, timely, st) && AllWaiting(st.calls, ids, now)
    requires st.store.Some? && st.store.value.cell.tokens == |ids| && now - st.store.value.cell.last < conf.period
    requires st.store.value.expiresAt <= st.clock + IdleTTL(conf)
    ensures Reachable(conf, start, timely, st') && st'.store.Some? && st'.store.value.expiresAt <= st.clock + IdleTTL(conf)
    ensures st'.store.value.cell == Cell(0, st.store.value.cell.last)
    ensures st' == st.(store := st'.store, calls := st.calls - ids, admitted := st.admitted + |ids|)
    decreases |ids|
  {
    if ids == {} {
      assert st.calls - ids == st.calls;
      st' := st;
    } else {
      var id :| id in ids;
      Spends(conf, start, timely, st, id, 0, now);
      assert |ids - {id}| == |ids| - 1;
      assert st.calls - {id} - (ids - {id}) == st.calls - ids;
      st' := Drain(conf, start, timely, Spent(conf, st, id, now), ids - {id}, now);
    }
  }

  /** Some run from this start ends with more admissions than the bound allows. */
  predicate Exceeds(conf: Conf, st: State)
    requires Valid(conf)
  {
    st.born.Some? && st.admitted > conf.burst + conf.increment * ((st.clock - st.born.value) / conf.period)
  }
}
