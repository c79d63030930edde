/**
  A KVDB bucket's key between a swap and the setting of its lifetime: the swap keeps the lifetime the key had, so the key may
  be forgotten while its bucket is in use.
 */
module KeyLifetimes {
  import opened Basics
  import opened Buckets
  import opened SharedBuckets
  import opened BucketRuns

  // ----- when fresh readings are enough -----

  /** With refills worth two bursts: a bucket refilled since its creation has its burst to spare. */
  predicate Spare(conf: Conf, st: State)
    requires Valid(conf)
  {
    st.born.Some? ==>
      if st.store.Some? then
        var key, t0 := st.store.value, st.born.value;
        && Taken(st) + key.cell.tokens <= conf.burst + Grown(conf, t0, key.cell.last)
        && (Taken(st) + key.cell.tokens <= Grown(conf, t0, key.cell.last) || key.expiresAt >= key.cell.last + conf.period)
      else
        Taken(st) <= Grown(conf, st.born.value, st.forgottenAt)
  }

  lemma OnePeriodGrows(conf: Conf, t0: int, t: int, later: int)
    requires Valid(conf) && later >= t + conf.period
    ensures Grown(conf, t0, later) >= Grown(conf, t0, t) + conf.increment
  {
    GrownBy(conf, t0, t, 1);
    GrownMonotone(conf, t0, t + conf.period, later);
  }

  lemma LifetimeAPeriod(conf: Conf)
    requires Valid(conf)
    ensures IdleTTL(conf) >= conf.period
  {
    PeriodsFill(conf);
    MulMonotone(1, Periods(conf), conf.period);
  }

  lemma CreateSpares(conf: Conf, st: State, id: nat, answered: bool)
    requires Valid(conf) && Facts(conf, st) && Spare(conf, st) && Enabled(conf, st, Create(id, answered)) && st.store.None?
    requires Timely(conf, st, Create(id, answered))
    ensures Spare(conf, Do(conf, st, Create(id, answered)))
  {
    var now := st.calls[id].now;
    CreateTakes(conf, st, id, answered);
    LifetimeAPeriod(conf);
    if st.born.Some? {
      GrownMonotone(conf, st.born.value, st.forgottenAt, now);
    } else {
      NoneBetween(st.calls);
      assert Grown(conf, now, now) == 0 by { DivUnique(0, 0, 0, conf.period); }
    }
  }

  lemma SwapSpares(conf: Conf, st: State, id: nat, answered: bool)
    requires Valid(conf) && conf.increment >= 2 * conf.burst && Facts(conf, st) && Spare(conf, st)
    requires Enabled(conf, st, Swap(id, answered)) && Lands(conf, st, Swap(id, answered))
    ensures Spare(conf, Do(conf, st, Swap(id, answered)))
  {
    var cell, now := st.store.value.cell, st.calls[id].now;
    SwapTakes(conf, st, id, answered);
    FilledIs(conf, cell, now, st.clock);
    RefilledLater(conf, cell, now);
    if Refilled(cell, conf, now) != cell {
      OnePeriodGrows(conf, st.born.value, cell.last, Refilled(cell, conf, now).last);
    }
  }

  lemma ForgetSpares(conf: Conf, st: State)
    requires Valid(conf) && conf.increment >= 2 * conf.burst && Facts(conf, st) && Spare(conf, st) && Enabled(conf, st, Forget)
    ensures Spare(conf, Do(conf, st, Forget))
  {
    var key, t0 := st.store.value, st.born.value;
    GrownMonotone(conf, t0, key.cell.last, st.clock);
    if key.expiresAt >= key.cell.last + conf.period {
      OnePeriodGrows(conf, t0, key.cell.last, st.clock);
    }
  }

  lemma StepSpares(conf: Conf, st: State, a: Action)
    requires Valid(conf) && conf.increment >= 2 * conf.burst && Facts(conf, st) && Spare(conf, st)
    requires Enabled(conf, st, a) && Timely(conf, st, a)
    ensures Spare(conf, Do(conf, st, a))
  {
    if Lands(conf, st, a) {
      match a
      case Create(id, answered) => CreateSpares(conf, st, id, answered);
      case Swap(id, answered) => SwapSpares(conf, st, id, answered);
    } else if a.Forget? {
      ForgetSpares(conf, st);
    } else {
      TakenStays(conf, st, a);
      LifetimeAPeriod(conf);
    }
  }

  lemma {:induction false} RunSpares(conf: Conf, start: int, acts: seq<Action>)
    requires Valid(conf) && conf.increment >= 2 * conf.burst && Possible(conf, start, acts) && TimelyRun(conf, start, acts)
    ensures Spare(conf, After(conf, start, acts))
  {
    if acts != [] {
      var front := acts[..|acts| - 1];
      RunSpares(conf, start, front);
      RunKeeps(conf, start, front);
      StepSpares(conf, After(conf, start, front), acts[|acts| - 1]);
    }
  }

  // ----- and when they are not -----

  /** What a call that swapped is doing next. */
  function Swapped(now: int): Call {
    Call(0, now, CAS_ATTEMPTS, Extending)
  }

  /** A waiting call takes a token and has yet to set the lifetime, or has had an error for its answer and is gone. */
  function TookOne(conf: Conf, st: State, id: nat, now: int, answered: bool): State
    requires Valid(conf) && st.store.Some?
  {
    var key, filled := st.store.value, Refilled(st.store.value.cell, conf, now);
    var cell := filled.(tokens := filled.tokens - 1);
    if answered then
      st.(store := Some(Stored(cell, key.expiresAt, cell.last, Owed)), calls := st.calls[id := Swapped(now)])
    else
      st.(store := Some(Stored(cell, key.expiresAt, key.counted, if key.life.Owed? then Owed else Errored)),
          calls := st.calls - {id})
  }

  lemma TakesOne(conf: Conf, start: int, timely: bool, st: State, id: nat, now: int, answered: bool)
    requires Valid(conf) && Reachable(conf, start, timely, st) && id in st.calls && st.calls[id] == Waiting(0, now)
    requires st.store.Some? && Refilled(st.store.value.cell, conf, now).tokens >= 1
    ensures Reachable(conf, start, timely, TookOne(conf, st, id, now, answered))
  {
    ReachStep(conf, start, timely, st, Get(id));
    var got := Do(conf, st, Get(id));
    ReachStep(conf, start, timely, got, Swap(id, answered));
    var end := Do(conf, got, Swap(id, answered));
    assert got.calls - {id} == st.calls - {id};
    assert got.calls[id := Swapped(now)] == st.calls[id := Swapped(now)];
    assert end == TookOne(conf, st, id, now, answered);
  }

  predicate AllSwapped(calls: map<nat, Call>, ids: set<nat>, now: int) {
    forall id :: id in ids ==> id in calls && calls[id] == Swapped(now)
  }

  /** Where these calls stand after taking their tokens; the others stand where they did. */
  predicate TookAll(calls: map<nat, Call>, calls': map<nat, Call>, ids: set<nat>, now: int, answered: bool) {
    && (if answered then AllSwapped(calls', ids, now) && calls'.Keys == calls.Keys else calls'.Keys == calls.Keys - ids)
    && forall id :: id in calls && id !in ids ==> id in calls' && calls'[id] == calls[id]
  }

  /** As many calls as the bucket has tokens at this reading take them all. */
  lemma {:induction false} TakeAll(conf: Conf, start: int, timely: bool, st: State, ids: set<nat>, now: int, answered: bool)
    returns (st': State)
    requires Valid(conf) && Reachable(conf, start, timely, st) && AllWaiting(st.calls, ids, now) && st.store.Some?
    requires 0 <= st.store.value.cell.tokens <= conf.burst && st.store.value.cell.last <= now
    requires Refilled(st.store.value.cell, conf, now).tokens == |ids| > 0
    ensures Reachable(conf, start, timely, st') && st'.store.Some? && st'.store.value.expiresAt == st.store.value.expiresAt
    ensures st'.store.value.cell == Cell(0, Refilled(st.store.value.cell, conf, now).last)
    ensures st' == st.(store := st'.store, calls := st'.calls) && TookAll(st.calls, st'.calls, ids, now, answered)
    decreases |ids|
  {
    var id :| id in ids;
    RefilledIs(st.store.value.cell, conf, now);
    TakesOne(conf, start, timely, st, id, now, answered);
    var one := TookOne(conf, st, id, now, answered);
    assert |ids - {id}| == |ids| - 1;
    if |ids| == 1 {
      assert ids - {id} == {};
      assert ids == {id};
      st' := one;
    } else {
      assert AllWaiting(one.calls, ids - {id}, now);
      st' := TakeAll(conf, start, timely, one, ids - {id}, now, answered);
      TookMore(st.calls, one.calls, st'.calls, ids, id, now, answered);
    }
  }

  lemma TookMore(calls: map<nat, Call>, one: map<nat, Call>, calls': map<nat, Call>, ids: set<nat>, id: nat, now: int, answered: bool)
    requires id in ids && id in calls && one == if answered then calls[id := Swapped(now)] else calls - {id}
    requires TookAll(one, calls', ids - {id}, now, answered)
    ensures TookAll(calls, calls', ids, now, answered)
  {}

  /** The calls that swapped set the lifetime and answer. */
  lemma {:induction false} ExtendAll(conf: Conf, start: int, timely: bool, st: State, ids: set<nat>, now: int) returns (st': State)
    requires Valid(conf) && Reachable(conf, start, timely, st) && AllSwapped(st.calls, ids, now)
    ensures Reachable(conf, start, timely, st') && st'.admitted == st.admitted + |ids|
    ensures st'.clock == st.clock && st'.born == st.born
    decreases |ids|
  {
    if ids == {} {
      st' := st;
    } else {
      var id :| id in ids;
      ReachStep(conf, start, timely, st, Extend(id, true));
      assert |ids - {id}| == |ids| - 1;
      st' := ExtendAll(conf, start, timely, Do(conf, st, Extend(id, true)), ids - {id}, now);
    }
  }

  /** The bucket is created and drained; then its idle lifetime passes, and n calls read the clock. */
  lemma IdleThenCalls(conf: Conf, start: int, timely: bool, n: nat) returns (st: State, ids: set<nat>, free: nat)
    requires Valid(conf)
    ensures Reachable(conf, start, timely, st) && st.memory == map[] && Below(st.calls, free) && st.calls.Keys == ids
    ensures |ids| == n && AllWaiting(st.calls, ids, st.clock) && st.clock == start + IdleTTL(conf)
    ensures st.store.Some? && st.store.value.cell == Cell(0, start) && st.store.value.expiresAt <= st.clock
    ensures st.admitted == conf.burst && st.born == Some(start)
  {
    LifetimeAPeriod(conf);
    var first := FirstCreated(conf, start, timely);
    var busy, all, free1 := StartMany(conf, start, timely, first, conf.burst - 1, 0);
    var drained := Drain(conf, start, timely, busy, all, start);
    ReachStep(conf, start, timely, drained, Tick(start + IdleTTL(conf)));
    st, ids, free := StartMany(conf, start, timely, drained.(clock := start + IdleTTL(conf)), n, free1);
    assert st.calls.Keys == ids;
  }

  lemma FullAgain(conf: Conf, start: int)
    requires Valid(conf)
    ensures Refilled(Cell(0, start), conf, start + IdleTTL(conf)) == Cell(conf.burst, start + IdleTTL(conf))
  {
    LifetimeAPeriod(conf);
    IdleIsFull(Cell(0, start), conf, start + IdleTTL(conf));
    DivUnique(IdleTTL(conf), Periods(conf), 0, conf.period);
  }

  /** Calls swap just as the key's lifetime ends, it is forgotten, and a call reading the clock after that creates it again. */
  lemma ForgottenInUse(conf: Conf, start: int) returns (st: State, ids: set<nat>)
    requires Valid(conf)
    ensures Reachable(conf, start, true, st) && |ids| == conf.burst && AllSwapped(st.calls, ids, st.clock)
    ensures st.clock == start + IdleTTL(conf) && st.admitted == 2 * conf.burst && st.born == Some(start)
  {
    var free: nat;
    var before: State;
    before, ids, free := IdleThenCalls(conf, start, true, conf.burst);
    var now := before.clock;
    FullAgain(conf, start);
    var swapped := TakeAll(conf, start, true, before, ids, now, true);
    ReachStep(conf, start, true, swapped, Forget);
    var gone := Do(conf, swapped, Forget);
    var busy, more, _ := StartMany(conf, start, true, gone, conf.burst, free);
    assert |more| >= 1;
    var id :| id in more;
    Creates(conf, start, true, busy, id, 0, now);
    assert |more - {id}| == |more| - 1;
    st := Drain(conf, start, true, Created(conf, busy, id, now), more - {id}, now);
    assert ids !! more;
  }

  /** For every bucket whose increment is below twice its burst, a key forgotten between swaps and their Expire exceeds the bound. */
  lemma GapExceeds(conf: Conf, start: int) returns (st: State)
    requires Valid(conf) && conf.increment < 2 * conf.burst
    ensures Reachable(conf, start, true, st) && Exceeds(conf, st)
  {
    var before, ids := ForgottenInUse(conf, start);
    st := ExtendAll(conf, start, true, before, ids, before.clock);
    var p := Periods(conf);
    PeriodsFill(conf);
    assert (p - 1) * conf.increment == p * conf.increment - conf.increment;
    DivUnique(st.clock - start, p, 0, conf.period);
    if conf.increment > conf.burst && p >= 2 {
      MulMonotone(1, p - 1, conf.increment);
      assert false;
    }
  }

  /** Every run whose re-creations read the clock after the forgetting stays within the bound. */
  ghost predicate TimelyIsEnough(conf: Conf)
    requires Valid(conf)
  {
    forall start: int, acts: seq<Action> :: Possible(conf, start, acts) && TimelyRun(conf, start, acts) ==>
      !Exceeds(conf, After(conf, start, acts))
  }

  /** That is so, whatever the timing of swaps, expiries and errors, if and only if one refill is worth two bursts. */
  lemma TimelyIsEnoughIff(conf: Conf)
    requires Valid(conf)
    ensures TimelyIsEnough(conf) <==> conf.increment >= 2 * conf.burst
  {
    if conf.increment >= 2 * conf.burst {
      forall start: int, acts: seq<Action> | Possible(conf, start, acts) && TimelyRun(conf, start, acts)
        ensures !Exceeds(conf, After(conf, start, acts))
      {
        SpareIsWithin(conf, start, acts);
      }
    } else {
      var st := GapExceeds(conf, 0);
      assert EndsRun(conf, 0, true, st);
    }
  }

  lemma SpareIsWithin(conf: Conf, start: int, acts: seq<Action>)
    requires Valid(conf) && conf.increment >= 2 * conf.burst && Possible(conf, start, acts) && TimelyRun(conf, start, acts)
    ensures !Exceeds(conf, After(conf, start, acts))
  {
    RunKeeps(conf, start, acts);
    RunSpares(conf, start, acts);
    var st := After(conf, start, acts);
    if st.born.Some? {
      GrownMonotone(conf, st.born.value, if st.store.Some? then st.store.value.cell.last else st.forgottenAt, st.clock);
    }
  }

  // ----- a refusal that outlives its key -----

  lemma Refuses(conf: Conf, start: int, st: State, id: nat)
    requires Valid(conf) && Reachable(conf, start, false, st) && id !in st.calls && st.memory == map[]
    requires st.store.Some? && st.store.value.cell.tokens == 0 && st.clock - st.store.value.cell.last < conf.period
    ensures Reachable(conf, start, false, st.(memory := map[0 := st.store.value.cell.last + conf.period]))
  {
    Starts(conf, start, false, st, id, 0);
    var asking := st.(calls := st.calls[id := Waiting(0, st.clock)]);
    ReachStep(conf, start, false, asking, Get(id));
    var got := Do(conf, asking, Get(id));
    ReachStep(conf, start, false, got, Refuse(id));
    assert got.calls - {id} == st.calls;
    assert Do(conf, got, Refuse(id)) == st.(memory := map[0 := st.store.value.cell.last + conf.period]);
  }

  /**
    For every bucket: swaps that land and answer an error leave the key its old lifetime, so a refusal remembered after them
    stands at the present moment while the store has forgotten the bucket and would admit the call.
   */
  lemma MemoryOutlivesKey(conf: Conf, start: int) returns (st: State)
    requires Valid(conf)
    ensures Reachable(conf, start, false, st) && MemoryStands(st, 0, st.clock) && st.store.None? && st.calls == map[]
    ensures !StoreRefuses(conf, st, st.clock)
  {
    var before, ids, free := IdleThenCalls(conf, start, false, conf.burst);
    FullAgain(conf, start);
    var errored := TakeAll(conf, start, false, before, ids, before.clock, false);
    assert errored.calls == map[];
    Refuses(conf, start, errored, 0);
    var refused := errored.(memory := map[0 := errored.store.value.cell.last + conf.period]);
    ReachStep(conf, start, false, refused, Forget);
    st := Do(conf, refused, Forget);
  }

  const EVERY_TWO := Conf(1, 1, 2)

  /**
    A call that read 0 creates the bucket at 1, so its key ends at 3. A swap at 2 lands with an error. A refusal at 2 is
    remembered until 4, and at 3 the key may go.
   */
  lemma KeyEndsEarly() returns (st: State)
    ensures Reachable(EVERY_TWO, 0, false, st) && st.clock == 3 && MemoryStands(st, 0, 3) && Enabled(EVERY_TWO, st, Forget)
    ensures st.store.value.cell == Cell(0, 2) && !StoreRefuses(EVERY_TWO, Do(EVERY_TWO, st, Forget), 3)
  {
    ReachInit(EVERY_TWO, 0, false);
    Starts(EVERY_TWO, 0, false, Init(0), 0, 0);
    var waiting := Init(0).(calls := map[0 := Waiting(0, 0)]);
    ReachStep(EVERY_TWO, 0, false, waiting, Tick(1));
    Creates(EVERY_TWO, 0, false, waiting.(clock := 1), 0, 0, 0);
    var made := Created(EVERY_TWO, waiting.(clock := 1), 0, 0);
    assert made.calls == map[];
    ReachStep(EVERY_TWO, 0, false, made, Tick(2));
    Starts(EVERY_TWO, 0, false, made.(clock := 2), 0, 0);
    var asking := made.(clock := 2, calls := map[0 := Waiting(0, 2)]);
    TakesOne(EVERY_TWO, 0, false, asking, 0, 2, false);
    var errored := TookOne(EVERY_TWO, asking, 0, 2, false);
    assert errored.calls == map[];
    Refuses(EVERY_TWO, 0, errored, 0);
    var refused := errored.(memory := map[0 := 4]);
    ReachStep(EVERY_TWO, 0, false, refused, Tick(3));
    st := refused.(clock := 3);
  }
}
