/**
  What calls with old clock readings can do to a KVDB bucket: a remembered refusal that the store would not repeat, and more
  admissions than the bound when one of them re-creates a forgotten bucket.
 */
module StaleReadings {
  import opened Basics
  import opened Buckets
  import opened SharedBuckets
  import opened BucketRuns

  // ----- every bucket's bound is exceeded by some run -----

  /**
    Calls in stock: waiting with each of the readings t0, t0 + period, t0 + 2 * period and so on, at least n of them, and one
    more from level lo on.
   */
  ghost predicate Stocked(conf: Conf, t0: int, calls: map<nat, Call>, stock: seq<set<nat>>, lo: nat, n: nat) {
    forall j :: 0 <= j < |stock| ==>
      && |stock[j]| >= (if j < lo then n else n + 1)
      && forall id :: id in stock[j] ==> id in calls && calls[id] == Waiting(0, t0 + j * conf.period)
  }

  lemma {:induction false} StockUp(conf: Conf, start: int, t0: int, st: State, n: nat, m: nat, free: nat)
    returns (st': State, stock: seq<set<nat>>, free': nat)
    requires Valid(conf) && Reachable(conf, start, false, st) && st.memory == map[] && st.clock == t0
    requires Below(st.calls, free)
    ensures Reachable(conf, start, false, st') && st' == st.(calls := st'.calls, clock := t0 + m * conf.period)
    ensures |stock| == m + 1 && Stocked(conf, t0, st'.calls, stock, 0, n) && Below(st'.calls, free')
    decreases m
  {
    if m == 0 {
      var ids: set<nat>;
      st', ids, free' := StartMany(conf, start, false, st, n + 1, free);
      stock := [ids];
    } else {
      var st1, stock1, free1 := StockUp(conf, start, t0, st, n, m - 1, free);
      assert m * conf.period == (m - 1) * conf.period + conf.period;
      ReachStep(conf, start, false, st1, Tick(t0 + m * conf.period));
      var ids: set<nat>;
      st', ids, free' := StartMany(conf, start, false, Do(conf, st1, Tick(t0 + m * conf.period)), n + 1, free1);
      stock := stock1 + [ids];
    }
  }

  lemma SameLevel(i: int, j: int, p: int)
    requires p >= 1 && i * p == j * p
    ensures i == j
  {
    assert i < j ==> (i + 1) * p <= j * p;
    assert j < i ==> (j + 1) * p <= i * p;
  }

  /** A call taken from level j leaves the other levels' calls waiting. */
  lemma TakeOne(conf: Conf, t0: int, calls: map<nat, Call>, stock: seq<set<nat>>, j: nat, n: nat)
    returns (id: nat, stock': seq<set<nat>>)
    requires Valid(conf) && j < |stock| && Stocked(conf, t0, calls, stock, j, n)
    ensures id in calls && calls[id] == Waiting(0, t0 + j * conf.period)
    ensures |stock'| == |stock| && Stocked(conf, t0, calls - {id}, stock', j + 1, n)
  {
    assert |stock[j]| >= 1;
    id :| id in stock[j];
    stock' := stock[j := stock[j] - {id}];
    forall i | 0 <= i < |stock'|
      ensures id !in stock'[i]
    {
      if i != j && id in stock[i] {
        SameLevel(i, j, conf.period);
      }
    }
  }

  /** One period after the last refill there is a token, whatever was there. */
  lemma OnePeriodOn(conf: Conf, cell: Cell)
    requires Valid(conf) && 0 <= cell.tokens <= conf.burst
    ensures var filled := Refilled(cell, conf, cell.last + conf.period);
      1 <= filled.tokens <= conf.burst && filled.last == cell.last + conf.period
  {
    DivUnique(conf.period, 1, 0, conf.period);
  }

  /** The calls from level j on replay the bucket's refills, one admission each, all at this moment. */
  lemma {:induction false} Replay(conf: Conf, start: int, t0: int, st: State, stock: seq<set<nat>>, j: nat, n: nat)
    returns (st': State, stock': seq<set<nat>>)
    requires Valid(conf) && Reachable(conf, start, false, st) && 1 <= j <= |stock| && Stocked(conf, t0, st.calls, stock, j, n)
    requires st.store.Some? && 0 <= st.store.value.cell.tokens <= conf.burst
    requires st.store.value.cell.last == t0 + (j - 1) * conf.period && st.store.value.expiresAt <= st.clock + IdleTTL(conf)
    ensures Reachable(conf, start, false, st') && st'.store.Some? && st'.store.value.expiresAt <= st.clock + IdleTTL(conf)
    ensures st' == st.(store := st'.store, calls := st'.calls, admitted := st.admitted + |stock| - j)
    ensures |stock'| == |stock| && Stocked(conf, t0, st'.calls, stock', |stock|, n)
    decreases |stock| - j
  {
    if j == |stock| {
      st', stock' := st, stock;
    } else {
      var id, stock1 := TakeOne(conf, t0, st.calls, stock, j, n);
      var now := t0 + j * conf.period;
      assert now == st.store.value.cell.last + conf.period by {
        assert j * conf.period == (j - 1) * conf.period + conf.period;
      }
      OnePeriodOn(conf, st.store.value.cell);
      Spends(conf, start, false, st, id, 0, now);
      st', stock' := Replay(conf, start, t0, Spent(conf, st, id, now), stock1, j + 1, n);
    }
  }

  /** The bucket is forgotten, created again with the oldest reading, and its history replayed. */
  lemma Round(conf: Conf, start: int, t0: int, st: State, stock: seq<set<nat>>, n: nat)
    returns (st': State, stock': seq<set<nat>>)
    requires Valid(conf) && Reachable(conf, start, false, st) && |stock| >= 1 && Stocked(conf, t0, st.calls, stock, 0, n)
    requires st.store.Some? && st.store.value.expiresAt <= st.clock && st.born == Some(t0)
    ensures Reachable(conf, start, false, st') && st'.store.Some? && st'.store.value.expiresAt <= st'.clock && st'.born == Some(t0)
    ensures st'.clock == st.clock + IdleTTL(conf) && st'.admitted == st.admitted + |stock|
    ensures |stock'| == |stock| && Stocked(conf, t0, st'.calls, stock', |stock|, n)
  {
    ReachStep(conf, start, false, st, Forget);
    var st1 := Do(conf, st, Forget);
    var id, stock1 := TakeOne(conf, t0, st.calls, stock, 0, n);
    Creates(conf, start, false, st1, id, 0, t0);
    var st2, stock2 := Replay(conf, start, t0, Created(conf, st1, id, t0), stock1, 1, n);
    PeriodsFill(conf);
    MulNonNegative(Periods(conf), conf.period);
    ReachStep(conf, start, false, st2, Tick(st2.clock + IdleTTL(conf)));
    st', stock' := Do(conf, st2, Tick(st2.clock + IdleTTL(conf))), stock2;
  }

  lemma LowerStock(conf: Conf, t0: int, calls: map<nat, Call>, stock: seq<set<nat>>, n: nat)
    requires Stocked(conf, t0, calls, stock, |stock|, n + 1)
    ensures Stocked(conf, t0, calls, stock, 0, n)
  {}

  lemma {:induction false} Rounds(conf: Conf, start: int, t0: int, st: State, stock: seq<set<nat>>, k: nat) returns (st': State)
    requires Valid(conf) && Reachable(conf, start, false, st) && |stock| >= 1 && Stocked(conf, t0, st.calls, stock, |stock|, k)
    requires st.store.Some? && st.store.value.expiresAt <= st.clock && st.born == Some(t0)
    ensures Reachable(conf, start, false, st') && st'.born == Some(t0)
    ensures st'.clock == st.clock + k * IdleTTL(conf) && st'.admitted == st.admitted + k * |stock|
    decreases k
  {
    if k == 0 {
      st' := st;
    } else {
      LowerStock(conf, t0, st.calls, stock, k - 1);
      var st1, stock1 := Round(conf, start, t0, st, stock, k - 1);
      st' := Rounds(conf, start, t0, st1, stock1, k - 1);
      assert k * IdleTTL(conf) == IdleTTL(conf) + (k - 1) * IdleTTL(conf);
      assert k * |stock| == |stock| + (k - 1) * |stock|;
    }
  }

  lemma Distribute(x: int, y: int, z: int)
    ensures (x + y) * z == x * z + y * z
  {}

  lemma Regroup(x: int, y: int, z: int)
    ensures x * y * z == x * (y * z)
  {}

  /** The whole periods in the time that m periods and k idle lifetimes take. */
  lemma WholePeriods(conf: Conf, k: nat, m: nat)
    requires Valid(conf)
    ensures (m * conf.period + k * IdleTTL(conf)) / conf.period == m + k * Periods(conf)
  {
    var p := Periods(conf);
    Distribute(m, k * p, conf.period);
    Regroup(k, p, conf.period);
    DivUnique(m * conf.period + k * IdleTTL(conf), m + k * p, 0, conf.period);
  }

  /** They pay for less than k admissions in each of the k lifetimes. */
  lemma Outspent(conf: Conf, k: nat, m: nat)
    requires Valid(conf) && m == conf.burst + conf.increment && k == conf.burst + m * conf.increment
    ensures conf.burst + conf.increment * (m + k * Periods(conf)) < 1 + k * (m + 1)
  {
    var p, inc := Periods(conf), conf.increment;
    Distribute(m, k * p, inc);
    Regroup(k, p, inc);
    assert p * inc <= m by {
      PeriodsFill(conf);
      Distribute(p, -1, inc);
    }
    MulMonotone(p * inc, m, k);
    Distribute(m, 1, k);
  }

  lemma LifetimeWithin(conf: Conf, m: int)
    requires Valid(conf) && m >= conf.burst
    ensures IdleTTL(conf) <= m * conf.period
  {
    PeriodsFill(conf);
    MulMonotone(1, conf.increment, Periods(conf) - 1);
    MulMonotone(Periods(conf), m, conf.period);
  }

  /**
    Whatever the bucket's parameters and whenever it is first asked for, some run exceeds the bound that AdmissionsBounded
    gives for punctual runs: one whose calls re-create the forgotten bucket with old readings and replay its refills.
   */
  lemma BoundNeedsPunctual(conf: Conf, start: int) returns (st: State)
    requires Valid(conf)
    ensures Reachable(conf, start, false, st) && Exceeds(conf, st)
  {
    var born := FirstCreated(conf, start, false);
    var m := conf.burst + conf.increment;
    MulNonNegative(m, conf.increment);
    var k := conf.burst + m * conf.increment;
    var full, stock, _ := StockUp(conf, start, start, born, k - 1, m, 0);
    assert Stocked(conf, start, full.calls, stock, |stock|, k);
    LifetimeWithin(conf, m);
    st := Rounds(conf, start, start, full, stock, k);
    WholePeriods(conf, k, m);
    Outspent(conf, k, m);
  }

  // ----- one tick is enough -----

  /** The bucket is created and drained, and one tick before it is full and may be forgotten, burst calls read the clock. */
  lemma OneTickEarly(conf: Conf, start: int) returns (st: State, ids: set<nat>, free: nat)
    requires Valid(conf)
    ensures Below(st.calls, free)
    ensures Reachable(conf, start, false, st) && st.memory == map[] && |ids| == conf.burst
    ensures AllWaiting(st.calls, ids, start + IdleTTL(conf) - 1)
    ensures st.store.Some? && st.store.value.expiresAt <= st.clock && st.clock == start + IdleTTL(conf)
    ensures st.admitted == conf.burst && st.born == Some(start)
  {
    PeriodsFill(conf);
    MulMonotone(1, Periods(conf), conf.period);
    var first := FirstCreated(conf, start, false);
    var busy, all, free1 := StartMany(conf, start, false, first, conf.burst - 1, 0);
    var drained := Drain(conf, start, false, busy, all, start);
    ReachStep(conf, start, false, drained, Tick(start + IdleTTL(conf) - 1));
    var early: State;
    early, ids, free := StartMany(conf, start, false, drained.(clock := start + IdleTTL(conf) - 1), conf.burst, free1);
    ReachStep(conf, start, false, early, Tick(start + IdleTTL(conf)));
    st := early.(clock := start + IdleTTL(conf));
  }

  /** One of them creates the forgotten bucket again with its reading, and the others drain it. */
  lemma CreatedEarly(conf: Conf, start: int) returns (st: State, free: nat)
    requires Valid(conf)
    ensures Below(st.calls, free)
    ensures Reachable(conf, start, false, st) && st.memory == map[] && st.store.Some?
    ensures st.store.value.cell == Cell(0, start + IdleTTL(conf) - 1)
    ensures st.clock == start + IdleTTL(conf) && st.admitted == 2 * conf.burst && st.born == Some(start)
  {
    var early: State, ids: set<nat>;
    early, ids, free := OneTickEarly(conf, start);
    ReachStep(conf, start, false, early, Forget);
    var gone := Do(conf, early, Forget);
    assert |ids| >= 1;
    var id :| id in ids;
    var now := start + IdleTTL(conf) - 1;
    Creates(conf, start, false, gone, id, 0, now);
    assert |ids - {id}| == |ids| - 1;
    st := Drain(conf, start, false, Created(conf, gone, id, now), ids - {id}, now);
  }

  lemma NextRefill(conf: Conf, start: int, st: State, free: nat) returns (st': State)
    requires Valid(conf) && Reachable(conf, start, false, st) && st.memory == map[] && st.store.Some?
    requires st.store.value.cell.tokens == 0 && st.store.value.cell.last <= st.clock <= st.store.value.cell.last + conf.period
    requires Below(st.calls, free)
    ensures Reachable(conf, start, false, st') && st'.clock == st.store.value.cell.last + conf.period && st'.born == st.born
    ensures st'.admitted == st.admitted + if conf.increment > conf.burst then conf.burst else conf.increment
  {
    var now := st.store.value.cell.last + conf.period;
    OnePeriodOn(conf, st.store.value.cell);
    DivUnique(conf.period, 1, 0, conf.period);
    var tokens := Refilled(st.store.value.cell, conf, now).tokens;
    ReachStep(conf, start, false, st, Tick(now));
    var busy, ids, _ := StartMany(conf, start, false, st.(clock := now), tokens, free);
    assert |ids| >= 1;
    var id :| id in ids;
    Spends(conf, start, false, busy, id, 0, now);
    assert |ids - {id}| == |ids| - 1;
    st' := Drain(conf, start, false, Spent(conf, busy, id, now), ids - {id}, now);
  }

  /** For every bucket whose increment is below twice its burst, one re-creation with readings a single tick too old exceeds it. */
  lemma StaleCreationExceeds(conf: Conf, start: int) returns (st: State)
    requires Valid(conf) && conf.increment < 2 * conf.burst
    ensures Reachable(conf, start, false, st) && Exceeds(conf, st)
    ensures st.clock < start + IdleTTL(conf) + conf.period
  {
    var made, free := CreatedEarly(conf, start);
    st := NextRefill(conf, start, made, free);
    var p := Periods(conf);
    PeriodsFill(conf);
    assert (p - 1) * conf.increment == p * conf.increment - conf.increment;
    DivUnique(st.clock - start, p, conf.period - 1, conf.period);
    if conf.increment > conf.burst && p >= 2 {
      MulMonotone(1, p - 1, conf.increment);
      assert false;
    }
  }

  // ----- a refusal the store would not repeat -----

  const TWOS := Conf(2, 2, 2)

  /**
    A bucket drained at 0 and refused to instance 0, which remembers that until 2. A call of it reads 1; at 2 a call of
    instance 1 lands the refill. The memory refuses the waiting call, and the store would admit it.
   */
  lemma MemoryOutlivesRefill() returns (st: State)
    ensures Reachable(TWOS, 0, false, st) && st.clock == 2 && st.store.Some? && st.store.value.cell == Cell(1, 2)
    ensures 0 in st.calls && st.calls[0] == Call(0, 1, CAS_ATTEMPTS, Reading) && MemoryStands(st, 0, 1)
    ensures Do(TWOS, st, Check(0)) == st.(calls := st.calls - {0}) && !StoreRefuses(TWOS, st, 1)
  {
    var refused := RefusedAtZero();
    ReachStep(TWOS, 0, false, refused, Tick(1));
    var one := refused.(clock := 1);
    ReachStep(TWOS, 0, false, one, Read(0, 0));
    var read := one.(calls := one.calls[0 := Call(0, 1, CAS_ATTEMPTS, Reading)]);
    ReachStep(TWOS, 0, false, read, Tick(2));
    var two := read.(clock := 2);
    Starts(TWOS, 0, false, two, 1, 1);
    var asking := two.(calls := two.calls[1 := Waiting(1, 2)]);
    Spends(TWOS, 0, false, asking, 1, 1, 2);
    st := Spent(TWOS, asking, 1, 2);
  }

  lemma RefusedAtZero() returns (st: State)
    ensures Reachable(TWOS, 0, false, st) && st.clock == 0 && st.calls == map[] && st.memory == map[0 := 2]
    ensures st.store.Some? && st.store.value.cell == Cell(0, 0)
  {
    var first := FirstCreated(TWOS, 0, false);
    Starts(TWOS, 0, false, first, 0, 0);
    var asking := first.(calls := map[0 := Waiting(0, 0)]);
    Spends(TWOS, 0, false, asking, 0, 0, 0);
    var empty := Spent(TWOS, asking, 0, 0);
    assert empty.calls == map[];
    Starts(TWOS, 0, false, empty, 0, 0);
    var again := empty.(calls := map[0 := Waiting(0, 0)]);
    ReachStep(TWOS, 0, false, again, Get(0));
    var got := Do(TWOS, again, Get(0));
    ReachStep(TWOS, 0, false, got, Refuse(0));
    st := Do(TWOS, got, Refuse(0));
  }
}
