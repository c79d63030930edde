/**
  One bucket of the KVDB limiter (gw/throttle/limiterkvdbbuckets.go) under any number of instances and calls. Each step is
  one store verb, one access of an instance's refusal memory, or the clock moving on.
 */
module SharedBuckets {
  import opened Basics
  import opened Buckets

  const CAS_ATTEMPTS := 3

  /** Since the key's lifetime was last set: no swap has landed, only swaps that answered an error, or one that answered. */
  datatype Lifetime = Set | Errored | Owed

  /** `counted` is the refill moment of the last write that may have admitted a call. It and `life` only serve the statements. */
  datatype Stored = Stored(cell: Cell, expiresAt: int, counted: int, life: Lifetime)

  /** What a call does next: check the refusal memory, ask the store, act on what it answered, or set the key's lifetime. */
  datatype Phase = Reading | Asking | Got(seen: Option<Cell>) | Extending

  /** A TryAdmit: the clock reading it was given and the attempts it has left. */
  datatype Call = Call(inst: nat, now: int, left: nat, phase: Phase)

  /**
    `born` is the reading the bucket was first created with. Of the key last forgotten: `fullAt` is when its bucket would have
    been full whatever it held, `paidAt` the same from the last write that may have admitted a call, `forgottenAt` when it was
    forgotten, and `owed` whether a call had yet to set its lifetime. These only serve the statements.
   */
  datatype State = State(clock: int, store: Option<Stored>, calls: map<nat, Call>, memory: map<nat, int>, admitted: nat,
                         born: Option<int>, fullAt: int, paidAt: int, forgottenAt: int, owed: bool)

  /** A store verb that answers an error is `answered == false` when it took effect and `Fails` when it did not. */
  datatype Action =
    | Tick(to: int)
    | Forget
    | Read(id: nat, inst: nat)
    | Check(id: nat)
    | Get(id: nat)
    | Fails(id: nat)
    | Create(id: nat, answered: bool)
    | Refuse(id: nat)
    | Swap(id: nat, answered: bool)
    | Extend(id: nat, answered: bool)

  function Init(clock: int): State {
    State(clock, None, map[], map[], 0, None, clock, clock, clock, false)
  }

  /** The instance's remembered refusal stands for a call with this reading. */
  predicate MemoryStands(st: State, inst: nat, now: int) {
    inst in st.memory && now < st.memory[inst]
  }

  predicate Holds(st: State, id: nat) {
    id in st.calls && st.calls[id].phase.Got?
  }

  predicate HoldsCell(st: State, id: nat) {
    Holds(st, id) && st.calls[id].phase.seen.Some?
  }

  /** The bucket a call read, refilled by the call's own clock reading. */
  function Filled(conf: Conf, st: State, id: nat): Cell
    requires Valid(conf) && HoldsCell(st, id)
  {
    Refilled(st.calls[id].phase.seen.value, conf, st.calls[id].now)
  }

  predicate Enabled(conf: Conf, st: State, a: Action)
    requires Valid(conf)
  {
    match a
    case Tick(to) => to >= st.clock
    case Forget => st.store.Some? && st.clock >= st.store.value.expiresAt
    case Read(id, _) => id !in st.calls
    case Check(id) => id in st.calls && st.calls[id].phase.Reading?
    case Get(id) => id in st.calls && st.calls[id].phase.Asking?
    case Fails(id) => id in st.calls
    case Create(id, _) => Holds(st, id) && st.calls[id].phase.seen.None?
    case Refuse(id) => HoldsCell(st, id) && Filled(conf, st, id).tokens <= 0
    case Swap(id, _) => HoldsCell(st, id) && Filled(conf, st, id).tokens > 0
    case Extend(id, _) => id in st.calls && st.calls[id].phase.Extending?
  }

  /** The set-if-absent or compare-and-swap of this step takes effect. */
  predicate Lands(conf: Conf, st: State, a: Action)
    requires Valid(conf) && Enabled(conf, st, a)
  {
    match a
    case Create(_, _) => st.store.None?
    case Swap(id, _) => st.store.Some? && st.store.value.cell == st.calls[id].phase.seen.value
    case _ => false
  }

  /** A lost race: read again, or give up after the last attempt. */
  function Retried(calls: map<nat, Call>, id: nat): map<nat, Call>
    requires id in calls
  {
    if calls[id].left <= 1 then calls - {id}
    else calls[id := calls[id].(left := calls[id].left - 1, phase := Asking)]
  }

  function Count(b: bool): nat { if b then 1 else 0 }

  function Do(conf: Conf, st: State, a: Action): State
    requires Valid(conf) && Enabled(conf, st, a)
  {
    match a
    case Tick(to) => st.(clock := to)
    case Forget => 
      var key := st.store.value;
      st.(store := None, fullAt := key.cell.last + IdleTTL(conf), paidAt := key.counted + IdleTTL(conf),
          forgottenAt := st.clock, owed := key.life.Owed?)
    case Read(id, inst) => st.(calls := st.calls[id := Call(inst, st.clock, CAS_ATTEMPTS, Reading)])
    case Check(id) =>
      if MemoryStands(st, st.calls[id].inst, st.calls[id].now) then st.(calls := st.calls - {id})
      else st.(calls := st.calls[id := st.calls[id].(phase := Asking)])
    case Get(id) => st.(calls := st.calls[id := st.calls[id].(phase := Got(Seen(st)))])
    case Fails(id) => st.(calls := st.calls - {id})
    case Create(id, _) =>
      if Lands(conf, st, a) then
        var now := st.calls[id].now;
        st.(store := Some(Stored(Cell(conf.burst - 1, now), st.clock + IdleTTL(conf), now, Set)), calls := st.calls - {id},
            admitted := st.admitted + Count(a.answered), born := if st.born.Some? then st.born else Some(now))
      else st.(calls := Retried(st.calls, id))
    case Refuse(id) =>
      st.(calls := st.calls - {id}, memory := st.memory[st.calls[id].inst := Filled(conf, st, id).last + conf.period])
    case Swap(id, _) =>
      if Lands(conf, st, a) then
        var filled, key := Filled(conf, st, id), st.store.value;
        var cell := filled.(tokens := filled.tokens - 1);
        if a.answered then
          st.(store := Some(Stored(cell, key.expiresAt, cell.last, Owed)),
              calls := st.calls[id := st.calls[id].(phase := Extending)])
        else
          st.(store := Some(Stored(cell, key.expiresAt, key.counted, if key.life.Owed? then Owed else Errored)),
              calls := st.calls - {id})
      else st.(calls := Retried(st.calls, id))
    case Extend(id, answered) =>
      st.(store := if st.store.Some? then Some(Extended(conf, st.store.value, st.clock)) else None, calls := st.calls - {id},
          admitted := st.admitted + Count(answered))
  }

  /** Whatever the key holds by now. */
  function Extended(conf: Conf, key: Stored, clock: int): Stored
    requires Valid(conf)
  {
    key.(expiresAt := clock + IdleTTL(conf), life := Set)
  }

  function Seen(st: State): Option<Cell> {
    if st.store.Some? then Some(st.store.value.cell) else None
  }

  // ----- what every step keeps -----

  /** While no swap has landed since, the lifetime outlasts the time the bucket needs to fill. */
  predicate StoreOk(conf: Conf, clock: int, store: Option<Stored>)
    requires Valid(conf)
  {
    store.Some? ==>
      var key := store.value;
      && 0 <= key.cell.tokens <= conf.burst && key.counted <= key.cell.last <= clock
      && (key.life.Set? ==> key.cell.last + IdleTTL(conf) <= key.expiresAt)
      && (!key.life.Owed? ==> key.counted + IdleTTL(conf) <= key.expiresAt)
  }

  predicate CallOk(conf: Conf, clock: int, call: Call) {
    && call.now <= clock
    && (call.phase.Got? && call.phase.seen.Some? ==> 0 <= call.phase.seen.value.tokens <= conf.burst)
  }

  ghost predicate CallsOk(conf: Conf, clock: int, calls: map<nat, Call>) {
    forall id :: id in calls ==> CallOk(conf, clock, calls[id])
  }

  /** Before the bucket is first created nobody has seen it. */
  ghost predicate NothingYet(store: Option<Stored>, calls: map<nat, Call>, memory: map<nat, int>) {
    && store.None? && memory == map[]
    && forall id :: id in calls ==> !calls[id].phase.Extending? && (calls[id].phase.Got? ==> calls[id].phase.seen.None?)
  }

  ghost predicate Facts(conf: Conf, st: State)
    requires Valid(conf)
  {
    && StoreOk(conf, st.clock, st.store) && CallsOk(conf, st.clock, st.calls)
    && (st.born.None? ==> NothingYet(st.store, st.calls, st.memory) && st.admitted == 0)
    && (st.born.Some? && st.store.None? ==>
          && st.forgottenAt <= st.clock && st.paidAt - IdleTTL(conf) <= st.clock
          && (!st.owed ==> st.paidAt <= st.forgottenAt))
  }

  lemma FilledIs(conf: Conf, cell: Cell, now: int, clock: int)
    requires Valid(conf) && 0 <= cell.tokens <= conf.burst && cell.last <= clock && now <= clock
    ensures var filled := Refilled(cell, conf, now);
      && 0 <= filled.tokens <= conf.burst && cell.last <= filled.last <= clock
      && (filled == cell || (filled.tokens > 0 && clock >= cell.last + conf.period))
  {
    if cell.last <= now {
      RefilledIs(cell, conf, now);
      var k := (now - cell.last) / conf.period;
      MulNonNegative(k, conf.increment);
      MulNonNegative(k, conf.period);
      if k >= 1 { MulMonotone(1, k, conf.increment); }
    }
  }

  lemma SwapKeeps(conf: Conf, st: State, id: nat, answered: bool)
    requires Valid(conf) && Facts(conf, st) && Enabled(conf, st, Swap(id, answered))
    ensures Facts(conf, Do(conf, st, Swap(id, answered)))
  {
    if Lands(conf, st, Swap(id, answered)) {
      FilledIs(conf, st.store.value.cell, st.calls[id].now, st.clock);
    }
  }

  lemma StepKeeps(conf: Conf, st: State, a: Action)
    requires Valid(conf) && Facts(conf, st) && Enabled(conf, st, a)
    ensures Facts(conf, Do(conf, st, a))
  {
    match a
    case Swap(id, answered) => SwapKeeps(conf, st, id, answered);
    case _ =>
  }

  // ----- runs -----

  predicate Possible(conf: Conf, start: int, acts: seq<Action>)
    requires Valid(conf)
    decreases |acts|, 0
  {
    acts != [] ==>
      var front, a := acts[..|acts| - 1], acts[|acts| - 1];
      Possible(conf, start, front) && Enabled(conf, After(conf, start, front), a)
  }

  function After(conf: Conf, start: int, acts: seq<Action>): State
    requires Valid(conf) && Possible(conf, start, acts)
    decreases |acts|, 1
  {
    if acts == [] then Init(start)
    else Do(conf, After(conf, start, acts[..|acts| - 1]), acts[|acts| - 1])
  }

  lemma {:induction false} RunKeeps(conf: Conf, start: int, acts: seq<Action>)
    requires Valid(conf) && Possible(conf, start, acts)
    ensures Facts(conf, After(conf, start, acts))
  {
    if acts != [] {
      var front := acts[..|acts| - 1];
      RunKeeps(conf, start, front);
      StepKeeps(conf, After(conf, start, front), acts[|acts| - 1]);
    }
  }

  // ----- the refusal memory at the present moment -----

  /** An empty bucket read from the store stays what the store holds until its next refill moment. */
  predicate EmptyStays(conf: Conf, clock: int, store: Option<Stored>, cell: Cell) {
    cell.tokens == 0 && clock < cell.last + conf.period ==> store.Some? && store.value.cell == cell
  }

  ghost predicate AllStay(conf: Conf, st: State) {
    && (forall id :: id in st.calls && HoldsCell(st, id) ==> EmptyStays(conf, st.clock, st.store, st.calls[id].phase.seen.value))
    && (forall i :: i in st.memory ==> EmptyStays(conf, st.clock, st.store, Cell(0, st.memory[i] - conf.period)))
  }

  /** No key is forgotten after a swap that landed and before its lifetime is set again. */
  predicate Patient(st: State, a: Action) {
    a.Forget? && st.store.Some? ==> st.store.value.life.Set?
  }

  /** A write that no empty bucket short of its refill stands in the way of keeps what calls and memories rely on. */
  lemma Overwrite(conf: Conf, st: State, st': State)
    requires AllStay(conf, st) && st'.clock == st.clock && st'.memory == st.memory
    requires forall id :: id in st'.calls && HoldsCell(st', id) ==> id in st.calls && st'.calls[id] == st.calls[id]
    requires st.store.Some? && st.store.value.cell.tokens == 0 ==> st.clock >= st.store.value.cell.last + conf.period
    ensures AllStay(conf, st')
  {}

  lemma SwapStays(conf: Conf, st: State, id: nat, answered: bool)
    requires Valid(conf) && Facts(conf, st) && AllStay(conf, st) && Enabled(conf, st, Swap(id, answered))
    ensures AllStay(conf, Do(conf, st, Swap(id, answered)))
  {
    if Lands(conf, st, Swap(id, answered)) {
      FilledIs(conf, st.store.value.cell, st.calls[id].now, st.clock);
      Overwrite(conf, st, Do(conf, st, Swap(id, answered)));
    }
  }

  /** What is refused is the bucket as it was read. */
  lemma RefusedIs(conf: Conf, st: State, id: nat)
    requires Valid(conf) && Facts(conf, st) && Enabled(conf, st, Refuse(id))
    ensures Filled(conf, st, id) == st.calls[id].phase.seen.value && Filled(conf, st, id).tokens == 0
  {
    var call := st.calls[id];
    var cell := call.phase.seen.value;
    if cell.last <= call.now {
      FilledIs(conf, cell, call.now, st.clock);
    }
  }

  lemma ForgetStays(conf: Conf, st: State)
    requires Valid(conf) && Facts(conf, st) && AllStay(conf, st) && Enabled(conf, st, Forget) && Patient(st, Forget)
    ensures AllStay(conf, Do(conf, st, Forget))
  {
    PeriodsFill(conf);
    MulMonotone(1, Periods(conf), conf.period);
    Overwrite(conf, st, Do(conf, st, Forget));
  }

  lemma StepStays(conf: Conf, st: State, a: Action)
    requires Valid(conf) && Facts(conf, st) && AllStay(conf, st) && Enabled(conf, st, a) && Patient(st, a)
    ensures AllStay(conf, Do(conf, st, a))
  {
    match a
    case Create(id, answered) => if st.store.None? { Overwrite(conf, st, Do(conf, st, a)); }
    case Swap(id, answered) => SwapStays(conf, st, id, answered);
    case Refuse(id) => RefusedIs(conf, st, id);
    case Forget => ForgetStays(conf, st);
    case _ =>
  }

  predicate PatientRun(conf: Conf, start: int, acts: seq<Action>)
    requires Valid(conf) && Possible(conf, start, acts)
  {
    acts != [] ==>
      var front, a := acts[..|acts| - 1], acts[|acts| - 1];
      PatientRun(conf, start, front) && Patient(After(conf, start, front), a)
  }

  lemma {:induction false} RunStays(conf: Conf, start: int, acts: seq<Action>)
    requires Valid(conf) && Possible(conf, start, acts) && PatientRun(conf, start, acts)
    ensures AllStay(conf, After(conf, start, acts))
  {
    if acts != [] {
      var front := acts[..|acts| - 1];
      RunStays(conf, start, front);
      RunKeeps(conf, start, front);
      StepStays(conf, After(conf, start, front), acts[|acts| - 1]);
    }
  }

  /**
    In every patient run: while an instance's remembered refusal stands at the present moment, the store holds the empty bucket
    and would itself refuse a call that asked now; and it may not forget it, unless a swap has landed since the lifetime was
    last set.
   */
  lemma MemoryNeverLies(conf: Conf, start: int, acts: seq<Action>, inst: nat)
    requires Valid(conf) && Possible(conf, start, acts) && PatientRun(conf, start, acts)
    ensures var st := After(conf, start, acts);
      MemoryStands(st, inst, st.clock) ==>
        && st.store.Some? && st.store.value.cell == Cell(0, st.memory[inst] - conf.period)
        && !Admit(st.store.value.cell, conf, st.clock).0
        && (st.store.value.life.Set? ==> !Enabled(conf, st, Forget))
  {
    RunKeeps(conf, start, acts);
    RunStays(conf, start, acts);
    PeriodsFill(conf);
    MulMonotone(1, Periods(conf), conf.period);
  }

  // ----- a lost race is tried again -----

  /** The set-if-absent or compare-and-swap of this call does not take effect. */
  predicate Loses(conf: Conf, st: State, a: Action, id: nat)
    requires Valid(conf) && Enabled(conf, st, a)
  {
    (a.Create? || a.Swap?) && a.id == id && !Lands(conf, st, a)
  }

  /** How many races the call under this id has lost since it read the clock. */
  function Losses(conf: Conf, start: int, acts: seq<Action>, id: nat): nat
    requires Valid(conf) && Possible(conf, start, acts)
  {
    if acts == [] then 0
    else
      var front, a := acts[..|acts| - 1], acts[|acts| - 1];
      if a.Read? && a.id == id then 0
      else Losses(conf, start, front, id) + if Loses(conf, After(conf, start, front), a, id) then 1 else 0
  }

  lemma StepLoses(conf: Conf, st: State, a: Action, id: nat)
    requires Valid(conf) && Enabled(conf, st, a) && id in Do(conf, st, a).calls && !(a.Read? && a.id == id)
    ensures id in st.calls
    ensures Do(conf, st, a).calls[id].left == st.calls[id].left - if Loses(conf, st, a, id) then 1 else 0
    ensures st.calls[id].left >= 1 ==> Do(conf, st, a).calls[id].left >= 1
  {}

  /** Under way, a call has as many attempts left as it has not lost, and one at least. */
  lemma {:induction false} AttemptsLeft(conf: Conf, start: int, acts: seq<Action>, id: nat)
    requires Valid(conf) && Possible(conf, start, acts) && id in After(conf, start, acts).calls
    ensures After(conf, start, acts).calls[id].left == CAS_ATTEMPTS - Losses(conf, start, acts, id) >= 1
  {
    if acts != [] {
      var front, a := acts[..|acts| - 1], acts[|acts| - 1];
      if !(a.Read? && a.id == id) {
        StepLoses(conf, After(conf, start, front), a, id);
        AttemptsLeft(conf, start, front, id);
      }
    }
  }

  /** In every run, a lost race has the call ask the store again, until it has lost the third. */
  lemma LostRaceRetries(conf: Conf, start: int, acts: seq<Action>, a: Action, id: nat)
    requires Valid(conf) && Possible(conf, start, acts) && Enabled(conf, After(conf, start, acts), a)
    requires Loses(conf, After(conf, start, acts), a, id)
    ensures var st, st', lost := After(conf, start, acts), Do(conf, After(conf, start, acts), a), Losses(conf, start, acts, id);
      && (id in st'.calls <==> lost + 1 < CAS_ATTEMPTS) && (id in st'.calls ==> st'.calls[id].phase.Asking?)
      && st'.store == st.store && st'.admitted == st.admitted
  {
    AttemptsLeft(conf, start, acts, id);
  }

  // ----- a call nobody races -----

  function Known(memory: map<nat, int>, inst: nat): Option<int> {
    if inst in memory then Some(memory[inst]) else None
  }

  /** The steps of one whole call of an instance when nothing comes between them. */
  function Solo(conf: Conf, st: State, inst: nat): State
    requires Valid(conf) && st.calls == map[]
  {
    var begun := Do(conf, Do(conf, st, Read(0, inst)), Check(0));
    if begun.calls == map[] then begun else Settled(conf, Do(conf, begun, Get(0)))
  }

  /** Its steps on what the store answered. */
  function Settled(conf: Conf, got: State): State
    requires Valid(conf) && Holds(got, 0) && got.calls[0].phase.seen == Seen(got)
  {
    if Enabled(conf, got, Create(0, true)) then Do(conf, got, Create(0, true))
    else if Enabled(conf, got, Refuse(0)) then Do(conf, got, Refuse(0))
    else Do(conf, Do(conf, got, Swap(0, true)), Extend(0, true))
  }

  lemma SettledIs(conf: Conf, got: State, inst: nat)
    requires Valid(conf) && got.calls == map[0 := Call(inst, got.clock, CAS_ATTEMPTS, Got(Seen(got)))]
    requires !MemoryStands(got, inst, got.clock)
    ensures var (ok, after) := AdmitShared(Shared(Seen(got), Known(got.memory, inst)), conf, got.clock);
      var st' := Settled(conf, got);
      && Seen(st') == after.stored && Known(st'.memory, inst) == after.askAfter
      && st'.admitted == got.admitted + Count(ok) && st'.calls == map[]
  {
    assert got.calls - {0} == map[];
    if Enabled(conf, got, Swap(0, true)) {
      assert Do(conf, got, Swap(0, true)).calls - {0} == map[];
    }
  }

  /** They do what the limiter does alone with its store, so its verdicts are the in-memory bucket's (SameVerdicts). */
  lemma SoloCall(conf: Conf, st: State, inst: nat)
    requires Valid(conf) && st.calls == map[]
    ensures var (ok, after) := AdmitShared(Shared(Seen(st), Known(st.memory, inst)), conf, st.clock);
      var st' := Solo(conf, st, inst);
      && Seen(st') == after.stored && Known(st'.memory, inst) == after.askAfter
      && st'.admitted == st.admitted + Count(ok) && st'.calls == map[]
  {
    var read := Do(conf, st, Read(0, inst));
    assert read.calls - {0} == map[];
    if !MemoryStands(st, inst, st.clock) {
      SettledIs(conf, Do(conf, Do(conf, read, Check(0)), Get(0)), inst);
    }
  }

  // ----- the bound -----

  /** The calls that have taken a token and have yet to set the key's lifetime before they answer. */
  function Between(calls: map<nat, Call>): set<nat> {
    set id | id in calls && calls[id].phase.Extending?
  }

  /** Calls admitted, and those that still may be with the token they have taken. */
  function Taken(st: State): nat {
    st.admitted + |Between(st.calls)|
  }

  predicate Budget(conf: Conf, st: State)
    requires Valid(conf)
  {
    st.born.Some? ==>
      if st.store.Some? then
        var key, t0 := st.store.value, st.born.value;
        && Taken(st) + key.cell.tokens <= conf.burst + Grown(conf, t0, key.cell.last)
        && Taken(st) <= conf.burst + Grown(conf, t0, key.counted)
      else
        Taken(st) <= conf.burst + Grown(conf, st.born.value, st.paidAt - IdleTTL(conf))
  }

  /**
    A call that re-creates a forgotten bucket read its clock no earlier than the forgotten one, left alone since the last
    write that may have admitted a call, was full again.
   */
  predicate Punctual(conf: Conf, st: State, a: Action)
    requires Valid(conf) && Enabled(conf, st, a)
  {
    a.Create? && Lands(conf, st, a) && st.born.Some? ==> st.calls[a.id].now >= st.paidAt
  }

  /** Only a swap adds to the calls between, and only the lifetime's setting or a failure takes from them. */
  lemma BetweenIs(calls: map<nat, Call>, id: nat, call: Call)
    requires id in calls && !calls[id].phase.Extending?
    ensures Between(calls - {id}) == Between(calls)
    ensures Between(calls[id := call]) == Between(calls) + if call.phase.Extending? then {id} else {}
    ensures call.phase.Extending? ==> |Between(calls[id := call])| == |Between(calls)| + 1
  {
    assert id !in Between(calls);
    assert Between(calls - {id}) == Between(calls);
    assert Between(calls[id := call]) == Between(calls) + if call.phase.Extending? then {id} else {};
  }

  lemma BetweenLeft(calls: map<nat, Call>, id: nat)
    requires id in calls && calls[id].phase.Extending?
    ensures |Between(calls - {id})| == |Between(calls)| - 1
  {
    assert Between(calls - {id}) == Between(calls) - {id};
  }

  lemma NoneBetween(calls: map<nat, Call>)
    requires forall id :: id in calls ==> !calls[id].phase.Extending?
    ensures Between(calls) == {}
  {}

  /** The step moves or removes a call that is not between its swap and its Expire. */
  lemma CallTakes(st: State, st': State, id: nat, calls': map<nat, Call>)
    requires id in st.calls && !st.calls[id].phase.Extending? && st'.calls == calls' && st'.admitted == st.admitted
    requires calls' == st.calls - {id} || (id in calls' && calls' == st.calls[id := calls'[id]] && !calls'[id].phase.Extending?)
    ensures Taken(st') == Taken(st)
  {
    BetweenIs(st.calls, id, if id in calls' then calls'[id] else st.calls[id]);
  }

  /** A step that lands nothing takes no token. */
  lemma TakenStays(conf: Conf, st: State, a: Action)
    requires Valid(conf) && Enabled(conf, st, a) && !Lands(conf, st, a)
    ensures Taken(Do(conf, st, a)) <= Taken(st)
  {
    var st' := Do(conf, st, a);
    match a
    case Tick(_) =>
    case Forget =>
    case Read(id, inst) => assert Between(st.calls[id := Call(inst, st.clock, CAS_ATTEMPTS, Reading)]) == Between(st.calls);
    case Extend(id, _) => BetweenLeft(st.calls, id);
    case Fails(id) => if st.calls[id].phase.Extending? { BetweenLeft(st.calls, id); } else { CallTakes(st, st', id, st'.calls); }
    case Check(id) => CallTakes(st, st', id, st'.calls);
    case Get(id) => CallTakes(st, st', id, st'.calls);
    case Refuse(id) => CallTakes(st, st', id, st'.calls);
    case Create(id, _) => CallTakes(st, st', id, st'.calls);
    case Swap(id, _) => CallTakes(st, st', id, st'.calls);
  }

  lemma CreateTakes(conf: Conf, st: State, id: nat, answered: bool)
    requires Valid(conf) && Enabled(conf, st, Create(id, answered)) && st.store.None?
    ensures Taken(Do(conf, st, Create(id, answered))) == Taken(st) + Count(answered)
  {
    BetweenIs(st.calls, id, st.calls[id]);
  }

  lemma SwapTakes(conf: Conf, st: State, id: nat, answered: bool)
    requires Valid(conf) && Enabled(conf, st, Swap(id, answered)) && Lands(conf, st, Swap(id, answered))
    ensures Taken(Do(conf, st, Swap(id, answered))) == Taken(st) + Count(answered)
  {
    BetweenIs(st.calls, id, st.calls[id].(phase := Extending));
  }

  lemma CreateBudget(conf: Conf, st: State, id: nat, answered: bool)
    requires Valid(conf) && Facts(conf, st) && Budget(conf, st) && Enabled(conf, st, Create(id, answered)) && st.store.None?
    requires Punctual(conf, st, Create(id, answered))
    ensures Budget(conf, Do(conf, st, Create(id, answered)))
  {
    var now := st.calls[id].now;
    CreateTakes(conf, st, id, answered);
    if st.born.Some? {
      PeriodsFill(conf);
      GrownBy(conf, st.born.value, st.paidAt - IdleTTL(conf), Periods(conf));
      GrownMonotone(conf, st.born.value, st.paidAt, now);
    } else {
      NoneBetween(st.calls);
      assert Grown(conf, now, now) == 0 by { DivUnique(0, 0, 0, conf.period); }
    }
  }

  lemma SwapBudget(conf: Conf, st: State, id: nat, answered: bool)
    requires Valid(conf) && Facts(conf, st) && Budget(conf, st) && Enabled(conf, st, Swap(id, answered))
    requires Lands(conf, st, Swap(id, answered))
    ensures Budget(conf, Do(conf, st, Swap(id, answered)))
  {
    SwapTakes(conf, st, id, answered);
    RefillBudget(conf, st.store.value.cell, st.calls[id].now, st.born.value);
  }

  lemma StepBudget(conf: Conf, st: State, a: Action)
    requires Valid(conf) && Facts(conf, st) && Budget(conf, st) && Enabled(conf, st, a) && Punctual(conf, st, a)
    ensures Budget(conf, Do(conf, st, a))
  {
    if Lands(conf, st, a) {
      match a
      case Create(id, answered) => CreateBudget(conf, st, id, answered);
      case Swap(id, answered) => SwapBudget(conf, st, id, answered);
    } else {
      TakenStays(conf, st, a);
    }
  }

  predicate PunctualRun(conf: Conf, start: int, acts: seq<Action>)
    requires Valid(conf) && Possible(conf, start, acts)
  {
    acts != [] ==>
      var front, a := acts[..|acts| - 1], acts[|acts| - 1];
      PunctualRun(conf, start, front) && Punctual(conf, After(conf, start, front), a)
  }

  lemma {:induction false} RunBudget(conf: Conf, start: int, acts: seq<Action>)
    requires Valid(conf) && Possible(conf, start, acts) && PunctualRun(conf, start, acts)
    ensures Budget(conf, After(conf, start, acts))
  {
    if acts != [] {
      var front := acts[..|acts| - 1];
      RunBudget(conf, start, front);
      RunKeeps(conf, start, front);
      StepBudget(conf, After(conf, start, front), acts[|acts| - 1]);
    }
  }

  /**
    In every punctual run, of any number of instances, calls and expiries, the admissions of a bucket first created at t0
    stay within burst + increment * floor((T - t0) / period) at every time T.
   */
  lemma AdmissionsBounded(conf: Conf, start: int, acts: seq<Action>)
    requires Valid(conf) && Possible(conf, start, acts) && PunctualRun(conf, start, acts)
    ensures var st := After(conf, start, acts);
      if st.born.Some? then st.admitted <= conf.burst + conf.increment * ((st.clock - st.born.value) / conf.period)
      else st.admitted == 0
  {
    RunKeeps(conf, start, acts);
    RunBudget(conf, start, acts);
    WithinBudget(conf, After(conf, start, acts));
  }

  lemma WithinBudget(conf: Conf, st: State)
    requires Valid(conf) && Facts(conf, st) && Budget(conf, st)
    ensures if st.born.Some? then st.admitted <= conf.burst + conf.increment * ((st.clock - st.born.value) / conf.period)
            else st.admitted == 0
  {
    if st.born.Some? {
      GrownMonotone(conf, st.born.value, if st.store.Some? then st.store.value.counted else st.paidAt - IdleTTL(conf), st.clock);
    }
  }

  /** A call that re-creates a forgotten bucket read its clock after the bucket was forgotten. */
  predicate Timely(conf: Conf, st: State, a: Action)
    requires Valid(conf) && Enabled(conf, st, a)
  {
    a.Create? && Lands(conf, st, a) && st.born.Some? ==> st.calls[a.id].now >= st.forgottenAt
  }

  predicate TimelyRun(conf: Conf, start: int, acts: seq<Action>)
    requires Valid(conf) && Possible(conf, start, acts)
  {
    acts != [] ==>
      var front, a := acts[..|acts| - 1], acts[|acts| - 1];
      TimelyRun(conf, start, front) && Timely(conf, After(conf, start, front), a)
  }

  /** Then it is punctual, if no call had yet to set the lifetime of the key when it was forgotten. */
  lemma ReadAfterForgetting(conf: Conf, start: int, acts: seq<Action>, id: nat, answered: bool)
    requires Valid(conf) && Possible(conf, start, acts) && Enabled(conf, After(conf, start, acts), Create(id, answered))
    requires Timely(conf, After(conf, start, acts), Create(id, answered)) && !After(conf, start, acts).owed
    ensures Punctual(conf, After(conf, start, acts), Create(id, answered))
  {
    RunKeeps(conf, start, acts);
  }

  // ----- a refusal remembered, and a call with an older reading -----

  /** The store, asked by a call with this reading, refuses it. */
  predicate StoreRefuses(conf: Conf, st: State, now: int)
    requires Valid(conf)
  {
    st.store.Some? && !Admit(st.store.value.cell, conf, now).0
  }

  /** Since this empty bucket was read, the store holds it still, or one refilled later, or has forgotten it full. */
  predicate Moved(conf: Conf, store: Option<Stored>, fullAt: int, cell: Cell) {
    cell.tokens == 0 ==>
      if store.Some? then store.value.cell == cell || store.value.cell.last >= cell.last + conf.period
      else fullAt >= cell.last + conf.period
  }

  ghost predicate AllMoved(conf: Conf, st: State) {
    && (forall i :: i in st.memory ==> Moved(conf, st.store, st.fullAt, Cell(0, st.memory[i] - conf.period)))
    && (forall id :: id in st.calls && HoldsCell(st, id) ==> Moved(conf, st.store, st.fullAt, st.calls[id].phase.seen.value))
  }

  /** A call that re-creates a forgotten bucket read its clock no earlier than that bucket was full again. */
  predicate Prompt(conf: Conf, st: State, a: Action)
    requires Valid(conf) && Enabled(conf, st, a)
  {
    a.Create? && Lands(conf, st, a) && st.born.Some? ==> st.calls[a.id].now >= st.fullAt
  }

  predicate PromptRun(conf: Conf, start: int, acts: seq<Action>)
    requires Valid(conf) && Possible(conf, start, acts)
  {
    acts != [] ==>
      var front, a := acts[..|acts| - 1], acts[|acts| - 1];
      PromptRun(conf, start, front) && Prompt(conf, After(conf, start, front), a)
  }

  lemma RefilledLater(conf: Conf, cell: Cell, now: int)
    requires Valid(conf) && 0 <= cell.tokens <= conf.burst
    ensures Refilled(cell, conf, now) == cell || Refilled(cell, conf, now).last >= cell.last + conf.period
  {
    if cell.last <= now {
      RefilledIs(cell, conf, now);
      var k := (now - cell.last) / conf.period;
      if k >= 1 { MulMonotone(1, k, conf.period); }
    }
  }

  /** Calls that held a bucket hold it still or are gone, or have read what the store holds. */
  ghost predicate SameHeld(st: State, st': State) {
    st'.memory == st.memory && forall id :: id in st'.calls && HoldsCell(st', id) ==>
      (id in st.calls && st'.calls[id] == st.calls[id]) || (st.store.Some? && st'.calls[id].phase.seen.value == st.store.value.cell)
  }

  /** The store's bucket stays as it was, or one refilled by a period or more, or is spent from without becoming empty before. */
  lemma HeldMoves(conf: Conf, st: State, st': State)
    requires AllMoved(conf, st) && SameHeld(st, st') && st'.fullAt == st.fullAt
    requires st.store.Some? <==> st'.store.Some?
    requires st.store.Some? ==>
      st'.store.value.cell == st.store.value.cell || st'.store.value.cell.last >= st.store.value.cell.last + conf.period
      || (st.store.value.cell.tokens > 0 && st'.store.value.cell.last == st.store.value.cell.last)
    requires conf.period >= 1
    ensures AllMoved(conf, st')
  {}

  lemma SwapMoves(conf: Conf, st: State, id: nat, answered: bool)
    requires Valid(conf) && Facts(conf, st) && AllMoved(conf, st) && Enabled(conf, st, Swap(id, answered))
    ensures AllMoved(conf, Do(conf, st, Swap(id, answered)))
  {
    if Lands(conf, st, Swap(id, answered)) {
      RefilledLater(conf, st.store.value.cell, st.calls[id].now);
    }
    HeldMoves(conf, st, Do(conf, st, Swap(id, answered)));
  }

  lemma ForgetMoves(conf: Conf, st: State)
    requires Valid(conf) && AllMoved(conf, st) && Enabled(conf, st, Forget)
    ensures AllMoved(conf, Do(conf, st, Forget))
  {
    PeriodsFill(conf);
    MulMonotone(1, Periods(conf), conf.period);
  }

  lemma RefuseMoves(conf: Conf, st: State, id: nat)
    requires Valid(conf) && Facts(conf, st) && AllMoved(conf, st) && Enabled(conf, st, Refuse(id))
    ensures AllMoved(conf, Do(conf, st, Refuse(id)))
  {
    RefusedIs(conf, st, id);
  }

  lemma CreateMoves(conf: Conf, st: State, id: nat, answered: bool)
    requires Valid(conf) && Facts(conf, st) && AllMoved(conf, st) && Enabled(conf, st, Create(id, answered))
    requires Prompt(conf, st, Create(id, answered))
    ensures AllMoved(conf, Do(conf, st, Create(id, answered)))
  {}

  lemma StepMoves(conf: Conf, st: State, a: Action)
    requires Valid(conf) && Facts(conf, st) && AllMoved(conf, st) && Enabled(conf, st, a) && Prompt(conf, st, a)
    ensures AllMoved(conf, Do(conf, st, a))
  {
    match a
    case Swap(id, answered) => SwapMoves(conf, st, id, answered);
    case Create(id, answered) => CreateMoves(conf, st, id, answered);
    case Forget => ForgetMoves(conf, st);
    case Refuse(id) => RefuseMoves(conf, st, id);
    case _ => HeldMoves(conf, st, Do(conf, st, a));
  }

  lemma {:induction false} RunMoves(conf: Conf, start: int, acts: seq<Action>)
    requires Valid(conf) && Possible(conf, start, acts) && PromptRun(conf, start, acts)
    ensures AllMoved(conf, After(conf, start, acts))
  {
    if acts != [] {
      var front := acts[..|acts| - 1];
      RunMoves(conf, start, front);
      RunKeeps(conf, start, front);
      StepMoves(conf, After(conf, start, front), acts[|acts| - 1]);
    }
  }

  /** A later refill has landed in the store since the refusal was read, or the store has forgotten the bucket. */
  predicate RefillLanded(conf: Conf, st: State, inst: nat)
    requires inst in st.memory
  {
    st.store.None? || st.store.value.cell.last >= st.memory[inst]
  }

  /**
    In every prompt run, a call whose remembered refusal stands at its own reading, however old, is refused by the store too
    if no later refill has landed there, and otherwise exactly when what landed is spent again. So the memory changes a
    verdict only for a call that read its clock before a refill which has landed since and has tokens left.
   */
  lemma MemoryAtOlderReading(conf: Conf, start: int, acts: seq<Action>, inst: nat, now: int)
    requires Valid(conf) && Possible(conf, start, acts) && PromptRun(conf, start, acts)
    requires MemoryStands(After(conf, start, acts), inst, now) && now <= After(conf, start, acts).clock
    ensures var st := After(conf, start, acts);
      && (StoreRefuses(conf, st, now) <==> !RefillLanded(conf, st, inst) || (st.store.Some? && st.store.value.cell.tokens == 0))
      && (PatientRun(conf, start, acts) && RefillLanded(conf, st, inst) ==> st.clock >= st.memory[inst])
  {
    RunKeeps(conf, start, acts);
    RunMoves(conf, start, acts);
    var st := After(conf, start, acts);
    assert Moved(conf, st.store, st.fullAt, Cell(0, st.memory[inst] - conf.period));
    if PatientRun(conf, start, acts) {
      RunStays(conf, start, acts);
    }
  }
}
