/**
  How much the in-memory limiter (gw/throttle/limiterinmembuckets.go) admits for one bucket over any sequence of calls and
  cleanups in time order, with the parameters the KVDB limiter demands. A cleanup looks at a bucket under its lock and
  removes it afterwards; calls come in between. A call reads its clock, finds its bucket and uses it at one moment.
 */
module LimiterBound {
  import opened Basics
  import opened Buckets

  /** A cleanup goes by the time of its tick, `now`. `Clean` is one that nothing comes between: it looks and drops at once. */
  datatype Event = Call(at: int) | Look(at: int, now: int) | Drop(at: int) | Clean(at: int, now: int)

  /** The bucket, whether the cleanup has found it old, what it has admitted, and when it was first created. */
  datatype Played = Played(bucket: Option<Cell>, found: bool, admitted: nat, born: Option<int>)

  predicate Old(bucket: Option<Cell>, age: int, now: int) {
    Swept(bucket, age, now) != bucket
  }

  function Play(conf: Conf, age: int, p: Played, e: Event): Played
    requires Valid(conf)
  {
    match e
    case Call(at) =>
      var (ok, after) := AdmitAt(p.bucket, conf, at);
      p.(bucket := Some(after), admitted := p.admitted + (if ok then 1 else 0), born := if p.born.Some? then p.born else Some(at))
    case Look(_, now) => p.(found := Old(p.bucket, age, now))
    case Drop(_) => if p.found then p.(bucket := None, found := false) else p
    case Clean(_, now) => p.(bucket := Swept(p.bucket, age, now), found := false)
  }

  function PlayAll(conf: Conf, age: int, events: seq<Event>): Played
    requires Valid(conf)
  {
    if events == [] then Played(None, false, 0, None)
    else Play(conf, age, PlayAll(conf, age, events[..|events| - 1]), events[|events| - 1])
  }

  /** A cleanup's tick is not in the future. */
  predicate TickPast(e: Event) {
    match e
    case Look(at, now) => now <= at
    case Clean(at, now) => now <= at
    case _ => true
  }

  predicate InOrder(events: seq<Event>, until: int) {
    && (forall i, j :: 0 <= i < j < |events| ==> events[i].at <= events[j].at)
    && (forall i :: 0 <= i < |events| ==> events[i].at <= until && TickPast(events[i]))
  }

  /** No call comes between a cleanup's look and its removal. */
  predicate Undisturbed(events: seq<Event>) {
    forall i :: 0 <= i < |events| ==> !events[i].Look? && !events[i].Drop?
  }

  lemma CleanIsLookThenDrop(conf: Conf, age: int, p: Played, at: int, now: int)
    requires Valid(conf)
    ensures Play(conf, age, p, Clean(at, now)) == Play(conf, age, Play(conf, age, p, Look(at, now)), Drop(at))
  {}

  predicate Within(conf: Conf, p: Played, now: int)
    requires Valid(conf)
  {
    p.born.Some? ==> p.admitted <= conf.burst + conf.increment * ((now - p.born.value) / conf.period)
  }

  // ----- an age long enough -----

  /** The periods that grow two bursts. */
  function TwoBurstPeriods(conf: Conf): int
    requires Valid(conf)
  {
    (2 * conf.burst + conf.increment - 1) / conf.increment
  }

  lemma TwoBurstPeriodsGrow(conf: Conf)
    requires Valid(conf)
    ensures TwoBurstPeriods(conf) >= Periods(conf) >= 1
    ensures (TwoBurstPeriods(conf) - 1) * conf.increment < 2 * conf.burst <= TwoBurstPeriods(conf) * conf.increment
  {
    PeriodsFill(conf);
    PeriodsFill(conf.(burst := 2 * conf.burst));
    DivMonotone(conf.burst + conf.increment - 1, 2 * conf.burst + conf.increment - 1, conf.increment);
  }

  /** Cleanups spare a bucket idle for less than this many periods. */
  predicate Spares(conf: Conf, age: int, periods: int) {
    age >= periods * conf.period - 1
  }

  /** Found old and used since, a bucket has its burst to spare; found old and not used, it has stood long enough. */
  predicate FoundOld(conf: Conf, p: Played, cell: Cell, now: int)
    requires Valid(conf) && p.born.Some?
  {
    || p.admitted + cell.tokens <= Grown(conf, p.born.value, cell.last)
    || now >= cell.last + TwoBurstPeriods(conf) * conf.period
  }

  predicate Budget(conf: Conf, p: Played, now: int)
    requires Valid(conf)
  {
    match p.bucket
    case Some(cell) =>
      && p.born.Some? && 0 <= cell.tokens <= conf.burst && cell.last <= now
      && p.admitted + cell.tokens <= conf.burst + Grown(conf, p.born.value, cell.last)
      && (p.found ==> FoundOld(conf, p, cell, now))
    case None => !p.found && if p.born.Some? then p.admitted <= Grown(conf, p.born.value, now) else p.admitted == 0
  }

  lemma BudgetLater(conf: Conf, p: Played, before: int, at: int)
    requires Valid(conf) && Budget(conf, p, before) && before <= at
    ensures Budget(conf, p, at)
  {
    if p.bucket.None? && p.born.Some? {
      GrownMonotone(conf, p.born.value, before, at);
    }
  }

  /** One use: what is admitted and what is left is what was there, or what the refill made of it. */
  lemma UseIs(conf: Conf, cell: Cell, at: int)
    requires Valid(conf) && 0 <= cell.tokens <= conf.burst && cell.last <= at
    ensures var (ok, after) := Admit(cell, conf, at);
      var filled := Refilled(cell, conf, at);
      && after.last == filled.last && after.tokens + (if ok then 1 else 0) == filled.tokens
      && 0 <= after.tokens <= conf.burst && cell.last <= after.last <= at
  {
    RefilledIs(cell, conf, at);
    var k := (at - cell.last) / conf.period;
    MulNonNegative(k, conf.increment);
    MulNonNegative(k, conf.period);
  }

  /** A bucket that has stood for two bursts' worth of periods has its burst to spare once it is refilled. */
  lemma LongRefill(conf: Conf, cell: Cell, admitted: int, t0: int, at: int)
    requires Valid(conf) && 0 <= cell.tokens <= conf.burst && at >= cell.last + TwoBurstPeriods(conf) * conf.period
    requires admitted + cell.tokens <= conf.burst + Grown(conf, t0, cell.last)
    ensures var filled := Refilled(cell, conf, at); admitted + filled.tokens <= Grown(conf, t0, filled.last)
  {
    var n := TwoBurstPeriods(conf);
    TwoBurstPeriodsGrow(conf);
    MulNonNegative(n, conf.period);
    RefilledIs(cell, conf, at);
    var k := (at - cell.last) / conf.period;
    DivUnique(n * conf.period, n, 0, conf.period);
    DivMonotone(n * conf.period, at - cell.last, conf.period);
    GrownBy(conf, t0, cell.last, k);
    MulMonotone(n, k, conf.increment);
  }

  lemma CallKeeps(conf: Conf, age: int, p: Played, at: int)
    requires Valid(conf) && Budget(conf, p, at)
    ensures Budget(conf, Play(conf, age, p, Call(at)), at)
  {
    match p.bucket
    case Some(cell) =>
      UseIs(conf, cell, at);
      RefillBudget(conf, cell, at, p.born.value);
      if p.found && at >= cell.last + TwoBurstPeriods(conf) * conf.period {
        LongRefill(conf, cell, p.admitted, p.born.value, at);
      }
    case None =>
      UseIs(conf, Cell(conf.burst, at), at);
      DivUnique(0, 0, 0, conf.period);
  }

  /** What grows in these periods after the last refill moment. */
  lemma GrownSince(conf: Conf, t0: int, last: int, periods: int, at: int)
    requires Valid(conf) && at >= last + periods * conf.period
    ensures Grown(conf, t0, at) >= Grown(conf, t0, last) + periods * conf.increment
  {
    GrownBy(conf, t0, last, periods);
    GrownMonotone(conf, t0, last + periods * conf.period, at);
  }

  lemma DropKeeps(conf: Conf, age: int, p: Played, at: int)
    requires Valid(conf) && Budget(conf, p, at)
    ensures Budget(conf, Play(conf, age, p, Drop(at)), at)
  {
    if p.found {
      var cell, t0 := p.bucket.value, p.born.value;
      GrownMonotone(conf, t0, cell.last, at);
      if at >= cell.last + TwoBurstPeriods(conf) * conf.period {
        GrownSince(conf, t0, cell.last, TwoBurstPeriods(conf), at);
        TwoBurstPeriodsGrow(conf);
      }
    }
  }

  lemma CleanKeeps(conf: Conf, age: int, p: Played, at: int, now: int)
    requires Valid(conf) && Spares(conf, age, Periods(conf)) && Budget(conf, p, at) && now <= at
    ensures Budget(conf, Play(conf, age, p, Clean(at, now)), at)
  {
    if Old(p.bucket, age, now) {
      GrownSince(conf, p.born.value, p.bucket.value.last, Periods(conf), at);
      PeriodsFill(conf);
    }
  }

  /** The age this sequence of events calls for. */
  function Needed(conf: Conf, events: seq<Event>): int
    requires Valid(conf)
  {
    if Undisturbed(events) then Periods(conf) else TwoBurstPeriods(conf)
  }

  lemma EventKeeps(conf: Conf, age: int, p: Played, e: Event)
    requires Valid(conf) && Spares(conf, age, Periods(conf)) && Budget(conf, p, e.at)
    requires TickPast(e) && (e.Look? ==> Spares(conf, age, TwoBurstPeriods(conf)))
    ensures Budget(conf, Play(conf, age, p, e), e.at)
  {
    match e
    case Call(at) => CallKeeps(conf, age, p, at);
    case Look(_, _) =>
    case Drop(at) => DropKeeps(conf, age, p, at);
    case Clean(at, now) => CleanKeeps(conf, age, p, at, now);
  }

  lemma {:induction false} PlayKeeps(conf: Conf, age: int, events: seq<Event>, until: int)
    requires Valid(conf) && Spares(conf, age, Needed(conf, events)) && InOrder(events, until)
    ensures Budget(conf, PlayAll(conf, age, events), until)
  {
    if events != [] {
      var front, e := events[..|events| - 1], events[|events| - 1];
      TwoBurstPeriodsGrow(conf);
      MulMonotone(Periods(conf), TwoBurstPeriods(conf), conf.period);
      assert Undisturbed(events) ==> Undisturbed(front) && !e.Look?;
      PlayKeeps(conf, age, front, e.at);
      EventKeeps(conf, age, PlayAll(conf, age, front), e);
      BudgetLater(conf, PlayAll(conf, age, events), e.at, until);
    }
  }

  lemma WithinBudget(conf: Conf, p: Played, now: int)
    requires Valid(conf) && Budget(conf, p, now)
    ensures Within(conf, p, now)
  {
    if p.bucket.Some? {
      GrownMonotone(conf, p.born.value, p.bucket.value.last, now);
    }
  }

  // ----- a shorter age -----

  function Calls(n: nat, at: int): seq<Event> {
    seq(n, _ => Call(at))
  }

  lemma PlayLast(conf: Conf, age: int, events: seq<Event>, e: Event)
    requires Valid(conf)
    ensures PlayAll(conf, age, events + [e]) == Play(conf, age, PlayAll(conf, age, events), e)
  {
    assert (events + [e])[..|events|] == events;
  }

  /** A use at the bucket's own refill moment, or within a period of it, takes a token. */
  lemma UseNow(conf: Conf, cell: Cell, at: int)
    requires Valid(conf) && cell.tokens >= 1 && at - cell.last < conf.period
    ensures AdmitAt(Some(cell), conf, at) == (true, cell.(tokens := cell.tokens - 1))
  {}

  /** n more calls at one moment, the bucket holding at least so many tokens with no refill due: all are admitted. */
  lemma {:induction false} CallsAdmitted(conf: Conf, age: int, events: seq<Event>, at: int, n: nat)
    requires Valid(conf) && PlayAll(conf, age, events).bucket.Some?
    requires var cell := PlayAll(conf, age, events).bucket.value; cell.tokens >= n && at - cell.last < conf.period
    ensures var p := PlayAll(conf, age, events);
      PlayAll(conf, age, events + Calls(n, at)) == p.(bucket := Some(p.bucket.value.(tokens := p.bucket.value.tokens - n)),
                                                      admitted := p.admitted + n, born := if p.born.Some? then p.born else
                                                        if n == 0 then None else Some(at))
    decreases n
  {
    if n == 0 {
      assert events + Calls(0, at) == events;
    } else {
      CallsAdmitted(conf, age, events, at, n - 1);
      assert events + Calls(n, at) == events + Calls(n - 1, at) + [Call(at)];
      PlayLast(conf, age, events + Calls(n - 1, at), Call(at));
      UseNow(conf, PlayAll(conf, age, events + Calls(n - 1, at)).bucket.value, at);
    }
  }

  /** The calls at one moment that empty a bucket: one that opens or refills it, and the rest. */
  lemma BurstAdmitted(conf: Conf, age: int, events: seq<Event>, at: int, n: nat)
    requires Valid(conf) && n >= 1
    requires var cell := Opened(PlayAll(conf, age, events).bucket, conf, at);
      0 <= cell.tokens <= conf.burst && cell.last <= at && Refilled(cell, conf, at).tokens == n
    ensures var p, p' := PlayAll(conf, age, events), PlayAll(conf, age, events + Calls(n, at));
      && p'.bucket == Some(Cell(0, Refilled(Opened(p.bucket, conf, at), conf, at).last)) && p'.found == p.found
      && p'.admitted == p.admitted + n && p'.born == if p.born.Some? then p.born else Some(at)
  {
    var cell := Opened(PlayAll(conf, age, events).bucket, conf, at);
    RefilledIs(cell, conf, at);
    PlayLast(conf, age, events, Call(at));
    CallsAdmitted(conf, age, events + [Call(at)], at, n - 1);
    assert events + Calls(n, at) == events + [Call(at)] + Calls(n - 1, at);
  }

  lemma NothingDue(conf: Conf, cell: Cell)
    requires Valid(conf)
    ensures Refilled(cell, conf, cell.last) == cell
  {}

  /** A full burst, a cleanup later, and another full burst. */
  function TwoBursts(n: nat, late: nat): seq<Event> {
    Calls(n, 0) + [Clean(late, late)] + Calls(n, late)
  }

  /** A full burst; later, between a cleanup's look and its removal, the calls the bucket has tokens for; and a full burst. */
  function ThreeBursts(n: nat, between: nat, late: nat): seq<Event> {
    Calls(n, 0) + [Look(late, late)] + Calls(between, late) + [Drop(late)] + Calls(n, late)
  }

  /** One tick before this many periods have passed, one period less has grown. */
  lemma OneTickShort(conf: Conf, periods: int)
    requires Valid(conf) && periods >= 1
    ensures periods * conf.period >= 1 && (periods * conf.period - 1) / conf.period == periods - 1
  {
    MulMonotone(1, periods, conf.period);
    assert periods * conf.period - 1 == (periods - 1) * conf.period + (conf.period - 1);
    DivUnique(periods * conf.period - 1, periods - 1, conf.period - 1, conf.period);
  }

  lemma FirstBurst(conf: Conf, age: int)
    requires Valid(conf)
    ensures PlayAll(conf, age, Calls(conf.burst, 0)) == Played(Some(Cell(0, 0)), false, conf.burst, Some(0))
  {
    assert [] + Calls(conf.burst, 0) == Calls(conf.burst, 0);
    NothingDue(conf, Cell(conf.burst, 0));
    BurstAdmitted(conf, age, [], 0, conf.burst);
  }

  /** A burst on a bucket not there. */
  lemma FullBurst(conf: Conf, age: int, events: seq<Event>, at: int)
    requires Valid(conf) && PlayAll(conf, age, events).bucket.None? && PlayAll(conf, age, events).born == Some(0)
    ensures var p := PlayAll(conf, age, events + Calls(conf.burst, at));
      p.admitted == PlayAll(conf, age, events).admitted + conf.burst && p.born == Some(0)
  {
    NothingDue(conf, Cell(conf.burst, at));
    BurstAdmitted(conf, age, events, at, conf.burst);
  }

  lemma TwoBurstsPlayed(conf: Conf, age: int, late: nat)
    requires Valid(conf) && age < late
    ensures InOrder(TwoBursts(conf.burst, late), late) && Undisturbed(TwoBursts(conf.burst, late))
    ensures var p := PlayAll(conf, age, TwoBursts(conf.burst, late)); p.admitted == 2 * conf.burst && p.born == Some(0)
  {
    FirstBurst(conf, age);
    PlayLast(conf, age, Calls(conf.burst, 0), Clean(late, late));
    FullBurst(conf, age, Calls(conf.burst, 0) + [Clean(late, late)], late);
  }

  lemma LessThanABurst(conf: Conf)
    requires Valid(conf)
    ensures IdleTTL(conf) >= 1 && conf.increment * ((IdleTTL(conf) - 1) / conf.period) < conf.burst
  {
    PeriodsFill(conf);
    OneTickShort(conf, Periods(conf));
  }

  lemma ShortAgeExceeds(conf: Conf, age: int) returns (late: nat)
    requires Valid(conf) && !Spares(conf, age, Periods(conf))
    ensures InOrder(TwoBursts(conf.burst, late), late) && Undisturbed(TwoBursts(conf.burst, late))
    ensures !Within(conf, PlayAll(conf, age, TwoBursts(conf.burst, late)), late)
  {
    LessThanABurst(conf);
    late := IdleTTL(conf) - 1;
    TwoBurstsPlayed(conf, age, late);
  }

  /** What a bucket drained at 0 holds one tick before two bursts' worth of periods have passed. */
  function Half(conf: Conf): nat
    requires Valid(conf)
  {
    TwoBurstPeriodsGrow(conf);
    MulNonNegative(TwoBurstPeriods(conf) - 1, conf.increment);
    var grown := (TwoBurstPeriods(conf) - 1) * conf.increment;
    if grown > conf.burst then conf.burst else grown
  }

  lemma HalfIs(conf: Conf, late: nat)
    requires Valid(conf) && late == TwoBurstPeriods(conf) * conf.period - 1
    ensures Refilled(Cell(0, 0), conf, late).tokens == Half(conf)
    ensures conf.burst + Half(conf) > conf.increment * (late / conf.period)
  {
    TwoBurstPeriodsGrow(conf);
    OneTickShort(conf, TwoBurstPeriods(conf));
    RefilledIs(Cell(0, 0), conf, late);
  }

  /** The bucket found old, used up and removed. */
  lemma UsedThenDropped(conf: Conf, age: int, late: nat)
    requires Valid(conf) && age < late && late == TwoBurstPeriods(conf) * conf.period - 1
    ensures PlayAll(conf, age, Calls(conf.burst, 0) + [Look(late, late)] + Calls(Half(conf), late) + [Drop(late)])
         == Played(None, false, conf.burst + Half(conf), Some(0))
  {
    var looked := Calls(conf.burst, 0) + [Look(late, late)];
    FirstBurst(conf, age);
    PlayLast(conf, age, Calls(conf.burst, 0), Look(late, late));
    assert PlayAll(conf, age, looked) == Played(Some(Cell(0, 0)), true, conf.burst, Some(0));
    HalfIs(conf, late);
    if Half(conf) == 0 {
      assert looked + Calls(0, late) == looked;
    } else {
      BurstAdmitted(conf, age, looked, late, Half(conf));
    }
    PlayLast(conf, age, looked + Calls(Half(conf), late), Drop(late));
  }

  lemma ThreeBurstsPlayed(conf: Conf, age: int, late: nat)
    requires Valid(conf) && age < late && late == TwoBurstPeriods(conf) * conf.period - 1
    ensures InOrder(ThreeBursts(conf.burst, Half(conf), late), late)
    ensures var p := PlayAll(conf, age, ThreeBursts(conf.burst, Half(conf), late));
      p.admitted == 2 * conf.burst + Half(conf) && p.born == Some(0)
  {
    UsedThenDropped(conf, age, late);
    FullBurst(conf, age, Calls(conf.burst, 0) + [Look(late, late)] + Calls(Half(conf), late) + [Drop(late)], late);
  }

  lemma DisturbedExceeds(conf: Conf, age: int) returns (late: nat)
    requires Valid(conf) && !Spares(conf, age, TwoBurstPeriods(conf))
    ensures InOrder(ThreeBursts(conf.burst, Half(conf), late), late)
    ensures !Within(conf, PlayAll(conf, age, ThreeBursts(conf.burst, Half(conf), late)), late)
  {
    TwoBurstPeriodsGrow(conf);
    OneTickShort(conf, TwoBurstPeriods(conf));
    late := TwoBurstPeriods(conf) * conf.period - 1;
    ThreeBurstsPlayed(conf, age, late);
    HalfIs(conf, late);
  }

  // ----- the exact ages -----

  /** No sequence of calls and cleanups admits more than the burst and what has grown since the first call. */
  ghost predicate AlwaysWithin(conf: Conf, age: int)
    requires Valid(conf)
  {
    forall events: seq<Event>, until: int :: InOrder(events, until) ==> Within(conf, PlayAll(conf, age, events), until)
  }

  /** The same of those in which nothing comes between a cleanup's look and its removal. */
  ghost predicate WithinUndisturbed(conf: Conf, age: int)
    requires Valid(conf)
  {
    forall events: seq<Event>, until: int :: InOrder(events, until) && Undisturbed(events) ==>
      Within(conf, PlayAll(conf, age, events), until)
  }

  /**
    Whatever the calls and cleanups, admissions stay within burst + increment * floor((T - t0) / period), if and only if a
    cleanup spares every bucket not yet idle for as many periods as two bursts need to grow.
   */
  lemma BoundedIffAgeSpares(conf: Conf, age: int)
    requires Valid(conf)
    ensures AlwaysWithin(conf, age) <==> age >= TwoBurstPeriods(conf) * conf.period - 1
  {
    if Spares(conf, age, TwoBurstPeriods(conf)) {
      forall events: seq<Event>, until: int | InOrder(events, until)
        ensures Within(conf, PlayAll(conf, age, events), until)
      {
        TwoBurstPeriodsGrow(conf);
        MulMonotone(Periods(conf), TwoBurstPeriods(conf), conf.period);
        PlayKeeps(conf, age, events, until);
        WithinBudget(conf, PlayAll(conf, age, events), until);
      }
    } else {
      var late := DisturbedExceeds(conf, age);
    }
  }

  /** With nothing between a look and its removal, if and only if a cleanup spares every bucket not yet idle for its lifetime. */
  lemma UndisturbedIffAgeSpares(conf: Conf, age: int)
    requires Valid(conf)
    ensures WithinUndisturbed(conf, age) <==> age >= IdleTTL(conf) - 1
  {
    if Spares(conf, age, Periods(conf)) {
      forall events: seq<Event>, until: int | InOrder(events, until) && Undisturbed(events)
        ensures Within(conf, PlayAll(conf, age, events), until)
      {
        PlayKeeps(conf, age, events, until);
        WithinBudget(conf, PlayAll(conf, age, events), until);
      }
    } else {
      var late := ShortAgeExceeds(conf, age);
    }
  }
}
