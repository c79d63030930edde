/**
  Token buckets (gw/throttle): the refill arithmetic shared by both limiters, the in-memory bucket and limiter, the
  refusal memory, and the value a bucket has in the store. Times and durations are integers of nanoseconds.
 */
module Buckets {
  import opened Basics
  import Decimal

  datatype Conf = Conf(burst: int, increment: int, period: int)

  /** What SetBucketGroup of the KVDB limiter demands. */
  predicate Valid(conf: Conf) {
    conf.burst >= 1 && conf.increment >= 1 && conf.period >= 1
  }

  datatype Cell = Cell(tokens: int, last: int)

  /** The tokens of the periods that have passed, up to the burst; what is left of a period counts for the next refill. */
  function Refilled(cell: Cell, conf: Conf, now: int): Cell
    requires Valid(conf)
  {
    var elapsed := now - cell.last;
    if elapsed < conf.period then cell
    else
      var times := elapsed / conf.period;
      var tokens := cell.tokens + times * conf.increment;
      Cell(if tokens > conf.burst then conf.burst else tokens, cell.last + times * conf.period)
  }

  function Periods(conf: Conf): int
    requires Valid(conf)
  {
    (conf.burst + conf.increment - 1) / conf.increment
  }

  function IdleTTL(conf: Conf): int
    requires Valid(conf)
  {
    Periods(conf) * conf.period
  }

  /** One use of a bucket: the verdict and the bucket after it. */
  function Admit(cell: Cell, conf: Conf, now: int): (bool, Cell)
    requires Valid(conf)
  {
    var filled := Refilled(cell, conf, now);
    if filled.tokens <= 0 then (false, filled) else (true, filled.(tokens := filled.tokens - 1))
  }

  /** A bucket not there yet is created full. */
  function Opened(bucket: Option<Cell>, conf: Conf, now: int): Cell {
    if bucket.Some? then bucket.value else Cell(conf.burst, now)
  }

  function AdmitAt(bucket: Option<Cell>, conf: Conf, now: int): (bool, Cell)
    requires Valid(conf)
  {
    Admit(Opened(bucket, conf, now), conf, now)
  }

  // ----- the arithmetic -----

  lemma Multiples(x: int, y: int, p: int)
    requires p >= 1
    ensures (x + y * p) / p == x / p + y
  {
    var q, r := x / p, x % p;
    assert x + y * p == (q + y) * p + r;
    DivUnique(x + y * p, q + y, r, p);
  }

  lemma DivUnique(n: int, q: int, r: int, p: int)
    requires p >= 1 && 0 <= r < p && n == q * p + r
    ensures n / p == q
  {
    var q', r' := n / p, n % p;
    assert n == q' * p + r';
    assert q' < q ==> (q' + 1) * p <= q * p;
    assert q' > q ==> (q + 1) * p <= q' * p;
  }

  lemma DivMonotone(x: int, y: int, p: int)
    requires p >= 1 && x <= y
    ensures x / p <= y / p
  {
    var i, j := x / p, y / p;
    assert i > j ==> (j + 1) * p <= i * p;
  }

  /** The refill in one line, for every clock reading not before the bucket's own. */
  lemma RefilledIs(cell: Cell, conf: Conf, now: int)
    requires Valid(conf) && cell.tokens <= conf.burst && cell.last <= now
    ensures var k := (now - cell.last) / conf.period;
      var tokens := cell.tokens + k * conf.increment;
      && Refilled(cell, conf, now) == Cell(if tokens > conf.burst then conf.burst else tokens, cell.last + k * conf.period)
      && k >= 0 && 0 <= now - Refilled(cell, conf, now).last < conf.period
  {
    var k := (now - cell.last) / conf.period;
    var r := (now - cell.last) % conf.period;
    assert now - cell.last == k * conf.period + r;
    if now - cell.last < conf.period {
      DivUnique(now - cell.last, 0, now - cell.last, conf.period);
    } else {
      DivMonotone(0, now - cell.last, conf.period);
    }
  }

  /** Refilling on the way changes nothing: only the last clock reading counts. */
  lemma RefillOnTheWay(cell: Cell, conf: Conf, now: int, later: int)
    requires Valid(conf) && cell.tokens <= conf.burst && cell.last <= now <= later
    ensures Refilled(Refilled(cell, conf, now), conf, later) == Refilled(cell, conf, later)
  {
    var mid := Refilled(cell, conf, now);
    RefilledIs(cell, conf, now);
    RefilledIs(mid, conf, later);
    RefilledIs(cell, conf, later);
    var k, j := (now - cell.last) / conf.period, (later - mid.last) / conf.period;
    Multiples(later - mid.last, k, conf.period);
    assert (later - cell.last) / conf.period == j + k;
    assert (j + k) * conf.increment == j * conf.increment + k * conf.increment;
    assert (j + k) * conf.period == j * conf.period + k * conf.period;
    assert j * conf.increment >= 0 by { MulNonNegative(j, conf.increment); }
  }

  lemma MulNonNegative(x: int, y: int)
    requires x >= 0 && y >= 0
    ensures x * y >= 0
  {}

  lemma MulMonotone(x: int, y: int, z: int)
    requires x <= y && z >= 0
    ensures x * z <= y * z
  {}

  /** The periods of an idle lifetime are just enough to fill an empty bucket. */
  lemma PeriodsFill(conf: Conf)
    requires Valid(conf)
    ensures Periods(conf) >= 1
    ensures (Periods(conf) - 1) * conf.increment < conf.burst <= Periods(conf) * conf.increment
  {
    var n, p := conf.burst + conf.increment - 1, conf.increment;
    assert n == Periods(conf) * p + n % p;
    assert (Periods(conf) - 1) * p == Periods(conf) * p - p;
    DivMonotone(p, n, p);
    DivUnique(p, 1, 0, p);
  }

  /** A bucket idle for its lifetime or longer is full again, and one idle for less need not be. */
  lemma IdleIsFull(cell: Cell, conf: Conf, now: int)
    requires Valid(conf) && 0 <= cell.tokens <= conf.burst
    ensures now - cell.last >= IdleTTL(conf) ==> Refilled(cell, conf, now).tokens == conf.burst
    ensures cell.last <= now && cell.tokens == 0 && now - cell.last < IdleTTL(conf) ==>
      Refilled(cell, conf, now).tokens < conf.burst
  {
    PeriodsFill(conf);
    if now - cell.last >= IdleTTL(conf) {
      MulMonotone(1, Periods(conf), conf.period);
      RefilledIs(cell, conf, now);
      var k := (now - cell.last) / conf.period;
      DivMonotone(IdleTTL(conf), now - cell.last, conf.period);
      DivUnique(IdleTTL(conf), Periods(conf), 0, conf.period);
      MulMonotone(Periods(conf), k, conf.increment);
    } else if cell.last <= now && cell.tokens == 0 {
      RefilledIs(cell, conf, now);
      var k := (now - cell.last) / conf.period;
      if k >= Periods(conf) {
        MulMonotone(Periods(conf), k, conf.period);
        assert false;
      }
      MulMonotone(k, Periods(conf) - 1, conf.increment);
    }
  }

  // ----- what a bucket may have given out -----

  /** How much a bucket born at t0 may have given out by t, beyond its burst. */
  function Grown(conf: Conf, t0: int, t: int): int
    requires Valid(conf)
  {
    conf.increment * ((t - t0) / conf.period)
  }

  lemma GrownMonotone(conf: Conf, t0: int, t: int, later: int)
    requires Valid(conf) && t <= later
    ensures Grown(conf, t0, t) <= Grown(conf, t0, later)
  {
    DivMonotone(t - t0, later - t0, conf.period);
    MulMonotone((t - t0) / conf.period, (later - t0) / conf.period, conf.increment);
  }

  lemma GrownBy(conf: Conf, t0: int, t: int, k: int)
    requires Valid(conf)
    ensures Grown(conf, t0, t + k * conf.period) == Grown(conf, t0, t) + k * conf.increment
  {
    Multiples(t - t0, k, conf.period);
    var q := (t - t0) / conf.period;
    assert (q + k) * conf.increment == q * conf.increment + k * conf.increment;
  }

  /** A refill pays for itself. */
  lemma RefillBudget(conf: Conf, cell: Cell, now: int, t0: int)
    requires Valid(conf) && cell.tokens <= conf.burst
    ensures var filled := Refilled(cell, conf, now);
      filled.tokens - Grown(conf, t0, filled.last) <= cell.tokens - Grown(conf, t0, cell.last)
  {
    if cell.last <= now {
      RefilledIs(cell, conf, now);
      GrownBy(conf, t0, cell.last, (now - cell.last) / conf.period);
    }
  }

  // ----- runs of one bucket -----

  predicate NonDecreasing(times: seq<int>) {
    forall i, j :: 0 <= i < j < |times| ==> times[i] <= times[j]
  }

  /** The verdicts of the in-memory bucket over a call sequence. */
  function Verdicts(bucket: Option<Cell>, conf: Conf, times: seq<int>): seq<bool>
    requires Valid(conf)
    decreases |times|
  {
    if times == [] then []
    else
      var (ok, after) := AdmitAt(bucket, conf, times[0]);
      [ok] + Verdicts(Some(after), conf, times[1..])
  }

  function Admissions(verdicts: seq<bool>): nat {
    if verdicts == [] then 0 else (if verdicts[0] then 1 else 0) + Admissions(verdicts[1..])
  }

  // ----- the KVDB limiter alone with its store -----

  /** The bucket's value in the store and what this limiter remembers of its last refusal. */
  datatype Shared = Shared(stored: Option<Cell>, askAfter: Option<int>)

  /** One TryAdmit of the KVDB limiter when no one else moves the bucket and nothing expires. */
  function AdmitShared(sh: Shared, conf: Conf, now: int): (bool, Shared)
    requires Valid(conf)
  {
    if sh.askAfter.Some? && now < sh.askAfter.value then (false, sh)
    else
      match sh.stored
      case None => (true, sh.(stored := Some(Cell(conf.burst - 1, now))))
      case Some(cell) =>
        var filled := Refilled(cell, conf, now);
        if filled.tokens <= 0 then (false, sh.(askAfter := Some(filled.last + conf.period)))
        else (true, sh.(stored := Some(filled.(tokens := filled.tokens - 1))))
  }

  function SharedVerdicts(sh: Shared, conf: Conf, times: seq<int>): seq<bool>
    requires Valid(conf)
    decreases |times|
  {
    if times == [] then []
    else
      var (ok, after) := AdmitShared(sh, conf, times[0]);
      [ok] + SharedVerdicts(after, conf, times[1..])
  }

  /**
    The in-memory bucket and the stored one tell the same story at `now`: refilled up to now they are equal, and a
    remembered refusal that stands is one the bucket would repeat.
   */
  predicate Agree(bucket: Option<Cell>, sh: Shared, conf: Conf, now: int)
    requires Valid(conf)
  {
    && (bucket.Some? <==> sh.stored.Some?)
    && (sh.stored.None? ==> sh.askAfter.None?)
    && (bucket.Some? ==>
          && 0 <= bucket.value.tokens <= conf.burst && bucket.value.last <= now
          && 0 <= sh.stored.value.tokens <= conf.burst && sh.stored.value.last <= now
          && Refilled(bucket.value, conf, now) == Refilled(sh.stored.value, conf, now))
    && (sh.askAfter.Some? && now < sh.askAfter.value ==>
          bucket.Some? && bucket.value.tokens == 0 && bucket.value.last == sh.askAfter.value - conf.period)
  }

  lemma AgreeLater(bucket: Option<Cell>, sh: Shared, conf: Conf, now: int, later: int)
    requires Valid(conf) && Agree(bucket, sh, conf, now) && now <= later
    ensures Agree(bucket, sh, conf, later)
  {
    if bucket.Some? {
      RefillOnTheWay(bucket.value, conf, now, later);
      RefillOnTheWay(sh.stored.value, conf, now, later);
    }
  }

  lemma AdmitAgrees(bucket: Option<Cell>, sh: Shared, conf: Conf, now: int)
    requires Valid(conf) && Agree(bucket, sh, conf, now)
    ensures AdmitAt(bucket, conf, now).0 == AdmitShared(sh, conf, now).0
    ensures Agree(Some(AdmitAt(bucket, conf, now).1), AdmitShared(sh, conf, now).1, conf, now)
  {
    if bucket.Some? {
      RefilledIs(bucket.value, conf, now);
      RefilledIs(sh.stored.value, conf, now);
      var k := (now - sh.stored.value.last) / conf.period;
      MulNonNegative(k, conf.increment);
      if k >= 1 { MulMonotone(1, k, conf.increment); }
    }
  }

  lemma {:induction false} SameFrom(bucket: Option<Cell>, sh: Shared, conf: Conf, now: int, times: seq<int>)
    requires Valid(conf) && Agree(bucket, sh, conf, now) && NonDecreasing(times)
    requires times != [] ==> now <= times[0]
    ensures Verdicts(bucket, conf, times) == SharedVerdicts(sh, conf, times)
    decreases |times|
  {
    if times != [] {
      var next, rest := times[0], times[1..];
      AgreeLater(bucket, sh, conf, now, next);
      AdmitAgrees(bucket, sh, conf, next);
      var bucket', sh' := Some(AdmitAt(bucket, conf, next).1), AdmitShared(sh, conf, next).1;
      SameFrom(bucket', sh', conf, next, rest);
    }
  }

  /** On every call sequence with nondecreasing times, the KVDB limiter and the in-memory bucket decide alike. */
  lemma SameVerdicts(conf: Conf, times: seq<int>)
    requires Valid(conf) && NonDecreasing(times)
    ensures Verdicts(None, conf, times) == SharedVerdicts(Shared(None, None), conf, times)
  {
    SameFrom(None, Shared(None, None), conf, if times == [] then 0 else times[0], times);
  }

  // ----- dropping an idle bucket -----

  /** From the next call at `now` on, a bucket dropped and created anew admits no more than the bucket kept. */
  ghost predicate DropAdmitsNoMore(cell: Cell, conf: Conf, now: int)
    requires Valid(conf)
  {
    forall rest: seq<int> :: NonDecreasing([now] + rest) ==>
      Admissions(Verdicts(None, conf, [now] + rest)) <= Admissions(Verdicts(Some(cell), conf, [now] + rest))
  }

  lemma FirstCall(bucket: Option<Cell>, conf: Conf, now: int, rest: seq<int>)
    requires Valid(conf)
    ensures var (ok, after) := AdmitAt(bucket, conf, now);
      Admissions(Verdicts(bucket, conf, [now] + rest)) == (if ok then 1 else 0) + Admissions(Verdicts(Some(after), conf, rest))
  {
    assert ([now] + rest)[1..] == rest;
    var v := Verdicts(bucket, conf, [now] + rest);
    assert v[1..] == Verdicts(Some(AdmitAt(bucket, conf, now).1), conf, rest);
  }

  /** n calls at one moment, all admitted by a bucket holding n tokens with no refill due. */
  lemma {:induction false} Spend(cell: Cell, conf: Conf, at: int, n: nat, rest: seq<int>)
    requires Valid(conf) && cell.tokens == n && at - cell.last < conf.period
    ensures Admissions(Verdicts(Some(cell), conf, seq(n, _ => at) + rest))
         == n + Admissions(Verdicts(Some(cell.(tokens := 0)), conf, rest))
    decreases n
  {
    if n == 0 {
      assert seq(n, _ => at) + rest == rest;
    } else {
      assert seq(n, _ => at) + rest == [at] + (seq(n - 1, _ => at) + rest);
      FirstCall(Some(cell), conf, at, seq(n - 1, _ => at) + rest);
      Spend(cell.(tokens := n - 1), conf, at, n - 1, rest);
    }
  }

  /** The same, from a bucket that a refill at that moment fills to n. */
  lemma FillAndSpend(cell: Cell, conf: Conf, at: int, n: nat, rest: seq<int>)
    requires Valid(conf) && n >= 1 && cell.last <= at && cell.tokens <= conf.burst && Refilled(cell, conf, at).tokens == n
    ensures Admissions(Verdicts(Some(cell), conf, seq(n, _ => at) + rest))
         == n + Admissions(Verdicts(Some(Refilled(cell, conf, at).(tokens := 0)), conf, rest))
  {
    var filled := Refilled(cell, conf, at);
    RefilledIs(cell, conf, at);
    assert seq(n, _ => at) + rest == [at] + (seq(n - 1, _ => at) + rest);
    FirstCall(Some(cell), conf, at, seq(n - 1, _ => at) + rest);
    Spend(filled.(tokens := n - 1), conf, at, n - 1, rest);
  }

  /** n calls at t1, then one at t2, from a bucket that t1 refills to n: the last is admitted if a refill is due. */
  lemma SpendThenOne(cell: Cell, conf: Conf, t1: int, n: nat, t2: int)
    requires Valid(conf) && n >= 1 && cell.last <= t1 <= t2 && cell.tokens <= conf.burst && Refilled(cell, conf, t1).tokens == n
    ensures Admissions(Verdicts(Some(cell), conf, seq(n, _ => t1) + [t2]))
         == n + if t2 - Refilled(cell, conf, t1).last >= conf.period then 1 else 0
  {
    var empty := Refilled(cell, conf, t1).(tokens := 0);
    FillAndSpend(cell, conf, t1, n, [t2]);
    RefilledIs(cell, conf, t1);
    RefilledIs(empty, conf, t2);
    var k := (t2 - empty.last) / conf.period;
    if k >= 1 { MulMonotone(1, k, conf.increment); }
    if t2 - empty.last >= conf.period {
      DivMonotone(conf.period, t2 - empty.last, conf.period);
      DivUnique(conf.period, 1, 0, conf.period);
    }
    assert [t2] == [t2] + [];
    FirstCall(Some(empty), conf, t2, []);
  }

  /** One token short, a bucket is full after some whole periods, and what is left of a period counts for the next refill. */
  lemma FilledAgain(conf: Conf, last: int, k: int, rest: int)
    requires Valid(conf) && k >= 1 && 0 <= rest < conf.period
    ensures Refilled(Cell(conf.burst - 1, last), conf, last + k * conf.period + rest) == Cell(conf.burst, last + k * conf.period)
  {
    MulMonotone(1, k, conf.period);
    MulMonotone(1, k, conf.increment);
    DivUnique(k * conf.period + rest, k, rest, conf.period);
  }

  /** Misaligned, a longer pause wastes a refill of the kept bucket that the new bucket still has coming. */
  lemma MisalignedAdmitsMore(cell: Cell, conf: Conf, now: int)
    requires Valid(conf) && 0 <= cell.tokens <= conf.burst && now - cell.last >= IdleTTL(conf)
    requires (now - cell.last) % conf.period != 0
    ensures !DropAdmitsNoMore(cell, conf, now)
  {
    IdleIsFull(cell, conf, now);
    PeriodsFill(conf);
    MulMonotone(1, Periods(conf), conf.period);
    RefilledIs(cell, conf, now);
    var la := Refilled(cell, conf, now).last;
    assert now - la == (now - cell.last) % conf.period;
    var t1, t2, n := la + 2 * conf.period, now + 2 * conf.period, conf.burst;
    var keep, anew := Cell(n - 1, la), Cell(n - 1, now);
    FilledAgain(conf, la, 2, 0);
    FilledAgain(conf, now, 1, conf.period - (now - la));
    var rest := seq(n, _ => t1) + [t2];
    SpendThenOne(keep, conf, t1, n, t2);
    SpendThenOne(anew, conf, t1, n, t2);
    FirstCall(Some(cell), conf, now, rest);
    FirstCall(None, conf, now, rest);
    assert NonDecreasing([now] + rest);
  }

  /**
    Dropping a bucket idle for its lifetime and creating it full on the next call at `now` admits no more than keeping
    it, on every further call sequence, if and only if `now` is a whole number of periods after the bucket's last
    refill moment; and then the two decide alike call by call. Otherwise the two refill out of step.
   */
  lemma DropIffAligned(cell: Cell, conf: Conf, now: int)
    requires Valid(conf) && 0 <= cell.tokens <= conf.burst && now - cell.last >= IdleTTL(conf)
    ensures DropAdmitsNoMore(cell, conf, now) <==> (now - cell.last) % conf.period == 0
    ensures (now - cell.last) % conf.period == 0 ==>
      forall rest: seq<int> :: Verdicts(None, conf, [now] + rest) == Verdicts(Some(cell), conf, [now] + rest)
  {
    if (now - cell.last) % conf.period == 0 {
      IdleIsFull(cell, conf, now);
      PeriodsFill(conf);
      MulMonotone(1, Periods(conf), conf.period);
      RefilledIs(cell, conf, now);
      assert Refilled(cell, conf, now) == Cell(conf.burst, now);
      assert AdmitAt(None, conf, now) == AdmitAt(Some(cell), conf, now);
    } else {
      MisalignedAdmitsMore(cell, conf, now);
    }
  }

  /** A concrete pair: burst 1, one token every two ticks, dropped one tick out of step. */
  lemma DropExample()
    ensures !DropAdmitsNoMore(Cell(0, 0), Conf(1, 1, 2), 3)
  {
    DropIffAligned(Cell(0, 0), Conf(1, 1, 2), 3);
  }

  // ----- a bucket's value in the store -----

  function FormatBucket(cell: Cell): string {
    Decimal.FormatInt(cell.tokens) + "|" + Decimal.FormatInt(cell.last)
  }

  /** None when the value cannot be read. */
  function ParseBucket(raw: string): Option<Cell> {
    match Cut(raw, '|')
    case None => None
    case Some((rawTokens, rawLast)) =>
      var tokens, last := Decimal.ParseInt(rawTokens), Decimal.ParseInt(rawLast);
      if tokens.Some? && last.Some? then Some(Cell(tokens.value, last.value)) else None
  }

  lemma ParseOfFormat(cell: Cell)
    ensures ParseBucket(FormatBucket(cell)) == Some(cell)
  {
    Decimal.ParseOfFormatInt(cell.tokens);
    Decimal.ParseOfFormatInt(cell.last);
    CutFirst(Decimal.FormatInt(cell.tokens), '|', Decimal.FormatInt(cell.last));
    assert FormatBucket(cell) == Decimal.FormatInt(cell.tokens) + ['|'] + Decimal.FormatInt(cell.last);
  }

  /** The tokens come before the bar, the last refill moment after it. */
  lemma FormatReads(cell: Cell)
    ensures Cut(FormatBucket(cell), '|').Some?
    ensures var (before, after) := Cut(FormatBucket(cell), '|').value;
      Decimal.ParseInt(before) == Some(cell.tokens) && Decimal.ParseInt(after) == Some(cell.last)
  {
    Decimal.ParseOfFormatInt(cell.tokens);
    Decimal.ParseOfFormatInt(cell.last);
    CutFirst(Decimal.FormatInt(cell.tokens), '|', Decimal.FormatInt(cell.last));
    assert FormatBucket(cell) == Decimal.FormatInt(cell.tokens) + ['|'] + Decimal.FormatInt(cell.last);
  }

  /** So a compare-and-swap on the text is one on the bucket itself. */
  lemma EqualTexts(x: Cell, y: Cell)
    ensures FormatBucket(x) == FormatBucket(y) <==> x == y
  {
    ParseOfFormat(x);
    ParseOfFormat(y);
  }

  // ----- the in-memory bucket and limiter -----

  /** Division as the source's integers have it: toward zero. */
  function TruncDiv(x: int, y: int): int
    requires y != 0
  {
    if x >= 0 then x / y else -((-x) / y)
  }

  /** The refill whatever the parameters, which the in-memory limiter does not check. None is a division by zero. */
  function RefilledAny(cell: Cell, conf: Conf, now: int): Option<Cell> {
    var elapsed := now - cell.last;
    if elapsed < conf.period then Some(cell)
    else if conf.period == 0 then None
    else
      var times := TruncDiv(elapsed, conf.period);
      var tokens := cell.tokens + times * conf.increment;
      Some(Cell(if tokens > conf.burst then conf.burst else tokens, cell.last + times * conf.period))
  }

  /** One use of a bucket: the verdict, None for a panic, and the bucket after it. */
  function AdmitAny(bucket: Option<Cell>, conf: Conf, now: int): (Option<bool>, Cell) {
    AdmitOpened(Opened(bucket, conf, now), conf, now)
  }

  function AdmitOpened(cell: Cell, conf: Conf, now: int): (Option<bool>, Cell) {
    match RefilledAny(cell, conf, now)
    case None => (None, cell)
    case Some(filled) =>
      if filled.tokens <= 0 then (Some(false), filled) else (Some(true), filled.(tokens := filled.tokens - 1))
  }

  /** With checked parameters nothing panics, and the bucket is the one above. */
  lemma AdmitAnyValid(bucket: Option<Cell>, conf: Conf, now: int)
    requires Valid(conf)
    ensures AdmitAny(bucket, conf, now) == (Some(AdmitAt(bucket, conf, now).0), AdmitAt(bucket, conf, now).1)
  {}

  /** A use panics exactly when the period is zero and the clock is not behind the bucket. */
  lemma PanicsIff(bucket: Option<Cell>, conf: Conf, now: int)
    ensures AdmitAny(bucket, conf, now).0.None? <==> conf.period == 0 && (bucket.Some? ==> bucket.value.last <= now)
  {}

  class Bucket {
    const conf: Conf
    var tokens: int
    var lastCheck: int

    ghost function View(): Cell
      reads this
    {
      Cell(tokens, lastCheck)
    }

    constructor (conf: Conf, now: int)
      ensures this.conf == conf && View() == Cell(conf.burst, now)
    {
      this.conf, tokens, lastCheck := conf, conf.burst, now;
    }

    /** False is a panic, before anything has changed. */
    method Refill(now: int) returns (ok: bool)
      modifies this
      ensures var filled := RefilledAny(old(View()), conf, now);
        ok == filled.Some? && View() == if ok then filled.value else old(View())
      ensures Valid(conf) ==> ok && View() == Refilled(old(View()), conf, now)
    {
      var elapsed := now - lastCheck;
      if elapsed >= conf.period {
        if conf.period == 0 {
          return false;
        }
        var times := TruncDiv(elapsed, conf.period);
        tokens := tokens + times * conf.increment;
        if tokens > conf.burst {
          tokens := conf.burst;
        }
        lastCheck := lastCheck + times * conf.period;
      }
      return true;
    }

    method TryAdmit(now: int) returns (verdict: Option<bool>)
      modifies this
      ensures (verdict, View()) == AdmitOpened(old(View()), conf, now)
      ensures Valid(conf) ==> verdict == Some(Admit(old(View()), conf, now).0) && View() == Admit(old(View()), conf, now).1
    {
      var ok := Refill(now);
      if !ok {
        return None;
      }
      if tokens <= 0 {
        return Some(false);
      }
      tokens := tokens - 1;
      return Some(true);
    }
  }

  /** What a cleanup leaves of a bucket. */
  function Swept(bucket: Option<Cell>, age: int, now: int): Option<Cell> {
    if bucket.Some? && now - bucket.value.last > age then None else bucket
  }

  type BucketKey = (string, string)

  class InMemLimiter {
    var groups: map<string, Conf>
    var buckets: map<BucketKey, Bucket>
    const cleanupOlderThan: int

    ghost predicate Ok()
      reads this, buckets.Values
    {
      && (forall k :: k in buckets ==> k.0 in groups && buckets[k].conf == groups[k.0])
      && (forall j, k :: j in buckets && k in buckets && j != k ==> buckets[j] != buckets[k])
    }

    /** The buckets as values. */
    ghost function Cells(): map<BucketKey, Cell>
      reads this, buckets.Values
    {
      map k | k in buckets :: buckets[k].View()
    }

    constructor (cleanupOlderThan: int)
      ensures Ok() && Cells() == map[] && groups == map[]
    {
      groups, buckets, this.cleanupOlderThan := map[], map[], cleanupOlderThan;
    }

    /** Before Start, any parameters are taken, and the group begins without buckets. Afterwards the call is refused. */
    method SetBucketGroup(groupID: string, conf: Conf, ready: bool) returns (ok: bool)
      requires Ok()
      modifies this
      ensures Ok() && ok == ready
      ensures groups == if ok then old(groups)[groupID := conf] else old(groups)
      ensures buckets == if ok then (map k | k in old(buckets) && k.0 != groupID :: old(buckets)[k]) else old(buckets)
    {
      if ready {
        groups := groups[groupID := conf];
        buckets := map k | k in buckets && k.0 != groupID :: buckets[k];
      }
      return ready;
    }

    ghost function Before(key: BucketKey): Option<Cell>
      reads this, buckets.Values
    {
      if key in Cells() then Some(Cells()[key]) else None
    }

    /** The bucket under this key, created full if it is not there. */
    method LoadOrCreateBucket(key: BucketKey, now: int) returns (b: Bucket)
      requires Ok() && key.0 in groups
      modifies this`buckets
      ensures Ok() && key in buckets && buckets[key] == b && (b in old(buckets).Values || fresh(b))
      ensures Cells() == old(Cells())[key := Opened(old(Before(key)), groups[key.0], now)]
    {
      if key !in buckets {
        var created := new Bucket(groups[key.0], now);
        buckets := buckets[key := created];
      }
      return buckets[key];
    }

    /** An unknown group is blocked; a bucket not there yet is created full; the others stay as they were. */
    method TryAdmit(groupID: string, bucketID: string, now: int) returns (verdict: Option<bool>)
      requires Ok()
      modifies this`buckets, buckets.Values
      ensures Ok()
      ensures groupID !in groups ==> verdict == Some(false) && Cells() == old(Cells())
      ensures groupID in groups ==>
        var (v, after) := AdmitAny(old(Before((groupID, bucketID))), groups[groupID], now);
        verdict == v && Cells() == old(Cells())[(groupID, bucketID) := after]
    {
      if groupID !in groups {
        return Some(false);
      }
      var key := (groupID, bucketID);
      var b := LoadOrCreateBucket(key, now);
      assert b.View() == Opened(old(Before(key)), groups[groupID], now) by { assert b.View() == Cells()[key]; }
      verdict := Use(key, b, now);
    }

    /** One use of the bucket under this key; the others stay as they were. */
    method Use(key: BucketKey, b: Bucket, now: int) returns (verdict: Option<bool>)
      requires Ok() && key in buckets && buckets[key] == b
      modifies b
      ensures Ok()
      ensures var (v, after) := AdmitOpened(old(b.View()), b.conf, now);
        verdict == v && Cells() == old(Cells())[key := after]
    {
      verdict := b.TryAdmit(now);
      assert forall k :: k in buckets && k != key ==> buckets[k].View() == old(buckets[k].View());
    }

    /** Under the bucket's lock: is its last refill moment older than cleanupOlderThan? */
    method Look(key: BucketKey, now: int) returns (stale: bool)
      requires key in buckets
      ensures stale <==> Swept(Some(buckets[key].View()), cleanupOlderThan, now).None?
    {
      stale := now - buckets[key].lastCheck > cleanupOlderThan;
    }

    /** Without it: whatever is under the key by then goes. */
    method Remove(key: BucketKey)
      modifies this`buckets
      ensures buckets == old(buckets) - {key}
    {
      buckets := buckets - {key};
    }

    /** This key's bucket is kept exactly if a cleanup spares it. */
    ghost predicate Spared(before: map<BucketKey, Bucket>, key: BucketKey, now: int)
      reads this, before.Values
    {
      key in before && (key in buckets <==> Swept(Some(before[key].View()), cleanupOlderThan, now).Some?)
    }

    /** With nobody else at work, drops exactly the buckets whose last refill moment is older than cleanupOlderThan. */
    method Cleanup(now: int)
      requires Ok()
      modifies this`buckets
      ensures Ok() && buckets.Keys <= old(buckets).Keys
      ensures forall k :: k in buckets ==> buckets[k] == old(buckets)[k]
      ensures forall k :: k in old(buckets) ==> Spared(old(buckets), k, now)
    {
      ghost var before := buckets;
      var todo := buckets.Keys;
      while todo != {}
        invariant todo <= buckets.Keys <= before.Keys
        invariant forall k :: k in buckets ==> buckets[k] == before[k]
        invariant forall k :: k in before && k !in todo ==> Spared(before, k, now)
        decreases |todo|
      {
        var k :| k in todo;
        todo := todo - {k};
        var stale := Look(k, now);
        if stale {
          Remove(k);
        }
      }
      assert forall k :: k in buckets ==> k in before;
    }
  }

  // ----- the refusal memory of the KVDB limiter -----

  const DENY_SWEEP_AT := 1024

  predicate Stands(askAfter: map<string, int>, key: string, now: int) {
    key in askAfter && now < askAfter[key]
  }

  /** The memory after one more refusal: swept of passed moments first when it has grown large. */
  function Remembered(askAfter: map<string, int>, key: string, until: int, now: int): map<string, int> {
    (if |askAfter| >= DENY_SWEEP_AT then map k | k in askAfter && now < askAfter[k] :: askAfter[k] else askAfter)[key := until]
  }

  class RefusalMemory {
    var askAfter: map<string, int>

    method RefusalStands(key: string, now: int) returns (b: bool)
      ensures b == Stands(askAfter, key, now)
    {
      b := key in askAfter && now < askAfter[key];
    }

    method RememberRefusal(key: string, until: int, now: int)
      modifies this
      ensures askAfter == Remembered(old(askAfter), key, until, now)
    {
      if |askAfter| >= DENY_SWEEP_AT {
        var todo := askAfter.Keys;
        while todo != {}
          invariant todo <= askAfter.Keys <= old(askAfter).Keys
          invariant forall k :: k in askAfter ==> askAfter[k] == old(askAfter)[k]
          invariant forall k :: k in old(askAfter) && k !in todo ==> (k in askAfter <==> now < old(askAfter)[k])
          decreases |todo|
        {
          var k :| k in todo;
          todo := todo - {k};
          if now >= askAfter[k] {
            askAfter := askAfter - {k};
          }
        }
        assert askAfter == map k | k in old(askAfter) && now < old(askAfter)[k] :: old(askAfter)[k];
      }
      askAfter := askAfter[key := until];
    }
  }

  /** The sweep removes only what no longer matters: no other bucket's refusal stands or falls with it from now on. */
  lemma SweepChangesNothing(askAfter: map<string, int>, key: string, until: int, now: int, other: string, later: int)
    requires other != key && now <= later
    ensures Stands(Remembered(askAfter, key, until, now), other, later) <==> Stands(askAfter, other, later)
  {}
}
