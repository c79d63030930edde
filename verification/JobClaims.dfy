/**
  Jobs that run once per app across processes (gw/jobsched): the minute a one-time job is filed under, the ledger's claim
  keys, and the claims of any number of instances whose clocks disagree. Times are nanoseconds since the epoch.
 */
module JobClaims {
  import opened Basics
  import Decimal

  const SECOND: nat := 1000000000
  const MINUTE: nat := 60 * SECOND
  const MARK_LIFETIME: nat := 5 * MINUTE
  const MARGIN: nat := 30 * SECOND

  /** The minute an instance derives from its clock. */
  function MinuteOf(now: nat): nat {
    now / SECOND / 60
  }

  lemma MinuteBounds(now: nat)
    ensures MinuteOf(now) * MINUTE <= now < (MinuteOf(now) + 1) * MINUTE
  {}

  // ----- the minute of a one-time job -----

  /** Rounded up when it has seconds or nanoseconds: the first whole minute not before the time asked for. */
  function FiringMinute(exec: nat): (minute: nat)
    ensures exec <= minute * MINUTE && minute * MINUTE < exec + MINUTE
  {
    var regTime := if exec % MINUTE > 0 then exec - exec % MINUTE + MINUTE else exec;
    regTime / SECOND / 60
  }

  // ----- claim keys -----

  function ClaimKey(prefix: string, job: string, minute: nat): string {
    prefix + job + ":" + Decimal.Format(minute)
  }

  /** Whatever a job id contains, its keys are its own. */
  lemma ClaimKeysDiffer(prefix: string, job: string, minute: nat, job': string, minute': nat)
    ensures ClaimKey(prefix, job, minute) == ClaimKey(prefix, job', minute') <==> job == job' && minute == minute'
  {
    var f, f' := Decimal.Format(minute), Decimal.Format(minute');
    var s := ClaimKey(prefix, job, minute);
    if s == ClaimKey(prefix, job', minute') {
      LastColon(prefix + job, f, prefix + job', f');
      LastColon(prefix + job', f', prefix + job, f);
      assert s[|prefix|..|prefix + job|] == job && s[|prefix|..|prefix + job'|] == job';
      assert s[|prefix + job| + 1..] == f && s[|prefix + job'| + 1..] == f';
      Decimal.FormatInjective(minute, minute');
    }
  }

  /** The last colon comes before the digits. */
  lemma LastColon(a: string, f: string, a': string, f': string)
    requires ':' !in f && a + ":" + f == a' + ":" + f'
    ensures |a'| <= |a|
  {
    var s := a + ":" + f;
    assert forall k :: |a| < k < |s| ==> s[k] == f[k - |a| - 1];
    assert s == a' + ":" + f';
    assert s[|a'|] == ':';
  }

  /** The prefix, the job, a colon, and the minute in digits. */
  lemma ClaimKeyReads(prefix: string, job: string, minute: nat)
    ensures var key, n := ClaimKey(prefix, job, minute), |prefix + job|;
      && |key| > n && prefix + job <= key && key[n] == ':'
      && Decimal.AllDigits(key[n + 1..]) && Decimal.Value(key[n + 1..]) == minute
  {
    Decimal.ValueOfFormat(minute);
    assert ClaimKey(prefix, job, minute)[|prefix + job| + 1..] == Decimal.Format(minute);
  }

  // ----- one instance's tick -----

  class Scheduler {
    var perApp: map<nat, seq<string>>

    constructor ()
      ensures perApp == map[]
    {
      perApp := map[];
    }

    /** Refused when too close; otherwise filed under its firing minute, after what is there. */
    method StoreOneTimeJob(job: string, exec: nat, now: nat) returns (ok: bool)
      modifies this
      ensures ok <==> exec >= now + MARGIN
      ensures ok ==> var minute := FiringMinute(exec);
        perApp == old(perApp)[minute := (if minute in old(perApp) then old(perApp)[minute] else []) + [job]]
      ensures !ok ==> perApp == old(perApp)
    {
      if exec < now + MARGIN {
        return false;
      }
      var minute := FiringMinute(exec);
      perApp := perApp[minute := (if minute in perApp then perApp[minute] else []) + [job]];
      return true;
    }

    /**
      Takes this minute's jobs and runs those whose mark this instance sets. The claim of a job in `errs` answers an error,
      and has set its mark nevertheless if the job is in `landed`. A job runs at most once, only if its minute was not
      claimed before, and a minute is taken once.
     */
    method RunOneTimeJobsPerApp(now: nat, prefix: string, marks: set<string>, errs: set<string>, landed: set<string>)
      returns (ran: seq<string>, marks': set<string>)
      modifies this
      ensures perApp == old(perApp) - {MinuteOf(now)}
      ensures Distinct(ran)
      ensures forall job :: job in ran <==>
        && MinuteOf(now) in old(perApp) && job in old(perApp)[MinuteOf(now)] && job !in errs
        && ClaimKey(prefix, job, MinuteOf(now)) !in marks
      ensures var minute := MinuteOf(now);
        marks' == marks + Marks(prefix, minute, if minute in old(perApp) then old(perApp)[minute] else [], errs, landed)
    {
      var minute := MinuteOf(now);
      var jobs := if minute in perApp then perApp[minute] else [];
      perApp := perApp - {minute};
      ran, marks' := [], marks;
      var i := 0;
      while i < |jobs|
        invariant 0 <= i <= |jobs| && Distinct(ran) && perApp == old(perApp) - {minute}
        invariant forall job :: job in ran <==> job in jobs[..i] && job !in errs && ClaimKey(prefix, job, minute) !in marks
        invariant marks' == marks + Marks(prefix, minute, jobs[..i], errs, landed)
      {
        var job := jobs[i];
        assert jobs[..i + 1] == jobs[..i] + [job];
        Claimed(prefix, minute, marks, jobs[..i], errs, landed, job);
        if job !in errs && ClaimKey(prefix, job, minute) !in marks' {
          ran := ran + [job];
        }
        if job !in errs || job in landed {
          marks' := marks' + {ClaimKey(prefix, job, minute)};
        }
        i := i + 1;
      }
      assert jobs[..i] == jobs;
    }
  }

  /** The marks that claiming these jobs sets. */
  function Marks(prefix: string, minute: nat, jobs: seq<string>, errs: set<string>, landed: set<string>): set<string> {
    set job | job in jobs && (job in errs ==> job in landed) :: ClaimKey(prefix, job, minute)
  }

  lemma Claimed(prefix: string, minute: nat, marks: set<string>, jobs: seq<string>, errs: set<string>, landed: set<string>,
                job: string)
    ensures ClaimKey(prefix, job, minute) in marks + Marks(prefix, minute, jobs, errs, landed) <==>
      ClaimKey(prefix, job, minute) in marks || (job in jobs && (job in errs ==> job in landed))
  {
    forall j | j in jobs
      ensures ClaimKey(prefix, j, minute) == ClaimKey(prefix, job, minute) <==> j == job
    {
      ClaimKeysDiffer(prefix, j, minute, job, minute);
    }
  }

  // ----- many instances -----

  /** A run: which instance ran which job for which minute, and when by the true clock. */
  datatype Win = Win(inst: nat, job: string, minute: nat, at: int)

  /** A claim on its way: the minute its instance read at the tick, and when by the true clock. */
  datatype Errand = Errand(inst: nat, job: string, minute: nat, readAt: int)

  datatype State = State(clock: int, marks: map<(string, nat), int>, errands: map<nat, Errand>, wins: seq<Win>)

  /** A claim the store answers with an error is `answered == false`: its mark stands, its job does not run. */
  datatype Action =
    | Tick(to: int)
    | Expire(key: (string, nat))
    | ReadMinute(id: nat, inst: nat, job: string)
    | Claim(id: nat, answered: bool)

  /**
    Each instance's clock is the true clock plus its offset; instances without an entry do not take part. A claim reaches
    the store within `lag` of its tick.
   */
  datatype Fleet = Fleet(offsets: map<nat, int>, lag: nat)

  predicate Enabled(f: Fleet, st: State, a: Action) {
    match a
    case Tick(to) => to >= st.clock
    case Expire(key) => key in st.marks && st.clock >= st.marks[key]
    case ReadMinute(id, inst, _) => id !in st.errands && inst in f.offsets && st.clock + f.offsets[inst] >= 0
    case Claim(id, _) => id in st.errands && st.clock <= st.errands[id].readAt + f.lag
  }

  function Do(f: Fleet, st: State, a: Action): State
    requires Enabled(f, st, a)
  {
    match a
    case Tick(to) => st.(clock := to)
    case Expire(key) => st.(marks := st.marks - {key})
    case ReadMinute(id, inst, job) =>
      st.(errands := st.errands[id := Errand(inst, job, MinuteOf(st.clock + f.offsets[inst]), st.clock)])
    case Claim(id, answered) =>
      var e, rest := st.errands[id], st.(errands := st.errands - {id});
      if (e.job, e.minute) in st.marks then rest
      else rest.(marks := st.marks[(e.job, e.minute) := st.clock + MARK_LIFETIME],
                 wins := if answered then st.wins + [Win(e.inst, e.job, e.minute, st.clock)] else st.wins)
  }

  /** Two claims for one minute reach the store closer together than a mark's lifetime. */
  predicate CloseEnough(f: Fleet) {
    forall i, j :: i in f.offsets && j in f.offsets ==> f.offsets[i] - f.offsets[j] + f.lag <= MARK_LIFETIME - MINUTE
  }

  predicate ErrandOk(f: Fleet, clock: int, e: Errand) {
    e.inst in f.offsets && e.readAt <= clock && e.minute * MINUTE <= e.readAt + f.offsets[e.inst] < (e.minute + 1) * MINUTE
  }

  /** A win was made within the lag of its minute, and its mark stands for its whole lifetime. */
  predicate WinOk(f: Fleet, st: State, w: Win) {
    && w.inst in f.offsets && w.minute * MINUTE <= w.at + f.offsets[w.inst]
    && (st.clock < w.at + MARK_LIFETIME ==> (w.job, w.minute) in st.marks && st.marks[(w.job, w.minute)] >= w.at + MARK_LIFETIME)
  }

  ghost predicate Unique(wins: seq<Win>) {
    forall i, j :: 0 <= i < j < |wins| ==> (wins[i].job, wins[i].minute) != (wins[j].job, wins[j].minute)
  }

  ghost predicate Facts(f: Fleet, st: State) {
    && (forall id :: id in st.errands ==> ErrandOk(f, st.clock, st.errands[id]))
    && (forall i :: 0 <= i < |st.wins| ==> WinOk(f, st, st.wins[i])) && Unique(st.wins)
  }

  /** While a minute can still be claimed, the mark of its win stands. */
  lemma StillMarked(f: Fleet, st: State, e: Errand, w: Win)
    requires CloseEnough(f) && ErrandOk(f, st.clock, e) && st.clock <= e.readAt + f.lag && WinOk(f, st, w)
    requires w.job == e.job && w.minute == e.minute
    ensures (e.job, e.minute) in st.marks
  {
    assert f.offsets[w.inst] - f.offsets[e.inst] + f.lag <= MARK_LIFETIME - MINUTE;
    assert (e.minute + 1) * MINUTE == e.minute * MINUTE + MINUTE;
  }

  lemma ClaimKeeps(f: Fleet, st: State, id: nat, answered: bool)
    requires CloseEnough(f) && Facts(f, st) && Enabled(f, st, Claim(id, answered))
    ensures Facts(f, Do(f, st, Claim(id, answered)))
  {
    var e, st' := st.errands[id], Do(f, st, Claim(id, answered));
    forall i | 0 <= i < |st.wins| && st.wins[i].job == e.job && st.wins[i].minute == e.minute
      ensures (e.job, e.minute) in st.marks
    {
      StillMarked(f, st, e, st.wins[i]);
    }
    forall i | 0 <= i < |st'.wins|
      ensures WinOk(f, st', st'.wins[i])
    {
      assert i < |st.wins| ==> st'.wins[i] == st.wins[i] && WinOk(f, st, st.wins[i]);
    }
  }

  lemma StepKeeps(f: Fleet, st: State, a: Action)
    requires CloseEnough(f) && Facts(f, st) && Enabled(f, st, a)
    ensures Facts(f, Do(f, st, a))
  {
    match a
    case Claim(id, answered) => ClaimKeeps(f, st, id, answered);
    case ReadMinute(id, inst, job) => MinuteBounds(st.clock + f.offsets[inst]);
    case _ =>
  }

  ghost predicate Run(f: Fleet, tr: seq<State>, acts: seq<Action>) {
    && |tr| == |acts| + 1 && tr[0].marks == map[] && tr[0].errands == map[] && tr[0].wins == []
    && forall i :: 0 <= i < |acts| ==> Enabled(f, tr[i], acts[i]) && tr[i + 1] == Do(f, tr[i], acts[i])
  }

  lemma {:induction false} RunKeeps(f: Fleet, tr: seq<State>, acts: seq<Action>, k: nat)
    requires CloseEnough(f) && Run(f, tr, acts) && k < |tr|
    ensures Facts(f, tr[k])
  {
    if k > 0 {
      RunKeeps(f, tr, acts, k - 1);
      StepKeeps(f, tr[k - 1], acts[k - 1]);
    }
  }

  /** In every run, each minute of each job is run at most once. */
  ghost predicate AtMostOnce(f: Fleet) {
    forall tr: seq<State>, acts: seq<Action>, k: nat :: Run(f, tr, acts) && k < |tr| ==> Unique(tr[k].wins)
  }

  ghost predicate EndsRun(f: Fleet, st: State) {
    exists tr: seq<State>, acts: seq<Action> :: Run(f, tr, acts) && tr[|acts|] == st
  }

  /** The end of some run, folded. */
  ghost predicate Reachable(f: Fleet, st: State) {
    forall x :: x == st ==> EndsRun(f, x)
  }

  lemma ReachStep(f: Fleet, st: State, a: Action)
    requires Reachable(f, st) && Enabled(f, st, a)
    ensures Reachable(f, Do(f, st, a))
  {
    assert EndsRun(f, st);
    var tr: seq<State>, acts: seq<Action> :| Run(f, tr, acts) && tr[|acts|] == st;
    var tr', acts' := tr + [Do(f, st, a)], acts + [a];
    assert Run(f, tr', acts') && tr'[|acts'|] == Do(f, st, a);
  }

  lemma ReachInit(f: Fleet, clock: int)
    ensures Reachable(f, State(clock, map[], map[], []))
  {
    var none: seq<Action> := [];
    var st := State(clock, map[], map[], []);
    assert Run(f, [st], none) && [st][|none|] == st;
  }

  /** An instance reads the first minute. */
  lemma ReadsFirst(f: Fleet, st: State, id: nat, inst: nat, job: string)
    requires Reachable(f, st) && inst in f.offsets && 0 <= st.clock + f.offsets[inst] < MINUTE && id !in st.errands
    ensures Reachable(f, st.(errands := st.errands[id := Errand(inst, job, 0, st.clock)]))
  {
    MinuteBounds(st.clock + f.offsets[inst]);
    ReachStep(f, st, ReadMinute(id, inst, job));
  }

  /** A claim that finds no mark wins. */
  lemma Wins(f: Fleet, st: State, id: nat)
    requires Reachable(f, st) && id in st.errands && (st.errands[id].job, st.errands[id].minute) !in st.marks
    requires st.clock <= st.errands[id].readAt + f.lag
    ensures var e := st.errands[id];
      Reachable(f, State(st.clock, st.marks[(e.job, e.minute) := st.clock + MARK_LIFETIME], st.errands - {id},
                         st.wins + [Win(e.inst, e.job, e.minute, st.clock)]))
  {
    ReachStep(f, st, Claim(id, true));
  }

  /** The first minute is won by an instance whose clock is ahead, at the moment it begins there. */
  lemma FirstWin(f: Fleet, i: nat, job: string)
    requires i in f.offsets
    ensures var start := -f.offsets[i];
      Reachable(f, State(start, map[(job, 0) := start + MARK_LIFETIME], map[], [Win(i, job, 0, start)]))
  {
    var st := State(-f.offsets[i], map[], map[], []);
    ReachInit(f, st.clock);
    ReadsFirst(f, st, 0, i, job);
    Wins(f, st.(errands := map[0 := Errand(i, job, 0, st.clock)]), 0);
    assert map[0 := Errand(i, job, 0, st.clock)] - {0} == map[];
  }

  lemma Waits(f: Fleet, st: State, to: int)
    requires Reachable(f, st) && to >= st.clock
    ensures Reachable(f, st.(clock := to))
  {
    ReachStep(f, st, Tick(to));
  }

  /** The other reads it at a moment when its own clock still shows it, and claims once the mark is gone. */
  lemma SecondWin(f: Fleet, st: State, j: nat, job: string, readAt: int, at: int)
    requires Reachable(f, st) && st.errands == map[] && st.clock <= readAt <= at <= readAt + f.lag
    requires j in f.offsets && 0 <= readAt + f.offsets[j] < MINUTE
    requires st.marks.Keys == {(job, 0)} && st.marks[(job, 0)] <= at
    ensures exists st': State :: Reachable(f, st') && st'.wins == st.wins + [Win(j, job, 0, at)]
  {
    Waits(f, st, readAt);
    var st1 := st.(clock := readAt);
    ReadsFirst(f, st1, 0, j, job);
    var st2 := st1.(errands := map[0 := Errand(j, job, 0, readAt)]);
    Waits(f, st2, at);
    var st3 := st2.(clock := at);
    ReachStep(f, st3, Expire((job, 0)));
    var st4 := Do(f, st3, Expire((job, 0)));
    Wins(f, st4, 0);
  }

  /** Two instances whose clocks and lag are further apart than that both run the same minute, once the first mark is gone. */
  lemma SkewRunsTwice(f: Fleet, i: nat, j: nat, job: string)
    requires i in f.offsets && j in f.offsets && f.offsets[i] - f.offsets[j] + f.lag > MARK_LIFETIME - MINUTE
    ensures !AtMostOnce(f)
  {
    var k := if f.offsets[j] > f.offsets[i] then i else j; // a claim late enough is second even to its own instance's
    FirstWin(f, i, job);
    var start := -f.offsets[i];
    var st := State(start, map[(job, 0) := start + MARK_LIFETIME], map[], [Win(i, job, 0, start)]);
    var last := MINUTE - 1 - f.offsets[k]; // the last moment at which k's clock shows the minute
    var at := if last > start + MARK_LIFETIME then last else start + MARK_LIFETIME;
    SecondWin(f, st, k, job, last, at);
    var st': State :| Reachable(f, st') && st'.wins == st.wins + [Win(k, job, 0, at)];
    assert st'.wins[0].job == st'.wins[1].job && st'.wins[0].minute == st'.wins[1].minute;
    assert EndsRun(f, st');
  }

  /**
    Across all instances each minute of a job runs at most once, in every run, if and only if no two clocks differ by more
    than the mark's lifetime less one minute and the time a claim may take to reach the store.
   */
  lemma AtMostOnceIffSkewWithin(f: Fleet)
    ensures AtMostOnce(f) <==> CloseEnough(f)
  {
    if CloseEnough(f) {
      forall tr: seq<State>, acts: seq<Action>, k: nat | Run(f, tr, acts) && k < |tr|
        ensures Unique(tr[k].wins)
      {
        RunKeeps(f, tr, acts, k);
      }
    } else {
      var i, j :| i in f.offsets && j in f.offsets && f.offsets[i] - f.offsets[j] + f.lag > MARK_LIFETIME - MINUTE;
      SkewRunsTwice(f, i, j, []);
    }
  }
}
