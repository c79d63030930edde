/**
  The lifecycle walks over the levels of the service graph (gw/framework/core.go): the start walk with its rollback, and
  the terminate walk, whose services tear down concurrently within a level and wait for each other between levels.
  A service is an abstract node: whether it starts, and whether it ever reports, is an input.
 */
module Lifecycle {
  import opened Basics
  import opened ServiceGraph

  // ----- starting -----

  /** Every service in the list comes after everything it depends on. */
  ghost predicate DependenciesFirst(nodes: seq<Node>, order: seq<nat>) {
    && Distinct(order)
    && (forall p :: 0 <= p < |order| ==> order[p] < |nodes|)
    && (forall p, t :: 0 <= p < |order| && HasEdge(nodes[order[p]].deps, t) ==> t in order[..p])
  }

  /** Whatever is torn down has all its dependents in `live` torn down before it. */
  ghost predicate DependentsFirst(nodes: seq<Node>, live: seq<nat>, order: seq<nat>) {
    forall p, i :: 0 <= p < |order| && i in live && i < |nodes| && HasEdge(nodes[i].deps, order[p]) ==> i in order[..p]
  }

  ghost predicate Deeper(levels: seq<seq<nat>>, l: int, i: nat)
    requires l >= -1
  {
    exists m :: l < m < |levels| && i in levels[m]
  }

  /** Everything below level l, and the first k of level l. */
  ghost predicate Covers(levels: seq<seq<nat>>, l: int, k: nat, order: seq<nat>)
    requires -1 <= l < |levels| && (l >= 0 ==> k <= |levels[l]|)
  {
    forall i :: i in order <==> Deeper(levels, l, i) || (l >= 0 && i in levels[l][..k])
  }

  /** The edges of a node lie in deeper levels. */
  lemma DepsDeeper(nodes: seq<Node>, levels: seq<seq<nat>>, l: nat, n: nat, t: nat)
    requires GraphOk(nodes) && Layered(nodes, levels) && l < |levels| && n in levels[l] && HasEdge(nodes[n].deps, t)
    ensures t < |nodes| && Deeper(levels, l, t)
  {
    assert NodeOk(Names(nodes)[..n], nodes[n]);
    var e :| 0 <= e < |nodes[n].deps| && nodes[n].deps[e].node == t;
    assert EdgeOk(Names(nodes)[..n], nodes[n].declared, nodes[n].deps[e]);
    assert Listed(levels, t);
  }

  lemma NotYet(nodes: seq<Node>, levels: seq<seq<nat>>, l: nat, k: nat)
    requires Layered(nodes, levels) && l < |levels| && k < |levels[l]|
    ensures !Deeper(levels, l, levels[l][k]) && levels[l][k] !in levels[l][..k] && levels[l][k] < |nodes|
  {
    assert levels[l][k] in levels[l];
  }

  lemma OrderGrows(nodes: seq<Node>, order: seq<nat>, n: nat)
    requires DependenciesFirst(nodes, order) && n < |nodes| && n !in order
    requires forall t :: HasEdge(nodes[n].deps, t) ==> t in order
    ensures DependenciesFirst(nodes, order + [n])
  {
    var order' := order + [n];
    assert forall p :: 0 <= p < |order| ==> order'[..p] == order[..p];
    assert order'[..|order|] == order;
  }

  /** The next service of the walk finds everything it depends on started. */
  lemma StartNext(nodes: seq<Node>, levels: seq<seq<nat>>, l: nat, k: nat, order: seq<nat>)
    requires GraphOk(nodes) && Layered(nodes, levels) && l < |levels| && k < |levels[l]|
    requires DependenciesFirst(nodes, order) && Covers(levels, l, k, order)
    ensures levels[l][k] < |nodes| && levels[l][k] !in order
    ensures forall t :: HasEdge(nodes[levels[l][k]].deps, t) ==> t in order
    ensures DependenciesFirst(nodes, order + [levels[l][k]])
    ensures Covers(levels, l, k + 1, order + [levels[l][k]])
  {
    var n := levels[l][k];
    NotYet(nodes, levels, l, k);
    forall t | HasEdge(nodes[n].deps, t)
      ensures t in order
    {
      DepsDeeper(nodes, levels, l, n, t);
    }
    OrderGrows(nodes, order, n);
    assert levels[l][..k + 1] == levels[l][..k] + [n];
  }

  /** A level done is the next level begun. */
  lemma LevelDone(levels: seq<seq<nat>>, l: nat, order: seq<nat>)
    requires l < |levels| && Covers(levels, l, |levels[l]|, order)
    ensures Covers(levels, l - 1, 0, order)
  {
    assert levels[l][..|levels[l]|] == levels[l];
    assert forall i :: Deeper(levels, l - 1, i) <==> Deeper(levels, l, i) || i in levels[l];
  }

  /** What a boot has done: what started and in which order, what failed, and, then, what was torn down and who is admitted. */
  datatype Boot = Boot(started: seq<nat>, failed: Option<nat>, stopped: seq<nat>, admitted: set<nat>)

  /**
    Everything started after its dependencies. Without a failure everything is started and admitted; a failed start, of a
    service whose dependencies all run, tears down what had started, dependents first, and leaves nobody admitted.
   */
  ghost predicate Booted(nodes: seq<Node>, fails: set<nat>, boot: Boot) {
    && DependenciesFirst(nodes, boot.started) && (forall i :: i in boot.started ==> i !in fails)
    && (boot.failed.None? ==> boot.stopped == [] && forall i: nat :: i < |nodes| <==> i in boot.started)
    && (boot.failed.None? ==> boot.admitted == set i | i in boot.started)
    && (boot.failed.Some? ==>
          && boot.failed.value < |nodes| && boot.failed.value in fails && boot.failed.value !in boot.started
          && (forall t :: HasEdge(nodes[boot.failed.value].deps, t) ==> t in boot.started)
          && |boot.stopped| == |boot.started| && (forall i :: i in boot.started ==> i in boot.stopped)
          && DependentsFirst(nodes, boot.started, boot.stopped) && boot.admitted == {})
  }

  /**
    Seals the graph and boots it. A graph with a declared name that registered too late starts nothing. `fails` are the
    services whose Start fails.
   */
  method StartServices(g: Graph, fails: set<nat>) returns (r: Result<Boot, Error>)
    requires g.Coherent()
    modifies g`isSealed
    ensures g.Coherent() && g.isSealed
    ensures r.Ok? <==> Settled(g.nodes)
    ensures r.Err? ==> r.error == RegisteredLater
    ensures r.Ok? ==> Booted(g.nodes, fails, r.value)
  {
    var sealing := g.Seal();
    if sealing.Err? {
      return Err(sealing.error);
    }
    var boot := StartWalk(g.nodes, fails);
    return Ok(boot);
  }

  /** The boot walk: levels from the deepest up, each service admitted as it starts. */
  method StartWalk(nodes: seq<Node>, fails: set<nat>) returns (boot: Boot)
    requires GraphOk(nodes)
    ensures Booted(nodes, fails, boot)
  {
    var levels := Levels(nodes);
    var started: seq<nat>, admitted: set<nat> := [], {};
    var l := |levels| - 1;
    while l >= 0
      invariant -1 <= l < |levels| && Covers(levels, l, 0, started) && DependenciesFirst(nodes, started)
      invariant admitted == set i | i in started
      invariant forall i :: i in started ==> i !in fails
    {
      var k := 0;
      while k < |levels[l]|
        invariant 0 <= k <= |levels[l]| && Covers(levels, l, k, started) && DependenciesFirst(nodes, started)
        invariant admitted == set i | i in started
        invariant forall i :: i in started ==> i !in fails
      {
        var n := levels[l][k];
        StartNext(nodes, levels, l, k, started);
        if n in fails {
          var stopped, left := RollbackStarted(nodes, started, admitted);
          return Boot(started, Some(n), stopped, left);
        }
        admitted, started := admitted + {n}, started + [n];
        k := k + 1;
      }
      LevelDone(levels, l, started);
      l := l - 1;
    }
    assert forall i: nat :: i < |nodes| ==> Listed(levels, i);
    assert forall i :: Listed(levels, i) <==> Deeper(levels, -1, i);
    return Boot(started, None, [], admitted);
  }

  /** Terminates what had started, in reverse, each service losing its admission first. */
  method RollbackStarted(nodes: seq<Node>, started: seq<nat>, admitted: set<nat>) returns (stopped: seq<nat>, left: set<nat>)
    requires DependenciesFirst(nodes, started)
    ensures |stopped| == |started| && forall p :: 0 <= p < |started| ==> stopped[p] == started[|started| - 1 - p]
    ensures DependentsFirst(nodes, started, stopped) && forall i :: i in started ==> i in stopped
    ensures left == admitted - set i | i in started
  {
    stopped, left := [], admitted;
    var i := |started|;
    while i > 0
      invariant 0 <= i <= |started| && |stopped| == |started| - i
      invariant forall p :: 0 <= p < |stopped| ==> stopped[p] == started[|started| - 1 - p]
      invariant left == admitted - set k | k in started[i..]
    {
      i := i - 1;
      assert started[i..] == [started[i]] + started[i + 1..];
      left := left - {started[i]};
      stopped := stopped + [started[i]];
    }
    assert started[0..] == started;
    ReverseOrder(nodes, started, stopped);
  }

  lemma ReverseOrder(nodes: seq<Node>, started: seq<nat>, stopped: seq<nat>)
    requires DependenciesFirst(nodes, started) && |stopped| == |started|
    requires forall p :: 0 <= p < |started| ==> stopped[p] == started[|started| - 1 - p]
    ensures DependentsFirst(nodes, started, stopped) && forall i :: i in started ==> i in stopped
  {
    forall q | 0 <= q < |started|
      ensures started[q] in stopped
    {
      assert stopped[|started| - 1 - q] == started[q];
    }
    forall p, i | 0 <= p < |stopped| && i in started && i < |nodes| && HasEdge(nodes[i].deps, stopped[p])
      ensures i in stopped[..p]
    {
      var q :| 0 <= q < |started| && started[q] == i;
      assert stopped[p] in started[..q];
      var r :| 0 <= r < q && started[r] == stopped[p];
      assert started[|started| - 1 - p] == started[r];
      assert stopped[..p][|started| - 1 - q] == i;
    }
  }

  // ----- terminating -----

  /** A service in the terminate walk: not touched, admission revoked, Terminate called, reported (without error), or given up on. */
  datatype Status = Untouched | Revoked | Terminating | Reported(ok: bool) | Abandoned

  predicate Done(s: Status) {
    s.Reported? || s.Abandoned?
  }

  /** What its node's error is for: it was abandoned, or reported one. */
  predicate Failed(s: Status) {
    s.Abandoned? || s == Reported(false)
  }

  /** `firstErr` is the service whose error the walk recorded first. */
  datatype Walk = Walk(level: nat, status: seq<Status>, admitted: set<nat>, firstErr: Option<nat>)

  /** Steps of the goroutines of one level, in any order, and the barrier that ends the level. */
  datatype Action =
    | Revoke(n: nat)
    | Begin(n: nat)
    | Report(n: nat, ok: bool)
    | Abandon(n: nat)
    | Barrier

  predicate At(w: Walk, n: nat, s: Status) {
    n < |w.status| && w.status[n] == s
  }

  predicate Enabled(levels: seq<seq<nat>>, w: Walk, a: Action) {
    match a
    case Revoke(n) => w.level < |levels| && n in levels[w.level] && At(w, n, Untouched)
    case Begin(n) => At(w, n, Revoked)
    case Report(n, _) => At(w, n, Terminating)
    case Abandon(n) => At(w, n, Terminating)
    case Barrier => w.level < |levels| && forall k :: 0 <= k < |levels[w.level]| ==>
      levels[w.level][k] < |w.status| && Done(w.status[levels[w.level][k]])
  }

  /** The first service of a level whose node has an error, in the level's order. */
  function FirstFailed(status: seq<Status>, level: seq<nat>): Option<nat> {
    if level == [] then None
    else if level[0] < |status| && Failed(status[level[0]]) then Some(level[0])
    else FirstFailed(status, level[1..])
  }

  function Do(levels: seq<seq<nat>>, w: Walk, a: Action): Walk
    requires Enabled(levels, w, a)
  {
    match a
    case Revoke(n) => w.(status := w.status[n := Revoked], admitted := w.admitted - {n})
    case Begin(n) => w.(status := w.status[n := Terminating])
    case Report(n, ok) => w.(status := w.status[n := Reported(ok)])
    case Abandon(n) => w.(status := w.status[n := Abandoned])
    case Barrier =>
      w.(level := w.level + 1, firstErr := if w.firstErr.Some? then w.firstErr else FirstFailed(w.status, levels[w.level]))
  }

  ghost predicate StartOfWalk(nodes: seq<Node>, w: Walk) {
    w.level == 0 && w.firstErr.None? && |w.status| == |nodes| && forall n :: 0 <= n < |nodes| ==> w.status[n] == Untouched
  }

  /** Levels passed are done, levels to come are untouched, and what is touched is not admitted. */
  ghost predicate WalkOk(nodes: seq<Node>, levels: seq<seq<nat>>, w: Walk) {
    && |w.status| == |nodes| && w.level <= |levels|
    && (forall m, n :: 0 <= m < w.level && n in levels[m] ==> n < |nodes| && Done(w.status[n]))
    && (forall m, n :: w.level < m < |levels| && n in levels[m] ==> n < |nodes| && w.status[n] == Untouched)
    && (forall n :: 0 <= n < |nodes| && w.status[n] != Untouched ==> n !in w.admitted)
  }

  lemma WalkKeeps(nodes: seq<Node>, levels: seq<seq<nat>>, w: Walk, a: Action)
    requires Layered(nodes, levels) && WalkOk(nodes, levels, w) && Enabled(levels, w, a)
    ensures WalkOk(nodes, levels, Do(levels, w, a))
  {}

  ghost predicate WalkRun(nodes: seq<Node>, levels: seq<seq<nat>>, tr: seq<Walk>, acts: seq<Action>) {
    && |tr| == |acts| + 1 && StartOfWalk(nodes, tr[0])
    && forall i :: 0 <= i < |acts| ==> Enabled(levels, tr[i], acts[i]) && tr[i + 1] == Do(levels, tr[i], acts[i])
  }

  lemma {:induction false} WalkRunKeeps(nodes: seq<Node>, levels: seq<seq<nat>>, tr: seq<Walk>, acts: seq<Action>, k: nat)
    requires Layered(nodes, levels) && WalkRun(nodes, levels, tr, acts) && k < |tr|
    ensures WalkOk(nodes, levels, tr[k])
  {
    if k > 0 {
      WalkRunKeeps(nodes, levels, tr, acts, k - 1);
      WalkKeeps(nodes, levels, tr[k - 1], acts[k - 1]);
    }
  }

  /**
    In every run of the walk, however the services of a level interleave: no Terminate begins before every dependent has
    reported or been abandoned.
   */
  lemma DependentsDone(nodes: seq<Node>, levels: seq<seq<nat>>, tr: seq<Walk>, acts: seq<Action>, k: nat, i: nat, t: nat)
    requires GraphOk(nodes) && Layered(nodes, levels) && WalkRun(nodes, levels, tr, acts) && k < |tr|
    requires i < |nodes| && t < |tr[k].status| && HasEdge(nodes[i].deps, t) && tr[k].status[t] != Untouched
    ensures i < |tr[k].status| && Done(tr[k].status[i])
  {
    WalkRunKeeps(nodes, levels, tr, acts, k);
    assert Listed(levels, i);
    var l :| 0 <= l < |levels| && i in levels[l];
    DepsDeeper(nodes, levels, l, i, t);
  }

  /** When the walk has passed every level, every service has reported or been abandoned, and none is admitted. */
  lemma AllDone(nodes: seq<Node>, levels: seq<seq<nat>>, tr: seq<Walk>, acts: seq<Action>, k: nat, n: nat)
    requires Layered(nodes, levels) && WalkRun(nodes, levels, tr, acts) && k < |tr|
    requires tr[k].level == |levels| && n < |nodes|
    ensures n < |tr[k].status| && Done(tr[k].status[n]) && n !in tr[k].admitted
  {
    WalkRunKeeps(nodes, levels, tr, acts, k);
    assert Listed(levels, n);
  }

  // ----- what the walk reports -----

  /** What the steps so far say of a service. */
  function Told(acts: seq<Action>, k: nat, n: nat): Status
    requires k <= |acts|
  {
    if k == 0 then Untouched
    else
      match acts[k - 1]
      case Revoke(m) => if m == n then Revoked else Told(acts, k - 1, n)
      case Begin(m) => if m == n then Terminating else Told(acts, k - 1, n)
      case Report(m, ok) => if m == n then Reported(ok) else Told(acts, k - 1, n)
      case Abandon(m) => if m == n then Abandoned else Told(acts, k - 1, n)
      case Barrier => Told(acts, k - 1, n)
  }

  /** A service's status is what was last done to it. */
  lemma {:induction false} StatusIsTold(nodes: seq<Node>, levels: seq<seq<nat>>, tr: seq<Walk>, acts: seq<Action>, k: nat, n: nat)
    requires WalkRun(nodes, levels, tr, acts) && k < |tr| && n < |nodes|
    ensures |tr[k].status| == |nodes| && tr[k].status[n] == Told(acts, k, n)
  {
    if k > 0 {
      StatusIsTold(nodes, levels, tr, acts, k - 1, n);
    }
  }

  /** The services of the first levels, in the order of the walk. */
  function Order(levels: seq<seq<nat>>, l: nat): seq<nat>
    requires l <= |levels|
  {
    if l == 0 then [] else Order(levels, l - 1) + levels[l - 1]
  }

  lemma {:induction false} FirstFailedAppend(status: seq<Status>, x: seq<nat>, y: seq<nat>)
    ensures FirstFailed(status, x + y) == if FirstFailed(status, x).Some? then FirstFailed(status, x) else FirstFailed(status, y)
  {
    if x == [] {
      assert x + y == y;
    } else {
      assert (x + y)[1..] == x[1..] + y;
      FirstFailedAppend(status, x[1..], y);
    }
  }

  /** Services done with do not change, so neither does the first of them with an error. */
  lemma {:induction false} FirstFailedStays(before: seq<Status>, status: seq<Status>, order: seq<nat>)
    requires |before| == |status|
    requires forall n :: n in order && n < |status| ==> status[n] == before[n]
    ensures FirstFailed(before, order) == FirstFailed(status, order)
  {
    if order != [] {
      assert order[0] in order;
      FirstFailedStays(before, status, order[1..]);
    }
  }

  lemma {:induction false} OrderIs(nodes: seq<Node>, levels: seq<seq<nat>>, l: nat, n: nat)
    requires Layered(nodes, levels) && l <= |levels| && n in Order(levels, l)
    ensures exists m :: 0 <= m < l && n in levels[m]
  {
    if n in levels[l - 1] {
      assert 0 <= l - 1 < l && n in levels[l - 1];
    } else {
      OrderIs(nodes, levels, l - 1, n);
    }
  }

  /** A service done with is done with. */
  lemma DoneStays(levels: seq<seq<nat>>, w: Walk, a: Action, n: nat)
    requires Enabled(levels, w, a) && n < |w.status| && Done(w.status[n])
    ensures |Do(levels, w, a).status| == |w.status| && Do(levels, w, a).status[n] == w.status[n]
  {}

  /** The services of the levels passed are done with. */
  ghost predicate PassedDone(levels: seq<seq<nat>>, w: Walk) {
    w.level <= |levels| && forall n :: n in Order(levels, w.level) && n < |w.status| ==> Done(w.status[n])
  }

  lemma PassedAreDone(nodes: seq<Node>, levels: seq<seq<nat>>, w: Walk)
    requires Layered(nodes, levels) && WalkOk(nodes, levels, w)
    ensures PassedDone(levels, w)
  {
    forall n | n in Order(levels, w.level) && n < |w.status|
      ensures Done(w.status[n])
    {
      OrderIs(nodes, levels, w.level, n);
    }
  }

  lemma StepReports(levels: seq<seq<nat>>, w: Walk, a: Action)
    requires PassedDone(levels, w) && Enabled(levels, w, a) && w.firstErr == FirstFailed(w.status, Order(levels, w.level))
    ensures var w' := Do(levels, w, a); w'.level <= |levels| && w'.firstErr == FirstFailed(w'.status, Order(levels, w'.level))
  {
    var w' := Do(levels, w, a);
    if a.Barrier? {
      FirstFailedAppend(w.status, Order(levels, w.level), levels[w.level]);
    } else {
      forall n | n in Order(levels, w.level) && n < |w.status|
        ensures w'.status[n] == w.status[n]
      {
        DoneStays(levels, w, a, n);
      }
      FirstFailedStays(w.status, w'.status, Order(levels, w.level));
    }
  }

  /**
    In every run: the error the walk recorded first is that of the first service, level by level and within a level in the
    level's order, that was abandoned or reported one; and there is none if each reported without.
   */
  lemma {:induction false} FirstErrorIs(nodes: seq<Node>, levels: seq<seq<nat>>, tr: seq<Walk>, acts: seq<Action>, k: nat)
    requires Layered(nodes, levels) && WalkRun(nodes, levels, tr, acts) && k < |tr|
    ensures tr[k].level <= |levels| && tr[k].firstErr == FirstFailed(tr[k].status, Order(levels, tr[k].level))
  {
    WalkRunKeeps(nodes, levels, tr, acts, k);
    if k > 0 {
      FirstErrorIs(nodes, levels, tr, acts, k - 1);
      WalkRunKeeps(nodes, levels, tr, acts, k - 1);
      PassedAreDone(nodes, levels, tr[k - 1]);
      StepReports(levels, tr[k - 1], acts[k - 1]);
    }
  }
}
