/**
  What becomes of the waits that the Redis broker's Subscribe sends its loop: each is answered, dropped because its
  subscription ended, or waiting for a topic whose confirmation is on its way.
 */
module BrokerAnswers {
  import opened Basics
  import opened LocalSubscriptions
  import opened SubscriptionCounts
  import opened BrokerLoop
  import opened RedisBroker

  function WaitingOf(waiters: seq<WaitRequest>): set<nat> {
    set req | req in waiters :: req.s
  }

  ghost predicate OneEach(waiters: seq<WaitRequest>) {
    forall i, j :: 0 <= i < j < |waiters| ==> waiters[i].s != waiters[j].s
  }

  /** Every wait the loop took in is answered, dropped or waiting, and only one of them. */
  ghost predicate Parted(b: Broker) {
    && b.heard == b.answered + b.dropped + WaitingOf(b.waiters) && OneEach(b.waiters)
    && b.answered !! b.dropped && b.answered !! WaitingOf(b.waiters) && b.dropped !! WaitingOf(b.waiters)
  }

  /** Every wait sent is taken in, or stands behind the take under way. */
  ghost predicate Sent(b: Broker) {
    && (forall s :: s in b.requested <==> s in b.heard || (b.pending.Some? && b.pending.value.s == s))
    && (b.pending.Some? ==> b.pending.value.s !in b.heard)
  }

  /** Whoever waits has a topic that is not confirmed. */
  ghost predicate Unconfirmed(topics: Topics, waiters: seq<WaitRequest>) {
    forall req :: req in waiters ==> !Confirmed(topics, req)
  }

  /** A topic the counts call for is on the connection. */
  ghost predicate Wanted(b: Broker) {
    b.m.owner.Idle? || b.m.owner.Taking? ==> forall t :: Count(b.m.counts, t) > 0 ==> t in b.topics
  }

  ghost predicate WaitFacts(b: Broker) {
    Parted(b) && Sent(b) && Closed(b.m, b.dropped) && Unconfirmed(b.topics, b.waiters) && Wanted(b)
  }

  /** The invariant, folded. */
  ghost predicate WaitInv(b: Broker) {
    forall x :: x == b ==> WaitFacts(x)
  }

  lemma {:induction false} KeptOneEach(topics: Topics, waiters: seq<WaitRequest>, ended: set<nat>)
    requires OneEach(waiters)
    ensures OneEach(Kept(topics, waiters, ended))
  {
    if waiters != [] {
      var n := |waiters| - 1;
      var front := Kept(topics, waiters[..n], ended);
      KeptOneEach(topics, waiters[..n], ended);
      assert forall i :: 0 <= i < |front| ==> front[i] in waiters[..n];
    }
  }

  lemma SamePlaceOnce(waiters: seq<WaitRequest>, i: nat, j: nat)
    requires OneEach(waiters) && i < |waiters| && j < |waiters| && waiters[i].s == waiters[j].s
    ensures i == j
  {}

  /** Answering parts those who waited into the answered, the dropped and the kept. */
  lemma AnswerParts(b: Broker, ended: set<nat>)
    requires Parted(b)
    ensures Parted(Answer(b, ended)) && Unconfirmed(b.topics, Answer(b, ended).waiters)
  {
    var kept := Kept(b.topics, b.waiters, ended);
    KeptOneEach(b.topics, b.waiters, ended);
    forall x, y | x in b.waiters && y in b.waiters && x.s == y.s
      ensures x == y
    {
      var i, j :| 0 <= i < |b.waiters| && 0 <= j < |b.waiters| && b.waiters[i] == x && b.waiters[j] == y;
      SamePlaceOnce(b.waiters, i, j);
    }
    assert WaitingOf(b.waiters) == Answered(b.topics, b.waiters, ended) + Dropped(b.waiters, ended) + WaitingOf(kept);
  }

  /** After visiting these topics, whatever the counts call for is on the connection. */
  lemma ApplyWants(b: Broker, changed: seq<string>)
    requires Distinct(changed) && forall t :: Count(b.m.counts, t) > 0 ==> t in b.topics || t in changed
    ensures forall t :: Count(b.m.counts, t) > 0 ==> t in Apply(b, changed).topics
  {
    forall t | Count(b.m.counts, t) > 0
      ensures t in Applied(b.m.counts, b.topics, changed)
    {
      AppliedAt(b.m.counts, b.topics, changed, t);
    }
  }

  lemma StartedWaits(c: Conf, b: Broker, order: seq<string>)
    requires WaitInv(b) && LoopInv(c, b) && Enables(c, b, Started(order))
    ensures WaitInv(Does(c, b, Started(order)))
  {
    assert WaitFacts(b) && LoopFacts(c, b);
    ApplyWants(b.(m := DoOwner(c, b.m, UseSnapshot)), order);
    assert WaitFacts(Does(c, b, Started(order)));
  }

  /** The request behind the take joins those who wait. */
  lemma HearParts(b: Broker)
    requires Parted(b) && Sent(b)
    ensures Parted(HearPending(b)) && Sent(HearPending(b))
  {
    if b.pending.Some? {
      var req, more := b.pending.value, b.waiters + [b.pending.value];
      assert WaitingOf(more) == WaitingOf(b.waiters) + {req.s};
      assert forall i :: 0 <= i < |b.waiters| ==> b.waiters[i].s in WaitingOf(b.waiters);
    }
  }

  lemma TakeDoneWaits(c: Conf, b: Broker, order: seq<string>, ended: set<nat>)
    requires WaitInv(b) && Enables(c, b, TakeDone(order, ended))
    ensures WaitInv(Does(c, b, TakeDone(order, ended)))
  {
    assert WaitFacts(b);
    var folded := b.(m := DoOwner(c, b.m, TakeFold));
    ApplyWants(folded, order);
    var applied := Apply(folded, order);
    HearParts(applied);
    AnswerParts(HearPending(applied), ended);
    assert WaitFacts(Does(c, b, TakeDone(order, ended)));
  }

  lemma ReplyWaits(c: Conf, b: Broker, d: nat, ended: set<nat>)
    requires WaitInv(b) && Enables(c, b, OnReply(d, ended))
    ensures WaitInv(Does(c, b, OnReply(d, ended)))
  {
    assert WaitFacts(b);
    var popped, b' := b.(replies := b.replies[1..]), Does(c, b, OnReply(d, ended));
    if b.replies[0].Confirmation? {
      var t := b.replies[0].topic;
      var moved := if t in b.topics && b.topics[t] == Subscribing then Confirm(popped, t) else popped;
      if t in b.topics && b.topics[t] == Subscribing {
        ApplyWants(popped.(topics := b.topics[t := Subscribed]), if Count(b.m.counts, t) == 0 then [t] else []);
      }
      AnswerParts(moved, ended);
    }
    assert WaitFacts(b');
  }

  lemma ManagerWaits(c: Conf, b: Broker, x: Action)
    requires WaitInv(b) && Enabled(c, b.m, x) && !x.OwnerDoes?
    ensures WaitInv(b.(m := Do(c, b.m, x)))
  {
    assert WaitFacts(b);
    ManagerAlone(c, b.m, x);
    StepIsLater(c, b.m, x);
    assert forall s :: s in b.dropped ==> Later(b.m.subs[s], Do(c, b.m, x).subs[s]);
    assert WaitFacts(b.(m := Do(c, b.m, x)));
  }

  lemma TakeStartWaits(c: Conf, b: Broker, a: BrokerAction)
    requires WaitInv(b) && LoopInv(c, b) && Enables(c, b, a) && (a.StartReads? || a.OnNotice? || a.OnRequest? || a.TakeNext?)
    ensures WaitInv(Does(c, b, a))
  {
    assert WaitFacts(b) && LoopFacts(c, b);
    assert WaitFacts(Does(c, b, a));
  }

  lemma StepWaits(c: Conf, b: Broker, a: BrokerAction)
    requires WaitInv(b) && LoopInv(c, b) && Enables(c, b, a)
    ensures WaitInv(Does(c, b, a))
  {
    match a
    case Manager(x) => ManagerWaits(c, b, x);
    case Started(order) => StartedWaits(c, b, order);
    case TakeDone(order, ended) => TakeDoneWaits(c, b, order, ended);
    case OnReply(d, ended) => ReplyWaits(c, b, d, ended);
    case RedisReads => assert WaitFacts(b); assert WaitFacts(Does(c, b, a));
    case RedisPublishes(_) => assert WaitFacts(b); assert WaitFacts(Does(c, b, a));
    case _ => TakeStartWaits(c, b, a);
  }

  /** Whenever the loop answers, whoever it found ended neither waits on nor is answered. */
  lemma EndedAreDropped(c: Conf, b: Broker, a: BrokerAction, s: nat)
    requires Enables(c, b, a) && (a.TakeDone? || (a.OnReply? && b.replies[0].Confirmation?)) && s in a.ended
    ensures var b' := Does(c, b, a); s !in WaitingOf(b'.waiters) && (s in b'.answered ==> s in b.answered)
  {
    var b' := Does(c, b, a);
    forall req | req in b'.waiters
      ensures req.s !in a.ended
    {}
  }

  /**
    In every run on one connection: a wait that Subscribe sent is answered, dropped with its subscription's end notice closed,
    waiting with a topic not confirmed, or behind the take of counts under way; and never two of these.
   */
  lemma {:induction false} AnsweredOrWaiting(c: Conf, tr: seq<Broker>, k: nat)
    requires BrokerRun(c, tr) && k < |tr|
    ensures WaitFacts(tr[k])
  {
    if k == 0 {
      assert WaitFacts(tr[0]);
    } else {
      AnsweredOrWaiting(c, tr, k - 1);
      assert WaitInv(tr[k - 1]);
      BrokerRunKeeps(c, tr, k - 1);
      assert BrokerStep(c, tr[k - 1], tr[k]);
      var a :| Enables(c, tr[k - 1], a) && tr[k] == Does(c, tr[k - 1], a);
      StepWaits(c, tr[k - 1], a);
    }
  }

  /**
    And no wait is stuck: while its subscription has not ended, a waiting one has a topic whose SUBSCRIBE is on its way to Redis
    or whose confirmation is on its way back.
   */
  lemma NotStuck(c: Conf, tr: seq<Broker>, k: nat, req: WaitRequest) returns (t: string)
    requires BrokerRun(c, tr) && k < |tr| && req in tr[k].waiters && req.s in tr[k].m.subs && !tr[k].m.subs[req.s].ended
    ensures t in req.topics && (SubscribeTo(t) in tr[k].commands || Confirmation(t) in tr[k].replies)
  {
    var b := tr[k];
    BrokerRunKeeps(c, tr, k);
    AnsweredOrWaiting(c, tr, k);
    assert LoopFacts(c, b);
    t :| t in req.topics && !(t in b.topics && b.topics[t] == Subscribed);
    AliveIsMember(c, b.m, req.s, t);
    assert Counted(b.m.owner, b.m.counts, t);
    OneUnconfirmed(c, tr, k, t);
  }
}
