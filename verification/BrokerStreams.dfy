/**
  What the subscriptions of a Redis broker receive. Its one loop delivers, one message at a time, so on a connection every
  subscription receives its topics' messages in one order: the order Redis sent them in.
 */
module BrokerStreams {
  import opened Basics
  import opened LocalSubscriptions
  import opened SubscriptionCounts
  import opened RedisBroker
  import Streams = SubscriptionStreams
  import Order = SubscriptionOrder

  /** The step of the manager inside a step of the broker, if there is one. */
  function Inside(b: Broker, a: BrokerAction): Option<Action> {
    match a
    case Manager(x) => Some(x)
    case StartReads(work) => Some(OwnerDoes(work))
    case Started(_) => Some(OwnerDoes(UseSnapshot))
    case OnNotice => Some(OwnerDoes(TakeBegin(true)))
    case OnRequest(_) => Some(OwnerDoes(TakeBegin(false)))
    case TakeNext => Some(OwnerDoes(TakeShard))
    case TakeDone(_, _) => Some(OwnerDoes(TakeFold))
    case OnReply(d, _) => if b.replies != [] && b.replies[0].Publication? then Some(DeliverBegin(d, b.replies[0].msg)) else None
    case RedisReads => None
    case RedisPublishes(_) => None
  }

  lemma InsideIs(c: Conf, b: Broker, a: BrokerAction)
    requires Enables(c, b, a)
    ensures Inside(b, a).None? ==> Does(c, b, a).m == b.m
    ensures Inside(b, a).Some? ==>
      var x := Inside(b, a).value;
      Enabled(c, b.m, x) && Does(c, b, a).m == Do(c, b.m, x) && Order.Alone(b.m, x)
  {}

  ghost predicate StreamsInv(m: State) {
    Streams.StreamInv(m) && Order.WholeInv(m)
  }

  lemma StepKeepsStreams(c: Conf, b: Broker, a: BrokerAction)
    requires Inv(c, b.m) && StreamsInv(b.m) && Enables(c, b, a)
    ensures StreamsInv(Does(c, b, a).m)
  {
    InsideIs(c, b, a);
    if Inside(b, a).Some? {
      Streams.StepKeepsStreams(c, b.m, Inside(b, a).value);
      Order.StepKeepsWhole(c, b.m, Inside(b, a).value);
    }
  }

  /**
    In every run on one connection: a subscription has received exactly the messages delivered on all its topics together,
    in the order of their deliveries, but for the one on its way, unless it is ending or was found full.
   */
  lemma {:induction false} WholeStreamOnConnection(c: Conf, tr: seq<Broker>, k: nat)
    requires BrokerRun(c, tr) && k < |tr|
    ensures StreamsInv(tr[k].m) && Order.WholeFacts(tr[k].m)
  {
    if k > 0 {
      WholeStreamOnConnection(c, tr, k - 1);
      BrokerRunKeeps(c, tr, k - 1);
      assert BrokerStep(c, tr[k - 1], tr[k]);
      var a :| Enables(c, tr[k - 1], a) && tr[k] == Does(c, tr[k - 1], a);
      StepKeepsStreams(c, tr[k - 1], a);
    }
  }

  // ----- from Redis to the subscription -----

  /** The published messages of these topics still on their way from Redis, in order. */
  function Coming(replies: seq<Reply>, topics: set<string>): seq<Message> {
    if replies == [] then []
    else
      (if replies[0].Publication? && replies[0].msg.topic in topics then [replies[0].msg] else [])
      + Coming(replies[1..], topics)
  }

  lemma {:induction false} ComingAppend(x: seq<Reply>, y: seq<Reply>, topics: set<string>)
    ensures Coming(x + y, topics) == Coming(x, topics) + Coming(y, topics)
  {
    if x == [] {
      assert x + y == y;
    } else {
      assert (x + y)[1..] == x[1..] + y;
      ComingAppend(x[1..], y, topics);
    }
  }

  /** What was delivered on the joined topics and what of them is still to come from Redis. */
  function OnTheWay(log: seq<Message>, replies: seq<Reply>, joinedAt: map<string, nat>): seq<Message> {
    Order.Due(log, joinedAt) + Coming(replies, joinedAt.Keys)
  }

  function Arriving(b: Broker, s: nat): seq<Message>
    requires s in b.m.subs
  {
    OnTheWay(b.m.log, b.replies, b.m.subs[s].joinedAt)
  }

  function Sent(a: BrokerAction, topics: set<string>): seq<Message> {
    if a.RedisPublishes? && a.msg.topic in topics then [a.msg] else []
  }

  lemma LogStays(c: Conf, m: State, x: Action)
    requires Enabled(c, m, x) && !x.DeliverBegin?
    ensures Do(c, m, x).log == m.log
  {
    if x.OwnerDoes? {
      OwnerLeavesSubs(c, m, x.work);
    }
  }

  /** A step that neither takes a reply nor is Redis's own touches neither the log nor the replies. */
  lemma LogAndRepliesStay(c: Conf, b: Broker, a: BrokerAction)
    requires Enables(c, b, a) && !a.OnReply? && !a.RedisReads? && !a.RedisPublishes?
    ensures Does(c, b, a).m.log == b.m.log && Does(c, b, a).replies == b.replies
  {
    InsideIs(c, b, a);
    LogStays(c, b.m, Inside(b, a).value);
  }

  lemma ReplyTaken(c: Conf, b: Broker, d: nat, ended: set<nat>)
    requires Enables(c, b, OnReply(d, ended))
    ensures var b' := Does(c, b, OnReply(d, ended));
      && b'.replies == b.replies[1..]
      && b'.m.log == if b.replies[0].Publication? then b.m.log + [b.replies[0].msg] else b.m.log
  {}

  lemma ReplyArrives(log: seq<Message>, joinedAt: map<string, nat>, reply: Reply, replies: seq<Reply>)
    requires forall t :: t in joinedAt ==> joinedAt[t] <= |log|
    ensures OnTheWay(if reply.Publication? then log + [reply.msg] else log, replies, joinedAt)
         == OnTheWay(log, [reply] + replies, joinedAt)
  {
    var head := if reply.Publication? && reply.msg.topic in joinedAt then [reply.msg] else [];
    assert ([reply] + replies)[1..] == replies;
    assert Coming([reply] + replies, joinedAt.Keys) == head + Coming(replies, joinedAt.Keys);
    if reply.Publication? {
      Order.DueAppend(log, reply.msg, joinedAt);
    }
  }

  lemma MoreReplies(log: seq<Message>, joinedAt: map<string, nat>, replies: seq<Reply>, reply: Reply)
    ensures OnTheWay(log, replies + [reply], joinedAt) == OnTheWay(log, replies, joinedAt)
         + (if reply.Publication? && reply.msg.topic in joinedAt then [reply.msg] else [])
  {
    ComingAppend(replies, [reply], joinedAt.Keys);
    assert [reply][1..] == [];
  }

  /** One step keeps what is arriving, and adds what it publishes. */
  lemma StepArrives(c: Conf, b: Broker, a: BrokerAction, joinedAt: map<string, nat>)
    requires Enables(c, b, a) && joinedAt.Keys <= b.redis && forall t :: t in joinedAt ==> joinedAt[t] <= |b.m.log|
    ensures OnTheWay(Does(c, b, a).m.log, Does(c, b, a).replies, joinedAt)
         == OnTheWay(b.m.log, b.replies, joinedAt) + Sent(a, joinedAt.Keys)
  {
    match a
    case OnReply(d, ended) =>
      ReplyTaken(c, b, d, ended);
      ReplyArrives(b.m.log, joinedAt, b.replies[0], b.replies[1..]);
      assert [b.replies[0]] + b.replies[1..] == b.replies;
    case RedisReads =>
      var t := b.commands[0].topic;
      MoreReplies(b.m.log, joinedAt, b.replies, if b.commands[0].SubscribeTo? then Confirmation(t) else Removal(t));
    case RedisPublishes(msg) =>
      MoreReplies(b.m.log, joinedAt, b.replies, Publication(msg));
    case _ => LogAndRepliesStay(c, b, a);
  }

  /** A run and the steps it is made of. */
  ghost predicate StepsOf(c: Conf, tr: seq<Broker>, acts: seq<BrokerAction>) {
    && |tr| == |acts| + 1 && BrokerInit(c, tr[0])
    && forall i :: 0 <= i < |acts| ==> Enables(c, tr[i], acts[i]) && tr[i + 1] == Does(c, tr[i], acts[i])
  }

  lemma StepsMakeRun(c: Conf, tr: seq<Broker>, acts: seq<BrokerAction>)
    requires StepsOf(c, tr, acts)
    ensures BrokerRun(c, tr)
  {
    forall i | 0 < i < |tr|
      ensures BrokerStep(c, tr[i - 1], tr[i])
    {
      assert Enables(c, tr[i - 1], acts[i - 1]) && tr[i - 1 + 1] == Does(c, tr[i - 1], acts[i - 1]);
    }
  }

  /** What Redis was asked to publish on these topics from step j up to step k. */
  function Published(acts: seq<BrokerAction>, j: nat, k: nat, topics: set<string>): seq<Message>
    requires j <= k <= |acts|
    decreases k
  {
    if j == k then [] else Published(acts, j, k - 1, topics) + Sent(acts[k - 1], topics)
  }

  /** A subscription answered and not ending: everything it joined is on the connection. */
  lemma AnsweredIsOn(c: Conf, tr: seq<Broker>, k: nat, s: nat)
    requires BrokerRun(c, tr) && k < |tr| && s in tr[k].answered
    ensures s in tr[k].m.subs && tr[k].m.subs[s].at == Returned
    ensures tr[k].m.subs[s].ending == NotEnding ==> tr[k].m.subs[s].joinedAt.Keys <= tr[k].redis
    ensures tr[k].m.subs[s].ending == NotEnding ==>
      tr[k].m.subs[s].joinedAt.Keys == set t | t in tr[k].m.subs[s].topics
    ensures forall t :: t in tr[k].m.subs[s].joinedAt ==> tr[k].m.subs[s].joinedAt[t] <= |tr[k].m.log|
  {
    var b := tr[k];
    BrokerRunKeeps(c, tr, k);
    WholeStreamOnConnection(c, tr, k);
    assert LoopFacts(c, b);
    assert Settled(b.m, s);
    var sub := b.m.subs[s];
    assert PhaseOk(sub) by { assert Facts(c, b.m); }
    assert Streams.JoinedOk(sub) by { assert Streams.StreamFacts(b.m); }
    assert Order.JoinedBefore(sub, b.m.log);
    if sub.ending == NotEnding {
      forall t | t in sub.topics
        ensures t in sub.joinedAt && t in b.redis
      {
        AliveIsMember(c, b.m, s, t);
        Order.JoinedIsMember(c, b.m, s, t);
        ConfirmedWhileAlive(c, tr, k, s, t, "");
      }
      forall t | t in sub.joinedAt
        ensures t in sub.topics
      {}
    }
  }

  lemma LaterIs(c: Conf, tr: seq<Broker>, acts: seq<BrokerAction>, k: nat, s: nat)
    requires StepsOf(c, tr, acts) && k < |acts| && s in tr[k].m.subs
    ensures s in tr[k + 1].m.subs && Later(tr[k].m.subs[s], tr[k + 1].m.subs[s])
    ensures tr[k].answered <= tr[k + 1].answered
  {
    assert Enables(c, tr[k], acts[k]) && tr[k + 1] == Does(c, tr[k], acts[k]);
    InsideIs(c, tr[k], acts[k]);
    if Inside(tr[k], acts[k]).Some? {
      StepIsLater(c, tr[k].m, Inside(tr[k], acts[k]).value);
    }
    AnsweredGrows(c, tr[k], acts[k]);
  }

  lemma AnsweredGrows(c: Conf, b: Broker, a: BrokerAction)
    requires Enables(c, b, a)
    ensures b.answered <= Does(c, b, a).answered
  {}

  lemma {:induction false} ArrivingKept(c: Conf, tr: seq<Broker>, acts: seq<BrokerAction>, j: nat, k: nat, s: nat)
    requires StepsOf(c, tr, acts) && j <= k < |tr| && s in tr[j].answered
    ensures s in tr[k].answered && s in tr[j].m.subs && s in tr[k].m.subs
    ensures tr[k].m.subs[s].joinedAt == tr[j].m.subs[s].joinedAt
    ensures tr[k].m.subs[s].ending == NotEnding ==> tr[j].m.subs[s].ending == NotEnding
    ensures tr[k].m.subs[s].ending == NotEnding ==>
      Arriving(tr[k], s) == Arriving(tr[j], s) + Published(acts, j, k, tr[j].m.subs[s].joinedAt.Keys)
    decreases k
  {
    StepsMakeRun(c, tr, acts);
    AnsweredIsOn(c, tr, j, s);
    if j < k {
      ArrivingKept(c, tr, acts, j, k - 1, s);
      OneStepArrives(c, tr, acts, k - 1, s);
      var topics := tr[j].m.subs[s].joinedAt.Keys;
      Regrouped(Arriving(tr[j], s), Published(acts, j, k - 1, topics), Sent(acts[k - 1], topics));
    }
  }

  lemma Regrouped(x: seq<Message>, y: seq<Message>, z: seq<Message>)
    ensures x + y + z == x + (y + z)
  {}

  /** One step of an answered subscription's pipeline. */
  lemma OneStepArrives(c: Conf, tr: seq<Broker>, acts: seq<BrokerAction>, k: nat, s: nat)
    requires StepsOf(c, tr, acts) && k < |acts| && s in tr[k].answered
    ensures s in tr[k].m.subs && s in tr[k + 1].answered && s in tr[k + 1].m.subs
    ensures var sub, sub' := tr[k].m.subs[s], tr[k + 1].m.subs[s];
      && sub'.joinedAt == sub.joinedAt && (sub'.ending == NotEnding ==> sub.ending == NotEnding)
      && (sub'.ending == NotEnding ==> Arriving(tr[k + 1], s) == Arriving(tr[k], s) + Sent(acts[k], sub.joinedAt.Keys))
  {
    StepsMakeRun(c, tr, acts);
    AnsweredIsOn(c, tr, k, s);
    LaterIs(c, tr, acts, k, s);
    assert Enables(c, tr[k], acts[k]) && tr[k + 1] == Does(c, tr[k], acts[k]);
    if tr[k + 1].m.subs[s].ending == NotEnding {
      StepArrives(c, tr[k], acts[k], tr[k].m.subs[s].joinedAt);
    }
  }

  /** The delivery on its way to s, if one is. */
  ghost function InFlight(deliveries: Streams.Deliveries, s: nat): seq<Message> {
    if d :| d in deliveries && Streams.Awaits(deliveries[d], s) then [deliveries[d].msg] else []
  }

  /** What s has received, then the delivery on its way to it, then what of its topics is still to come from Redis. */
  ghost function Pipeline(b: Broker, s: nat): seq<Message>
    requires s in b.m.subs
  {
    Streams.Received(b.m.subs[s]) + InFlight(b.m.deliveries, s) + Coming(b.replies, b.m.subs[s].joinedAt.Keys)
  }

  lemma PipelineIs(c: Conf, b: Broker, s: nat)
    requires Order.WholeFacts(b.m) && s in b.m.subs && !Streams.Excused(b.m, s)
    ensures Pipeline(b, s) == Arriving(b, s)
  {
    assert Order.Whole(b.m.subs[s], b.m.log, b.m.deliveries, s);
  }

  /**
    Every message published to its topics after a broker's Subscribe has returned reaches the subscription, in order and
    once: in every run on one connection, while the subscription is not ending and was not found full, what it has received,
    then the delivery on its way to it, then what Redis has sent and the loop has yet to take, is what that was at the
    answer followed by exactly what was published since.
   */
  lemma EveryMessageArrives(c: Conf, tr: seq<Broker>, acts: seq<BrokerAction>, j: nat, k: nat, s: nat)
    requires StepsOf(c, tr, acts) && j <= k < |tr| && s in tr[j].answered
    ensures s in tr[j].m.subs && s in tr[k].m.subs
    ensures !Streams.Excused(tr[j].m, s) && !Streams.Excused(tr[k].m, s) ==>
      Pipeline(tr[k], s) == Pipeline(tr[j], s) + Published(acts, j, k, set t | t in tr[j].m.subs[s].topics)
  {
    StepsMakeRun(c, tr, acts);
    ArrivingKept(c, tr, acts, j, k, s);
    WholeStreamOnConnection(c, tr, j);
    WholeStreamOnConnection(c, tr, k);
    AnsweredIsOn(c, tr, j, s);
    if !Streams.Excused(tr[j].m, s) && !Streams.Excused(tr[k].m, s) {
      PipelineIs(c, tr[j], s);
      PipelineIs(c, tr[k], s);
    }
  }
}
