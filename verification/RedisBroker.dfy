/**
  The Redis broker on one unbroken subscriber connection, from its start on: the manager of LocalSubscriptions, the
  loop deciding every SUBSCRIBE and UNSUBSCRIBE, a FIFO command channel to Redis and a FIFO reply channel back.

  The loop is one thread, so its own computing between two shared accesses is one step; it does nothing else while a
  delivery it began runs.
 */
module RedisBroker {
  import opened Basics
  import opened LocalSubscriptions
  import opened SubscriptionCounts
  import opened BrokerLoop
  import SubscriptionStreams
  import SubscriptionOrder

  datatype Command = SubscribeTo(topic: string) | UnsubscribeFrom(topic: string)

  datatype Reply = Confirmation(topic: string) | Removal(topic: string) | Publication(msg: Message)

  datatype Broker = Broker(
    m: State, topics: Topics, waiters: seq<WaitRequest>, pending: Option<WaitRequest>,
    commands: seq<Command>, redis: set<string>, replies: seq<Reply>,
    requested: set<nat>, heard: set<nat>, answered: set<nat>, dropped: set<nat>)  // history of the waits: sent, taken in, and their ends

  datatype BrokerAction =
    | Manager(a: Action)
    | StartReads(work: OwnerStep)
    | Started(order: seq<string>)
    | OnNotice
    | OnRequest(req: WaitRequest)
    | TakeNext
    | TakeDone(order: seq<string>, ended: set<nat>)
    | OnReply(d: nat, ended: set<nat>)
    | RedisReads
    | RedisPublishes(msg: Message)

  function Subscribes(topics: seq<string>): seq<Command> {
    seq(|topics|, i requires 0 <= i < |topics| => SubscribeTo(topics[i]))
  }

  function Unsubscribes(topics: seq<string>): seq<Command> {
    seq(|topics|, i requires 0 <= i < |topics| => UnsubscribeFrom(topics[i]))
  }

  /** `apply` on the changed topics: the connection's topics move, one SUBSCRIBE and one UNSUBSCRIBE are sent. */
  function Apply(b: Broker, changed: seq<string>): Broker {
    var counts := b.m.counts;
    b.(topics := Applied(counts, b.topics, changed),
       commands := b.commands + Subscribes(ToSubscribe(counts, b.topics, changed))
                              + Unsubscribes(ToUnsubscribe(counts, b.topics, changed)))
  }

  function Answer(b: Broker, ended: set<nat>): Broker {
    b.(waiters := Kept(b.topics, b.waiters, ended), answered := b.answered + Answered(b.topics, b.waiters, ended),
       dropped := b.dropped + Dropped(b.waiters, ended))
  }

  /** Whom the loop lets go: their end notice was found closed. */
  function Dropped(waiters: seq<WaitRequest>, ended: set<nat>): set<nat> {
    set req | req in waiters && req.s in ended :: req.s
  }

  /** Every one of these has closed its end notice. The loop may have looked before another closed. */
  predicate Closed(m: State, ended: set<nat>) {
    forall s :: s in ended ==> s in m.subs && m.subs[s].noticeClosed
  }

  /** The keys of a map in some order: how Go ranges over it. */
  ghost predicate Keys(order: seq<string>, m: Counts) {
    Distinct(order) && forall t :: t in order <==> t in m
  }

  /** Topics as the caller named them, possibly repeated, against the subscription's own. */
  ghost predicate SameTopics(req: WaitRequest, sub: Sub) {
    forall t :: t in req.topics <==> t in sub.topics
  }

  ghost predicate Enables(c: Conf, b: Broker, a: BrokerAction) {
    match a
    case Manager(x) => Enabled(c, b.m, x) && !x.OwnerDoes? && !x.DeliverBegin?
    case StartReads(work) => (work == DiscardShard || work == SnapshotShard) && CanOwner(b.m, work)
    case Started(order) => CanOwner(b.m, UseSnapshot) && Keys(order, b.m.owner.kept)
    case OnNotice => LoopFree(b) && b.m.notice
    case OnRequest(req) =>
      && LoopFree(b) && req.s in b.m.subs && req.s !in b.requested
      && b.m.subs[req.s].at == Returned && SameTopics(req, b.m.subs[req.s])
    case TakeNext => CanOwner(b.m, TakeShard)
    case TakeDone(order, ended) => CanOwner(b.m, TakeFold) && Keys(order, b.m.owner.updates) && Closed(b.m, ended)
    case OnReply(d, ended) =>
      && LoopFree(b) && b.replies != [] && Closed(b.m, ended)
      && (b.replies[0].Publication? ==> Enabled(c, b.m, DeliverBegin(d, b.replies[0].msg)))
    case RedisReads => b.commands != []
    case RedisPublishes(msg) => true
  }

  /** The loop stands at its select. */
  predicate LoopFree(b: Broker) {
    b.m.owner == Idle && b.m.deliveries == map[]
  }

  function Does(c: Conf, b: Broker, a: BrokerAction): Broker
    requires Enables(c, b, a)
  {
    match a
    case Manager(x) => b.(m := Do(c, b.m, x))
    case StartReads(work) => b.(m := DoOwner(c, b.m, work))
    case Started(order) => Apply(b.(m := DoOwner(c, b.m, UseSnapshot)), order)
    case OnNotice => b.(m := DoOwner(c, b.m, TakeBegin(true)), pending := None)
    case OnRequest(req) =>
      b.(m := DoOwner(c, b.m, TakeBegin(false)), pending := Some(req), requested := b.requested + {req.s})
    case TakeNext => b.(m := DoOwner(c, b.m, TakeShard))
    case TakeDone(order, ended) => Answer(HearPending(Apply(b.(m := DoOwner(c, b.m, TakeFold)), order)), ended)
    case OnReply(d, ended) => TakeReply(c, b.(replies := b.replies[1..]), b.replies[0], d, ended)
    case RedisReads => ReadCommand(b.(commands := b.commands[1..]), b.commands[0])
    case RedisPublishes(msg) => if msg.topic in b.redis then b.(replies := b.replies + [Publication(msg)]) else b
  }

  /** The request behind this take joins the waiters: its subscription is counted by now. */
  function HearPending(b: Broker): Broker {
    match b.pending
    case None => b
    case Some(req) => b.(waiters := b.waiters + [req], heard := b.heard + {req.s}, pending := None)
  }

  function TakeReply(c: Conf, b: Broker, reply: Reply, d: nat, ended: set<nat>): Broker {
    match reply
    case Publication(msg) => b.(m := DoDeliverBegin(c, b.m, d, msg))
    case Removal(_) => b
    case Confirmation(t) =>
      Answer(if t in b.topics && b.topics[t] == Subscribing then Confirm(b, t) else b, ended)
  }

  function Confirm(b: Broker, t: string): Broker {
    Apply(b.(topics := b.topics[t := Subscribed]), if Count(b.m.counts, t) == 0 then [t] else [])
  }

  function ReadCommand(b: Broker, cmd: Command): Broker {
    match cmd
    case SubscribeTo(t) => b.(redis := b.redis + {t}, replies := b.replies + [Confirmation(t)])
    case UnsubscribeFrom(t) => b.(redis := b.redis - {t}, replies := b.replies + [Removal(t)])
  }

  // ----- the connection, topic by topic -----

  /** The commands on their way that name t, in order. */
  function About(commands: seq<Command>, t: string): seq<Command> {
    if commands == [] then []
    else (if commands[0].topic == t then [commands[0]] else []) + About(commands[1..], t)
  }

  /** How many confirmations of t are on their way back. */
  function Confirmations(replies: seq<Reply>, t: string): nat {
    if replies == [] then 0
    else (if replies[0] == Confirmation(t) then 1 else 0) + Confirmations(replies[1..], t)
  }

  lemma {:induction false} AboutSplit(x: seq<Command>, y: seq<Command>, t: string)
    ensures About(x + y, t) == About(x, t) + About(y, t)
  {
    if x == [] {
      assert x + y == y;
    } else {
      assert (x + y)[1..] == x[1..] + y;
      AboutSplit(x[1..], y, t);
    }
  }

  lemma {:induction false} ConfirmationsSplit(x: seq<Reply>, y: seq<Reply>, t: string)
    ensures Confirmations(x + y, t) == Confirmations(x, t) + Confirmations(y, t)
  {
    if x == [] {
      assert x + y == y;
    } else {
      assert (x + y)[1..] == x[1..] + y;
      ConfirmationsSplit(x[1..], y, t);
    }
  }

  datatype Place = Off | Asked | On

  function PlaceOf(topics: Topics, t: string): Place {
    if t !in topics then Off else if topics[t] == Subscribing then Asked else On
  }

  /**
    Where one topic stands between the loop and Redis. Off: Redis has it only with an UNSUBSCRIBE on its way. Asked:
    exactly one SUBSCRIBE is unconfirmed, as a command or as its confirmation coming back. On: Redis has it and
    nothing about it is on its way.
   */
  predicate Wire(place: Place, about: seq<Command>, atRedis: bool, confirmations: nat, t: string) {
    match place
    case Off => confirmations == 0 && about == if atRedis then [UnsubscribeFrom(t)] else []
    case Asked =>
      || (confirmations == 0 && about == if atRedis then [UnsubscribeFrom(t), SubscribeTo(t)] else [SubscribeTo(t)])
      || (confirmations == 1 && about == [] && atRedis)
    case On => confirmations == 0 && about == [] && atRedis
  }

  ghost predicate WireOk(b: Broker, t: string) {
    Wire(PlaceOf(b.topics, t), About(b.commands, t), t in b.redis, Confirmations(b.replies, t), t)
  }

  lemma OneMoreSubscribe(before: seq<string>, u: string, t: string)
    ensures About(Subscribes(before + [u]), t) == About(Subscribes(before), t) + (if u == t then [SubscribeTo(u)] else [])
  {
    assert Subscribes(before + [u]) == Subscribes(before) + [SubscribeTo(u)];
    AboutSplit(Subscribes(before), [SubscribeTo(u)], t);
    assert About([SubscribeTo(u)], t) == if u == t then [SubscribeTo(u)] else [];
  }

  lemma OneMoreUnsubscribe(before: seq<string>, u: string, t: string)
    ensures About(Unsubscribes(before + [u]), t) == About(Unsubscribes(before), t) + (if u == t then [UnsubscribeFrom(u)] else [])
  {
    assert Unsubscribes(before + [u]) == Unsubscribes(before) + [UnsubscribeFrom(u)];
    AboutSplit(Unsubscribes(before), [UnsubscribeFrom(u)], t);
    assert About([UnsubscribeFrom(u)], t) == if u == t then [UnsubscribeFrom(u)] else [];
  }

  lemma {:induction false} SubscribesAbout(counts: Counts, topics: Topics, changed: seq<string>, t: string)
    requires Distinct(changed)
    ensures About(Subscribes(ToSubscribe(counts, topics, changed)), t)
         == if t in changed && Missing(counts, topics, t) then [SubscribeTo(t)] else []
  {
    if changed != [] {
      var n := |changed| - 1;
      var u := changed[n];
      assert changed == changed[..n] + [u] && u !in changed[..n];
      SubscribesAbout(counts, topics, changed[..n], t);
      AppliedAt(counts, topics, changed[..n], u);
      var before := ToSubscribe(counts, topics, changed[..n]);
      if Missing(counts, topics, u) {
        assert ToSubscribe(counts, topics, changed) == before + [u];
        OneMoreSubscribe(before, u, t);
      } else {
        assert ToSubscribe(counts, topics, changed) == before;
      }
    }
  }

  lemma {:induction false} UnsubscribesAbout(counts: Counts, topics: Topics, changed: seq<string>, t: string)
    requires Distinct(changed)
    ensures About(Unsubscribes(ToUnsubscribe(counts, topics, changed)), t)
         == if t in changed && Surplus(counts, topics, t) then [UnsubscribeFrom(t)] else []
  {
    if changed != [] {
      var n := |changed| - 1;
      var u := changed[n];
      assert changed == changed[..n] + [u] && u !in changed[..n];
      UnsubscribesAbout(counts, topics, changed[..n], t);
      AppliedAt(counts, topics, changed[..n], u);
      var before := ToUnsubscribe(counts, topics, changed[..n]);
      if Surplus(counts, topics, u) {
        assert ToUnsubscribe(counts, topics, changed) == before + [u];
        OneMoreUnsubscribe(before, u, t);
      } else {
        assert ToUnsubscribe(counts, topics, changed) == before;
      }
    }
  }

  /** A visit of the topic sends at most one command about it, after those on their way. */
  lemma VisitKeepsWire(counts: Counts, topics: Topics, visited: bool, about: seq<Command>, atRedis: bool, back: nat, t: string)
    requires Wire(PlaceOf(topics, t), about, atRedis, back, t)
    ensures Wire(PlaceOf(if visited then Visit(counts, topics, t) else topics, t),
                 about + (if visited && Missing(counts, topics, t) then [SubscribeTo(t)] else [])
                       + (if visited && Surplus(counts, topics, t) then [UnsubscribeFrom(t)] else []),
                 atRedis, back, t)
  {}

  lemma ApplyKeepsWire(b: Broker, changed: seq<string>, t: string)
    requires Distinct(changed) && WireOk(b, t)
    ensures WireOk(Apply(b, changed), t)
  {
    var counts := b.m.counts;
    var subscribes := Subscribes(ToSubscribe(counts, b.topics, changed));
    var unsubscribes := Unsubscribes(ToUnsubscribe(counts, b.topics, changed));
    AppliedAt(counts, b.topics, changed, t);
    SubscribesAbout(counts, b.topics, changed, t);
    UnsubscribesAbout(counts, b.topics, changed, t);
    AboutSplit(b.commands, subscribes, t);
    AboutSplit(b.commands + subscribes, unsubscribes, t);
    VisitKeepsWire(counts, b.topics, t in changed, About(b.commands, t), t in b.redis, Confirmations(b.replies, t), t);
  }

  lemma ReplyKeepsWire(c: Conf, b: Broker, d: nat, ended: set<nat>, t: string)
    requires WireOk(b, t) && b.replies != []
    requires b.replies[0].Publication? ==> Enabled(c, b.m, DeliverBegin(d, b.replies[0].msg))
    ensures WireOk(TakeReply(c, b.(replies := b.replies[1..]), b.replies[0], d, ended), t)
  {
    if b.replies[0].Confirmation? {
      var u := b.replies[0].topic;
      var popped := b.(replies := b.replies[1..]);
      if u in b.topics && b.topics[u] == Subscribing {
        var moved := popped.(topics := b.topics[u := Subscribed]);
        assert WireOk(moved, t);
        ApplyKeepsWire(moved, if Count(b.m.counts, u) == 0 then [u] else [], t);
      }
    }
  }

  lemma ReadKeepsWire(b: Broker, t: string)
    requires WireOk(b, t) && b.commands != []
    ensures WireOk(ReadCommand(b.(commands := b.commands[1..]), b.commands[0]), t)
  {
    var cmd := b.commands[0];
    if cmd.topic == t {
      assert About(b.commands, t)[0] == cmd && About(b.commands, t)[1..] == About(b.commands[1..], t);
    }
    assert Confirmations([Confirmation(cmd.topic)], t) == if cmd.topic == t then 1 else 0;
    assert Confirmations([Removal(cmd.topic)], t) == 0;
    ConfirmationsSplit(b.replies, [Confirmation(cmd.topic)], t);
    ConfirmationsSplit(b.replies, [Removal(cmd.topic)], t);
  }

  ghost predicate WiresOk(b: Broker) {
    forall t :: WireOk(b, t)
  }

  lemma TakeDoneKeepsWires(c: Conf, b: Broker, order: seq<string>, ended: set<nat>)
    requires WiresOk(b) && Enables(c, b, TakeDone(order, ended))
    ensures WiresOk(Does(c, b, TakeDone(order, ended)))
  {
    var folded := b.(m := DoOwner(c, b.m, TakeFold));
    forall t
      ensures WireOk(Does(c, b, TakeDone(order, ended)), t)
    {
      assert WireOk(b, t);
      assert WireOk(folded, t);
      ApplyKeepsWire(folded, order, t);
    }
  }

  lemma StepKeepsWires(c: Conf, b: Broker, a: BrokerAction)
    requires WiresOk(b) && Enables(c, b, a)
    ensures WiresOk(Does(c, b, a))
  {
    match a
    case TakeDone(order, ended) => TakeDoneKeepsWires(c, b, order, ended);
    case Started(order) =>
      var ready := b.(m := DoOwner(c, b.m, UseSnapshot));
      forall t
        ensures WireOk(Apply(ready, order), t)
      {
        assert WireOk(b, t) && WireOk(ready, t);
        ApplyKeepsWire(ready, order, t);
      }
    case OnReply(d, ended) => forall t ensures WireOk(Does(c, b, a), t) { ReplyKeepsWire(c, b, d, ended, t); }
    case RedisReads => forall t ensures WireOk(Does(c, b, a), t) { ReadKeepsWire(b, t); }
    case RedisPublishes(msg) =>
      forall t
        ensures WireOk(Does(c, b, a), t)
      {
        assert WireOk(b, t);
        ConfirmationsSplit(b.replies, [Publication(msg)], t);
        assert Confirmations([Publication(msg)], t) == 0;
      }
    case _ =>
      forall t
        ensures WireOk(Does(c, b, a), t)
      {
        assert WireOk(b, t);
      }
  }

  // ----- the loop and the subscriptions behind its counts -----

  /** The owner's side is as it was, and nobody was put into a set whose Subscribe had returned. */
  ghost predicate OwnerUntouched(m: State, m': State) {
    && m'.owner == m.owner && m'.counts == m.counts
    && forall s, t :: s in m.subs && m.subs[s].at == Returned && s in At(m'.members, t) ==> s in At(m.members, t)
  }

  lemma JoinAddsOne(members: Members, sub: Sub, s: nat)
    requires sub.at.Joining? && sub.at.next < |sub.topics|
    ensures forall u, t :: u != s && u in At(JoinedMembers(members, sub, s), t) ==> u in At(members, t)
  {}

  lemma JoinAlone(c: Conf, m: State, s: nat)
    requires s in m.subs && m.subs[s].at.Joining? && m.subs[s].at.next < |m.subs[s].topics|
    ensures OwnerUntouched(m, DoJoinCommit(c, m, s))
  {
    JoinAddsOne(m.members, m.subs[s], s);
  }

  lemma LeaveAlone(c: Conf, m: State, s: nat)
    requires Enabled(c, m, Leave(s))
    ensures OwnerUntouched(m, Do(c, m, Leave(s)))
  {}

  lemma QuietAlone(c: Conf, m: State, x: Action)
    requires Enabled(c, m, x) && !x.OwnerDoes? && !x.JoinCommit? && !x.Leave?
    ensures OwnerUntouched(m, Do(c, m, x))
  {
    QuietStep(c, m, x);
  }

  /** Steps of the manager alone leave the owner's side as it is, and put nobody into a set whose Subscribe returned. */
  lemma ManagerAlone(c: Conf, m: State, x: Action)
    requires Enabled(c, m, x) && !x.OwnerDoes?
    ensures OwnerUntouched(m, Do(c, m, x))
  {
    if x.JoinCommit? {
      JoinAlone(c, m, x.s);
    } else if x.Leave? {
      LeaveAlone(c, m, x.s);
    } else {
      QuietAlone(c, m, x);
    }
  }

  ghost predicate Settled(m: State, s: nat) {
    s in m.subs && m.subs[s].at == Returned
  }

  ghost predicate Asks(m: State, req: WaitRequest) {
    Settled(m, req.s) && SameTopics(req, m.subs[req.s])
  }

  /** Whoever the loop knows of is a subscription whose Subscribe on the manager returned. */
  ghost predicate PeopleOk(b: Broker) {
    && (forall s :: s in b.heard ==> Settled(b.m, s))
    && b.answered <= b.heard
    && (forall req :: req in b.waiters ==> req.s in b.heard && Asks(b.m, req))
    && (b.pending.Some? ==> b.m.owner.Taking? && Asks(b.m, b.pending.value))
    && (b.m.owner.Idle? || b.m.owner.Taking? || (b.heard == {} && b.waiters == []))
  }

  /** The count the loop will have of t after the take it is in. */
  function Latest(owner: Owner, counts: Counts, t: string): nat {
    if owner.Taking? && t in owner.updates then owner.updates[t] else Count(counts, t)
  }

  predicate Counted(owner: Owner, counts: Counts, t: string) {
    Count(counts, t) > 0 && Latest(owner, counts, t) > 0
  }

  /** A topic with a subscription the loop took in counts as wanted there, also through the take it is in. */
  ghost predicate HeardOk(b: Broker) {
    forall s, t :: s in b.heard && s in At(b.m.members, t) ==> Counted(b.m.owner, b.m.counts, t)
  }

  /** The take behind a request finds its subscription counted in every shard it has passed. */
  ghost predicate PendingOk(c: Conf, b: Broker) {
    b.pending.Some? && b.m.owner.Taking? ==>
      forall t :: b.pending.value.s in At(b.m.members, t) && ShardOf(c, t) < b.m.owner.next ==>
        Latest(b.m.owner, b.m.counts, t) > 0
  }

  /** What was answered stays confirmed while its subscription is in the topic's set. */
  ghost predicate AnsweredOk(b: Broker) {
    forall s, t :: s in b.answered && s in At(b.m.members, t) ==> PlaceOf(b.topics, t) == On
  }

  ghost predicate LoopFacts(c: Conf, b: Broker) {
    PeopleOk(b) && HeardOk(b) && PendingOk(c, b) && AnsweredOk(b)
  }

  ghost predicate LoopInv(c: Conf, b: Broker) {
    forall x :: x == b ==> LoopFacts(c, x)
  }

  lemma ManagerKeepsLoop(c: Conf, b: Broker, x: Action)
    requires LoopInv(c, b) && Enabled(c, b.m, x) && !x.OwnerDoes?
    ensures LoopInv(c, b.(m := Do(c, b.m, x)))
  {
    ManagerAlone(c, b.m, x);
    StepIsLater(c, b.m, x);
    LaterKeepsLoop(c, b, Do(c, b.m, x));
  }

  lemma LaterKeepsLoop(c: Conf, b: Broker, m: State)
    requires LoopInv(c, b) && AllLater(b.m.subs, m.subs) && m.owner == b.m.owner && m.counts == b.m.counts
    requires forall s, t :: s in b.m.subs && b.m.subs[s].at == Returned && s in At(m.members, t) ==> s in At(b.m.members, t)
    ensures LoopInv(c, b.(m := m))
  {
    assert LoopFacts(c, b);
    forall req | Asks(b.m, req)
      ensures Asks(m, req)
    {
      assert Later(b.m.subs[req.s], m.subs[req.s]);
    }
    assert LoopFacts(c, b.(m := m));
  }

  lemma TakeNextKeepsLoop(c: Conf, b: Broker)
    requires LoopInv(c, b) && CountInv(c, b.m) && CanOwner(b.m, TakeShard)
    ensures LoopInv(c, b.(m := DoOwner(c, b.m, TakeShard)))
  {
    assert LoopFacts(c, b) && CountFacts(c, b.m);
    var b' := b.(m := DoOwner(c, b.m, TakeShard));
    forall s, t | s in At(b.m.members, t)
      ensures |At(b.m.members, t)| > 0 && CountOk(c, b.m.members, b.m.updates, b.m.owner, b.m.counts, t)
    {}
    assert LoopFacts(c, b');
  }

  /** Applying the counts never takes a topic with a heard, still registered subscription off the connection. */
  lemma ApplyKeepsAnswered(b: Broker, changed: seq<string>)
    requires HeardOk(b) && AnsweredOk(b) && b.answered <= b.heard && Distinct(changed)
    ensures AnsweredOk(Apply(b, changed))
  {
    forall s, t | s in b.answered && s in At(b.m.members, t)
      ensures PlaceOf(Applied(b.m.counts, b.topics, changed), t) == On
    {
      AppliedAt(b.m.counts, b.topics, changed, t);
    }
  }

  lemma AnswerKeepsLoop(c: Conf, b: Broker, ended: set<nat>)
    requires LoopInv(c, b) && MembersOk(b.m.subs, b.m.members)
    ensures LoopInv(c, Answer(b, ended))
  {
    assert LoopFacts(c, b);
    var b' := Answer(b, ended);
    forall s, t | s in b'.answered && s in At(b.m.members, t)
      ensures PlaceOf(b.topics, t) == On
    {
      if s !in b.answered {
        var req :| req in b.waiters && req.s == s && Confirmed(b.topics, req);
        assert t in req.topics;
      }
    }
    assert LoopFacts(c, b');
  }

  /** The fold leaves every heard subscription, and now the pending one, counted. */
  lemma FoldKeepsLoop(c: Conf, b: Broker, order: seq<string>)
    requires LoopInv(c, b) && CanOwner(b.m, TakeFold) && Keys(order, b.m.owner.updates)
    ensures LoopInv(c, HearPending(Apply(b.(m := DoOwner(c, b.m, TakeFold)), order)))
  {
    assert LoopFacts(c, b);
    var folded := b.(m := DoOwner(c, b.m, TakeFold));
    assert HeardOk(folded);
    ApplyKeepsAnswered(folded, order);
    var b' := HearPending(Apply(folded, order));
    assert HeardOk(b');
    assert LoopFacts(c, b');
  }

  lemma ConfirmKeepsLoop(c: Conf, b: Broker, t: string)
    requires LoopInv(c, b)
    ensures LoopInv(c, Confirm(b, t))
  {
    assert LoopFacts(c, b);
    var moved := b.(topics := b.topics[t := Subscribed]);
    ApplyKeepsAnswered(moved, if Count(b.m.counts, t) == 0 then [t] else []);
    assert LoopFacts(c, Confirm(b, t));
  }

  lemma ReplyKeepsLoop(c: Conf, b: Broker, d: nat, ended: set<nat>)
    requires LoopInv(c, b) && Inv(c, b.m) && Enables(c, b, OnReply(d, ended))
    ensures LoopInv(c, Does(c, b, OnReply(d, ended)))
  {
    var popped := b.(replies := b.replies[1..]);
    assert LoopInv(c, popped) by { assert LoopFacts(c, b); }
    match b.replies[0]
    case Publication(msg) => ManagerKeepsLoop(c, popped, DeliverBegin(d, msg));
    case Removal(_) =>
    case Confirmation(t) =>
      assert MembersOk(b.m.subs, b.m.members) by { assert Facts(c, b.m); }
      if t in b.topics && b.topics[t] == Subscribing {
        ConfirmKeepsLoop(c, popped, t);
        AnswerKeepsLoop(c, Confirm(popped, t), ended);
      } else {
        AnswerKeepsLoop(c, popped, ended);
      }
  }

  lemma StartKeepsLoop(c: Conf, b: Broker, a: BrokerAction)
    requires LoopInv(c, b) && Enables(c, b, a)
    requires a.StartReads? || a.Started? || a.OnNotice? || a.OnRequest?
    ensures LoopInv(c, Does(c, b, a))
  {
    assert LoopFacts(c, b);
    assert LoopFacts(c, Does(c, b, a));
  }

  lemma StepKeepsLoop(c: Conf, b: Broker, a: BrokerAction)
    requires LoopInv(c, b) && Inv(c, b.m) && CountInv(c, b.m) && Enables(c, b, a)
    ensures LoopInv(c, Does(c, b, a))
  {
    match a
    case Manager(x) => ManagerKeepsLoop(c, b, x);
    case TakeNext => TakeNextKeepsLoop(c, b);
    case TakeDone(order, ended) =>
      FoldKeepsLoop(c, b, order);
      var heard := HearPending(Apply(b.(m := DoOwner(c, b.m, TakeFold)), order));
      assert MembersOk(heard.m.subs, heard.m.members) by { assert Facts(c, b.m); }
      AnswerKeepsLoop(c, heard, ended);
    case OnReply(d, ended) => ReplyKeepsLoop(c, b, d, ended);
    case RedisReads => assert LoopFacts(c, b);
    case RedisPublishes(msg) => assert LoopFacts(c, b);
    case _ => StartKeepsLoop(c, b, a);
  }

  // ----- every run on one connection -----

  ghost predicate BrokerInv(c: Conf, b: Broker) {
    Inv(c, b.m) && CountInv(c, b.m) && WiresOk(b) && LoopInv(c, b)
  }

  /** A start: a fresh connection over whatever subscriptions an earlier cycle kept, whose loop has ended. */
  ghost predicate BrokerInit(c: Conf, b: Broker) {
    && Inv(c, b.m) && CountInv(c, b.m) && b.m.owner == Discarding(0)
    && SubscriptionStreams.StreamInv(b.m) && SubscriptionOrder.WholeInv(b.m) && b.m.deliveries == map[]
    && b == Broker(b.m, map[], [], None, [], {}, [], {}, {}, {}, {})
  }

  ghost predicate BrokerStep(c: Conf, b: Broker, b': Broker) {
    exists a :: Enables(c, b, a) && b' == Does(c, b, a)
  }

  ghost predicate BrokerRun(c: Conf, tr: seq<Broker>) {
    && tr != []
    && BrokerInit(c, tr[0])
    && forall i :: 0 < i < |tr| ==> BrokerStep(c, tr[i - 1], tr[i])
  }

  lemma StepKeepsManager(c: Conf, b: Broker, a: BrokerAction)
    requires Inv(c, b.m) && CountInv(c, b.m) && Enables(c, b, a)
    ensures Inv(c, Does(c, b, a).m) && CountInv(c, Does(c, b, a).m)
  {
    match a
    case Manager(x) => OneManagerStep(c, b.m, x);
    case StartReads(work) => OneManagerStep(c, b.m, OwnerDoes(work));
    case Started(_) => OneManagerStep(c, b.m, OwnerDoes(UseSnapshot));
    case OnNotice => OneManagerStep(c, b.m, OwnerDoes(TakeBegin(true)));
    case OnRequest(_) => OneManagerStep(c, b.m, OwnerDoes(TakeBegin(false)));
    case TakeNext => OneManagerStep(c, b.m, OwnerDoes(TakeShard));
    case TakeDone(_, _) => OneManagerStep(c, b.m, OwnerDoes(TakeFold));
    case OnReply(d, _) =>
      if b.replies[0].Publication? {
        OneManagerStep(c, b.m, DeliverBegin(d, b.replies[0].msg));
      }
    case RedisReads =>
    case RedisPublishes(_) =>
  }

  lemma OneManagerStep(c: Conf, m: State, x: Action)
    requires Inv(c, m) && CountInv(c, m) && Enabled(c, m, x)
    ensures Inv(c, Do(c, m, x)) && CountInv(c, Do(c, m, x))
  {
    StepKeeps(c, m, x);
    StepKeepsCounts(c, m, x);
  }

  lemma InitHolds(c: Conf, b: Broker)
    requires BrokerInit(c, b)
    ensures BrokerInv(c, b)
  {
    assert LoopFacts(c, b);
  }

  lemma StepKeepsBroker(c: Conf, b: Broker, b': Broker)
    requires BrokerInv(c, b) && BrokerStep(c, b, b')
    ensures BrokerInv(c, b')
  {
    var a :| Enables(c, b, a) && b' == Does(c, b, a);
    StepKeepsManager(c, b, a);
    StepKeepsWires(c, b, a);
    StepKeepsLoop(c, b, a);
  }

  lemma {:induction false} BrokerRunKeeps(c: Conf, tr: seq<Broker>, k: nat)
    requires BrokerRun(c, tr) && k < |tr|
    ensures BrokerInv(c, tr[k])
  {
    if k == 0 {
      InitHolds(c, tr[0]);
    } else {
      BrokerRunKeeps(c, tr, k - 1);
      StepKeepsBroker(c, tr[k - 1], tr[k]);
    }
  }

  lemma {:induction false} SubscribesCounted(commands: seq<Command>, t: string)
    ensures multiset(commands)[SubscribeTo(t)] == multiset(About(commands, t))[SubscribeTo(t)]
    ensures SubscribeTo(t) in commands || UnsubscribeFrom(t) in commands ==> About(commands, t) != []
  {
    if commands != [] {
      assert commands == [commands[0]] + commands[1..];
      SubscribesCounted(commands[1..], t);
    }
  }

  lemma {:induction false} ConfirmationsCounted(replies: seq<Reply>, t: string)
    ensures multiset(replies)[Confirmation(t)] == Confirmations(replies, t)
  {
    if replies != [] {
      assert replies == [replies[0]] + replies[1..];
      ConfirmationsCounted(replies[1..], t);
    }
  }

  /**
    In every run on one connection, once the broker's Subscribe is answered and for as long as its subscription has not
    ended: Redis has every one of its topics, no UNSUBSCRIBE of one is on its way, and a message published to one of
    them goes out on this connection.
   */
  lemma ConfirmedWhileAlive(c: Conf, tr: seq<Broker>, k: nat, s: nat, t: string, payload: string)
    requires BrokerRun(c, tr) && k < |tr| && s in tr[k].answered
    ensures s in tr[k].m.subs
    ensures t in tr[k].m.subs[s].topics && !tr[k].m.subs[s].ended ==>
      && t in tr[k].redis && UnsubscribeFrom(t) !in tr[k].commands
      && Does(c, tr[k], RedisPublishes(Message(t, payload))).replies == tr[k].replies + [Publication(Message(t, payload))]
  {
    var b := tr[k];
    BrokerRunKeeps(c, tr, k);
    assert LoopFacts(c, b);
    assert Settled(b.m, s);
    if t in b.m.subs[s].topics && !b.m.subs[s].ended {
      AliveIsMember(c, b.m, s, t);
      assert WireOk(b, t);
      SubscribesCounted(b.commands, t);
    }
  }

  lemma AliveIsMember(c: Conf, m: State, s: nat, t: string)
    requires Inv(c, m) && s in m.subs && m.subs[s].at == Returned && !m.subs[s].ended && t in m.subs[s].topics
    ensures s in At(m.members, t)
  {
    assert Facts(c, m);
    JoinsOf(m.subs, m.members, s);
    var i :| 0 <= i < |m.subs[s].topics| && m.subs[s].topics[i] == t;
    assert JoinOk(m.subs[s], i, s in At(m.members, t));
  }

  /** A topic has at most one unconfirmed SUBSCRIBE, exactly while the loop has it as subscribing. */
  lemma OneUnconfirmed(c: Conf, tr: seq<Broker>, k: nat, t: string)
    requires BrokerRun(c, tr) && k < |tr|
    ensures multiset(tr[k].commands)[SubscribeTo(t)] + multiset(tr[k].replies)[Confirmation(t)]
         == if t in tr[k].topics && tr[k].topics[t] == Subscribing then 1 else 0
  {
    BrokerRunKeeps(c, tr, k);
    assert WireOk(tr[k], t);
    SubscribesCounted(tr[k].commands, t);
    ConfirmationsCounted(tr[k].replies, t);
  }
}
