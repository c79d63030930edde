/**
  What a subscriber receives: the messages it has taken followed by its queue, against the deliveries of the run.
 */
module SubscriptionStreams {
  import opened Basics
  import opened LocalSubscriptions

  /** What has reached a subscription: taken, then still queued. */
  function Received(sub: Sub): seq<Message> {
    sub.taken + sub.queue
  }

  /** The messages of one topic, in order. */
  function On(ms: seq<Message>, t: string): seq<Message> {
    if ms == [] then []
    else On(ms[..|ms| - 1], t) + (if ms[|ms| - 1].topic == t then [ms[|ms| - 1]] else [])
  }

  lemma OnAppend(ms: seq<Message>, m: Message, t: string)
    ensures On(ms + [m], t) == On(ms, t) + (if m.topic == t then [m] else [])
  {
    assert (ms + [m])[..|ms|] == ms;
  }

  lemma {:induction false} OnNone(ms: seq<Message>, t: string)
    requires forall m :: m in ms ==> m.topic != t
    ensures On(ms, t) == []
  {
    if ms != [] {
      assert ms[|ms| - 1] in ms;
      OnNone(ms[..|ms| - 1], t);
    }
  }

  type Deliveries = map<nat, Delivery>

  /** The delivery has yet to put its message into s's queue. */
  predicate Awaits(dl: Delivery, s: nat) {
    s in dl.todo || s in dl.live
  }

  /** s is ending, or a delivery found its queue full and will end it. */
  ghost predicate Excused(st: State, s: nat) {
    || s !in st.subs
    || st.subs[s].ending != NotEnding
    || (s, ByFullQueue) in st.calls
    || exists d :: d in st.deliveries && s in st.deliveries[d].full
  }

  /** On topic t, s has received what was delivered since it joined, but for a delivery still on its way to s. */
  ghost predicate Stream(sub: Sub, log: seq<Message>, deliveries: Deliveries, s: nat, t: string) {
    && t in sub.joinedAt && sub.joinedAt[t] <= |log|
    && var due, got := On(log[sub.joinedAt[t]..], t), On(Received(sub), t);
      && (forall d :: d in deliveries && deliveries[d].msg.topic == t && Awaits(deliveries[d], s) ==>
            due == got + [deliveries[d].msg])
      && ((forall d :: d in deliveries && deliveries[d].msg.topic == t ==> !Awaits(deliveries[d], s)) ==> due == got)
  }

  ghost predicate StreamsOk(st: State) {
    forall s, t :: s in At(st.members, t) && !Excused(st, s) ==> Stream(st.subs[s], st.log, st.deliveries, s, t)
  }

  /** Which topics s has joined, and that everything it received is of one of them. */
  ghost predicate JoinedOk(sub: Sub) {
    && (forall t :: t in sub.joinedAt ==> exists i :: 0 <= i < JoinedCount(sub) && i < |sub.topics| && sub.topics[i] == t)
    && (forall m :: m in Received(sub) ==> m.topic in sub.joinedAt)
  }

  ghost predicate TopicsOk(st: State) {
    && (forall s :: s in st.subs ==> JoinedOk(st.subs[s]))
    && (forall s, t :: s in At(st.members, t) && s in st.subs ==> t in st.subs[s].joinedAt)
    && (forall d :: d in st.deliveries ==> st.deliveries[d].todo !! st.deliveries[d].live)
  }

  ghost predicate StreamFacts(st: State) {
    TopicsOk(st) && StreamsOk(st)
  }

  ghost predicate StreamInv(st: State) {
    forall x :: x == st ==> StreamFacts(x)
  }

  // ----- steps that deliver nothing -----

  predicate SameStream(x: Sub, y: Sub) {
    x.joinedAt == y.joinedAt && Received(x) == Received(y) && x.topics == y.topics && JoinedCount(x) <= JoinedCount(y)
  }

  /** Nothing was delivered or joined; whoever is excused stays so. */
  ghost predicate Calm(st: State, st': State) {
    && st'.log == st.log && st'.deliveries == st.deliveries
    && (forall s, t :: s in At(st'.members, t) ==> s in At(st.members, t) && s in st.subs)
    && (forall s :: Excused(st, s) && s in st.subs ==> Excused(st', s))
    && (forall s :: s in st'.subs ==>
          && JoinedOk(st'.subs[s])
          && (s !in st.subs ==> st'.subs[s].joinedAt == map[] && Received(st'.subs[s]) == [])
          && (s in st.subs ==> st'.subs[s].joinedAt == st.subs[s].joinedAt)
          && (s in st.subs && !Excused(st', s) ==> SameStream(st.subs[s], st'.subs[s])))
  }

  lemma CalmKeeps(st: State, st': State)
    requires StreamInv(st) && Calm(st, st')
    ensures StreamInv(st')
  {
    assert StreamFacts(st);
    forall s, t | s in At(st'.members, t) && !Excused(st', s)
      ensures Stream(st'.subs[s], st'.log, st'.deliveries, s, t)
    {
      assert Stream(st.subs[s], st.log, st.deliveries, s, t);
    }
    assert StreamFacts(st');
  }

  /** One record edited, its received messages kept or its end begun. */
  predicate Edited(x: Sub, y: Sub) {
    && y.joinedAt == x.joinedAt && y.topics == x.topics && JoinedCount(x) <= JoinedCount(y)
    && (x.ending != NotEnding ==> y.ending != NotEnding)
    && (y.ending == NotEnding ==> Received(y) == Received(x))
    && (forall m :: m in Received(y) ==> m in Received(x))
  }

  lemma EditIsCalm(st: State, st': State, s: nat)
    requires TopicsOk(st) && s in st.subs && s in st'.subs && st'.subs == st.subs[s := st'.subs[s]]
    requires Edited(st.subs[s], st'.subs[s])
    requires st'.log == st.log && st'.deliveries == st.deliveries
    requires forall x, t :: x in At(st'.members, t) ==> x in At(st.members, t) && x in st.subs
    requires forall x :: (x, ByFullQueue) in st.calls ==> (x, ByFullQueue) in st'.calls || (x == s && st'.subs[s].ending != NotEnding)
    ensures Calm(st, st')
  {
    EditedJoined(st.subs[s], st'.subs[s]);
    forall x | Excused(st, x) && x in st.subs
      ensures Excused(st', x)
    {}
    forall x | x in st'.subs
      ensures x in st.subs && JoinedOk(st'.subs[x]) && st'.subs[x].joinedAt == st.subs[x].joinedAt
      ensures !Excused(st', x) ==> SameStream(st.subs[x], st'.subs[x])
    {
      assert x != s ==> st'.subs[x] == st.subs[x];
    }
  }

  lemma EditedJoined(x: Sub, y: Sub)
    requires JoinedOk(x) && Edited(x, y)
    ensures JoinedOk(y)
  {
    forall t | t in y.joinedAt
      ensures exists i :: 0 <= i < JoinedCount(y) && i < |y.topics| && y.topics[i] == t
    {
      var i :| 0 <= i < JoinedCount(x) && i < |x.topics| && x.topics[i] == t;
      assert i < JoinedCount(y) && y.topics[i] == t;
    }
  }

  lemma SubStepEdits(sub: Sub, step: SubStep)
    requires PhaseOk(sub) && CanSub(sub, step)
    ensures Edited(sub, DoSub(sub, step))
  {}

  lemma EditStepIsCalm(c: Conf, st: State, st': State, s: nat)
    requires Inv(c, st) && StreamInv(st) && s in st.subs && s in st'.subs && st'.subs == st.subs[s := st'.subs[s]]
    requires Edited(st.subs[s], st'.subs[s])
    requires st'.log == st.log && st'.deliveries == st.deliveries
    requires forall x, t :: x in At(st'.members, t) ==> x in At(st.members, t)
    requires forall x :: (x, ByFullQueue) in st.calls ==> (x, ByFullQueue) in st'.calls || (x == s && st'.subs[s].ending != NotEnding)
    ensures Calm(st, st')
  {
    assert MembersOk(st.subs, st.members) by { assert Facts(c, st); }
    assert TopicsOk(st) by { assert StreamFacts(st); }
    EditIsCalm(st, st', s);
  }

  lemma OneSubIsCalm(c: Conf, st: State, s: nat, step: SubStep)
    requires Inv(c, st) && StreamInv(st) && s in st.subs && CanSub(st.subs[s], step)
    ensures Calm(st, Put(st, s, DoSub(st.subs[s], step)))
  {
    assert PhaseOk(st.subs[s]) by { assert Facts(c, st); }
    SubStepEdits(st.subs[s], step);
    EditStepIsCalm(c, st, Put(st, s, DoSub(st.subs[s], step)), s);
  }

  lemma OpenIsCalm(c: Conf, st: State, s: nat, topics: seq<string>)
    requires Inv(c, st) && StreamInv(st) && s !in st.subs
    ensures Calm(st, Put(st, s, NewSub(topics)).(all := st.all + {s}))
  {
    assert MembersOk(st.subs, st.members) by { assert Facts(c, st); }
    assert TopicsOk(st) by { assert StreamFacts(st); }
  }

  /** Only the calls in flight changed, and nobody's full queue was forgotten before its end began. */
  lemma CallsAreCalm(c: Conf, st: State, st': State)
    requires Inv(c, st) && StreamInv(st)
    requires st'.subs == st.subs && st'.members == st.members && st'.log == st.log && st'.deliveries == st.deliveries
    requires forall s :: (s, ByFullQueue) in st.calls ==> (s, ByFullQueue) in st'.calls || (s in st.subs && st.subs[s].ending != NotEnding)
    ensures Calm(st, st')
  {
    assert MembersOk(st.subs, st.members) by { assert Facts(c, st); }
    assert TopicsOk(st) by { assert StreamFacts(st); }
    forall x | Excused(st, x) && x in st.subs
      ensures Excused(st', x)
    {}
  }

  lemma FireWatchIsCalm(c: Conf, st: State, s: nat)
    requires Inv(c, st) && StreamInv(st) && Enabled(c, st, FireWatch(s))
    ensures Calm(st, Do(c, st, FireWatch(s)))
  {
    EditStepIsCalm(c, st, Do(c, st, FireWatch(s)), s);
  }

  lemma BeginEndIsCalm(c: Conf, st: State, s: nat, reason: EndReason)
    requires Inv(c, st) && StreamInv(st) && Enabled(c, st, BeginEnd(s, reason))
    ensures Calm(st, Do(c, st, BeginEnd(s, reason)))
  {
    EditStepIsCalm(c, st, Do(c, st, BeginEnd(s, reason)), s);
  }

  lemma LeaveAllIsCalm(c: Conf, st: State, s: nat)
    requires Inv(c, st) && StreamInv(st) && Enabled(c, st, LeaveAll(s))
    ensures Calm(st, Do(c, st, LeaveAll(s)))
  {
    EditStepIsCalm(c, st, Do(c, st, LeaveAll(s)), s);
  }

  lemma OwnerIsCalm(c: Conf, st: State, work: OwnerStep)
    requires Inv(c, st) && StreamInv(st) && CanOwner(st, work)
    ensures Calm(st, DoOwner(c, st, work))
  {
    OwnerLeavesSubs(c, st, work);
    CallsAreCalm(c, st, DoOwner(c, st, work));
  }

  /** The steps that neither join a topic nor deliver. */
  predicate IsQuiet(st: State, a: Action) {
    && !a.DeliverBegin? && !a.DeliverLook? && !a.DeliverPut? && !a.DeliverEnd?
    && (a.JoinCommit? ==> a.s in st.subs && st.subs[a.s].at.Joining? && st.subs[a.s].at.sawEnded)
  }

  lemma QuietIsCalm(c: Conf, st: State, a: Action)
    requires Inv(c, st) && StreamInv(st) && Enabled(c, st, a) && IsQuiet(st, a)
    ensures Calm(st, Do(c, st, a))
  {
    match a
    case Open(s, topics) => OpenIsCalm(c, st, s, topics);
    case OneSub(s, step) => OneSubIsCalm(c, st, s, step);
    case JoinLock(s) => EditStepIsCalm(c, st, DoJoinLock(c, st, s), s);
    case JoinCommit(s) => EditStepIsCalm(c, st, DoJoinCommit(c, st, s), s);
    case FireWatch(s) => FireWatchIsCalm(c, st, s);
    case Call(s, reason) => CallsAreCalm(c, st, st.(calls := st.calls + {(s, reason)}));
    case EndAll => CallsAreCalm(c, st, Do(c, st, EndAll));
    case BeginEnd(s, reason) => BeginEndIsCalm(c, st, s, reason);
    case DropCall(s, reason) => CallsAreCalm(c, st, st.(calls := st.calls - {(s, reason)}));
    case Leave(s) => EditStepIsCalm(c, st, DoLeave(c, st, s), s);
    case LeaveAll(s) => LeaveAllIsCalm(c, st, s);
    case OwnerDoes(work) => OwnerIsCalm(c, st, work);
    case _ =>
  }

  // ----- joining -----

  lemma CommittedJoined(sub: Sub, begun: nat)
    requires PhaseOk(sub) && JoinedOk(sub) && sub.at.Joining?
    ensures JoinedOk(Committed(sub, begun))
    ensures sub.topics[sub.at.next] !in sub.joinedAt
  {
    var y := Committed(sub, begun);
    forall t | t in y.joinedAt
      ensures exists i :: 0 <= i < JoinedCount(y) && i < |y.topics| && y.topics[i] == t
    {
      if t in sub.joinedAt {
        var i :| 0 <= i < JoinedCount(sub) && i < |sub.topics| && sub.topics[i] == t;
        assert i < JoinedCount(y) && y.topics[i] == t;
      } else {
        assert sub.at.next < JoinedCount(y) && y.topics[sub.at.next] == t;
      }
    }
  }

  /** A topic just joined: nothing of it is due yet, and nothing of it was received. */
  lemma FreshStream(sub: Sub, log: seq<Message>, deliveries: Deliveries, s: nat)
    requires PhaseOk(sub) && JoinedOk(sub) && sub.at.Joining? && !sub.at.sawEnded
    requires forall d :: d in deliveries && deliveries[d].msg.topic == sub.topics[sub.at.next] ==> !Awaits(deliveries[d], s)
    ensures Stream(Committed(sub, |log|), log, deliveries, s, sub.topics[sub.at.next])
  {
    CommittedJoined(sub, |log|);
    OnNone(Received(sub), sub.topics[sub.at.next]);
  }

  lemma JoinStreams(c: Conf, st: State, s: nat)
    requires Inv(c, st) && StreamInv(st) && Enabled(c, st, JoinCommit(s)) && !st.subs[s].at.sawEnded
    ensures StreamsOk(DoJoinCommit(c, st, s))
  {
    assert Facts(c, st) && StreamFacts(st);
    var st' := DoJoinCommit(c, st, s);
    var sub := st.subs[s];
    var next := sub.at.next;
    assert JoinOk(sub, next, s in At(st.members, sub.topics[next]));
    FreshStream(sub, st.log, st.deliveries, s);
    forall x, u | x in At(st'.members, u) && !Excused(st', x)
      ensures Stream(st'.subs[x], st'.log, st'.deliveries, x, u)
    {
      if x != s || u != sub.topics[next] {
        assert x in At(st.members, u) && !Excused(st, x);
        assert Stream(st.subs[x], st.log, st.deliveries, x, u);
      }
    }
  }

  lemma JoinKeepsStreams(c: Conf, st: State, s: nat)
    requires Inv(c, st) && StreamInv(st) && Enabled(c, st, JoinCommit(s)) && !st.subs[s].at.sawEnded
    ensures StreamInv(DoJoinCommit(c, st, s))
  {
    assert PhaseOk(st.subs[s]) by { assert Facts(c, st); }
    assert TopicsOk(st) by { assert StreamFacts(st); }
    JoinTopics(c, st, s);
    JoinStreams(c, st, s);
  }

  lemma JoinTopics(c: Conf, st: State, s: nat)
    requires TopicsOk(st) && s in st.subs && PhaseOk(st.subs[s]) && st.subs[s].at.Joining? && !st.subs[s].at.sawEnded
    ensures TopicsOk(DoJoinCommit(c, st, s))
  {
    CommittedJoined(st.subs[s], |st.log|);
  }

  // ----- delivering -----

  /** One delivery begins: its message becomes due to everyone in its topic's set, who all wait for it now. */
  lemma BeginStream(sub: Sub, log: seq<Message>, deliveries: Deliveries, s: nat, t: string, d: nat, dl: Delivery)
    requires Stream(sub, log, deliveries, s, t) && d !in deliveries
    requires dl.msg.topic == t ==> Awaits(dl, s)
    requires dl.msg.topic == t ==> forall e :: e in deliveries && deliveries[e].msg.topic == t ==> !Awaits(deliveries[e], s)
    ensures Stream(sub, log + [dl.msg], deliveries[d := dl], s, t)
  {
    var from := sub.joinedAt[t];
    assert (log + [dl.msg])[from..] == log[from..] + [dl.msg];
    OnAppend(log[from..], dl.msg, t);
    var after := deliveries[d := dl];
    assert forall e :: e in deliveries ==> e in after && after[e] == deliveries[e];
    assert dl.msg.topic == t ==> d in after && Awaits(after[d], s);
    if forall e :: e in after && after[e].msg.topic == t ==> !Awaits(after[e], s) {
      assert forall e :: e in deliveries && deliveries[e].msg.topic == t ==> !Awaits(deliveries[e], s);
    }
  }

  lemma DeliverBeginKeepsStreams(c: Conf, st: State, d: nat, msg: Message)
    requires Inv(c, st) && StreamInv(st) && Enabled(c, st, DeliverBegin(d, msg))
    ensures StreamInv(DoDeliverBegin(c, st, d, msg))
  {
    assert Facts(c, st) && StreamFacts(st);
    var st' := DoDeliverBegin(c, st, d, msg);
    forall s, t | s in At(st'.members, t) && !Excused(st', s)
      ensures Stream(st'.subs[s], st'.log, st'.deliveries, s, t)
    {
      assert !Excused(st, s) by {
        assert forall e :: e in st.deliveries ==> e in st'.deliveries && st'.deliveries[e] == st.deliveries[e];
      }
      forall e | e in st.deliveries
        ensures st.deliveries[e].msg.topic != msg.topic
      {
        assert ShardOf(c, st.deliveries[e].msg.topic) in st.locks;
      }
      BeginStream(st.subs[s], st.log, st.deliveries, s, t, d, st'.deliveries[d]);
    }
    assert StreamFacts(st');
  }

  /** A delivery moved on without changing whether s waits for it. */
  lemma RedealtStream(sub: Sub, log: seq<Message>, deliveries: Deliveries, s: nat, t: string, d: nat, dl: Delivery)
    requires Stream(sub, log, deliveries, s, t) && d in deliveries && dl.msg == deliveries[d].msg
    requires Awaits(dl, s) == Awaits(deliveries[d], s)
    ensures Stream(sub, log, deliveries[d := dl], s, t)
  {
    var after := deliveries[d := dl];
    assert forall e :: e in deliveries ==>
      e in after && after[e].msg == deliveries[e].msg && Awaits(after[e], s) == Awaits(deliveries[e], s);
    if forall e :: e in after && after[e].msg.topic == t ==> !Awaits(after[e], s) {
      assert forall e :: e in deliveries && deliveries[e].msg.topic == t ==> !Awaits(deliveries[e], s);
    }
  }

  lemma DeliverLookKeepsStreams(c: Conf, st: State, d: nat, s: nat)
    requires Inv(c, st) && StreamInv(st) && Enabled(c, st, DeliverLook(d, s))
    ensures StreamInv(Do(c, st, DeliverLook(d, s)))
  {
    assert PhaseOk(st.subs[s]) by { assert Facts(c, st); }
    assert StreamFacts(st);
    var dl := Looked(st.deliveries[d], s, st.subs[s].ended);
    var st' := st.(deliveries := st.deliveries[d := dl]);
    forall x, t | x in At(st'.members, t) && !Excused(st', x)
      ensures Stream(st'.subs[x], st'.log, st'.deliveries, x, t)
    {
      SameFull(st, d, dl, x);
      RedealtStream(st.subs[x], st.log, st.deliveries, x, t, d, dl);
    }
    assert StreamFacts(st');
  }

  lemma SameFull(st: State, d: nat, dl: Delivery, s: nat)
    requires d in st.deliveries && st.deliveries[d].full <= dl.full
    ensures Excused(st, s) ==> Excused(st.(deliveries := st.deliveries[d := dl]), s)
  {
    var after := st.deliveries[d := dl];
    assert forall e :: e in st.deliveries && s in st.deliveries[e].full ==> e in after && s in after[e].full;
  }

  /** The put itself: what was due is now received, and no other delivery of the topic can be on its way. */
  lemma PutStream(c: Conf, sub: Sub, log: seq<Message>, deliveries: Deliveries, s: nat, t: string, d: nat, dl: Delivery)
    requires Stream(sub, log, deliveries, s, t) && d in deliveries && dl.msg == deliveries[d].msg
    requires Awaits(deliveries[d], s) && !Awaits(dl, s) && |sub.queue| < c.queueCapacity
    requires forall e :: e in deliveries && deliveries[e].msg.topic == deliveries[d].msg.topic ==> e == d
    ensures Stream(Offered(c, sub, dl.msg), log, deliveries[d := dl], s, t)
  {
    var after := deliveries[d := dl];
    var sub' := Offered(c, sub, dl.msg);
    assert Received(sub') == Received(sub) + [dl.msg];
    OnAppend(Received(sub), dl.msg, t);
    assert forall e :: e in deliveries && e != d ==> e in after && after[e] == deliveries[e];
    if dl.msg.topic != t {
      if forall e :: e in after && after[e].msg.topic == t ==> !Awaits(after[e], s) {
        assert forall e :: e in deliveries && deliveries[e].msg.topic == t ==> !Awaits(deliveries[e], s);
      }
    }
  }

  lemma AloneOnTopic(c: Conf, st: State, d: nat)
    requires LocksOk(c, st.subs, st.deliveries, st.locks) && d in st.deliveries
    ensures forall e :: e in st.deliveries && st.deliveries[e].msg.topic == st.deliveries[d].msg.topic ==> e == d
  {}

  lemma DeliverPutStreams(c: Conf, st: State, d: nat, s: nat)
    requires Inv(c, st) && StreamInv(st) && Enabled(c, st, DeliverPut(d, s))
    ensures StreamsOk(DoDeliverPut(c, st, d, s))
  {
    assert LocksOk(c, st.subs, st.deliveries, st.locks) by { assert Facts(c, st); }
    AloneOnTopic(c, st, d);
    assert StreamFacts(st);
    var dl := Served(c, st.deliveries[d], st.subs[s], s);
    var st' := DoDeliverPut(c, st, d, s);
    forall x, t | x in At(st'.members, t) && !Excused(st', x)
      ensures Stream(st'.subs[x], st'.log, st'.deliveries, x, t)
    {
      SameFull(st, d, dl, x);
      assert !Excused(st, x);
      if x == s {
        assert d in st'.deliveries && s !in st'.deliveries[d].full;
        PutStream(c, st.subs[s], st.log, st.deliveries, s, t, d, dl);
      } else {
        RedealtStream(st.subs[x], st.log, st.deliveries, x, t, d, dl);
      }
    }
  }

  lemma OfferedJoined(c: Conf, sub: Sub, msg: Message)
    requires JoinedOk(sub) && msg.topic in sub.joinedAt
    ensures JoinedOk(Offered(c, sub, msg))
  {
    assert forall m :: m in Received(Offered(c, sub, msg)) ==> m in Received(sub) || m == msg;
  }

  lemma DeliverPutTopics(c: Conf, st: State, d: nat, s: nat)
    requires TopicsOk(st) && d in st.deliveries && s in st.subs && s in At(st.members, st.deliveries[d].msg.topic)
    ensures TopicsOk(DoDeliverPut(c, st, d, s))
  {
    OfferedJoined(c, st.subs[s], st.deliveries[d].msg);
  }

  lemma DeliverPutKeepsStreams(c: Conf, st: State, d: nat, s: nat)
    requires Inv(c, st) && StreamInv(st) && Enabled(c, st, DeliverPut(d, s))
    ensures StreamInv(DoDeliverPut(c, st, d, s))
  {
    DeliverPutStreams(c, st, d, s);
    assert s in At(st.members, st.deliveries[d].msg.topic) by { assert Facts(c, st); }
    assert TopicsOk(st) by { assert StreamFacts(st); }
    DeliverPutTopics(c, st, d, s);
  }

  lemma DeliverEndKeepsStreams(c: Conf, st: State, d: nat)
    requires StreamInv(st) && Enabled(c, st, DeliverEnd(d))
    ensures StreamInv(DoDeliverEnd(c, st, d))
  {
    assert StreamFacts(st);
    var st' := DoDeliverEnd(c, st, d);
    forall s, t | s in At(st'.members, t) && !Excused(st', s)
      ensures Stream(st'.subs[s], st'.log, st'.deliveries, s, t)
    {
      EndKeepsExcuse(c, st, d, s);
      EndedDelivery(st.subs[s], st.log, st.deliveries, s, t, d);
    }
    assert StreamFacts(st');
  }

  lemma EndKeepsExcuse(c: Conf, st: State, d: nat, s: nat)
    requires d in st.deliveries
    ensures Excused(st, s) ==> Excused(DoDeliverEnd(c, st, d), s)
  {
    var st' := DoDeliverEnd(c, st, d);
    assert forall e :: e in st.deliveries && e != d ==> e in st'.deliveries && st'.deliveries[e] == st.deliveries[e];
  }

  lemma EndedDelivery(sub: Sub, log: seq<Message>, deliveries: Deliveries, s: nat, t: string, d: nat)
    requires Stream(sub, log, deliveries, s, t) && d in deliveries && !Awaits(deliveries[d], s)
    ensures Stream(sub, log, deliveries - {d}, s, t)
  {
    var after := deliveries - {d};
    assert forall e :: e in deliveries && e != d ==> e in after && after[e] == deliveries[e];
    if forall e :: e in after && after[e].msg.topic == t ==> !Awaits(after[e], s) {
      assert forall e :: e in deliveries && deliveries[e].msg.topic == t ==> !Awaits(deliveries[e], s);
    }
  }

  // ----- every step, every run -----

  lemma StepKeepsStreams(c: Conf, st: State, a: Action)
    requires Inv(c, st) && StreamInv(st) && Enabled(c, st, a)
    ensures StreamInv(Do(c, st, a))
  {
    if IsQuiet(st, a) {
      QuietIsCalm(c, st, a);
      CalmKeeps(st, Do(c, st, a));
    } else {
      match a
      case JoinCommit(s) => JoinKeepsStreams(c, st, s);
      case DeliverBegin(d, msg) => DeliverBeginKeepsStreams(c, st, d, msg);
      case DeliverLook(d, s) => DeliverLookKeepsStreams(c, st, d, s);
      case DeliverPut(d, s) => DeliverPutKeepsStreams(c, st, d, s);
      case DeliverEnd(d) => DeliverEndKeepsStreams(c, st, d);
    }
  }

  /**
    In every state of every run, whatever ran at once: a subscription in a topic's set has received exactly the
    messages delivered on that topic since it joined, in order and each once, but for a delivery still to reach it,
    unless it is ending or was found full.
   */
  lemma {:induction false} ReceivedInOrder(c: Conf, tr: seq<State>, k: nat)
    requires Run(c, tr) && k < |tr|
    ensures StreamFacts(tr[k])
  {
    if k > 0 {
      ReceivedInOrder(c, tr, k - 1);
      RunKeeps(c, tr, k - 1);
      StepKeepsStreams(c, tr[k - 1], ActionOf(c, tr[k - 1], tr[k]));
      assert StreamInv(tr[k]);
    }
  }
}
