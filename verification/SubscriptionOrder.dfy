/**
  The order in which a subscriber receives across all its topics: the order of the deliveries when they do not overlap,
  and otherwise any order in which only overlapping deliveries change places.
 */
module SubscriptionOrder {
  import opened Basics
  import opened LocalSubscriptions
  import opened SubscriptionStreams

  // ----- deliveries one at a time: the whole stream -----

  /** The messages of the log on topics joined before them, in log order. */
  function Due(log: seq<Message>, joinedAt: map<string, nat>): seq<Message> {
    if log == [] then []
    else
      var n := |log| - 1;
      Due(log[..n], joinedAt) + (if log[n].topic in joinedAt && joinedAt[log[n].topic] <= n then [log[n]] else [])
  }

  lemma DueAppend(log: seq<Message>, m: Message, joinedAt: map<string, nat>)
    ensures Due(log + [m], joinedAt)
         == Due(log, joinedAt) + (if m.topic in joinedAt && joinedAt[m.topic] <= |log| then [m] else [])
  {
    assert (log + [m])[..|log|] == log;
  }

  lemma {:induction false} DueNothing(log: seq<Message>)
    ensures Due(log, map[]) == []
  {
    if log != [] {
      DueNothing(log[..|log| - 1]);
    }
  }

  /** A topic joined now makes nothing of the past due. */
  lemma {:induction false} DueJoin(log: seq<Message>, joinedAt: map<string, nat>, t: string, n: nat)
    requires t !in joinedAt && |log| <= n
    ensures Due(log, joinedAt[t := n]) == Due(log, joinedAt)
  {
    if log != [] {
      DueJoin(log[..|log| - 1], joinedAt, t, n);
    }
  }

  /** s has received everything due on all its topics, in order, but for a delivery still on its way to it. */
  ghost predicate Whole(sub: Sub, log: seq<Message>, deliveries: Deliveries, s: nat) {
    var due := Due(log, sub.joinedAt);
    && (forall d :: d in deliveries && Awaits(deliveries[d], s) ==> due == Received(sub) + [deliveries[d].msg])
    && ((forall d :: d in deliveries ==> !Awaits(deliveries[d], s)) ==> due == Received(sub))
  }

  ghost predicate JoinedBefore(sub: Sub, log: seq<Message>) {
    forall t :: t in sub.joinedAt ==> sub.joinedAt[t] <= |log|
  }

  ghost predicate WholeFacts(st: State) {
    && (forall s :: s in st.subs ==> JoinedBefore(st.subs[s], st.log))
    && (forall s :: s in st.subs && !Excused(st, s) ==> Whole(st.subs[s], st.log, st.deliveries, s))
    && (forall d, e :: d in st.deliveries && e in st.deliveries ==> d == e)
  }

  ghost predicate WholeInv(st: State) {
    forall x :: x == st ==> WholeFacts(x)
  }

  /** Whoever a delivery is on its way to is a subscription. */
  lemma AwaitedIsKnown(c: Conf, st: State)
    requires Inv(c, st)
    ensures forall d, s :: d in st.deliveries && Awaits(st.deliveries[d], s) ==>
      s in st.subs && s in At(st.members, st.deliveries[d].msg.topic)
  {
    assert Facts(c, st);
  }

  lemma CalmKeepsWhole(c: Conf, st: State, st': State)
    requires Inv(c, st) && WholeInv(st) && Calm(st, st')
    ensures WholeInv(st')
  {
    AwaitedIsKnown(c, st);
    assert WholeFacts(st);
    DueNothing(st.log);
    forall s | s in st'.subs && !Excused(st', s)
      ensures Whole(st'.subs[s], st'.log, st'.deliveries, s)
    {
      if s in st.subs {
        assert SameStream(st.subs[s], st'.subs[s]) && Whole(st.subs[s], st.log, st.deliveries, s);
      }
    }
    assert WholeFacts(st');
  }

  lemma CommittedWhole(sub: Sub, log: seq<Message>, deliveries: Deliveries, s: nat)
    requires PhaseOk(sub) && JoinedOk(sub) && sub.at.Joining? && !sub.at.sawEnded
    ensures Whole(sub, log, deliveries, s) ==> Whole(Committed(sub, |log|), log, deliveries, s)
    ensures JoinedBefore(sub, log) ==> JoinedBefore(Committed(sub, |log|), log)
  {
    CommittedJoined(sub, |log|);
    DueJoin(log, sub.joinedAt, sub.topics[sub.at.next], |log|);
  }

  /** One record replaced, nothing delivered. */
  lemma ReplaceKeepsWhole(st: State, st': State, s: nat)
    requires WholeInv(st) && s in st.subs && s in st'.subs && st'.subs == st.subs[s := st'.subs[s]]
    requires st'.log == st.log && st'.deliveries == st.deliveries && st'.calls == st.calls
    requires st'.subs[s].ending == st.subs[s].ending && JoinedBefore(st'.subs[s], st.log)
    requires Whole(st.subs[s], st.log, st.deliveries, s) ==> Whole(st'.subs[s], st.log, st.deliveries, s)
    ensures WholeInv(st')
  {
    assert WholeFacts(st);
    forall x | x in st'.subs && !Excused(st', x)
      ensures Whole(st'.subs[x], st'.log, st'.deliveries, x)
    {
      assert !Excused(st, x) && Whole(st.subs[x], st.log, st.deliveries, x);
    }
    assert WholeFacts(st');
  }

  lemma JoinKeepsWhole(c: Conf, st: State, s: nat)
    requires Inv(c, st) && StreamInv(st) && WholeInv(st) && Enabled(c, st, JoinCommit(s)) && !st.subs[s].at.sawEnded
    ensures WholeInv(DoJoinCommit(c, st, s))
  {
    assert PhaseOk(st.subs[s]) by { assert Facts(c, st); }
    assert JoinedOk(st.subs[s]) by { assert StreamFacts(st); }
    assert JoinedBefore(st.subs[s], st.log) by { assert WholeFacts(st); }
    CommittedWhole(st.subs[s], st.log, st.deliveries, s);
    ReplaceKeepsWhole(st, DoJoinCommit(c, st, s), s);
  }

  /** While its end has not begun a subscription is in the set of every topic it joined. */
  lemma JoinedIsMember(c: Conf, st: State, s: nat, t: string)
    requires Inv(c, st) && StreamInv(st) && s in st.subs && st.subs[s].ending == NotEnding
    ensures t in st.subs[s].joinedAt <==> s in At(st.members, t)
  {
    assert Facts(c, st) && StreamFacts(st);
    var sub := st.subs[s];
    if t in sub.joinedAt {
      var i :| 0 <= i < JoinedCount(sub) && i < |sub.topics| && sub.topics[i] == t;
      assert PhaseOk(sub) && JoinOk(sub, i, s in At(st.members, t));
    }
  }

  lemma BeginWhole(sub: Sub, log: seq<Message>, s: nat, d: nat, dl: Delivery)
    requires Whole(sub, log, map[], s) && JoinedBefore(sub, log)
    requires Awaits(dl, s) <==> dl.msg.topic in sub.joinedAt
    ensures Whole(sub, log + [dl.msg], map[d := dl], s)
  {
    DueAppend(log, dl.msg, sub.joinedAt);
    var after: Deliveries := map[d := dl];
    assert d in after;
  }

  lemma DeliverBeginKeepsWhole(c: Conf, st: State, d: nat, msg: Message)
    requires Inv(c, st) && StreamInv(st) && WholeInv(st) && Enabled(c, st, DeliverBegin(d, msg)) && st.deliveries == map[]
    ensures WholeInv(DoDeliverBegin(c, st, d, msg))
  {
    assert WholeFacts(st);
    var st' := DoDeliverBegin(c, st, d, msg);
    forall s | s in st'.subs && !Excused(st', s)
      ensures Whole(st'.subs[s], st'.log, st'.deliveries, s)
    {
      assert !Excused(st, s);
      JoinedIsMember(c, st, s, msg.topic);
      BeginWhole(st.subs[s], st.log, s, d, st'.deliveries[d]);
    }
    assert WholeFacts(st');
  }

  lemma RedealtWhole(sub: Sub, log: seq<Message>, deliveries: Deliveries, s: nat, d: nat, dl: Delivery)
    requires Whole(sub, log, deliveries, s) && d in deliveries && dl.msg == deliveries[d].msg
    requires Awaits(dl, s) == Awaits(deliveries[d], s)
    ensures Whole(sub, log, deliveries[d := dl], s)
  {
    var after := deliveries[d := dl];
    assert forall e :: e in deliveries ==>
      e in after && after[e].msg == deliveries[e].msg && Awaits(after[e], s) == Awaits(deliveries[e], s);
    if forall e :: e in after ==> !Awaits(after[e], s) {
      assert forall e :: e in deliveries ==> !Awaits(deliveries[e], s);
    }
  }

  lemma DeliverLookKeepsWhole(c: Conf, st: State, d: nat, s: nat)
    requires Inv(c, st) && WholeInv(st) && Enabled(c, st, DeliverLook(d, s))
    ensures WholeInv(Do(c, st, DeliverLook(d, s)))
  {
    assert PhaseOk(st.subs[s]) by { assert Facts(c, st); }
    assert WholeFacts(st);
    var dl := Looked(st.deliveries[d], s, st.subs[s].ended);
    var st' := st.(deliveries := st.deliveries[d := dl]);
    forall x | x in st'.subs && !Excused(st', x)
      ensures Whole(st'.subs[x], st'.log, st'.deliveries, x)
    {
      SameFull(st, d, dl, x);
      RedealtWhole(st.subs[x], st.log, st.deliveries, x, d, dl);
    }
    assert WholeFacts(st');
  }

  lemma PutWhole(c: Conf, sub: Sub, log: seq<Message>, deliveries: Deliveries, s: nat, d: nat, dl: Delivery)
    requires Whole(sub, log, deliveries, s) && d in deliveries && dl.msg == deliveries[d].msg
    requires Awaits(deliveries[d], s) && !Awaits(dl, s) && |sub.queue| < c.queueCapacity
    requires forall e :: e in deliveries ==> e == d
    ensures Whole(Offered(c, sub, dl.msg), log, deliveries[d := dl], s)
  {
    assert Received(Offered(c, sub, dl.msg)) == Received(sub) + [dl.msg];
  }

  lemma DeliverPutKeepsWhole(c: Conf, st: State, d: nat, s: nat)
    requires StreamInv(st) && WholeInv(st) && Enabled(c, st, DeliverPut(d, s))
    ensures WholeInv(DoDeliverPut(c, st, d, s))
  {
    assert st.deliveries[d].todo !! st.deliveries[d].live by { assert StreamFacts(st); }
    assert WholeFacts(st);
    var dl := Served(c, st.deliveries[d], st.subs[s], s);
    var st' := DoDeliverPut(c, st, d, s);
    forall x | x in st'.subs && !Excused(st', x)
      ensures Whole(st'.subs[x], st'.log, st'.deliveries, x)
    {
      SameFull(st, d, dl, x);
      if x == s {
        assert d in st'.deliveries && s !in st'.deliveries[d].full;
        PutWhole(c, st.subs[s], st.log, st.deliveries, s, d, dl);
      } else {
        RedealtWhole(st.subs[x], st.log, st.deliveries, x, d, dl);
      }
    }
    assert WholeFacts(st');
  }

  lemma DeliverEndKeepsWhole(c: Conf, st: State, d: nat)
    requires WholeInv(st) && Enabled(c, st, DeliverEnd(d))
    ensures WholeInv(DoDeliverEnd(c, st, d))
  {
    assert WholeFacts(st);
    var st' := DoDeliverEnd(c, st, d);
    assert st'.deliveries == map[];
    forall s | s in st'.subs && !Excused(st', s)
      ensures Whole(st'.subs[s], st'.log, st'.deliveries, s)
    {
      EndKeepsExcuse(c, st, d, s);
      assert forall e :: e in st.deliveries ==> !Awaits(st.deliveries[e], s);
    }
    assert WholeFacts(st');
  }

  /** A Deliver begins only when no other runs. */
  predicate Alone(st: State, a: Action) {
    a.DeliverBegin? ==> st.deliveries == map[]
  }

  lemma StepKeepsWhole(c: Conf, st: State, a: Action)
    requires Inv(c, st) && StreamInv(st) && WholeInv(st) && Enabled(c, st, a) && Alone(st, a)
    ensures WholeInv(Do(c, st, a))
  {
    if IsQuiet(st, a) {
      QuietIsCalm(c, st, a);
      CalmKeepsWhole(c, st, Do(c, st, a));
    } else {
      match a
      case JoinCommit(s) => JoinKeepsWhole(c, st, s);
      case DeliverBegin(d, msg) => DeliverBeginKeepsWhole(c, st, d, msg);
      case DeliverLook(d, s) => DeliverLookKeepsWhole(c, st, d, s);
      case DeliverPut(d, s) => DeliverPutKeepsWhole(c, st, d, s);
      case DeliverEnd(d) => DeliverEndKeepsWhole(c, st, d);
    }
  }

  /** A run whose deliveries never overlap: the log grows only while no delivery runs. */
  ghost predicate OneAtATime(tr: seq<State>) {
    forall i :: 0 < i < |tr| && |tr[i - 1].log| < |tr[i].log| ==> tr[i - 1].deliveries == map[]
  }

  /**
    In every run whose deliveries do not overlap, taken messages followed by the queue are exactly the messages delivered
    on all the joined topics together, in the order of their deliveries, but for the one delivery on its way, unless the
    subscription is ending or was found full.
   */
  lemma {:induction false} WholeStreamInOrder(c: Conf, tr: seq<State>, k: nat)
    requires Run(c, tr) && OneAtATime(tr) && k < |tr|
    ensures WholeFacts(tr[k])
  {
    if k > 0 {
      WholeStreamInOrder(c, tr, k - 1);
      RunKeeps(c, tr, k - 1);
      ReceivedInOrder(c, tr, k - 1);
      StepKeepsWhole(c, tr[k - 1], ActionOf(c, tr[k - 1], tr[k]));
      assert WholeInv(tr[k]);
    }
  }

  // ----- overlapping deliveries -----

  /**
    What a run leaves behind: the place in the log of each running delivery, the places in the log of the messages each
    subscription received, in the order it received them, and which deliveries overlapped: (i, j) when the i-th was still
    running as the j-th began.
   */
  datatype History = History(number: map<nat, nat>, got: map<nat, seq<nat>>, overlapped: set<(nat, nat)>)

  type Places = map<nat, seq<nat>>

  function Got(got: Places, s: nat): seq<nat> {
    if s in got then got[s] else []
  }

  function Noted(c: Conf, st: State, h: History, a: Action): History {
    match a
    case DeliverBegin(d, _) => NotedBegin(h, d, |st.log|)
    case DeliverPut(d, s) =>
      if s in st.subs && |st.subs[s].queue| < c.queueCapacity && d in h.number then NotedPut(h, d, s) else h
    case DeliverEnd(d) => h.(number := h.number - {d})
    case _ => h
  }

  function NotedBegin(h: History, d: nat, n: nat): History {
    h.(number := h.number[d := n], overlapped := h.overlapped + set e | e in h.number :: (h.number[e], n))
  }

  function NotedPut(h: History, d: nat, s: nat): History
    requires d in h.number
  {
    h.(got := h.got[s := Got(h.got, s) + [h.number[d]]])
  }

  ghost predicate Numbered(log: seq<Message>, deliveries: Deliveries, number: map<nat, nat>) {
    && number.Keys == deliveries.Keys
    && (forall d :: d in number ==> number[d] < |log| && log[number[d]] == deliveries[d].msg)
    && (forall d, e :: d in number && e in number && number[d] == number[e] ==> d == e)
  }

  /** A running delivery overlaps every later one. */
  ghost predicate Overlaps(n: nat, number: map<nat, nat>, overlapped: set<(nat, nat)>) {
    forall d, m: nat :: d in number && number[d] < m < n ==> (number[d], m) in overlapped
  }

  predicate Below(got: seq<nat>, n: nat) {
    forall p :: 0 <= p < |got| ==> got[p] < n
  }

  ghost predicate AllBelow(got: Places, subs: Subs, n: nat) {
    forall s :: s in got ==> s in subs && Below(got[s], n)
  }

  /** What a delivery has yet to put is not received yet. */
  ghost predicate NotYet(deliveries: Deliveries, number: map<nat, nat>, got: Places) {
    forall d, s :: d in deliveries && d in number && Awaits(deliveries[d], s) ==> number[d] !in Got(got, s)
  }

  /** Two messages in other than log order come from deliveries that overlapped. */
  predicate SwapsOverlap(got: seq<nat>, overlapped: set<(nat, nat)>) {
    forall p, q :: 0 <= p < q < |got| ==> got[p] < got[q] || (got[q], got[p]) in overlapped
  }

  ghost predicate AllSwapsOverlap(got: Places, overlapped: set<(nat, nat)>) {
    forall s :: s in got ==> SwapsOverlap(got[s], overlapped)
  }

  /** The messages received are those at the places got. */
  ghost predicate Placed(sub: Sub, log: seq<Message>, got: seq<nat>) {
    && |got| == |Received(sub)|
    && forall p :: 0 <= p < |got| ==> got[p] < |log| && log[got[p]] == Received(sub)[p]
  }

  ghost predicate AllPlaced(st: State, got: Places) {
    forall s :: s in st.subs && !Excused(st, s) ==> Placed(st.subs[s], st.log, Got(got, s))
  }

  ghost predicate OrderFacts(st: State, h: History) {
    && Numbered(st.log, st.deliveries, h.number) && Overlaps(|st.log|, h.number, h.overlapped)
    && AllBelow(h.got, st.subs, |st.log|) && NotYet(st.deliveries, h.number, h.got)
    && AllSwapsOverlap(h.got, h.overlapped) && AllPlaced(st, h.got)
  }

  ghost predicate OrderInv(st: State, h: History) {
    forall x :: x == st ==> OrderFacts(x, h)
  }

  lemma CalmKeepsOrder(st: State, st': State, h: History)
    requires OrderInv(st, h) && Calm(st, st') && AllLater(st.subs, st'.subs)
    ensures OrderInv(st', h)
  {
    assert OrderFacts(st, h);
    forall s | s in st'.subs && !Excused(st', s)
      ensures Placed(st'.subs[s], st'.log, Got(h.got, s))
    {
      assert s in st.subs ==> SameStream(st.subs[s], st'.subs[s]);
    }
    assert OrderFacts(st', h);
  }

  lemma JoinKeepsOrder(c: Conf, st: State, s: nat, h: History)
    requires OrderInv(st, h) && Enabled(c, st, JoinCommit(s))
    ensures OrderInv(DoJoinCommit(c, st, s), h)
  {
    assert OrderFacts(st, h);
    var st' := DoJoinCommit(c, st, s);
    forall x | x in st'.subs && !Excused(st', x)
      ensures Placed(st'.subs[x], st'.log, Got(h.got, x))
    {
      assert !Excused(st, x);
    }
    assert OrderFacts(st', h);
  }

  lemma BeginNumbers(log: seq<Message>, deliveries: Deliveries, h: History, d: nat, dl: Delivery)
    requires Numbered(log, deliveries, h.number) && Overlaps(|log|, h.number, h.overlapped) && d !in deliveries
    ensures Numbered(log + [dl.msg], deliveries[d := dl], NotedBegin(h, d, |log|).number)
    ensures Overlaps(|log| + 1, NotedBegin(h, d, |log|).number, NotedBegin(h, d, |log|).overlapped)
  {
    var h' := NotedBegin(h, d, |log|);
    forall e, m: nat | e in h'.number && h'.number[e] < m < |log| + 1
      ensures (h'.number[e], m) in h'.overlapped
    {
      assert e in h.number;
    }
  }

  lemma BeginNotYet(deliveries: Deliveries, h: History, d: nat, dl: Delivery, subs: Subs, n: nat)
    requires NotYet(deliveries, h.number, h.got) && AllBelow(h.got, subs, n)
    ensures NotYet(deliveries[d := dl], NotedBegin(h, d, n).number, h.got)
  {}

  lemma MoreOverlaps(got: Places, overlapped: set<(nat, nat)>, more: set<(nat, nat)>)
    requires AllSwapsOverlap(got, overlapped) && overlapped <= more
    ensures AllSwapsOverlap(got, more)
  {
    forall s | s in got
      ensures SwapsOverlap(got[s], more)
    {
      assert SwapsOverlap(got[s], overlapped);
    }
  }

  lemma BeginPlaced(c: Conf, st: State, d: nat, msg: Message, got: Places)
    requires AllPlaced(st, got) && d !in st.deliveries
    ensures AllPlaced(DoDeliverBegin(c, st, d, msg), got)
  {
    var st' := DoDeliverBegin(c, st, d, msg);
    forall s | s in st'.subs && !Excused(st', s)
      ensures Placed(st'.subs[s], st'.log, Got(got, s))
    {
      assert forall e :: e in st.deliveries ==> e in st'.deliveries && st'.deliveries[e] == st.deliveries[e];
      assert Placed(st.subs[s], st.log, Got(got, s));
    }
  }

  lemma BeginKeepsOrder(c: Conf, st: State, d: nat, msg: Message, h: History)
    requires OrderInv(st, h) && Enabled(c, st, DeliverBegin(d, msg))
    ensures OrderInv(DoDeliverBegin(c, st, d, msg), NotedBegin(h, d, |st.log|))
  {
    assert OrderFacts(st, h);
    var st', h' := DoDeliverBegin(c, st, d, msg), NotedBegin(h, d, |st.log|);
    BeginNumbers(st.log, st.deliveries, h, d, st'.deliveries[d]);
    BeginNotYet(st.deliveries, h, d, st'.deliveries[d], st.subs, |st.log|);
    MoreOverlaps(h.got, h.overlapped, h'.overlapped);
    BeginPlaced(c, st, d, msg, h.got);
    assert AllBelow(h'.got, st'.subs, |st'.log|);
    assert OrderFacts(st', h');
  }

  lemma LookKeepsOrder(c: Conf, st: State, d: nat, s: nat, h: History)
    requires OrderInv(st, h) && Enabled(c, st, DeliverLook(d, s))
    ensures OrderInv(Do(c, st, DeliverLook(d, s)), h)
  {
    assert OrderFacts(st, h);
    var dl := Looked(st.deliveries[d], s, st.subs[s].ended);
    var st' := st.(deliveries := st.deliveries[d := dl]);
    forall x | x in st'.subs && !Excused(st', x)
      ensures Placed(st'.subs[x], st'.log, Got(h.got, x))
    {
      SameFull(st, d, dl, x);
    }
    assert OrderFacts(st', h);
  }

  /** A message put now comes after everything received; what began later and is received already overlapped it. */
  lemma SwapsGrow(got: seq<nat>, n: nat, count: nat, number: map<nat, nat>, overlapped: set<(nat, nat)>, d: nat)
    requires SwapsOverlap(got, overlapped) && Overlaps(count, number, overlapped) && Below(got, count)
    requires d in number && number[d] == n && n !in got
    ensures SwapsOverlap(got + [n], overlapped)
  {
    forall p | 0 <= p < |got|
      ensures got[p] < n || (n, got[p]) in overlapped
    {
      assert got[p] in got;
    }
  }

  lemma PutNotYet(deliveries: Deliveries, h: History, d: nat, dl: Delivery, s: nat)
    requires NotYet(deliveries, h.number, h.got) && d in deliveries && d in h.number
    requires forall e :: e in h.number && h.number[e] == h.number[d] ==> e == d
    requires !Awaits(dl, s) && forall x :: Awaits(dl, x) ==> Awaits(deliveries[d], x)
    ensures NotYet(deliveries[d := dl], h.number, NotedPut(h, d, s).got)
    ensures NotYet(deliveries[d := dl], h.number, h.got)
  {
    var after, got := deliveries[d := dl], NotedPut(h, d, s).got;
    forall e, x | e in after && e in h.number && Awaits(after[e], x)
      ensures h.number[e] !in Got(h.got, x) && h.number[e] !in Got(got, x)
    {
      assert e in deliveries && Awaits(deliveries[e], x);
      assert x == s ==> e != d && Got(got, x) == Got(h.got, x) + [h.number[d]];
    }
  }

  lemma PlacedPut(c: Conf, sub: Sub, log: seq<Message>, got: seq<nat>, n: nat)
    requires Placed(sub, log, got) && n < |log| && |sub.queue| < c.queueCapacity
    ensures Placed(Offered(c, sub, log[n]), log, got + [n])
  {
    assert Received(Offered(c, sub, log[n])) == Received(sub) + [log[n]];
  }

  /** The one the message is put to: not excused afterwards, it had room. */
  lemma PutPlacedAt(c: Conf, st: State, d: nat, s: nat, h: History)
    requires AllPlaced(st, h.got) && Numbered(st.log, st.deliveries, h.number) && d in st.deliveries && s in st.subs
    requires !Excused(st, s) && !Excused(DoDeliverPut(c, st, d, s), s)
    ensures |st.subs[s].queue| < c.queueCapacity
    ensures Placed(Offered(c, st.subs[s], st.deliveries[d].msg), st.log, Got(h.got, s) + [h.number[d]])
  {
    var after := DoDeliverPut(c, st, d, s).deliveries;
    assert d in after && s !in after[d].full;
    PlacedPut(c, st.subs[s], st.log, Got(h.got, s), h.number[d]);
  }

  lemma PutPlaced(c: Conf, st: State, d: nat, s: nat, h: History, got: Places)
    requires AllPlaced(st, h.got) && Numbered(st.log, st.deliveries, h.number) && d in st.deliveries && s in st.subs
    requires got == if |st.subs[s].queue| < c.queueCapacity then NotedPut(h, d, s).got else h.got
    ensures AllPlaced(DoDeliverPut(c, st, d, s), got)
  {
    var st' := DoDeliverPut(c, st, d, s);
    forall x | x in st'.subs && !Excused(st', x)
      ensures Placed(st'.subs[x], st'.log, Got(got, x))
    {
      SameFull(st, d, Served(c, st.deliveries[d], st.subs[s], s), x);
      if x == s {
        PutPlacedAt(c, st, d, s, h);
      } else {
        assert st'.subs[x] == st.subs[x] && Got(got, x) == Got(h.got, x);
      }
    }
  }

  lemma PutSwaps(st: State, h: History, d: nat, s: nat)
    requires OrderFacts(st, h) && d in st.deliveries && Awaits(st.deliveries[d], s) && s in st.subs
    ensures AllSwapsOverlap(NotedPut(h, d, s).got, h.overlapped) && AllBelow(NotedPut(h, d, s).got, st.subs, |st.log|)
  {
    SwapsGrow(Got(h.got, s), h.number[d], |st.log|, h.number, h.overlapped, d);
  }

  lemma PutRest(c: Conf, st: State, d: nat, s: nat, h: History)
    requires StreamInv(st) && OrderFacts(st, h) && Enabled(c, st, DeliverPut(d, s))
    ensures var st' := DoDeliverPut(c, st, d, s);
      && Numbered(st'.log, st'.deliveries, h.number)
      && NotYet(st'.deliveries, h.number, h.got) && NotYet(st'.deliveries, h.number, NotedPut(h, d, s).got)
  {
    assert st.deliveries[d].todo !! st.deliveries[d].live by { assert StreamFacts(st); }
    PutNotYet(st.deliveries, h, d, Served(c, st.deliveries[d], st.subs[s], s), s);
  }

  lemma PutSubs(c: Conf, st: State, d: nat, s: nat, h: History)
    requires OrderFacts(st, h) && Enabled(c, st, DeliverPut(d, s))
    ensures var st', h' := DoDeliverPut(c, st, d, s), Noted(c, st, h, DeliverPut(d, s));
      AllBelow(h'.got, st'.subs, |st'.log|) && AllSwapsOverlap(h'.got, h'.overlapped)
  {
    PutSwaps(st, h, d, s);
  }

  lemma PutKeepsOrder(c: Conf, st: State, d: nat, s: nat, h: History)
    requires StreamInv(st) && OrderInv(st, h) && Enabled(c, st, DeliverPut(d, s))
    ensures OrderInv(DoDeliverPut(c, st, d, s), Noted(c, st, h, DeliverPut(d, s)))
  {
    assert OrderFacts(st, h);
    PutRest(c, st, d, s, h);
    PutSubs(c, st, d, s, h);
    PutPlaced(c, st, d, s, h, Noted(c, st, h, DeliverPut(d, s)).got);
    assert OrderFacts(DoDeliverPut(c, st, d, s), Noted(c, st, h, DeliverPut(d, s)));
  }

  lemma EndKeepsOrder(c: Conf, st: State, d: nat, h: History)
    requires OrderInv(st, h) && Enabled(c, st, DeliverEnd(d))
    ensures OrderInv(DoDeliverEnd(c, st, d), h.(number := h.number - {d}))
  {
    assert OrderFacts(st, h);
    var st', h' := DoDeliverEnd(c, st, d), h.(number := h.number - {d});
    forall s | s in st'.subs && !Excused(st', s)
      ensures Placed(st'.subs[s], st'.log, Got(h.got, s))
    {
      EndKeepsExcuse(c, st, d, s);
    }
    assert AllPlaced(st', h'.got);
    assert OrderFacts(st', h');
  }

  lemma StepKeepsOrder(c: Conf, st: State, a: Action, h: History)
    requires Inv(c, st) && StreamInv(st) && OrderInv(st, h) && Enabled(c, st, a)
    ensures OrderInv(Do(c, st, a), Noted(c, st, h, a))
  {
    if IsQuiet(st, a) {
      QuietIsCalm(c, st, a);
      StepIsLater(c, st, a);
      CalmKeepsOrder(st, Do(c, st, a), h);
    } else {
      match a
      case JoinCommit(s) => JoinKeepsOrder(c, st, s, h);
      case DeliverBegin(d, msg) => BeginKeepsOrder(c, st, d, msg, h);
      case DeliverLook(d, s) => LookKeepsOrder(c, st, d, s, h);
      case DeliverPut(d, s) => PutKeepsOrder(c, st, d, s, h);
      case DeliverEnd(d) => EndKeepsOrder(c, st, d, h);
    }
  }

  /** The history of a run's first k steps. */
  ghost function HistoryOf(c: Conf, tr: seq<State>, k: nat): History
    requires Run(c, tr) && k < |tr|
  {
    if k == 0 then History(map[], map[], {})
    else Noted(c, tr[k - 1], HistoryOf(c, tr, k - 1), ActionOf(c, tr[k - 1], tr[k]))
  }

  lemma {:induction false} OrderKept(c: Conf, tr: seq<State>, k: nat)
    requires Run(c, tr) && k < |tr|
    ensures OrderFacts(tr[k], HistoryOf(c, tr, k))
  {
    if k > 0 {
      OrderKept(c, tr, k - 1);
      RunKeeps(c, tr, k - 1);
      ReceivedInOrder(c, tr, k - 1);
      StepKeepsOrder(c, tr[k - 1], ActionOf(c, tr[k - 1], tr[k]), HistoryOf(c, tr, k - 1));
      assert OrderInv(tr[k], HistoryOf(c, tr, k));
    }
  }

  /**
    In every run, whatever overlapped: of two messages a subscription received, the first is the earlier in the log, or the
    other's delivery was still running when the first's began. So only overlapping deliveries change places.
   */
  lemma OnlyOverlappingSwap(c: Conf, tr: seq<State>, k: nat, s: nat, p: nat, q: nat)
    requires Run(c, tr) && k < |tr| && s in tr[k].subs && !Excused(tr[k], s) && p < q < |Received(tr[k].subs[s])|
    ensures var h := HistoryOf(c, tr, k); var got := Got(h.got, s);
      && |got| == |Received(tr[k].subs[s])| && got[p] < |tr[k].log| && got[q] < |tr[k].log|
      && tr[k].log[got[p]] == Received(tr[k].subs[s])[p] && tr[k].log[got[q]] == Received(tr[k].subs[s])[q]
      && (got[p] < got[q] || (got[q], got[p]) in h.overlapped)
  {
    OrderKept(c, tr, k);
    var h := HistoryOf(c, tr, k);
    assert Placed(tr[k].subs[s], tr[k].log, Got(h.got, s)) && SwapsOverlap(Got(h.got, s), h.overlapped);
  }

  /** And they may: two deliveries that have both seen a subscription alive put their messages in either order. */
  lemma EitherOrder(c: Conf, st: State, d: nat, e: nat, s: nat)
    requires d != e && Enabled(c, st, DeliverPut(d, s)) && Enabled(c, st, DeliverPut(e, s))
    requires |st.subs[s].queue| + 2 <= c.queueCapacity
    ensures var one := Do(c, st, DeliverPut(d, s));
      && Enabled(c, one, DeliverPut(e, s))
      && Received(Do(c, one, DeliverPut(e, s)).subs[s]) == Received(st.subs[s]) + [st.deliveries[d].msg, st.deliveries[e].msg]
  {
    var one := Do(c, st, DeliverPut(d, s));
    assert Received(one.subs[s]) == Received(st.subs[s]) + [st.deliveries[d].msg];
    assert Received(Do(c, one, DeliverPut(e, s)).subs[s]) == Received(one.subs[s]) + [st.deliveries[e].msg];
  }

  // ----- an input where they do -----

  ghost predicate EndsRun(c: Conf, st: State) {
    exists tr: seq<State> :: Run(c, tr) && tr[|tr| - 1] == st
  }

  /** The end of some run, folded. */
  ghost predicate Reachable(c: Conf, st: State) {
    forall x :: x == st ==> EndsRun(c, x)
  }

  lemma ReachStep(c: Conf, st: State, a: Action)
    requires Reachable(c, st) && Enabled(c, st, a)
    ensures Reachable(c, Do(c, st, a))
  {
    assert EndsRun(c, st);
    var tr: seq<State> :| Run(c, tr) && tr[|tr| - 1] == st;
    var tr' := tr + [Do(c, st, a)];
    assert Step(c, st, Do(c, st, a));
    assert Run(c, tr') && tr'[|tr'| - 1] == Do(c, st, a);
  }

  const TWO := Conf(2, (t: string) => |t|)

  lemma Joins(c: Conf, st: State, s: nat)
    requires Reachable(c, st) && s in st.subs && CanJoinLock(c, st, st.subs[s])
    ensures Reachable(c, DoJoinCommit(c, DoJoinLock(c, st, s), s))
  {
    ReachStep(c, st, JoinLock(s));
    ReachStep(c, DoJoinLock(c, st, s), JoinCommit(s));
  }

  lemma Opens() returns (st: State)
    ensures Reachable(TWO, st) && st.members == map[] && st.subs == map[0 := NewSub(["a", "bb"])]
    ensures st.deliveries == map[] && st.locks == map[] && st.log == [] && st.calls == {}
  {
    var st0 := State(map[], {}, false, map[], map[], map[], {}, map[], false, Stopped, map[], []);
    assert Run(TWO, [st0]) && [st0][|[st0]| - 1] == st0;
    ReachStep(TWO, st0, Open(0, ["a", "bb"]));
    st := Do(TWO, st0, Open(0, ["a", "bb"]));
  }

  lemma JoinsFirst() returns (st: State)
    ensures Reachable(TWO, st) && st.subs == map[0 := NewSub(["a", "bb"]).(at := Join(1), joinedAt := map["a" := 0])]
    ensures st.deliveries == map[] && st.locks == map[] && st.log == [] && st.calls == {} && st.members == map["a" := {0}]
  {
    var st1 := Opens();
    Joins(TWO, st1, 0);
    st := DoJoinCommit(TWO, DoJoinLock(TWO, st1, 0), 0);
    assert st.locks == map[];
  }

  /** One subscription to two topics of different shards. */
  lemma JoinsTwo() returns (st: State)
    ensures Reachable(TWO, st) && st.subs.Keys == {0} && !st.subs[0].ended && Received(st.subs[0]) == []
    ensures st.deliveries == map[] && st.locks == map[] && st.log == []
    ensures At(st.members, "a") == {0} && At(st.members, "bb") == {0}
  {
    var st1 := JoinsFirst();
    Joins(TWO, st1, 0);
    st := DoJoinCommit(TWO, DoJoinLock(TWO, st1, 0), 0);
    assert st.locks == map[];
  }

  lemma BothBegin() returns (st: State)
    ensures Reachable(TWO, st) && st.subs.Keys == {0} && !st.subs[0].ended && Received(st.subs[0]) == []
    ensures st.log == [Message("a", ""), Message("bb", "")] && st.deliveries.Keys == {0, 1}
    ensures st.deliveries[0] == Delivery(Message("a", ""), {0}, {}, {})
    ensures st.deliveries[1] == Delivery(Message("bb", ""), {0}, {}, {})
  {
    var st0 := JoinsTwo();
    var st1 := Do(TWO, st0, DeliverBegin(0, Message("a", "")));
    ReachStep(TWO, st0, DeliverBegin(0, Message("a", "")));
    ReachStep(TWO, st1, DeliverBegin(1, Message("bb", "")));
    st := Do(TWO, st1, DeliverBegin(1, Message("bb", "")));
  }

  /** Two deliveries begin one after the other and both see the subscription before either puts. */
  lemma BothLook() returns (st: State)
    ensures Reachable(TWO, st) && 0 in st.subs && Received(st.subs[0]) == [] && st.log == [Message("a", ""), Message("bb", "")]
    ensures st.deliveries.Keys == {0, 1} && st.deliveries[0].msg == st.log[0] && st.deliveries[1].msg == st.log[1]
    ensures 0 in st.deliveries[0].live && 0 in st.deliveries[1].live
  {
    var st2 := BothBegin();
    var st3 := Do(TWO, st2, DeliverLook(0, 0));
    ReachStep(TWO, st2, DeliverLook(0, 0));
    ReachStep(TWO, st3, DeliverLook(1, 0));
    st := Do(TWO, st3, DeliverLook(1, 0));
  }

  /** The second delivery's message arrives first. */
  lemma SwapExample()
    ensures var a, b := Message("a", ""), Message("bb", "");
      exists st: State :: Reachable(TWO, st) && st.log == [a, b] && 0 in st.subs && Received(st.subs[0]) == [b, a]
  {
    var st := BothLook();
    EitherOrder(TWO, st, 1, 0, 0);
    ReachStep(TWO, st, DeliverPut(1, 0));
    var one := Do(TWO, st, DeliverPut(1, 0));
    ReachStep(TWO, one, DeliverPut(0, 0));
    var two := Do(TWO, one, DeliverPut(0, 0));
    assert two.log == [Message("a", ""), Message("bb", "")] && Received(two.subs[0]) == [Message("bb", ""), Message("a", "")];
  }
}
