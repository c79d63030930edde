/**
  The subscriptions of one process (gw/pubsubs/localsubscriptionmanager.go) as a step system.

  A step is one lock section or one atomic access. Where a flag read inside a lock section can change before the
  section ends (Subscribe and Deliver read `ended`), the section is cut in two and its lock is held in between.
  Any number of subscribers, deliveries, ends and one owner of the count updates run at once.
 */
module LocalSubscriptions {
  import opened Basics

  const SHARD_COUNT := 16

  datatype Conf = Conf(queueCapacity: nat, hash: string -> nat)

  function ShardOf(c: Conf, topic: string): nat {
    c.hash(topic) % SHARD_COUNT
  }

  datatype Message = Message(topic: string, payload: string)

  datatype EndReason = ByUnsubscribe | ByContextCancel | ByFullQueue | ByTermination | ByAbandonment

  // ----- one subscription -----

  /** Where a subscription's Subscribe call stands; `Joining` holds the lock of the topic's shard. */
  datatype SubscribeAt =
    | Join(next: nat)
    | Joining(next: nat, sawEnded: bool)
    | SetWatch
    | StoreStop
    | CheckEnded
    | ReleaseLate
    | Returned

  /** Where the one end of a subscription stands. */
  datatype EndAt =
    | NotEnding
    | ReasonStored
    | Flagged
    | Leaving(gone: nat)
    | Draining
    | ReleasingWatch
    | Finished

  datatype Watch = Unset | Active | Released

  datatype Sub = Sub(
    topics: seq<string>, at: SubscribeAt, ending: EndAt,
    reason: Option<EndReason>, ended: bool, noticeClosed: bool,
    queue: seq<Message>, taken: seq<Message>,
    watch: Watch, stopStored: bool, abandonWatch: bool,
    joinedAt: map<string, nat>)  // history: how many deliveries had begun when each topic was joined

  /** The steps that touch one subscription's own fields and nothing shared. */
  datatype SubStep = ArmWatch | StoreStopFunc | LoadEnded | StopLate | SetEnded | CloseNotice | Drain | FinishEnd | Receive

  function NewSub(topics: seq<string>): Sub {
    Sub(topics, Join(0), NotEnding, None, false, false, [], [], Unset, false, true, map[])
  }

  function StopWatch(sub: Sub): Sub {
    if sub.watch == Active then sub.(watch := Released) else sub
  }

  predicate CanSub(sub: Sub, a: SubStep) {
    match a
    case ArmWatch => sub.at == SetWatch
    case StoreStopFunc => sub.at == StoreStop
    case LoadEnded => sub.at == CheckEnded
    case StopLate => sub.at == ReleaseLate
    case SetEnded => sub.ending == ReasonStored
    case CloseNotice => sub.ending == Flagged
    case Drain => sub.ending == Draining
    case FinishEnd => sub.ending == ReleasingWatch
    case Receive => sub.queue != []
  }

  function DoSub(sub: Sub, a: SubStep): Sub
    requires CanSub(sub, a)
  {
    match a
    case ArmWatch => sub.(watch := Active, at := StoreStop)
    case StoreStopFunc => sub.(stopStored := true, at := CheckEnded)
    case LoadEnded => sub.(at := if sub.ended then ReleaseLate else Returned)
    case StopLate => StopWatch(sub).(at := Returned)
    case SetEnded => sub.(ended := true, ending := Flagged)
    case CloseNotice => sub.(noticeClosed := true, ending := Leaving(0))
    case Drain => if sub.queue == [] then sub.(ending := ReleasingWatch) else sub.(queue := sub.queue[1..])
    case FinishEnd => (if sub.stopStored then StopWatch(sub) else sub).(ending := Finished, abandonWatch := false)
    case Receive => sub.(queue := sub.queue[1..], taken := sub.taken + [sub.queue[0]])
  }

  /** The lock of the next topic's shard taken, and the ended flag read under it. */
  function JoinBegun(sub: Sub): Sub
    requires sub.at.Join?
  {
    sub.(at := Joining(sub.at.next, sub.ended))
  }

  /** The record once the lock section of its next topic is over: joined, unless the end was seen. */
  function Committed(sub: Sub, begun: nat): Sub
    requires sub.at.Joining? && sub.at.next < |sub.topics|
  {
    var i := sub.at.next;
    var joined := if sub.at.sawEnded then sub else sub.(joinedAt := sub.joinedAt[sub.topics[i] := begun]);
    joined.(at := if i + 1 < |sub.topics| then Join(i + 1) else SetWatch)
  }

  function LeftOne(sub: Sub): Sub
    requires sub.ending.Leaving?
  {
    sub.(ending := Leaving(sub.ending.gone + 1))
  }

  /** How many topics, in order, Subscribe is done with. */
  function JoinedCount(sub: Sub): nat {
    if sub.at.Join? || sub.at.Joining? then sub.at.next else |sub.topics|
  }

  predicate GoneFromAll(ending: EndAt) {
    ending == Draining || ending == ReleasingWatch || ending == Finished
  }

  /** How many topics, in order, the end is done with. */
  function GoneCount(sub: Sub): nat {
    if sub.ending.Leaving? then sub.ending.gone else if GoneFromAll(sub.ending) then |sub.topics| else 0
  }

  /** What the fields say at each point of the end. */
  predicate EndOk(sub: Sub) {
    match sub.ending
    case NotEnding => sub.reason.None? && !sub.ended && !sub.noticeClosed && sub.abandonWatch
    case ReasonStored => sub.reason.Some? && !sub.ended && !sub.noticeClosed && sub.abandonWatch
    case Flagged => sub.reason.Some? && sub.ended && !sub.noticeClosed && sub.abandonWatch
    case Leaving(gone) => sub.reason.Some? && sub.ended && sub.noticeClosed && sub.abandonWatch && gone <= |sub.topics|
    case Draining => sub.reason.Some? && sub.ended && sub.noticeClosed && sub.abandonWatch
    case ReleasingWatch => sub.reason.Some? && sub.ended && sub.noticeClosed && sub.abandonWatch && sub.queue == []
    case Finished => sub.reason.Some? && sub.ended && sub.noticeClosed && !sub.abandonWatch && sub.queue == []
  }

  /** What the fields say at each point of Subscribe. */
  predicate SubscribeOk(sub: Sub) {
    match sub.at
    case Join(next) => next < |sub.topics| && sub.watch == Unset
    case Joining(next, sawEnded) =>
      && next < |sub.topics| && sub.watch == Unset
      && (if sawEnded then sub.ended else GoneCount(sub) <= next)
    case SetWatch => sub.watch == Unset
    case StoreStop => sub.watch != Unset
    case CheckEnded => sub.stopStored && sub.watch != Unset
    case ReleaseLate => sub.stopStored && sub.watch != Unset
    case Returned => sub.stopStored && sub.watch != Unset && (sub.ending == Finished ==> sub.watch == Released)
  }

  ghost predicate PhaseOk(sub: Sub) {
    sub.topics != [] && Distinct(sub.topics) && EndOk(sub) && SubscribeOk(sub)
  }

  /** The two records stand at the same place with respect to the shards and the manager's set. */
  predicate SamePlace(x: Sub, y: Sub) {
    && x.topics == y.topics && JoinedCount(x) == JoinedCount(y) && GoneCount(x) == GoneCount(y)
    && (y.at.Joining? ==> x.at == y.at)
    && (x.ended ==> y.ended)
    && GoneFromAll(x.ending) == GoneFromAll(y.ending)
    && (y.ending == NotEnding ==> x.ending == NotEnding)
    && x.joinedAt == y.joinedAt
  }

  lemma SubStepOk(sub: Sub, a: SubStep)
    requires PhaseOk(sub) && CanSub(sub, a)
    ensures PhaseOk(DoSub(sub, a)) && SamePlace(sub, DoSub(sub, a))
  {
    match a
    case ArmWatch =>
    case StoreStopFunc =>
    case LoadEnded =>
    case StopLate =>
    case SetEnded =>
    case CloseNotice =>
    case Drain =>
    case FinishEnd =>
    case Receive =>
  }

  /** Membership in the set of topic i follows the two program counters: in from the join on, until the end passes. */
  predicate JoinOk(sub: Sub, i: nat, inSet: bool) {
    && (i < GoneCount(sub) || i >= JoinedCount(sub) ==> !inSet)
    && (i < JoinedCount(sub) && !sub.ended ==> inSet)
  }

  lemma CommittedOk(sub: Sub, begun: nat, i: nat, inSet: bool)
    requires PhaseOk(sub) && sub.at.Joining? && i < |sub.topics| && JoinOk(sub, i, inSet)
    ensures PhaseOk(Committed(sub, begun))
    ensures JoinOk(Committed(sub, begun), i, inSet || (i == sub.at.next && !sub.at.sawEnded))
  {}

  lemma LeftOneOk(sub: Sub, i: nat, inSet: bool)
    requires PhaseOk(sub) && sub.ending.Leaving? && sub.ending.gone < |sub.topics| && i < |sub.topics|
    requires JoinOk(sub, i, inSet)
    requires sub.at.Joining? ==> sub.at.next != sub.ending.gone
    ensures PhaseOk(LeftOne(sub))
    ensures JoinOk(LeftOne(sub), i, inSet && i != sub.ending.gone)
  {}

  // ----- the manager -----

  /** A running Deliver: whom it has yet to look at, whom it saw not ended, and whose queue was full. */
  datatype Delivery = Delivery(msg: Message, todo: set<nat>, live: set<nat>, full: set<nat>)

  datatype Holder = Subscriber(s: nat) | Deliverer(d: nat)

  /** The owner of the count updates: the broker's loop, from its start on. */
  datatype Owner =
    | Stopped
    | Discarding(next: nat)
    | Snapshotting(next: nat, kept: map<string, nat>)
    | Idle
    | Taking(next: nat, updates: map<string, nat>)

  type Subs = map<nat, Sub>
  type Members = map<string, set<nat>>
  type Counts = map<string, nat>

  datatype State = State(
    subs: Subs, all: set<nat>, terminated: bool,
    members: Members, locks: map<nat, Holder>,
    deliveries: map<nat, Delivery>, calls: set<(nat, EndReason)>,
    updates: Counts, notice: bool, owner: Owner, counts: Counts,
    log: seq<Message>)  // history: every Deliver that has begun

  datatype OwnerStep =
    | StartOwner
    | DiscardShard
    | SnapshotShard
    | UseSnapshot
    | TakeBegin(onNotice: bool)
    | TakeShard
    | TakeFold
    | StopOwner

  datatype Action =
    | Open(s: nat, topics: seq<string>)
    | OneSub(s: nat, step: SubStep)
    | JoinLock(s: nat)
    | JoinCommit(s: nat)
    | FireWatch(s: nat)
    | Call(s: nat, reason: EndReason)
    | EndAll
    | BeginEnd(s: nat, reason: EndReason)
    | DropCall(s: nat, reason: EndReason)
    | Leave(s: nat)
    | LeaveAll(s: nat)
    | DeliverBegin(d: nat, msg: Message)
    | DeliverLook(d: nat, s: nat)
    | DeliverPut(d: nat, s: nat)
    | DeliverEnd(d: nat)
    | OwnerDoes(work: OwnerStep)

  function At(members: Members, t: string): set<nat> {
    if t in members then members[t] else {}
  }

  /** The shard's map after topic's set became ss; an empty set takes its topic out. */
  function SetMembers(members: Members, t: string, ss: set<nat>): (r: Members)
    ensures forall u :: At(r, u) == if u == t then ss else At(members, u)
    ensures (forall u :: u in members ==> members[u] != {}) ==> forall u :: u in r ==> r[u] != {}
  {
    if ss == {} then members - {t} else members[t := ss]
  }

  predicate Enabled(c: Conf, st: State, a: Action) {
    match a
    case Open(s, topics) => s !in st.subs && !st.terminated && topics != [] && "" !in topics && IsDistinct(topics)
    case OneSub(s, step) => s in st.subs && CanSub(st.subs[s], step)
    case JoinLock(s) => s in st.subs && CanJoinLock(c, st, st.subs[s])
    case JoinCommit(s) => s in st.subs && st.subs[s].at.Joining? && st.subs[s].at.next < |st.subs[s].topics|
    case FireWatch(s) => s in st.subs && st.subs[s].watch == Active
    case Call(s, reason) => s in st.subs && CanCall(st.subs[s], reason)
    case EndAll => true
    case BeginEnd(s, reason) => s in st.subs && (s, reason) in st.calls && st.subs[s].ending == NotEnding
    case DropCall(s, reason) => s in st.subs && (s, reason) in st.calls && st.subs[s].ending == Finished
    case Leave(s) => s in st.subs && CanLeave(c, st, st.subs[s])
    case LeaveAll(s) => s in st.subs && st.subs[s].ending == Leaving(|st.subs[s].topics|)
    case DeliverBegin(d, msg) => d !in st.deliveries && ShardOf(c, msg.topic) !in st.locks
    case DeliverLook(d, s) => d in st.deliveries && s in st.deliveries[d].todo && s in st.subs
    case DeliverPut(d, s) => d in st.deliveries && s in st.deliveries[d].live && s in st.subs
    case DeliverEnd(d) => d in st.deliveries && st.deliveries[d].todo == {} && st.deliveries[d].live == {}
    case OwnerDoes(work) => CanOwner(st, work)
  }

  function Do(c: Conf, st: State, a: Action): State
    requires Enabled(c, st, a)
  {
    match a
    case Open(s, topics) => Put(st, s, NewSub(topics)).(all := st.all + {s})
    case OneSub(s, step) => Put(st, s, DoSub(st.subs[s], step))
    case JoinLock(s) => DoJoinLock(c, st, s)
    case JoinCommit(s) => DoJoinCommit(c, st, s)
    case FireWatch(s) => Put(st, s, st.subs[s].(watch := Released)).(calls := st.calls + {(s, ByContextCancel)})
    case Call(s, reason) => st.(calls := st.calls + {(s, reason)})
    case EndAll => st.(terminated := true, calls := st.calls + set s | s in st.all :: (s, ByTermination))
    case BeginEnd(s, reason) =>
      Put(st, s, st.subs[s].(reason := Some(reason), ending := ReasonStored)).(calls := st.calls - {(s, reason)})
    case DropCall(s, reason) => st.(calls := st.calls - {(s, reason)})
    case Leave(s) => DoLeave(c, st, s)
    case LeaveAll(s) => Put(st, s, st.subs[s].(ending := Draining)).(all := st.all - {s})
    case DeliverBegin(d, msg) => DoDeliverBegin(c, st, d, msg)
    case DeliverLook(d, s) => st.(deliveries := st.deliveries[d := Looked(st.deliveries[d], s, st.subs[s].ended)])
    case DeliverPut(d, s) => DoDeliverPut(c, st, d, s)
    case DeliverEnd(d) => DoDeliverEnd(c, st, d)
    case OwnerDoes(work) => DoOwner(c, st, work)
  }

  /** The state with subscription s's record replaced. */
  function Put(st: State, s: nat, sub: Sub): State {
    st.(subs := st.subs[s := sub])
  }

  predicate IsDistinct(topics: seq<string>) {
    forall i, j :: 0 <= i < j < |topics| ==> topics[i] != topics[j]
  }

  predicate CanJoinLock(c: Conf, st: State, sub: Sub) {
    sub.at.Join? && sub.at.next < |sub.topics| && ShardOf(c, sub.topics[sub.at.next]) !in st.locks
  }

  function DoJoinLock(c: Conf, st: State, s: nat): State
    requires s in st.subs && CanJoinLock(c, st, st.subs[s])
  {
    var sub := st.subs[s];
    st.(subs := st.subs[s := JoinBegun(sub)],
        locks := st.locks[ShardOf(c, sub.topics[sub.at.next]) := Subscriber(s)])
  }

  /** topic's set once the subscription's lock section on it is over. */
  function JoinedMembers(members: Members, sub: Sub, s: nat): Members
    requires sub.at.Joining? && sub.at.next < |sub.topics|
  {
    var t := sub.topics[sub.at.next];
    if sub.at.sawEnded then members else SetMembers(members, t, At(members, t) + {s})
  }

  function DoJoinCommit(c: Conf, st: State, s: nat): State
    requires s in st.subs && st.subs[s].at.Joining? && st.subs[s].at.next < |st.subs[s].topics|
  {
    var sub := st.subs[s];
    var t := sub.topics[sub.at.next];
    var members := JoinedMembers(st.members, sub, s);
    st.(subs := st.subs[s := Committed(sub, |st.log|)],
        locks := st.locks - {ShardOf(c, t)},
        members := members,
        updates := if sub.at.sawEnded then st.updates else st.updates[t := |At(members, t)|],
        notice := st.notice || !sub.at.sawEnded)
  }

  /** Who may ask for an end besides Deliver, EndAll and the context watch: the subscriber, and the abandonment watch. */
  predicate CanCall(sub: Sub, reason: EndReason) {
    && sub.at == Returned
    && (reason == ByUnsubscribe || (reason == ByAbandonment && sub.abandonWatch))
  }

  predicate CanLeave(c: Conf, st: State, sub: Sub) {
    sub.ending.Leaving? && sub.ending.gone < |sub.topics| && ShardOf(c, sub.topics[sub.ending.gone]) !in st.locks
  }

  function LeftMembers(members: Members, sub: Sub, s: nat): Members
    requires sub.ending.Leaving? && sub.ending.gone < |sub.topics|
  {
    var t := sub.topics[sub.ending.gone];
    if s in At(members, t) then SetMembers(members, t, At(members, t) - {s}) else members
  }

  function DoLeave(c: Conf, st: State, s: nat): State
    requires s in st.subs && CanLeave(c, st, st.subs[s])
  {
    var sub := st.subs[s];
    var t := sub.topics[sub.ending.gone];
    var members := LeftMembers(st.members, sub, s);
    var counted := s in At(st.members, t);
    st.(subs := st.subs[s := LeftOne(sub)],
        members := members,
        updates := if counted then st.updates[t := |At(members, t)|] else st.updates,
        notice := st.notice || counted)
  }

  function DoDeliverBegin(c: Conf, st: State, d: nat, msg: Message): State {
    st.(locks := st.locks[ShardOf(c, msg.topic) := Deliverer(d)], log := st.log + [msg],
        deliveries := st.deliveries[d := Delivery(msg, At(st.members, msg.topic), {}, {})])
  }

  function Looked(dl: Delivery, s: nat, ended: bool): Delivery {
    dl.(todo := dl.todo - {s}, live := if ended then dl.live else dl.live + {s})
  }

  /** The queue takes the message when there is room. */
  function Offered(c: Conf, sub: Sub, msg: Message): Sub {
    if |sub.queue| < c.queueCapacity then sub.(queue := sub.queue + [msg]) else sub
  }

  function Served(c: Conf, dl: Delivery, sub: Sub, s: nat): Delivery {
    dl.(live := dl.live - {s}, full := if |sub.queue| < c.queueCapacity then dl.full else dl.full + {s})
  }

  function DoDeliverPut(c: Conf, st: State, d: nat, s: nat): State
    requires d in st.deliveries && s in st.subs
  {
    st.(subs := st.subs[s := Offered(c, st.subs[s], st.deliveries[d].msg)],
        deliveries := st.deliveries[d := Served(c, st.deliveries[d], st.subs[s], s)])
  }

  function DoDeliverEnd(c: Conf, st: State, d: nat): State
    requires d in st.deliveries
  {
    st.(deliveries := st.deliveries - {d}, locks := st.locks - {ShardOf(c, st.deliveries[d].msg.topic)},
        calls := st.calls + set s | s in st.deliveries[d].full :: (s, ByFullQueue))
  }

  // ----- the owner of the count updates -----

  function Count(counts: Counts, t: string): nat {
    if t in counts then counts[t] else 0
  }

  /** The owner's counts after one take; a topic at 0 is left out. */
  function Fold(counts: Counts, updates: Counts): (r: Counts)
    ensures forall t :: Count(r, t) == if t in updates then updates[t] else Count(counts, t)
  {
    map t | t in counts.Keys + updates.Keys && (t in updates ==> updates[t] > 0)
      :: if t in updates then updates[t] else counts[t]
  }

  function InShard(c: Conf, counts: Counts, k: nat): Counts {
    map t | t in counts && ShardOf(c, t) == k :: counts[t]
  }

  function Elsewhere(c: Conf, counts: Counts, k: nat): Counts {
    map t | t in counts && ShardOf(c, t) != k :: counts[t]
  }

  function CountsInShard(c: Conf, members: Members, k: nat): Counts {
    map t | t in members && ShardOf(c, t) == k :: |members[t]|
  }

  predicate CanOwner(st: State, a: OwnerStep) {
    match a
    case StartOwner => st.owner == Stopped
    case DiscardShard => st.owner.Discarding? && st.owner.next < SHARD_COUNT && st.owner.next !in st.locks
    case SnapshotShard => st.owner.Snapshotting? && st.owner.next < SHARD_COUNT && st.owner.next !in st.locks
    case UseSnapshot => st.owner.Snapshotting? && st.owner.next == SHARD_COUNT
    case TakeBegin(onNotice) => st.owner == Idle && (onNotice ==> st.notice)
    case TakeShard => st.owner.Taking? && st.owner.next < SHARD_COUNT && st.owner.next !in st.locks
    case TakeFold => st.owner.Taking? && st.owner.next == SHARD_COUNT
    case StopOwner => st.owner == Idle
  }

  function DoOwner(c: Conf, st: State, a: OwnerStep): State
    requires CanOwner(st, a)
  {
    match a
    case StartOwner => st.(owner := Discarding(0))
    case DiscardShard =>
      var k := st.owner.next;
      st.(updates := Elsewhere(c, st.updates, k),
          owner := if k + 1 < SHARD_COUNT then Discarding(k + 1) else Snapshotting(0, map[]))
    case SnapshotShard =>
      var k := st.owner.next;
      st.(owner := Snapshotting(k + 1, st.owner.kept + CountsInShard(c, st.members, k)))
    case UseSnapshot => st.(owner := Idle, counts := st.owner.kept)
    case TakeBegin(onNotice) => st.(owner := Taking(0, map[]), notice := st.notice && !onNotice)
    case TakeShard =>
      var k := st.owner.next;
      st.(updates := Elsewhere(c, st.updates, k),
          owner := Taking(k + 1, st.owner.updates + InShard(c, st.updates, k)))
    case TakeFold => st.(owner := Idle, counts := Fold(st.counts, st.owner.updates))
    case StopOwner => st.(owner := Stopped)
  }

  // ----- what every step keeps -----

  ghost predicate PhasesOk(subs: Subs) {
    forall s :: s in subs ==> PhaseOk(subs[s])
  }

  ghost predicate MembersOk(subs: Subs, members: Members) {
    && (forall t, s :: s in At(members, t) ==> s in subs && t in subs[s].topics)
    && (forall t :: t in members ==> members[t] != {})
  }

  ghost predicate LocksOk(c: Conf, subs: Subs, deliveries: map<nat, Delivery>, locks: map<nat, Holder>) {
    && (forall s :: s in subs && subs[s].at.Joining? ==> HoldsLock(c, locks, subs[s], s))
    && (forall d :: d in deliveries ==>
          var k := ShardOf(c, deliveries[d].msg.topic); k in locks && locks[k] == Deliverer(d))
  }

  predicate HoldsLock(c: Conf, locks: map<nat, Holder>, sub: Sub, s: nat)
    requires sub.at.Joining?
  {
    && sub.at.next < |sub.topics|
    && var k := ShardOf(c, sub.topics[sub.at.next]); k in locks && locks[k] == Subscriber(s)
  }

  ghost predicate JoinsOk(subs: Subs, members: Members) {
    forall s, i :: s in subs && 0 <= i < |subs[s].topics| ==> JoinOk(subs[s], i, s in At(members, subs[s].topics[i]))
  }

  ghost predicate AllOk(subs: Subs, all: set<nat>) {
    forall s :: s in all <==> s in subs && !GoneFromAll(subs[s].ending)
  }

  ghost predicate DeliveriesOk(members: Members, deliveries: map<nat, Delivery>) {
    forall d, s :: d in deliveries && (s in deliveries[d].todo || s in deliveries[d].live) ==>
      s in At(members, deliveries[d].msg.topic)
  }

  ghost predicate CallsOk(subs: Subs, deliveries: map<nat, Delivery>, calls: set<(nat, EndReason)>) {
    && (forall s, r :: (s, r) in calls ==> s in subs)
    && (forall d, s :: d in deliveries && s in deliveries[d].full ==> s in subs)
  }

  ghost predicate Facts(c: Conf, st: State) {
    && PhasesOk(st.subs) && MembersOk(st.subs, st.members)
    && LocksOk(c, st.subs, st.deliveries, st.locks) && JoinsOk(st.subs, st.members)
    && AllOk(st.subs, st.all) && DeliveriesOk(st.members, st.deliveries) && CallsOk(st.subs, st.deliveries, st.calls)
  }

  /** The invariant. It stays folded wherever it is only passed on; a proof that needs what is in it asserts Facts. */
  ghost predicate Inv(c: Conf, st: State) {
    forall x :: x == st ==> Facts(c, x)
  }

  /** Membership of s changed on topic t at most, and so did s's record: the rest of JoinsOk carries over. */
  lemma JoinsPut(subs: Subs, s: nat, sub: Sub, members: Members, after: Members)
    requires JoinsOk(subs, members)
    requires forall u, x :: x != s ==> (x in At(after, u) <==> x in At(members, u))
    requires forall i :: 0 <= i < |sub.topics| ==> JoinOk(sub, i, s in At(after, sub.topics[i]))
    ensures JoinsOk(subs[s := sub], after)
  {}

  lemma LocksPut(c: Conf, st: State, s: nat, sub: Sub, locks: map<nat, Holder>)
    requires LocksOk(c, st.subs, st.deliveries, st.locks)
    requires forall k :: k in st.locks && st.locks[k] != Subscriber(s) ==> k in locks && locks[k] == st.locks[k]
    requires sub.at.Joining? ==> HoldsLock(c, locks, sub, s)
    ensures LocksOk(c, st.subs[s := sub], st.deliveries, locks)
  {}

  lemma MembersPut(st: State, s: nat, sub: Sub, after: Members)
    requires MembersOk(st.subs, st.members) && s in st.subs && sub.topics == st.subs[s].topics
    requires forall t, x :: x in At(after, t) ==> x in At(st.members, t) || (x == s && t in sub.topics)
    requires forall t :: t in after ==> after[t] != {}
    ensures MembersOk(st.subs[s := sub], after)
  {}

  lemma OthersPut(st: State, s: nat, sub: Sub)
    requires PhasesOk(st.subs) && AllOk(st.subs, st.all) && CallsOk(st.subs, st.deliveries, st.calls)
    requires s in st.subs && PhaseOk(sub) && GoneFromAll(sub.ending) == GoneFromAll(st.subs[s].ending)
    ensures var subs := st.subs[s := sub];
      PhasesOk(subs) && AllOk(subs, st.all) && CallsOk(subs, st.deliveries, st.calls)
  {}

  /** s's facts about its sets, read off JoinsOk. */
  lemma JoinsOf(subs: Subs, members: Members, s: nat)
    requires JoinsOk(subs, members) && s in subs
    ensures forall i :: 0 <= i < |subs[s].topics| ==> JoinOk(subs[s], i, s in At(members, subs[s].topics[i]))
  {}

  lemma SameJoins(subs: Subs, members: Members, s: nat, sub: Sub)
    requires JoinsOk(subs, members) && s in subs && sub.topics == subs[s].topics
    requires JoinedCount(sub) == JoinedCount(subs[s]) && GoneCount(sub) == GoneCount(subs[s])
    requires subs[s].ended ==> sub.ended
    ensures JoinsOk(subs[s := sub], members)
  {
    JoinsOf(subs, members, s);
    JoinsPut(subs, s, sub, members, members);
  }

  /** Replacing a record by one standing at the same place keeps everything. */
  lemma PutKeeps(c: Conf, st: State, s: nat, sub: Sub)
    requires Inv(c, st) && s in st.subs && PhaseOk(sub) && SamePlace(st.subs[s], sub)
    ensures Inv(c, Put(st, s, sub))
  {
    assert Facts(c, st);
    OthersPut(st, s, sub);
    SameJoins(st.subs, st.members, s, sub);
    LocksPut(c, st, s, sub, st.locks);
    MembersPut(st, s, sub, st.members);
  }

  lemma OpenKeeps(c: Conf, st: State, s: nat, topics: seq<string>)
    requires Inv(c, st) && s !in st.subs && topics != [] && IsDistinct(topics)
    ensures Inv(c, Put(st, s, NewSub(topics)).(all := st.all + {s}))
  {
    assert Facts(c, st);
    JoinsPut(st.subs, s, NewSub(topics), st.members, st.members);
    LocksPut(c, st, s, NewSub(topics), st.locks);
    OpenOthers(st, s, topics);
  }

  lemma OpenOthers(st: State, s: nat, topics: seq<string>)
    requires PhasesOk(st.subs) && AllOk(st.subs, st.all) && CallsOk(st.subs, st.deliveries, st.calls)
    requires MembersOk(st.subs, st.members) && s !in st.subs && topics != [] && IsDistinct(topics)
    ensures var subs := st.subs[s := NewSub(topics)];
      PhasesOk(subs) && AllOk(subs, st.all + {s}) && CallsOk(subs, st.deliveries, st.calls) && MembersOk(subs, st.members)
  {}

  lemma JoinBegunPhase(sub: Sub)
    requires PhaseOk(sub) && sub.at.Join?
    ensures PhaseOk(JoinBegun(sub))
  {}

  lemma JoinLockKeeps(c: Conf, st: State, s: nat)
    requires Inv(c, st) && s in st.subs && CanJoinLock(c, st, st.subs[s])
    ensures Inv(c, DoJoinLock(c, st, s))
  {
    assert Facts(c, st);
    var sub := st.subs[s];
    var sub' := JoinBegun(sub);
    JoinBegunPhase(sub);
    SameJoins(st.subs, st.members, s, sub');
    OthersPut(st, s, sub');
    MembersPut(st, s, sub', st.members);
    LocksPut(c, st, s, sub', st.locks[ShardOf(c, sub.topics[sub.at.next]) := Subscriber(s)]);
  }

  lemma JoinCommitJoins(subs: Subs, members: Members, s: nat, begun: nat)
    requires JoinsOk(subs, members) && s in subs && PhaseOk(subs[s]) && subs[s].at.Joining?
    ensures PhaseOk(Committed(subs[s], begun))
    ensures JoinsOk(subs[s := Committed(subs[s], begun)], JoinedMembers(members, subs[s], s))
  {
    var sub := subs[s];
    var sub', members' := Committed(sub, begun), JoinedMembers(members, sub, s);
    forall i | 0 <= i < |sub.topics|
      ensures PhaseOk(sub') && JoinOk(sub', i, s in At(members', sub.topics[i]))
    {
      CommittedOk(sub, begun, i, s in At(members, sub.topics[i]));
    }
    assert 0 < |sub.topics|;
    JoinsPut(subs, s, sub', members, members');
  }

  lemma JoinCommitKeeps(c: Conf, st: State, s: nat)
    requires Inv(c, st) && s in st.subs && st.subs[s].at.Joining? && st.subs[s].at.next < |st.subs[s].topics|
    ensures Inv(c, DoJoinCommit(c, st, s))
  {
    assert Facts(c, st);
    var sub := st.subs[s];
    assert HoldsLock(c, st.locks, sub, s);
    JoinCommitJoins(st.subs, st.members, s, |st.log|);
    LocksPut(c, st, s, Committed(sub, |st.log|), st.locks - {ShardOf(c, sub.topics[sub.at.next])});
    JoinCommitMembers(st, s);
    OthersPut(st, s, Committed(sub, |st.log|));
  }

  lemma JoinCommitMembers(st: State, s: nat)
    requires MembersOk(st.subs, st.members) && DeliveriesOk(st.members, st.deliveries)
    requires s in st.subs && st.subs[s].at.Joining? && st.subs[s].at.next < |st.subs[s].topics|
    ensures MembersOk(st.subs[s := Committed(st.subs[s], |st.log|)], JoinedMembers(st.members, st.subs[s], s))
    ensures DeliveriesOk(JoinedMembers(st.members, st.subs[s], s), st.deliveries)
  {
    MembersPut(st, s, Committed(st.subs[s], |st.log|), JoinedMembers(st.members, st.subs[s], s));
  }

  lemma LeaveJoins(subs: Subs, members: Members, s: nat)
    requires JoinsOk(subs, members) && s in subs && PhaseOk(subs[s])
    requires subs[s].ending.Leaving? && subs[s].ending.gone < |subs[s].topics|
    requires subs[s].at.Joining? ==> subs[s].at.next != subs[s].ending.gone
    ensures PhaseOk(LeftOne(subs[s]))
    ensures JoinsOk(subs[s := LeftOne(subs[s])], LeftMembers(members, subs[s], s))
  {
    var sub := subs[s];
    var sub', members' := LeftOne(sub), LeftMembers(members, sub, s);
    forall i | 0 <= i < |sub.topics|
      ensures PhaseOk(sub') && JoinOk(sub', i, s in At(members', sub.topics[i]))
    {
      LeftOneOk(sub, i, s in At(members, sub.topics[i]));
    }
    assert 0 < |sub.topics|;
    JoinsPut(subs, s, sub', members, members');
  }

  lemma LeaveKeeps(c: Conf, st: State, s: nat)
    requires Inv(c, st) && s in st.subs && CanLeave(c, st, st.subs[s])
    ensures Inv(c, DoLeave(c, st, s))
  {
    assert Facts(c, st);
    var st' := DoLeave(c, st, s);
    assert st.subs[s].at.Joining? ==> HoldsLock(c, st.locks, st.subs[s], s);
    LeaveJoins(st.subs, st.members, s);
    assert LocksOk(c, st'.subs, st'.deliveries, st'.locks) by { LocksPut(c, st, s, st'.subs[s], st'.locks); }
    assert MembersOk(st'.subs, st'.members) by { MembersPut(st, s, st'.subs[s], st'.members); }
    LeaveKeepsDeliveries(c, st, s);
    OthersPut(st, s, st'.subs[s]);
  }

  /** The lock a delivery holds keeps the end out of its topic meanwhile. */
  lemma LeaveKeepsDeliveries(c: Conf, st: State, s: nat)
    requires DeliveriesOk(st.members, st.deliveries) && LocksOk(c, st.subs, st.deliveries, st.locks)
    requires s in st.subs && CanLeave(c, st, st.subs[s])
    ensures DeliveriesOk(DoLeave(c, st, s).members, st.deliveries)
  {
    forall d, x | d in st.deliveries && (x in st.deliveries[d].todo || x in st.deliveries[d].live)
      ensures x in At(DoLeave(c, st, s).members, st.deliveries[d].msg.topic)
    {
      assert ShardOf(c, st.deliveries[d].msg.topic) in st.locks;
    }
  }

  lemma DeliverBeginKeeps(c: Conf, st: State, d: nat, msg: Message)
    requires Inv(c, st) && d !in st.deliveries && ShardOf(c, msg.topic) !in st.locks
    ensures Inv(c, DoDeliverBegin(c, st, d, msg))
  {
    assert Facts(c, st);
  }

  /** A delivery still holding s's topic: s is in its set, so the end has not emptied the queue yet. */
  lemma LiveNotDrained(c: Conf, st: State, d: nat, s: nat)
    requires Inv(c, st) && d in st.deliveries && s in st.deliveries[d].live
    ensures s in st.subs && !GoneFromAll(st.subs[s].ending)
  {
    assert Facts(c, st);
    var t := st.deliveries[d].msg.topic;
    assert s in At(st.members, t);
    var i :| 0 <= i < |st.subs[s].topics| && st.subs[s].topics[i] == t;
    assert JoinOk(st.subs[s], i, s in At(st.members, t));
  }

  lemma DeliverPutKeeps(c: Conf, st: State, d: nat, s: nat)
    requires Inv(c, st) && d in st.deliveries && s in st.deliveries[d].live && s in st.subs
    ensures Inv(c, DoDeliverPut(c, st, d, s))
  {
    assert Facts(c, st);
    LiveNotDrained(c, st, d, s);
    assert PhaseOk(st.subs[s]);
    var sub := Offered(c, st.subs[s], st.deliveries[d].msg);
    PutKeeps(c, st, s, sub);
    DeliveryShrinks(c, Put(st, s, sub), d, Served(c, st.deliveries[d], st.subs[s], s));
  }

  lemma DeliveryShrinks(c: Conf, st: State, d: nat, dl: Delivery)
    requires Inv(c, st) && d in st.deliveries && dl.msg == st.deliveries[d].msg
    requires dl.todo + dl.live <= st.deliveries[d].todo + st.deliveries[d].live
    requires forall s :: s in dl.full ==> s in st.subs
    ensures Inv(c, st.(deliveries := st.deliveries[d := dl]))
  {
    assert Facts(c, st);
  }

  lemma DeliverEndKeeps(c: Conf, st: State, d: nat)
    requires Inv(c, st) && d in st.deliveries && st.deliveries[d].todo == {} && st.deliveries[d].live == {}
    ensures Inv(c, DoDeliverEnd(c, st, d))
  {
    assert Facts(c, st);
  }

  lemma CallsKeep(c: Conf, st: State, more: set<(nat, EndReason)>)
    requires Inv(c, st) && forall s, r :: (s, r) in more ==> s in st.subs
    ensures Inv(c, st.(calls := st.calls + more))
  {
    assert Facts(c, st);
  }

  lemma CallsDrop(c: Conf, st: State, call: (nat, EndReason))
    requires Inv(c, st)
    ensures Inv(c, st.(calls := st.calls - {call}))
  {
    assert Facts(c, st);
  }

  lemma LeaveAllKeeps(c: Conf, st: State, s: nat)
    requires Inv(c, st) && s in st.subs && st.subs[s].ending == Leaving(|st.subs[s].topics|)
    ensures Inv(c, Put(st, s, st.subs[s].(ending := Draining)).(all := st.all - {s}))
  {
    assert Facts(c, st);
    var sub := st.subs[s].(ending := Draining);
    assert PhaseOk(sub) by { assert PhaseOk(st.subs[s]); }
    SameJoins(st.subs, st.members, s, sub);
    MembersPut(st, s, sub, st.members);
    LocksPut(c, st, s, sub, st.locks);
    LeaveAllOthers(st, s, sub);
  }

  lemma LeaveAllOthers(st: State, s: nat, sub: Sub)
    requires PhasesOk(st.subs) && AllOk(st.subs, st.all) && CallsOk(st.subs, st.deliveries, st.calls)
    requires s in st.subs && PhaseOk(sub) && sub.ending == Draining
    ensures var subs := st.subs[s := sub];
      PhasesOk(subs) && AllOk(subs, st.all - {s}) && CallsOk(subs, st.deliveries, st.calls)
  {}

  lemma FireWatchKeeps(c: Conf, st: State, s: nat)
    requires Inv(c, st) && s in st.subs && st.subs[s].watch == Active
    ensures Inv(c, Do(c, st, FireWatch(s)))
  {
    var sub := st.subs[s].(watch := Released);
    assert PhaseOk(sub) by { assert Facts(c, st) && PhaseOk(st.subs[s]); }
    PutKeeps(c, st, s, sub);
    CallsKeep(c, Put(st, s, sub), {(s, ByContextCancel)});
  }

  lemma BeginEndKeeps(c: Conf, st: State, s: nat, reason: EndReason)
    requires Inv(c, st) && s in st.subs && st.subs[s].ending == NotEnding && (s, reason) in st.calls
    ensures Inv(c, Do(c, st, BeginEnd(s, reason)))
  {
    var sub := st.subs[s].(reason := Some(reason), ending := ReasonStored);
    assert PhaseOk(sub) by { assert Facts(c, st) && PhaseOk(st.subs[s]); }
    PutKeeps(c, st, s, sub);
    CallsDrop(c, Put(st, s, sub), (s, reason));
  }

  lemma EndAllKeeps(c: Conf, st: State)
    requires Inv(c, st)
    ensures Inv(c, Do(c, st, EndAll))
  {
    assert Facts(c, st);
    CallsKeep(c, st.(terminated := true), set s | s in st.all :: (s, ByTermination));
  }

  lemma OneSubKeeps(c: Conf, st: State, s: nat, step: SubStep)
    requires Inv(c, st) && s in st.subs && CanSub(st.subs[s], step)
    ensures Inv(c, Put(st, s, DoSub(st.subs[s], step)))
  {
    assert PhaseOk(st.subs[s]) by { assert Facts(c, st); }
    SubStepOk(st.subs[s], step);
    PutKeeps(c, st, s, DoSub(st.subs[s], step));
  }

  lemma DeliverLookKeeps(c: Conf, st: State, d: nat, s: nat)
    requires Inv(c, st) && d in st.deliveries && s in st.deliveries[d].todo && s in st.subs
    ensures Inv(c, Do(c, st, DeliverLook(d, s)))
  {
    assert Facts(c, st);
    DeliveryShrinks(c, st, d, Looked(st.deliveries[d], s, st.subs[s].ended));
  }

  lemma OwnerKeeps(c: Conf, st: State, work: OwnerStep)
    requires Inv(c, st) && CanOwner(st, work)
    ensures Inv(c, DoOwner(c, st, work))
  {
    assert Facts(c, st);
  }

  /** Every enabled step of any subscriber, delivery, end or owner keeps the invariant. */
  lemma StepKeeps(c: Conf, st: State, a: Action)
    requires Inv(c, st) && Enabled(c, st, a)
    ensures Inv(c, Do(c, st, a))
  {
    match a
    case Open(s, topics) => OpenKeeps(c, st, s, topics);
    case OneSub(s, step) => OneSubKeeps(c, st, s, step);
    case JoinLock(s) => JoinLockKeeps(c, st, s);
    case JoinCommit(s) => JoinCommitKeeps(c, st, s);
    case FireWatch(s) => FireWatchKeeps(c, st, s);
    case Call(s, reason) => CallsKeep(c, st, {(s, reason)});
    case EndAll => EndAllKeeps(c, st);
    case BeginEnd(s, reason) => BeginEndKeeps(c, st, s, reason);
    case DropCall(s, reason) => CallsDrop(c, st, (s, reason));
    case Leave(s) => LeaveKeeps(c, st, s);
    case LeaveAll(s) => LeaveAllKeeps(c, st, s);
    case DeliverBegin(d, msg) => DeliverBeginKeeps(c, st, d, msg);
    case DeliverLook(d, s) => DeliverLookKeeps(c, st, d, s);
    case DeliverPut(d, s) => DeliverPutKeeps(c, st, d, s);
    case DeliverEnd(d) => DeliverEndKeeps(c, st, d);
    case OwnerDoes(work) => OwnerKeeps(c, st, work);
  }

  // ----- runs -----

  predicate Init(st: State) {
    st == State(map[], {}, false, map[], map[], map[], {}, map[], false, Stopped, map[], [])
  }

  ghost predicate Step(c: Conf, st: State, st': State) {
    exists a :: Enabled(c, st, a) && st' == Do(c, st, a)
  }

  ghost function ActionOf(c: Conf, st: State, st': State): (a: Action)
    requires Step(c, st, st')
    ensures Enabled(c, st, a) && st' == Do(c, st, a)
  {
    var a :| Enabled(c, st, a) && st' == Do(c, st, a);
    a
  }

  /** A run: it starts empty, and every state follows from the one before it by one step. */
  ghost predicate Run(c: Conf, tr: seq<State>) {
    && tr != []
    && Init(tr[0])
    && forall i :: 0 < i < |tr| ==> Step(c, tr[i - 1], tr[i])
  }

  lemma {:induction false} RunKeeps(c: Conf, tr: seq<State>, k: nat)
    requires Run(c, tr) && k < |tr|
    ensures Inv(c, tr[k])
  {
    if k > 0 {
      RunKeeps(c, tr, k - 1);
      StepKeeps(c, tr[k - 1], ActionOf(c, tr[k - 1], tr[k]));
    }
  }

  // ----- property: an ended subscription leaves nothing behind -----

  /** Both sides are through: the end ran to its last line and Subscribe returned. */
  predicate Over(sub: Sub) {
    sub.ending == Finished && sub.at == Returned
  }

  /** y is x later in the run: once its end has begun the reason stays as stored; returned, joined and over stay so. */
  predicate Later(x: Sub, y: Sub) {
    && y.topics == x.topics && (x.at == Returned ==> y.at == Returned && y.joinedAt == x.joinedAt)
    && (x.ending != NotEnding ==> y.ending != NotEnding && y.reason == x.reason)
    && (x.noticeClosed ==> y.noticeClosed) && (Over(x) ==> Over(y))
  }

  ghost predicate AllLater(subs: Subs, after: Subs) {
    forall s :: s in subs ==> s in after && Later(subs[s], after[s])
  }

  lemma PutIsLater(subs: Subs, s: nat, sub: Sub)
    requires s in subs ==> Later(subs[s], sub)
    ensures AllLater(subs, subs[s := sub])
  {}

  lemma OneSubIsLater(subs: Subs, s: nat, step: SubStep)
    requires s in subs && CanSub(subs[s], step)
    ensures AllLater(subs, subs[s := DoSub(subs[s], step)])
  {}

  lemma SameIsLater(subs: Subs)
    ensures AllLater(subs, subs)
  {}

  lemma OwnerLeavesSubs(c: Conf, st: State, work: OwnerStep)
    requires CanOwner(st, work)
    ensures var st' := DoOwner(c, st, work); st'.subs == st.subs && st'.members == st.members && st'.log == st.log
    ensures var st' := DoOwner(c, st, work); st'.deliveries == st.deliveries && st'.calls == st.calls
  {}

  lemma StepIsLater(c: Conf, st: State, a: Action)
    requires Enabled(c, st, a)
    ensures AllLater(st.subs, Do(c, st, a).subs)
  {
    SameIsLater(st.subs);
    match a
    case Open(s, topics) => PutIsLater(st.subs, s, NewSub(topics));
    case OneSub(s, step) => OneSubIsLater(st.subs, s, step);
    case JoinLock(s) => PutIsLater(st.subs, s, JoinBegun(st.subs[s]));
    case JoinCommit(s) => PutIsLater(st.subs, s, Committed(st.subs[s], |st.log|));
    case FireWatch(s) => PutIsLater(st.subs, s, st.subs[s].(watch := Released));
    case Call(_, _) =>
    case EndAll =>
    case BeginEnd(s, reason) => PutIsLater(st.subs, s, st.subs[s].(reason := Some(reason), ending := ReasonStored));
    case DropCall(_, _) =>
    case Leave(s) => PutIsLater(st.subs, s, LeftOne(st.subs[s]));
    case LeaveAll(s) => PutIsLater(st.subs, s, st.subs[s].(ending := Draining));
    case DeliverBegin(_, _) =>
    case DeliverLook(_, _) =>
    case DeliverPut(d, s) => PutIsLater(st.subs, s, Offered(c, st.subs[s], st.deliveries[d].msg));
    case DeliverEnd(_) =>
    case OwnerDoes(work) => OwnerLeavesSubs(c, st, work);
  }

  /** Nothing of s is left in the manager: no set, no queued message, no watch. */
  ghost predicate NothingLeft(st: State, s: nat) {
    && s in st.subs && st.subs[s].reason.Some? && st.subs[s].noticeClosed && st.subs[s].queue == []
    && st.subs[s].watch == Released && !st.subs[s].abandonWatch
    && s !in st.all && (forall t :: s !in At(st.members, t))
  }

  lemma OverLeavesNothing(c: Conf, st: State, s: nat)
    requires Inv(c, st) && s in st.subs && Over(st.subs[s])
    ensures NothingLeft(st, s)
  {
    assert Facts(c, st);
    assert PhaseOk(st.subs[s]);
    JoinsOf(st.subs, st.members, s);
  }

  lemma OneStepLater(c: Conf, st: State, st': State, s: nat)
    requires Step(c, st, st') && s in st.subs && Over(st.subs[s])
    ensures s in st'.subs && Over(st'.subs[s]) && st'.subs[s].reason == st.subs[s].reason
  {
    StepIsLater(c, st, ActionOf(c, st, st'));
    assert Later(st.subs[s], st'.subs[s]);
  }

  /**
    Once a subscription's end and its Subscribe are both over, in whatever order their steps and everyone else's ran,
    nothing of it is left, and that is so in every later state of the run, with the same end reason.
   */
  lemma {:induction false} EndedForGood(c: Conf, tr: seq<State>, j: nat, k: nat, s: nat)
    requires Run(c, tr) && j <= k < |tr|
    requires s in tr[j].subs && Over(tr[j].subs[s])
    ensures NothingLeft(tr[k], s) && Over(tr[k].subs[s]) && tr[k].subs[s].reason == tr[j].subs[s].reason
  {
    RunKeeps(c, tr, k);
    if j < k {
      EndedForGood(c, tr, j, k - 1, s);
      assert Step(c, tr[k - 1], tr[k]);
      OneStepLater(c, tr[k - 1], tr[k], s);
    }
    OverLeavesNothing(c, tr[k], s);
  }

  // ----- ending them all -----

  /** The manager asks for the end of s, or its end has begun. */
  predicate Told(st: State, s: nat)
    requires s in st.subs
  {
    st.subs[s].ending != NotEnding || (s, ByTermination) in st.calls
  }

  /** After EndAll every subscription there is was told. */
  ghost predicate AllTold(st: State) {
    st.terminated ==> forall s :: s in st.subs ==> Told(st, s)
  }

  /** A call for an end goes only by beginning it, or when it is over. */
  lemma CallsStay(c: Conf, st: State, a: Action, s: nat)
    requires Enabled(c, st, a) && s in st.subs && Told(st, s)
    ensures s in Do(c, st, a).subs && Told(Do(c, st, a), s)
  {
    StepIsLater(c, st, a);
    assert Later(st.subs[s], Do(c, st, a).subs[s]);
    match a
    case OwnerDoes(work) => OwnerLeavesSubs(c, st, work);
    case _ =>
  }

  lemma StepTells(c: Conf, st: State, a: Action)
    requires Inv(c, st) && AllTold(st) && Enabled(c, st, a)
    ensures AllTold(Do(c, st, a))
  {
    var st' := Do(c, st, a);
    assert AllOk(st.subs, st.all) by { assert Facts(c, st); }
    forall s | st'.terminated && s in st'.subs
      ensures Told(st', s)
    {
      if a.EndAll? {
        assert s in st.all || GoneFromAll(st.subs[s].ending);
      } else {
        TerminatedStays(c, st, a, s);
        CallsStay(c, st, a, s);
      }
    }
  }

  /** Only EndAll terminates the manager, and a terminated one opens no subscription. */
  lemma TerminatedStays(c: Conf, st: State, a: Action, s: nat)
    requires Enabled(c, st, a)
    ensures Do(c, st, a).terminated <==> st.terminated || a.EndAll?
    ensures st.terminated && s in Do(c, st, a).subs ==> s in st.subs
  {
    match a
    case Open(_, _) =>
    case OneSub(_, _) =>
    case JoinLock(_) =>
    case JoinCommit(_) =>
    case FireWatch(_) =>
    case Call(_, _) =>
    case EndAll =>
    case BeginEnd(_, _) =>
    case DropCall(_, _) =>
    case Leave(_) =>
    case LeaveAll(_) =>
    case DeliverBegin(_, _) =>
    case DeliverLook(_, _) =>
    case DeliverPut(_, _) =>
    case DeliverEnd(_) =>
    case OwnerDoes(work) =>
      OwnerLeavesSubs(c, st, work);
      OwnerTerminatesNone(c, st, work);
  }

  lemma OwnerTerminatesNone(c: Conf, st: State, work: OwnerStep)
    requires CanOwner(st, work)
    ensures DoOwner(c, st, work).terminated == st.terminated
  {}

  /**
    In every run: once EndAll was called, the end of every subscription has begun or stands among the calls for an end, and
    there the manager can begin it; and no subscription is added.
   */
  lemma {:induction false} EndAllEnds(c: Conf, tr: seq<State>, k: nat)
    requires Run(c, tr) && k < |tr|
    ensures AllTold(tr[k])
    ensures tr[k].terminated ==> forall s :: s in tr[k].subs && tr[k].subs[s].ending == NotEnding ==>
      Enabled(c, tr[k], BeginEnd(s, ByTermination))
    ensures k > 0 && tr[k - 1].terminated ==> forall s :: s in tr[k].subs ==> s in tr[k - 1].subs
  {
    if k > 0 {
      EndAllEnds(c, tr, k - 1);
      RunKeeps(c, tr, k - 1);
      var a := ActionOf(c, tr[k - 1], tr[k]);
      StepTells(c, tr[k - 1], a);
      forall s
        ensures tr[k - 1].terminated && s in tr[k].subs ==> s in tr[k - 1].subs
      {
        TerminatedStays(c, tr[k - 1], a, s);
      }
    }
    assert forall s :: tr[k].terminated && s in tr[k].subs ==> Told(tr[k], s);
  }

  // ----- why they end -----

  /** What leads to a call for an end with this reason: the cancelled context, EndAll, a full queue, or the caller. */
  predicate Leads(c: Conf, st: State, a: Action, s: nat, reason: EndReason) {
    match reason
    case ByContextCancel => a == FireWatch(s) && s in st.subs && st.subs[s].watch == Active
    case ByTermination => a == EndAll && s in st.all
    case ByFullQueue => a.DeliverPut? && a.s == s && s in st.subs && |st.subs[s].queue| >= c.queueCapacity
    case ByUnsubscribe => a == Call(s, ByUnsubscribe)
    case ByAbandonment => a == Call(s, ByAbandonment) && s in st.subs && st.subs[s].abandonWatch
  }

  /** It happened before the k-th state. */
  ghost predicate Led(c: Conf, tr: seq<State>, k: nat, s: nat, reason: EndReason)
    requires k < |tr|
  {
    exists i, a :: 0 <= i < k && Enabled(c, tr[i], a) && tr[i + 1] == Do(c, tr[i], a) && Leads(c, tr[i], a, s, reason)
  }

  /** Whom one step makes a candidate for which end: a call for it, a delivery that found the queue full, a stored reason. */
  predicate Due(st: State, s: nat, reason: EndReason) {
    || (s, reason) in st.calls
    || (s in st.subs && st.subs[s].reason == Some(reason))
    || (reason == ByFullQueue && exists d :: d in st.deliveries && s in st.deliveries[d].full)
  }

  /** A step makes an end due only by what leads to it. */
  lemma StepLeads(c: Conf, st: State, a: Action, s: nat, reason: EndReason)
    requires Inv(c, st) && Enabled(c, st, a) && Due(Do(c, st, a), s, reason) && !Due(st, s, reason)
    ensures Leads(c, st, a, s, reason)
  {
    var st' := Do(c, st, a);
    if a.OwnerDoes? {
      OwnerLeavesSubs(c, st, a.work);
    } else if a.DeliverPut? {
      PutDue(c, st, a.d, a.s, s, reason);
    } else if a.DeliverBegin? || a.DeliverLook? || a.DeliverEnd? {
      DeliverDue(c, st, a, s, reason);
    } else {
      OtherDue(c, st, a, s, reason);
    }
  }

  lemma PutDue(c: Conf, st: State, d: nat, x: nat, s: nat, reason: EndReason)
    requires Enabled(c, st, DeliverPut(d, x)) && Due(DoDeliverPut(c, st, d, x), s, reason) && !Due(st, s, reason)
    ensures s == x && reason == ByFullQueue && |st.subs[s].queue| >= c.queueCapacity
  {
    var st' := DoDeliverPut(c, st, d, x);
    if e :| e in st'.deliveries && s in st'.deliveries[e].full {
      assert e in st.deliveries;
      assert !(s in st.deliveries[e].full) || reason != ByFullQueue;
    }
  }

  lemma DeliverDue(c: Conf, st: State, a: Action, s: nat, reason: EndReason)
    requires Enabled(c, st, a) && (a.DeliverBegin? || a.DeliverLook? || a.DeliverEnd?)
    ensures Due(Do(c, st, a), s, reason) ==> Due(st, s, reason)
  {
    var st' := Do(c, st, a);
    assert forall e :: e in st'.deliveries && s in st'.deliveries[e].full ==> e in st.deliveries && s in st.deliveries[e].full;
    if a.DeliverEnd? && s in st.deliveries[a.d].full {
      assert a.d in st.deliveries;
    }
  }

  /** One subscription's record moved on, its reason as it was. */
  lemma SameDue(st: State, st': State, x: nat, sub: Sub, s: nat, reason: EndReason)
    requires st'.subs == st.subs[x := sub] && st'.calls == st.calls && st'.deliveries == st.deliveries
    requires if x in st.subs then sub.reason == st.subs[x].reason else sub.reason.None?
    ensures Due(st', s, reason) ==> Due(st, s, reason)
  {}

  lemma PutKeepsDue(c: Conf, st: State, a: Action, s: nat, reason: EndReason)
    requires Enabled(c, st, a) && (a.Open? || a.OneSub? || a.JoinLock? || a.JoinCommit? || a.Leave? || a.LeaveAll?)
    ensures Due(Do(c, st, a), s, reason) ==> Due(st, s, reason)
  {
    var st' := Do(c, st, a);
    match a
    case Open(x, topics) => SameDue(st, st', x, NewSub(topics), s, reason);
    case OneSub(x, step) => SameDue(st, st', x, DoSub(st.subs[x], step), s, reason);
    case JoinLock(x) => SameDue(st, st', x, JoinBegun(st.subs[x]), s, reason);
    case JoinCommit(x) => SameDue(st, st', x, Committed(st.subs[x], |st.log|), s, reason);
    case Leave(x) => SameDue(st, st', x, LeftOne(st.subs[x]), s, reason);
    case LeaveAll(x) => SameDue(st, st', x, st.subs[x].(ending := Draining), s, reason);
  }

  lemma OtherDue(c: Conf, st: State, a: Action, s: nat, reason: EndReason)
    requires Enabled(c, st, a) && !a.OwnerDoes? && !a.DeliverBegin? && !a.DeliverLook? && !a.DeliverPut? && !a.DeliverEnd?
    requires Due(Do(c, st, a), s, reason) && !Due(st, s, reason)
    ensures Leads(c, st, a, s, reason)
  {
    if a.Open? || a.OneSub? || a.JoinLock? || a.JoinCommit? || a.Leave? || a.LeaveAll? {
      PutKeepsDue(c, st, a, s, reason);
    }
  }

  /** Only a beginning end moves a subscription whose end has not begun. */
  lemma OnlyBeginEnds(c: Conf, st: State, a: Action, s: nat)
    requires Enabled(c, st, a) && s in st.subs && st.subs[s].ending == NotEnding && !a.BeginEnd?
    ensures s in Do(c, st, a).subs && Do(c, st, a).subs[s].ending == NotEnding
  {
    StepIsLater(c, st, a);
    match a
    case OneSub(x, step) => assert x == s ==> DoSub(st.subs[s], step).ending == NotEnding;
    case JoinLock(_) =>
    case JoinCommit(_) =>
    case FireWatch(_) =>
    case Leave(_) =>
    case LeaveAll(_) =>
    case DeliverPut(_, _) =>
    case OwnerDoes(work) => OwnerLeavesSubs(c, st, work);
    case _ =>
  }

  /** The end that begins stores the reason it was called with, and takes that call. */
  lemma BegunAsCalled(c: Conf, st: State, a: Action, s: nat)
    requires Enabled(c, st, a) && s in st.subs && st.subs[s].ending == NotEnding
    ensures s in Do(c, st, a).subs
    ensures var sub := Do(c, st, a).subs[s];
      sub.ending != NotEnding ==>
        sub.reason.Some? && (s, sub.reason.value) in st.calls && Do(c, st, a).calls == st.calls - {(s, sub.reason.value)}
  {
    if !a.BeginEnd? {
      OnlyBeginEnds(c, st, a, s);
    }
  }

  /**
    In every run: a subscription's stored reason, and every call for an end, names what happened before: its context was
    cancelled while watched, EndAll ran, a delivery found its queue full, or its owner unsubscribed or abandoned it.
   */
  lemma {:induction false} ReasonIsTrue(c: Conf, tr: seq<State>, k: nat, s: nat, reason: EndReason)
    requires Run(c, tr) && k < |tr| && Due(tr[k], s, reason)
    ensures Led(c, tr, k, s, reason)
  {
    if k > 0 {
      RunKeeps(c, tr, k - 1);
      if Due(tr[k - 1], s, reason) {
        ReasonIsTrue(c, tr, k - 1, s, reason);
        var i, a :| 0 <= i < k - 1 && Enabled(c, tr[i], a) && tr[i + 1] == Do(c, tr[i], a) && Leads(c, tr[i], a, s, reason);
        assert 0 <= i < k && Leads(c, tr[i], a, s, reason);
      } else {
        var a := ActionOf(c, tr[k - 1], tr[k]);
        StepLeads(c, tr[k - 1], a, s, reason);
        assert tr[k - 1 + 1] == Do(c, tr[k - 1], a) && Leads(c, tr[k - 1], a, s, reason);
      }
    }
  }

  // ----- the topics a subscription may name -----

  datatype TopicError = NoTopic | EmptyTopic

  /** The topics not seen before them, in order. */
  ghost function FirstSeen(topics: seq<string>): seq<string> {
    if topics == [] then []
    else
      var front, t := topics[..|topics| - 1], topics[|topics| - 1];
      if t in front then FirstSeen(front) else FirstSeen(front) + [t]
  }

  method DistinctTopics(topics: seq<string>) returns (r: Result<seq<string>, TopicError>)
    ensures r.Ok? <==> topics != [] && "" !in topics
    ensures r.Err? ==> r.error == if topics == [] then NoTopic else EmptyTopic
    ensures r.Ok? ==> r.value == FirstSeen(topics) && Distinct(r.value) && forall t :: t in r.value <==> t in topics
  {
    if |topics| == 0 {
      return Err(NoTopic);
    }
    var out: seq<string>, seen: set<string> := [], {};
    for i := 0 to |topics|
      invariant out == FirstSeen(topics[..i]) && Distinct(out) && "" !in topics[..i]
      invariant forall t :: t in out <==> t in topics[..i]
      invariant forall t :: t in seen <==> t in topics[..i]
    {
      var t := topics[i];
      assert topics[..i + 1][..i] == topics[..i] && topics[..i + 1] == topics[..i] + [t];
      if t == "" {
        return Err(EmptyTopic);
      }
      if t !in seen {
        seen := seen + {t};
        out := out + [t];
      }
    }
    assert topics[..|topics|] == topics;
    return Ok(out);
  }
}
