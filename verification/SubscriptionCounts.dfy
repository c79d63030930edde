/**
  The topic subscription counts as their owner learns them: noteCount, TakeTopicSubscriptionCountUpdates and the
  broker loop's fold of what it took, and the counts its start reads off Stats.
 */
module SubscriptionCounts {
  import opened Basics
  import opened LocalSubscriptions

  /** What the owner has of a topic so far, once it has read that topic's shard since its start. */
  function Seen(c: Conf, owner: Owner, counts: Counts, t: string): Option<nat> {
    match owner
    case Stopped => None
    case Discarding(_) => None
    case Snapshotting(next, kept) => if ShardOf(c, t) < next then Some(Count(kept, t)) else None
    case Idle => Some(Count(counts, t))
    case Taking(_, updates) => Some(if t in updates then updates[t] else Count(counts, t))
  }

  /** An untaken update is the count now; without one, what the owner has seen is. */
  predicate CountOk(c: Conf, members: Members, updates: Counts, owner: Owner, counts: Counts, t: string) {
    var now := |At(members, t)|;
    if t in updates then updates[t] == now
    else var seen := Seen(c, owner, counts, t); seen.Some? ==> seen.value == now
  }

  ghost predicate CountsOk(c: Conf, members: Members, updates: Counts, owner: Owner, counts: Counts) {
    forall t :: CountOk(c, members, updates, owner, counts, t)
  }

  /** No update is stranded: each has a waiting notice, or a take that has not yet passed its shard. */
  ghost predicate NoticeOk(c: Conf, updates: Counts, notice: bool, owner: Owner) {
    forall t :: t in updates ==> notice || (owner.Taking? && owner.next <= ShardOf(c, t))
  }

  /** What a pass over the shards holds comes from the shards it has passed. */
  ghost predicate PassOk(c: Conf, owner: Owner) {
    && (owner.Taking? ==> owner.next <= SHARD_COUNT && forall t :: t in owner.updates ==> ShardOf(c, t) < owner.next)
    && (owner.Snapshotting? ==> owner.next <= SHARD_COUNT && forall t :: t in owner.kept ==> ShardOf(c, t) < owner.next)
  }

  ghost predicate CountFacts(c: Conf, st: State) {
    && CountsOk(c, st.members, st.updates, st.owner, st.counts)
    && NoticeOk(c, st.updates, st.notice, st.owner)
    && PassOk(c, st.owner)
  }

  ghost predicate CountInv(c: Conf, st: State) {
    forall x :: x == st ==> CountFacts(c, x)
  }

  /** A topic's set changed and its count was noted. */
  lemma NoteKeeps(c: Conf, st: State, t: string, members: Members)
    requires CountFacts(c, st)
    requires forall u :: u != t ==> At(members, u) == At(st.members, u)
    ensures CountFacts(c, st.(members := members, updates := st.updates[t := |At(members, t)|], notice := true))
  {
    var noted := st.updates[t := |At(members, t)|];
    forall u
      ensures CountOk(c, members, noted, st.owner, st.counts, u)
    {
      assert CountOk(c, st.members, st.updates, st.owner, st.counts, u);
    }
  }

  lemma JoinKeepsCounts(c: Conf, st: State, s: nat)
    requires CountInv(c, st) && Enabled(c, st, JoinCommit(s))
    ensures CountInv(c, DoJoinCommit(c, st, s))
  {
    assert CountFacts(c, st);
    var sub := st.subs[s];
    if !sub.at.sawEnded {
      NoteKeeps(c, st, sub.topics[sub.at.next], JoinedMembers(st.members, sub, s));
    }
    assert CountFacts(c, DoJoinCommit(c, st, s));
  }

  lemma LeaveKeepsCounts(c: Conf, st: State, s: nat)
    requires CountInv(c, st) && Enabled(c, st, Leave(s))
    ensures CountInv(c, DoLeave(c, st, s))
  {
    assert CountFacts(c, st);
    var sub := st.subs[s];
    if s in At(st.members, sub.topics[sub.ending.gone]) {
      NoteKeeps(c, st, sub.topics[sub.ending.gone], LeftMembers(st.members, sub, s));
    }
    assert CountFacts(c, DoLeave(c, st, s));
  }

  lemma TakeShardKeepsCounts(c: Conf, st: State)
    requires CountInv(c, st) && CanOwner(st, TakeShard)
    ensures CountInv(c, DoOwner(c, st, TakeShard))
  {
    assert CountFacts(c, st);
    var st' := DoOwner(c, st, TakeShard);
    forall t
      ensures CountOk(c, st'.members, st'.updates, st'.owner, st'.counts, t)
    {
      assert CountOk(c, st.members, st.updates, st.owner, st.counts, t);
    }
    assert CountFacts(c, st');
  }

  lemma SnapshotKeepsCounts(c: Conf, st: State)
    requires CountInv(c, st) && CanOwner(st, SnapshotShard)
    ensures CountInv(c, DoOwner(c, st, SnapshotShard))
  {
    assert CountFacts(c, st);
    var st' := DoOwner(c, st, SnapshotShard);
    forall t
      ensures CountOk(c, st'.members, st'.updates, st'.owner, st'.counts, t)
    {
      assert CountOk(c, st.members, st.updates, st.owner, st.counts, t);
    }
    assert CountFacts(c, st');
  }

  lemma OwnerKeepsCounts(c: Conf, st: State, work: OwnerStep)
    requires CountInv(c, st) && CanOwner(st, work)
    ensures CountInv(c, DoOwner(c, st, work))
  {
    match work
    case TakeShard => TakeShardKeepsCounts(c, st);
    case SnapshotShard => SnapshotKeepsCounts(c, st);
    case _ =>
      assert CountFacts(c, st);
      var st' := DoOwner(c, st, work);
      forall t
        ensures CountOk(c, st'.members, st'.updates, st'.owner, st'.counts, t)
      {
        assert CountOk(c, st.members, st.updates, st.owner, st.counts, t);
      }
      assert CountFacts(c, st');
  }

  /** Steps that change no topic's set leave all of this alone. */
  lemma QuietStep(c: Conf, st: State, a: Action)
    requires Enabled(c, st, a) && !a.JoinCommit? && !a.Leave? && !a.OwnerDoes?
    ensures var st' := Do(c, st, a);
      st'.members == st.members && st'.updates == st.updates && st'.notice == st.notice
      && st'.owner == st.owner && st'.counts == st.counts
  {}

  lemma StepKeepsCounts(c: Conf, st: State, a: Action)
    requires CountInv(c, st) && Enabled(c, st, a)
    ensures CountInv(c, Do(c, st, a))
  {
    match a
    case JoinCommit(s) => JoinKeepsCounts(c, st, s);
    case Leave(s) => LeaveKeepsCounts(c, st, s);
    case OwnerDoes(work) => OwnerKeepsCounts(c, st, work);
    case _ =>
      QuietStep(c, st, a);
      assert CountFacts(c, st);
  }

  /**
    In every state of every run: a topic's untaken update, or without one what the owner has folded, is the topic's
    subscription count, and no update waits without a notice or a take still to reach it.
   */
  lemma {:induction false} CountsFollow(c: Conf, tr: seq<State>, k: nat)
    requires Run(c, tr) && k < |tr|
    ensures CountFacts(c, tr[k])
  {
    if k > 0 {
      CountsFollow(c, tr, k - 1);
      StepKeepsCounts(c, tr[k - 1], ActionOf(c, tr[k - 1], tr[k]));
      assert CountInv(c, tr[k]);
    }
  }
}
