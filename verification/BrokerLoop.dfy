/**
  The sequential part of the Redis broker's loop (pubsubs/redis/brokerwithlocalsubscriptions.go): what it sends for
  the latest counts, and whom it answers. The functions say what each piece computes; the class is the loop's own
  state and the closures that update it.
 */
module BrokerLoop {
  import opened Basics
  import opened LocalSubscriptions

  datatype TopicState = Subscribing | Subscribed
  type Topics = map<string, TopicState>

  datatype WaitRequest = WaitRequest(s: nat, topics: seq<string>)

  /** The counts call for the topic and it is not on the connection. */
  predicate Missing(counts: Counts, topics: Topics, t: string) {
    Count(counts, t) > 0 && t !in topics
  }

  /** The topic is confirmed and nobody is left on it. */
  predicate Surplus(counts: Counts, topics: Topics, t: string) {
    Count(counts, t) == 0 && t in topics && topics[t] == Subscribed
  }

  /** What one visit does to the topics on the connection. */
  function Visit(counts: Counts, topics: Topics, t: string): Topics {
    if Missing(counts, topics, t) then topics[t := Subscribing]
    else if Surplus(counts, topics, t) then topics - {t}
    else topics
  }

  /** The connection's topics once every changed topic was visited. */
  function Applied(counts: Counts, topics: Topics, changed: seq<string>): Topics {
    if changed == [] then topics
    else Visit(counts, Applied(counts, topics, changed[..|changed| - 1]), changed[|changed| - 1])
  }

  /** The topics to subscribe to, in the order visited. */
  function ToSubscribe(counts: Counts, topics: Topics, changed: seq<string>): seq<string> {
    if changed == [] then []
    else
      var n := |changed| - 1;
      ToSubscribe(counts, topics, changed[..n])
      + if Missing(counts, Applied(counts, topics, changed[..n]), changed[n]) then [changed[n]] else []
  }

  /** The topics to unsubscribe from, in the order visited. */
  function ToUnsubscribe(counts: Counts, topics: Topics, changed: seq<string>): seq<string> {
    if changed == [] then []
    else
      var n := |changed| - 1;
      ToUnsubscribe(counts, topics, changed[..n])
      + if Surplus(counts, Applied(counts, topics, changed[..n]), changed[n]) then [changed[n]] else []
  }

  /** Visiting distinct topics: each is decided from the state before, and a topic not visited stays as it was. */
  lemma {:induction false} AppliedAt(counts: Counts, topics: Topics, changed: seq<string>, t: string)
    requires Distinct(changed)
    ensures var r := Applied(counts, topics, changed);
      var expected := if t in changed then Visit(counts, topics, t) else topics;
      (t in r <==> t in expected) && (t in r ==> r[t] == expected[t])
  {
    if changed != [] {
      AppliedAt(counts, topics, changed[..|changed| - 1], t);
    }
  }

  predicate Confirmed(topics: Topics, req: WaitRequest) {
    forall t :: t in req.topics ==> t in topics && topics[t] == Subscribed
  }

  /** Whom the loop answers: not ended, every topic confirmed. */
  function Answered(topics: Topics, waiters: seq<WaitRequest>, ended: set<nat>): (r: set<nat>) {
    set req | req in waiters && req.s !in ended && Confirmed(topics, req) :: req.s
  }

  /** Who keeps waiting. */
  function Kept(topics: Topics, waiters: seq<WaitRequest>, ended: set<nat>): (r: seq<WaitRequest>)
    ensures forall req :: req in r <==> req in waiters && req.s !in ended && !Confirmed(topics, req)
  {
    if waiters == [] then []
    else
      var n := |waiters| - 1;
      Kept(topics, waiters[..n], ended)
      + if waiters[n].s !in ended && !Confirmed(topics, waiters[n]) then [waiters[n]] else []
  }

  lemma NextWaiter(topics: Topics, waiters: seq<WaitRequest>, i: nat, ended: set<nat>)
    requires i < |waiters|
    ensures var req, front, more := waiters[i], waiters[..i], waiters[..i + 1];
      && Answered(topics, more, ended)
         == Answered(topics, front, ended) + (if req.s !in ended && Confirmed(topics, req) then {req.s} else {})
      && Kept(topics, more, ended)
         == Kept(topics, front, ended) + (if req.s !in ended && !Confirmed(topics, req) then [req] else [])
  {
    var req, front, more := waiters[i], waiters[..i], waiters[..i + 1];
    assert more == front + [req] && more[..i] == front;
  }

  class Loop {
    var counts: Counts
    var topics: Topics
    var waiters: seq<WaitRequest>
    var missNoticeDue: bool

    /** Subscriptions kept across a stop have missed what was published meanwhile. */
    constructor (kept: Counts)
      ensures counts == kept && topics == map[] && waiters == [] && (missNoticeDue <==> kept != map[])
    {
      counts, topics, waiters, missNoticeDue := kept, map[], [], kept != map[];
    }

    /** `apply`: visits each changed topic once and decides from its latest count and its state. */
    method Apply(changed: seq<string>) returns (subscribe: seq<string>, unsubscribe: seq<string>)
      modifies this`topics
      ensures subscribe == ToSubscribe(counts, old(topics), changed)
      ensures unsubscribe == ToUnsubscribe(counts, old(topics), changed)
      ensures topics == Applied(counts, old(topics), changed)
    {
      subscribe, unsubscribe := [], [];
      ghost var before := topics;
      for i := 0 to |changed|
        invariant subscribe == ToSubscribe(counts, before, changed[..i])
        invariant unsubscribe == ToUnsubscribe(counts, before, changed[..i])
        invariant topics == Applied(counts, before, changed[..i])
      {
        var t := changed[i];
        assert changed[..i + 1][..i] == changed[..i];
        if Count(counts, t) > 0 && t !in topics {
          subscribe := subscribe + [t];
          topics := topics[t := Subscribing];
        } else if Count(counts, t) == 0 && t in topics && topics[t] == Subscribed {
          unsubscribe := unsubscribe + [t];
          topics := topics - {t};
        }
      }
      assert changed[..|changed|] == changed;
    }

    method FoldUpdates(updates: Counts, order: seq<string>)
      requires forall t :: t in order <==> t in updates
      modifies this`counts
      ensures counts == Fold(old(counts), updates)
    {
      ghost var before, done := counts, {};
      for i := 0 to |order|
        invariant forall t :: t in done <==> t in order[..i]
        invariant forall t :: t in counts <==> if t in done then t in updates && updates[t] > 0 else t in before
        invariant forall t :: t in counts ==> counts[t] == if t in done then updates[t] else before[t]
      {
        var t := order[i];
        assert order[..i + 1] == order[..i] + [t];
        done := done + {t};
        if updates[t] > 0 {
          counts := counts[t := updates[t]];
        } else {
          counts := counts - {t};
        }
      }
      assert order[..|order|] == order;
    }

    /** `takeCounts`: folds the updates into the counts, one topic after the other, and applies them. */
    method TakeCounts(updates: Counts, order: seq<string>) returns (subscribe: seq<string>, unsubscribe: seq<string>)
      requires forall t :: t in order <==> t in updates
      modifies this`counts, this`topics
      ensures counts == Fold(old(counts), updates)
      ensures subscribe == ToSubscribe(counts, old(topics), order)
      ensures unsubscribe == ToUnsubscribe(counts, old(topics), order)
      ensures topics == Applied(counts, old(topics), order)
    {
      FoldUpdates(updates, order);
      subscribe, unsubscribe := Apply(order);
    }

    /** `answerWaiters`: answers who is confirmed, drops who has ended, keeps the rest in order. */
    method AnswerWaiters(ended: set<nat>) returns (answered: set<nat>)
      modifies this`waiters
      ensures answered == Answered(topics, old(waiters), ended)
      ensures waiters == Kept(topics, old(waiters), ended)
    {
      ghost var before := waiters;
      var kept: seq<WaitRequest> := [];
      answered := {};
      for i := 0 to |waiters|
        invariant waiters == before
        invariant answered == Answered(topics, before[..i], ended)
        invariant kept == Kept(topics, before[..i], ended)
      {
        var req := waiters[i];
        NextWaiter(topics, before, i, ended);
        if req.s !in ended {
          if Confirmed(topics, req) {
            answered := answered + {req.s};
          } else {
            kept := kept + [req];
          }
        }
      }
      assert before[..|before|] == before;
      waiters := kept;
    }

    /**
      A "subscribe" confirmation: the topic is confirmed, and unsubscribed again if nobody is left on it. A second one tells
      of a restored connection, and a miss notice goes out once Redis counts as many topics as the loop has on it.
     */
    method OnConfirmation(t: string, count: nat) returns (unsubscribe: seq<string>, missNotice: bool)
      modifies this`topics, this`missNoticeDue
      ensures t in old(topics) && old(topics)[t] == Subscribing ==>
        var now := old(topics)[t := Subscribed];
        topics == Applied(counts, now, [t]) && unsubscribe == ToUnsubscribe(counts, now, [t])
      ensures t !in old(topics) || old(topics)[t] == Subscribed ==> topics == old(topics) && unsubscribe == []
      ensures var due := old(missNoticeDue) || (t in old(topics) && old(topics)[t] == Subscribed);
        missNotice == (due && count >= |topics|) && missNoticeDue == (due && !missNotice)
    {
      unsubscribe, missNotice := [], false;
      if t in topics && topics[t] == Subscribing {
        topics := topics[t := Subscribed];
        if Count(counts, t) == 0 {
          var subscribe;
          subscribe, unsubscribe := Apply([t]);
        }
        assert topics == Applied(counts, old(topics)[t := Subscribed], [t]);
      } else if t in topics {
        missNoticeDue := true;
      }
      if missNoticeDue && count >= |topics| {
        missNotice, missNoticeDue := true, false;
      }
    }
  }
}
