/**
  The refresh-token ladder (gw/web/fwupstream/tokenrow.go): any number of requests on one row of upstream tokens, each with
  its own cached slots, under the row's refresh hold. Every read and write of the row may fail. A pair of tokens is known by
  its number: the upstream never issues an access token twice, so comparing access tokens is comparing numbers. One caller
  runs a request's ladder at a time.
 */
module TokenLadder {
  import opened Basics

  /** A cached read: not made yet, made, with the pair found or none, or failed. */
  datatype Slot = Unread | Read(found: Option<nat>) | Broken

  /** What may lead a request to a refresh token that was exchanged already. */
  datatype Cause =
    | RowEmpty        // the check under the hold found no tokens on the row
    | CheckFailed     // that check could not read the row
    | AdoptionFailed  // the request took another's access token and could not read its refresh token
    | StoreFailed     // the pair the token was exchanged for was never written

  datatype Stage =
    | Idle                           // between ladder runs, or sending with the access slot
    | Wanting                        // about to ask for the hold
    | Waiting                        // refused the hold, leaving the interval
    | Checking                       // under the hold, about to re-read the row's access token
    | Adopting(inside: bool)         // access slot replaced, about to read the row's refresh token
    | Refreshing(why: set<Cause>)    // under the hold, about to load the refresh slot
    | Presenting(why: set<Cause>)    // under the hold, about to send the refresh slot's token upstream
    | Storing(pair: nat, used: nat)  // under the hold, exchanged the one used, about to store the new pair
    | Leaving                        // about to release the hold

  /** `torn` from an adoption whose read of the refresh token failed, until the slots hold one pair again. */
  datatype Request = Request(access: Slot, refresh: Slot, torn: bool, stage: Stage)

  /** One refresh token sent upstream: whether a new pair came back, and what had gone wrong before. */
  datatype Event = Event(token: nat, ok: bool, why: set<Cause>)

  /**
    `row` is the pair on the row, none before the first and after a removal. `next` numbers the upstream's next pair, `past`
    are the pairs the row no longer holds, `spent` the refresh tokens exchanged, `unstored` those of them whose new pair was
    not written by a store that failed.
   */
  datatype State = State(
    row: Option<nat>,
    hold: Option<nat>,
    reqs: map<nat, Request>,
    next: nat,
    past: set<nat>,
    spent: set<nat>,
    unstored: set<nat>,
    log: seq<Event>)

  datatype Action =
    | Login                         // a fresh pair is written on the row by someone who just obtained it
    | Remove                        // the row ends, or its tokens are removed
    | Start(r: nat)
    | LoadAccess(r: nat)
    | LoadAccessFails(r: nat)       // cached like any read: the ladder is not entered
    | Rejected(r: nat)              // sent and rejected as unauthorized, or no token to send
    | Hold(r: nat)
    | Refused(r: nat, last: bool)   // another request holds; `last` when the attempts or the context are over
    | HoldFails(r: nat)
    | Recheck(r: nat)
    | RecheckFails(r: nat)
    | Check(r: nat)
    | CheckFails(r: nat)
    | AdoptRefresh(r: nat)
    | AdoptFails(r: nat)
    | LoadRefresh(r: nat)
    | LoadRefreshFails(r: nat)      // cached like any read: no refresh token from now on
    | ExtrasFail(r: nat)
    | Present(r: nat, ok: bool)
    | Store(r: nat, existed: bool)  // refused by a row that has ended
    | StoreFails(r: nat, landed: bool)
    | Leave(r: nat)

  function Init(): State {
    State(None, None, map[], 0, {}, {}, {}, [])
  }

  predicate At(st: State, r: nat, stage: Stage) {
    r in st.reqs && st.reqs[r].stage == stage
  }

  predicate Enabled(st: State, act: Action) {
    match act
    case Login => true
    case Remove => st.row.Some?
    case Start(r) => r !in st.reqs
    case LoadAccess(r) => At(st, r, Idle) && st.reqs[r].access.Unread?
    case LoadAccessFails(r) => At(st, r, Idle) && st.reqs[r].access.Unread?
    case Rejected(r) => At(st, r, Idle) && st.reqs[r].access.Read?
    case Hold(r) => At(st, r, Wanting) && st.hold.None?
    case Refused(r, _) => At(st, r, Wanting) && st.hold.Some?
    case HoldFails(r) => At(st, r, Wanting)
    case Recheck(r) => At(st, r, Waiting)
    case RecheckFails(r) => At(st, r, Waiting)
    case Check(r) => At(st, r, Checking)
    case CheckFails(r) => At(st, r, Checking)
    case AdoptRefresh(r) => r in st.reqs && st.reqs[r].stage.Adopting?
    case AdoptFails(r) => r in st.reqs && st.reqs[r].stage.Adopting?
    case LoadRefresh(r) => r in st.reqs && st.reqs[r].stage.Refreshing?
    case LoadRefreshFails(r) => r in st.reqs && st.reqs[r].stage.Refreshing? && st.reqs[r].refresh.Unread?
    case ExtrasFail(r) => r in st.reqs && st.reqs[r].stage.Presenting?
    case Present(r, _) => r in st.reqs && st.reqs[r].stage.Presenting? && Full(st.reqs[r].refresh)
    case Store(r, existed) => r in st.reqs && st.reqs[r].stage.Storing? && (existed || st.row.None?)
    case StoreFails(r, _) => r in st.reqs && st.reqs[r].stage.Storing?
    case Leave(r) => At(st, r, Leaving)
  }

  /** The row holds a pair whose access token differs from the one this request failed with. */
  predicate Refreshed(row: Option<nat>, req: Request) {
    row.Some? && req.access != Read(row)
  }

  function Kept(st: State): set<nat> {
    if st.row.Some? then st.past + {st.row.value} else st.past
  }

  function To(st: State, r: nat, req: Request): State {
    st.(reqs := st.reqs[r := req])
  }

  function LoadedRefresh(row: Option<nat>, req: Request, why: set<Cause>): Request {
    var slot := if req.refresh.Unread? then Read(row) else req.refresh;
    req.(refresh := slot, stage := if Full(slot) then Presenting(why) else Leaving)
  }

  /** The pair read at the check is the row's: go on to the refresh token, or adopt. */
  function Checked(row: Option<nat>, req: Request): Request {
    if Refreshed(row, req) then req.(access := Read(row), stage := Adopting(true))
    else req.(stage := Refreshing(if row.None? then {RowEmpty} else {}))
  }

  function Adopted(row: Option<nat>, req: Request): Request
    requires req.stage.Adopting?
  {
    var next := if req.stage.inside then Leaving else Idle;
    if row.Some? then req.(refresh := Read(row), torn := false, stage := next) else req.(stage := next)
  }

  /** What had gone wrong before this request sends its refresh token. */
  function Causes(st: State, req: Request): set<Cause>
    requires req.stage.Presenting? && Full(req.refresh)
  {
    req.stage.why + (if req.torn then {AdoptionFailed} else {})
    + (if req.refresh.found.value in st.unstored then {StoreFailed} else {})
  }

  function Presented(st: State, r: nat, ok: bool): State
    requires r in st.reqs && st.reqs[r].stage.Presenting? && Full(st.reqs[r].refresh)
  {
    var req := st.reqs[r];
    var q := req.refresh.found.value;
    var sent := st.(log := st.log + [Event(q, ok, Causes(st, req))]);
    if ok then To(sent, r, req.(stage := Storing(st.next, q))).(next := st.next + 1, spent := st.spent + {q})
    else To(sent, r, req.(stage := Leaving))
  }

  function Do(st: State, act: Action): State
    requires Enabled(st, act)
  {
    match act
    case Login => st.(row := Some(st.next), next := st.next + 1, past := Kept(st))
    case Remove => st.(row := None, past := Kept(st))
    case Start(r) => To(st, r, Request(Unread, Unread, false, Idle))
    case LoadAccess(r) => To(st, r, st.reqs[r].(access := Read(st.row)))
    case LoadAccessFails(r) => To(st, r, st.reqs[r].(access := Broken))
    case Rejected(r) => To(st, r, st.reqs[r].(stage := Wanting))
    case Hold(r) => To(st, r, st.reqs[r].(stage := Checking)).(hold := Some(r))
    case Refused(r, last) => To(st, r, st.reqs[r].(stage := if last then Idle else Waiting))
    case HoldFails(r) => To(st, r, st.reqs[r].(stage := Idle))
    case Recheck(r) =>
      To(st, r, if Refreshed(st.row, st.reqs[r]) then st.reqs[r].(access := Read(st.row), stage := Adopting(false))
                else st.reqs[r].(stage := Wanting))
    case RecheckFails(r) => To(st, r, st.reqs[r].(stage := Wanting))
    case Check(r) => To(st, r, Checked(st.row, st.reqs[r]))
    case CheckFails(r) => To(st, r, st.reqs[r].(stage := Refreshing({CheckFailed})))
    case AdoptRefresh(r) => To(st, r, Adopted(st.row, st.reqs[r]))
    case AdoptFails(r) =>
      To(st, r, st.reqs[r].(torn := true, stage := if st.reqs[r].stage.inside then Leaving else Idle))
    case LoadRefresh(r) => To(st, r, LoadedRefresh(st.row, st.reqs[r], st.reqs[r].stage.why))
    case LoadRefreshFails(r) => To(st, r, st.reqs[r].(refresh := Broken, stage := Leaving))
    case ExtrasFail(r) => To(st, r, st.reqs[r].(stage := Leaving))
    case Present(r, ok) => Presented(st, r, ok)
    case Store(r, existed) =>
      if existed then
        var n := st.reqs[r].stage.pair;
        To(st, r, Request(Read(Some(n)), Read(Some(n)), false, Leaving)).(row := Some(n), past := Kept(st))
      else To(st, r, st.reqs[r].(stage := Leaving))
    case StoreFails(r, landed) =>
      var left := To(st, r, st.reqs[r].(stage := Leaving));
      if landed then left.(row := Some(st.reqs[r].stage.pair), past := Kept(st))
      else left.(unstored := st.unstored + {st.reqs[r].stage.used})
    case Leave(r) => To(st, r, st.reqs[r].(stage := Idle)).(hold := None)
  }

  // ----- what every step keeps -----

  predicate Inside(stage: Stage) {
    match stage
    case Idle | Wanting | Waiting => false
    case Adopting(inside) => inside
    case _ => true
  }

  predicate Full(slot: Slot) {
    slot.Read? && slot.found.Some?
  }

  /** A pair once on the row: there still, or past. */
  predicate Known(row: Option<nat>, past: set<nat>, slot: Slot) {
    Full(slot) ==> row == slot.found || slot.found.value in past
  }

  /** The refresh slot belongs to the access slot, unless that access token is past and its request will adopt, or it is torn. */
  predicate Linked(past: set<nat>, req: Request) {
    Full(req.access) && Full(req.refresh) ==> req.torn || req.refresh == req.access || req.access.found.value in past
  }

  /** About to send, with nothing gone wrong on the way. */
  predicate Sends(req: Request) {
    (req.stage.Refreshing? || req.stage.Presenting?) && req.stage.why == {} && !req.torn
  }

  predicate ReqOk(row: Option<nat>, next: nat, past: set<nat>, spent: set<nat>, unstored: set<nat>, req: Request) {
    && Known(row, past, req.access) && Known(row, past, req.refresh)
    && (!req.access.Read? ==> req.refresh.Unread? && req.stage.Idle?)
    && (req.stage.Adopting? ==> Full(req.access))
    && (!req.stage.Adopting? ==> Linked(past, req))
    && (Sends(req) && Full(req.refresh) ==> req.refresh.found.value !in spent || req.refresh.found.value in unstored)
    && (req.stage.Storing? ==>
          req.stage.pair < next && req.stage.pair !in past + spent && row != Some(req.stage.pair) && req.stage.used in spent)
  }

  ghost predicate ReqsOk(st: State) {
    forall r :: r in st.reqs ==> ReqOk(st.row, st.next, st.past, st.spent, st.unstored, st.reqs[r])
  }

  ghost predicate HoldOk(st: State) {
    forall r :: r in st.reqs && Inside(st.reqs[r].stage) ==> st.hold == Some(r)
  }

  /** The holder has exchanged this token and is about to store its new pair. */
  predicate HolderStores(st: State, token: nat) {
    && st.hold.Some? && st.hold.value in st.reqs
    && st.reqs[st.hold.value].stage.Storing? && st.reqs[st.hold.value].stage.used == token
  }

  ghost predicate WorldOk(st: State) {
    && (forall n :: n in st.past ==> n < st.next)
    && (forall n :: n in st.spent ==> n < st.next)
    && (st.row.Some? ==> st.row.value < st.next && st.row.value !in st.past)
    && (forall n :: n in st.unstored ==> n in st.spent)
    && (st.row.Some? && st.row.value in st.spent ==> HolderStores(st, st.row.value) || st.row.value in st.unstored)
  }

  ghost predicate Exchanged(log: seq<Event>, token: nat) {
    exists i :: 0 <= i < |log| && log[i].ok && log[i].token == token
  }

  /** A token exchanged is not sent again, unless something went wrong before. */
  ghost predicate LogOk(log: seq<Event>, spent: set<nat>) {
    && (forall token :: token in spent <==> Exchanged(log, token))
    && (forall i, j :: 0 <= i < j < |log| && log[i].token == log[j].token ==> !log[i].ok || log[j].why != {})
  }

  lemma LogGrows(log: seq<Event>, spent: set<nat>, e: Event)
    requires LogOk(log, spent) && (e.token in spent ==> e.why != {})
    ensures LogOk(log + [e], if e.ok then spent + {e.token} else spent)
  {
    var more := log + [e];
    assert forall i :: 0 <= i < |log| ==> more[i] == log[i];
    forall token
      ensures Exchanged(more, token) <==> Exchanged(log, token) || (e.ok && e.token == token)
    {
      if e.ok && e.token == token {
        assert more[|log|].ok && more[|log|].token == token;
      } else if Exchanged(log, token) {
        var i :| 0 <= i < |log| && log[i].ok && log[i].token == token;
        assert more[i].ok && more[i].token == token;
      }
    }
    forall i, j | 0 <= i < j < |more| && more[i].token == more[j].token
      ensures !more[i].ok || more[j].why != {}
    {
      if j == |log| && more[i].ok {
        assert Exchanged(log, e.token);
      }
    }
  }

  ghost predicate Facts(st: State) {
    WorldOk(st) && HoldOk(st) && ReqsOk(st) && LogOk(st.log, st.spent)
  }

  /** The invariant, folded. */
  ghost predicate Inv(st: State) {
    forall x :: x == st ==> Facts(x)
  }

  lemma PresentReqs(st: State, r: nat, ok: bool)
    requires Facts(st) && Enabled(st, Present(r, ok))
    ensures ReqsOk(Presented(st, r, ok)) && HoldOk(Presented(st, r, ok))
  {
    assert ReqOk(st.row, st.next, st.past, st.spent, st.unstored, st.reqs[r]);
  }

  lemma PresentWorld(st: State, r: nat, ok: bool)
    requires Facts(st) && Enabled(st, Present(r, ok))
    ensures WorldOk(Presented(st, r, ok))
  {
    assert ReqOk(st.row, st.next, st.past, st.spent, st.unstored, st.reqs[r]);
    RowUnspent(st, r);
  }

  lemma PresentKeeps(st: State, r: nat, ok: bool)
    requires Inv(st) && Enabled(st, Present(r, ok))
    ensures Inv(Do(st, Present(r, ok)))
  {
    assert Facts(st);
    assert ReqOk(st.row, st.next, st.past, st.spent, st.unstored, st.reqs[r]);
    var req := st.reqs[r];
    CausesEmpty(st, req);
    LogGrows(st.log, st.spent, Event(req.refresh.found.value, ok, Causes(st, req)));
    PresentReqs(st, r, ok);
    PresentWorld(st, r, ok);
    assert Facts(Presented(st, r, ok));
  }

  lemma CausesEmpty(st: State, req: Request)
    requires req.stage.Presenting? && Full(req.refresh)
    ensures Causes(st, req) == {} <==> Sends(req) && req.refresh.found.value !in st.unstored
  {
    assert req.torn ==> AdoptionFailed in Causes(st, req);
    assert req.refresh.found.value in st.unstored ==> StoreFailed in Causes(st, req);
    assert forall c :: c in req.stage.why ==> c in Causes(st, req);
  }

  /** Nobody but the holder stores. */
  lemma RowUnspent(st: State, r: nat)
    requires Facts(st) && r in st.reqs && Inside(st.reqs[r].stage) && !st.reqs[r].stage.Storing?
    ensures st.row.Some? && st.row.value in st.spent ==> st.row.value in st.unstored
  {}

  lemma StoreKeeps(st: State, r: nat, existed: bool)
    requires Inv(st) && Enabled(st, Store(r, existed))
    ensures Inv(Do(st, Store(r, existed)))
  {
    assert Facts(st);
  }

  lemma StoreFailsKeeps(st: State, r: nat, landed: bool)
    requires Inv(st) && Enabled(st, StoreFails(r, landed))
    ensures Inv(Do(st, StoreFails(r, landed)))
  {
    assert Facts(st);
  }

  lemma RowKeeps(st: State, act: Action)
    requires Inv(st) && Enabled(st, act) && (act.Login? || act.Remove?)
    ensures Inv(Do(st, act))
  {
    assert Facts(st);
  }

  /** A request alone moved, and not to storing or from it. */
  lemma MovedKeeps(st: State, r: nat, req: Request, hold: Option<nat>)
    requires Inv(st) && (r in st.reqs ==> !st.reqs[r].stage.Storing?) && !req.stage.Storing?
    requires ReqOk(st.row, st.next, st.past, st.spent, st.unstored, req)
    requires Inside(req.stage) ==> hold == Some(r)
    requires hold == st.hold || st.hold.None? || (st.hold == Some(r) && r in st.reqs)
    ensures Inv(To(st, r, req).(hold := hold))
  {
    assert Facts(st);
    var st' := To(st, r, req).(hold := hold);
    assert WorldOk(st');
    assert HoldOk(st');
    assert ReqsOk(st');
    assert Facts(st');
  }

  lemma LoadRefreshKeeps(st: State, r: nat)
    requires Inv(st) && Enabled(st, LoadRefresh(r))
    ensures Inv(Do(st, LoadRefresh(r)))
  {
    assert Facts(st);
    RowUnspent(st, r);
    MovedKeeps(st, r, LoadedRefresh(st.row, st.reqs[r], st.reqs[r].stage.why), st.hold);
  }

  /** Adopting another request's pair keeps the slots linked, inside and outside the hold. */
  lemma AdoptKeeps(st: State, r: nat)
    requires Inv(st) && Enabled(st, AdoptRefresh(r))
    ensures Inv(Do(st, AdoptRefresh(r)))
  {
    assert Facts(st);
    MovedKeeps(st, r, Adopted(st.row, st.reqs[r]), st.hold);
  }

  /** Not refreshed meanwhile, the slots hold the row's own pair, and nobody has spent it. */
  lemma CheckKeeps(st: State, r: nat)
    requires Inv(st) && Enabled(st, Check(r))
    ensures Inv(Do(st, Check(r)))
  {
    assert Facts(st);
    RowUnspent(st, r);
    MovedKeeps(st, r, Checked(st.row, st.reqs[r]), st.hold);
  }

  lemma RecheckKeeps(st: State, r: nat)
    requires Inv(st) && Enabled(st, Recheck(r))
    ensures Inv(Do(st, Recheck(r)))
  {
    assert Facts(st);
    MovedKeeps(st, r, Do(st, Recheck(r)).reqs[r], st.hold);
  }

  predicate Slight(act: Action) {
    || act.Start? || act.LoadAccess? || act.LoadAccessFails? || act.Rejected? || act.Refused? || act.HoldFails?
    || act.RecheckFails? || act.CheckFails? || act.AdoptFails? || act.LoadRefreshFails? || act.ExtrasFail? || act.Hold? || act.Leave?
  }

  lemma SlightKeeps(st: State, act: Action)
    requires Inv(st) && Enabled(st, act) && Slight(act)
    ensures Inv(Do(st, act))
  {
    assert Facts(st);
    var st' := Do(st, act);
    MovedKeeps(st, act.r, st'.reqs[act.r], st'.hold);
    assert st' == To(st, act.r, st'.reqs[act.r]).(hold := st'.hold);
  }

  lemma StepKeeps(st: State, act: Action)
    requires Inv(st) && Enabled(st, act)
    ensures Inv(Do(st, act))
  {
    match act
    case Present(r, ok) => PresentKeeps(st, r, ok);
    case Store(r, existed) => StoreKeeps(st, r, existed);
    case StoreFails(r, landed) => StoreFailsKeeps(st, r, landed);
    case Login => RowKeeps(st, act);
    case Remove => RowKeeps(st, act);
    case LoadRefresh(r) => LoadRefreshKeeps(st, r);
    case AdoptRefresh(r) => AdoptKeeps(st, r);
    case Check(r) => CheckKeeps(st, r);
    case Recheck(r) => RecheckKeeps(st, r);
    case _ => SlightKeeps(st, act);
  }

  // ----- runs -----

  ghost predicate Run(tr: seq<State>, acts: seq<Action>) {
    && |tr| == |acts| + 1 && tr[0] == Init()
    && forall i :: 0 <= i < |acts| ==> Enabled(tr[i], acts[i]) && tr[i + 1] == Do(tr[i], acts[i])
  }

  lemma {:induction false} RunKeeps(tr: seq<State>, acts: seq<Action>, k: nat)
    requires Run(tr, acts) && k < |tr|
    ensures Inv(tr[k])
  {
    if k == 0 {
      assert Facts(tr[0]);
    } else {
      RunKeeps(tr, acts, k - 1);
      StepKeeps(tr[k - 1], acts[k - 1]);
    }
  }

  /**
    In every run, of any number of requests, removals, logins and failing reads and writes: a refresh token is sent upstream a
    second time only when the earlier exchange failed, or when one of the four causes came before: the check under the hold
    found no tokens on the row, or could not read it; the request took over an access token without its refresh token; or the
    pair it was exchanged for was never written.
   */
  lemma NoReplay(tr: seq<State>, acts: seq<Action>, k: nat, i: nat, j: nat)
    requires Run(tr, acts) && k < |tr| && i < j < |tr[k].log|
    requires tr[k].log[i].token == tr[k].log[j].token
    ensures !tr[k].log[i].ok || tr[k].log[j].why != {}
  {
    RunKeeps(tr, acts, k);
    assert Facts(tr[k]);
  }

  // ----- what a request sends after its ladder -----

  /** The step gives r a new access token: its own exchange's, or one another request stored meanwhile. */
  predicate Renews(st: State, act: Action, r: nat) {
    act == Store(r, true) || ((act == Check(r) || act == Recheck(r)) && r in st.reqs && Refreshed(st.row, st.reqs[r]))
  }

  /** Its ladder has nothing more to do but to read the refresh token and to leave. */
  predicate Renewed(req: Request) {
    Full(req.access) && (req.stage.Adopting? || req.stage == Leaving || req.stage == Idle)
  }

  /** The row's token then, and not the one before. After an exchange the refresh token is that pair's too. */
  lemma RenewsIs(st: State, act: Action, r: nat)
    requires Inv(st) && Enabled(st, act) && Renews(st, act, r)
    ensures r in st.reqs && r in Do(st, act).reqs && !Renewed(st.reqs[r])
    ensures var req, st' := st.reqs[r], Do(st, act);
      var req' := st'.reqs[r];
      && Renewed(req') && req'.access == Read(st'.row) && req'.access != req.access
      && (act.Store? ==> req'.refresh == req'.access && !req'.torn)
  {
    assert Facts(st);
    assert ReqOk(st.row, st.next, st.past, st.spent, st.unstored, st.reqs[r]);
  }

  /** An adoption that reads the row takes the refresh token of the pair there. */
  lemma AdoptsPair(st: State, r: nat)
    requires Enabled(st, AdoptRefresh(r)) && st.row.Some?
    ensures var req := Do(st, AdoptRefresh(r)).reqs[r];
      req.refresh == Read(st.row) && !req.torn && req.access == st.reqs[r].access
  {}

  /** Any other step leaves its access token, until it is rejected. */
  lemma AccessStays(st: State, act: Action, r: nat)
    requires Enabled(st, act) && !Renews(st, act, r) && act != Rejected(r) && r in st.reqs && st.reqs[r].access.Read?
    ensures r in Do(st, act).reqs && Do(st, act).reqs[r].access == st.reqs[r].access
    ensures Renewed(st.reqs[r]) ==> Renewed(Do(st, act).reqs[r])
  {}

  ghost predicate RenewedIn(tr: seq<State>, acts: seq<Action>, j: nat, k: nat, r: nat)
    requires Run(tr, acts) && k < |tr|
  {
    exists i :: j < i < k && Renews(tr[i], acts[i], r)
  }

  ghost predicate OnRow(tr: seq<State>, j: nat, k: nat, slot: Slot)
    requires k < |tr|
  {
    exists i :: j < i <= k && Read(tr[i].row) == slot
  }

  /** Renewed since its rejection, it holds another token, one the row held after that; not renewed, the same. */
  ghost predicate SendsAsDue(tr: seq<State>, acts: seq<Action>, j: nat, k: nat, r: nat)
    requires Run(tr, acts) && j < k < |tr|
  {
    && r in tr[j].reqs && r in tr[k].reqs && tr[k].reqs[r].access.Read?
    && var rejected, now := tr[j].reqs[r].access, tr[k].reqs[r].access;
       if RenewedIn(tr, acts, j, k, r) then now != rejected && OnRow(tr, j, k, now) && Renewed(tr[k].reqs[r]) else now == rejected
  }

  lemma RenewedStays(tr: seq<State>, acts: seq<Action>, j: nat, k: nat, r: nat)
    requires Run(tr, acts) && j < k < |tr| - 1 && SendsAsDue(tr, acts, j, k, r) && Inv(tr[k]) && acts[k] != Rejected(r)
    requires RenewedIn(tr, acts, j, k, r)
    ensures SendsAsDue(tr, acts, j, k + 1, r)
  {
    var i :| j < i < k && Renews(tr[i], acts[i], r);
    assert RenewedIn(tr, acts, j, k + 1, r);
    assert !Renews(tr[k], acts[k], r) by {
      if Renews(tr[k], acts[k], r) { RenewsIs(tr[k], acts[k], r); }
    }
    AccessStays(tr[k], acts[k], r);
    var m :| j < m <= k && Read(tr[m].row) == tr[k].reqs[r].access;
    assert OnRow(tr, j, k + 1, tr[k + 1].reqs[r].access);
  }

  lemma RenewedNow(tr: seq<State>, acts: seq<Action>, j: nat, k: nat, r: nat)
    requires Run(tr, acts) && j < k < |tr| - 1 && SendsAsDue(tr, acts, j, k, r) && Inv(tr[k]) && acts[k] != Rejected(r)
    requires !RenewedIn(tr, acts, j, k, r)
    ensures SendsAsDue(tr, acts, j, k + 1, r)
  {
    if Renews(tr[k], acts[k], r) {
      RenewsIs(tr[k], acts[k], r);
      assert RenewedIn(tr, acts, j, k + 1, r);
      assert OnRow(tr, j, k + 1, tr[k + 1].reqs[r].access);
    } else {
      AccessStays(tr[k], acts[k], r);
      assert !RenewedIn(tr, acts, j, k + 1, r);
    }
  }

  /**
    From a rejection on, until the next: a request that refreshed or adopted holds, and sends, an access token other than the
    rejected one that was on the row after the rejection; one that did neither holds what it held.
   */
  lemma {:induction false} SendsRenewed(tr: seq<State>, acts: seq<Action>, j: nat, k: nat, r: nat)
    requires Run(tr, acts) && j < k < |tr| && acts[j] == Rejected(r) && forall i :: j < i < k ==> acts[i] != Rejected(r)
    ensures SendsAsDue(tr, acts, j, k, r)
  {
    if j + 1 == k {
      assert Enabled(tr[j], acts[j]) && tr[j + 1] == Do(tr[j], acts[j]);
    } else {
      SendsRenewed(tr, acts, j, k - 1, r);
      RunKeeps(tr, acts, k - 1);
      if RenewedIn(tr, acts, j, k - 1, r) {
        RenewedStays(tr, acts, j, k - 1, r);
      } else {
        RenewedNow(tr, acts, j, k - 1, r);
      }
    }
  }

  // ----- the exceptions are real -----

  ghost predicate EndsRun(st: State) {
    exists tr: seq<State>, acts: seq<Action> :: Run(tr, acts) && tr[|acts|] == st
  }

  /** The end of some run, folded. */
  ghost predicate Reachable(st: State) {
    forall x :: x == st ==> EndsRun(x)
  }

  lemma ReachStep(st: State, act: Action)
    requires Reachable(st) && Enabled(st, act)
    ensures Reachable(Do(st, act))
  {
    assert EndsRun(st);
    var tr: seq<State>, acts: seq<Action> :| Run(tr, acts) && tr[|acts|] == st;
    var tr', acts' := tr + [Do(st, act)], acts + [act];
    assert Run(tr', acts') && tr'[|acts'|] == Do(st, act);
  }

  lemma ReachInit()
    ensures Reachable(Init())
  {
    var none: seq<Action> := [];
    assert Run([Init()], none) && [Init()][|none|] == Init();
  }

  lemma ReachedIsOk(st: State)
    requires Reachable(st)
    ensures Facts(st)
  {
    assert EndsRun(st);
    var tr: seq<State>, acts: seq<Action> :| Run(tr, acts) && tr[|acts|] == st;
    RunKeeps(tr, acts, |acts|);
  }

  /** Request r as it stands under the hold. */
  function Under(st: State, r: nat, req: Request): State {
    To(st, r, req).(hold := Some(r))
  }

  lemma ComesToCheck(st: State, r: nat)
    requires Reachable(st) && st.hold.None? && At(st, r, Idle) && st.reqs[r].access.Read?
    ensures Reachable(Under(st, r, st.reqs[r].(stage := Checking)))
  {
    ReachStep(st, Rejected(r));
    var st1 := Do(st, Rejected(r));
    ReachStep(st1, Hold(r));
    assert Do(st1, Hold(r)) == Under(st, r, st.reqs[r].(stage := Checking));
  }

  lemma LoadsAndLeads(st: State, r: nat, why: set<Cause>)
    requires r in st.reqs && Reachable(Under(st, r, st.reqs[r].(stage := Refreshing(why))))
    ensures Reachable(Under(st, r, LoadedRefresh(st.row, st.reqs[r], why)))
  {
    var st1 := Under(st, r, st.reqs[r].(stage := Refreshing(why)));
    ReachStep(st1, LoadRefresh(r));
    assert Do(st1, LoadRefresh(r)) == Under(st, r, LoadedRefresh(st.row, st.reqs[r], why));
  }

  /** A request whose access token is rejected, with the row not refreshed and the hold free, comes to its refresh token. */
  lemma ComesToPresent(st: State, r: nat)
    requires Reachable(st) && st.hold.None? && At(st, r, Idle) && st.reqs[r].access.Read? && !Refreshed(st.row, st.reqs[r])
    ensures Reachable(Under(st, r, LoadedRefresh(st.row, st.reqs[r], if st.row.None? then {RowEmpty} else {})))
  {
    ComesToCheck(st, r);
    var st2 := Under(st, r, st.reqs[r].(stage := Checking));
    ReachStep(st2, Check(r));
    var why := if st.row.None? then {RowEmpty} else {};
    assert Do(st2, Check(r)) == Under(st, r, st.reqs[r].(stage := Refreshing(why)));
    LoadsAndLeads(st, r, why);
  }

  /** The token of a request about to send it, sent. */
  lemma SendsIt(st: State, r: nat)
    requires Reachable(st) && r in st.reqs && st.reqs[r].stage.Presenting? && Full(st.reqs[r].refresh)
    ensures Sent(st.log, Event(st.reqs[r].refresh.found.value, true, Causes(st, st.reqs[r])))
  {
    ReachStep(st, Present(r, true));
    assert Do(st, Present(r, true)).log == st.log + [Event(st.reqs[r].refresh.found.value, true, Causes(st, st.reqs[r]))];
  }

  /** A run that has logged this much goes on to log this. */
  ghost predicate Sent(log: seq<Event>, e: Event) {
    exists st: State :: Reachable(st) && st.log == log + [e]
  }

  /** After a failed exchange, a request that fails again before anyone refreshed sends the same token again. */
  lemma FailureReplays(st: State, r: nat)
    requires Reachable(st) && Enabled(st, Present(r, false)) && st.hold == Some(r)
    requires Full(st.reqs[r].access) && st.row == st.reqs[r].access.found
    ensures var q, why := st.reqs[r].refresh.found.value, Causes(st, st.reqs[r]);
      exists again :: Sent(st.log + [Event(q, false, why)], Event(q, true, again))
  {
    var q, why := st.reqs[r].refresh.found.value, Causes(st, st.reqs[r]);
    ReachStep(st, Present(r, false));
    var st1 := Do(st, Present(r, false));
    ReachStep(st1, Leave(r));
    var st2 := Do(st1, Leave(r));
    ComesToPresent(st2, r);
    var st3 := Under(st2, r, LoadedRefresh(st2.row, st2.reqs[r], {}));
    SendsIt(st3, r);
    assert st3.log == st.log + [Event(q, false, why)];
  }

  /** A request between its ladder runs that holds a refresh token exchanged already. */
  predicate HoldsSpent(st: State, r: nat) {
    st.hold.None? && At(st, r, Idle) && Full(st.reqs[r].refresh) && st.reqs[r].refresh.found.value in st.spent
  }

  /** The request sends its token a second time, for this cause. */
  ghost predicate Replays(st: State, r: nat, cause: Cause)
    requires r in st.reqs && Full(st.reqs[r].refresh)
  {
    var q := st.reqs[r].refresh.found.value;
    Exchanged(st.log, q) && exists why: set<Cause> :: cause in why && Sent(st.log, Event(q, true, why))
  }

  lemma ReplaysIt(st: State, r: nat, why: set<Cause>, cause: Cause)
    requires Reachable(st) && HoldsSpent(st, r) && Reachable(Under(st, r, LoadedRefresh(st.row, st.reqs[r], why)))
    requires cause in why || (cause == AdoptionFailed && st.reqs[r].torn)
    ensures Replays(st, r, cause)
  {
    ReachedIsOk(st);
    var st1 := Under(st, r, LoadedRefresh(st.row, st.reqs[r], why));
    SendsIt(st1, r);
    assert cause in Causes(st1, st1.reqs[r]);
  }

  /** With no tokens on the row there is no access token to differ from. */
  lemma RemovalReplays(st: State, r: nat)
    requires Reachable(st) && HoldsSpent(st, r) && st.row.None?
    ensures Replays(st, r, RowEmpty)
  {
    ReachedIsOk(st);
    ComesToPresent(st, r);
    ReplaysIt(st, r, {RowEmpty}, RowEmpty);
  }

  /** A check that cannot read the row goes on to the cached token, whatever the row holds. */
  lemma CheckFailureReplays(st: State, r: nat)
    requires Reachable(st) && HoldsSpent(st, r)
    ensures Replays(st, r, CheckFailed)
  {
    ReachedIsOk(st);
    ComesToCheck(st, r);
    var st1 := Under(st, r, st.reqs[r].(stage := Checking));
    ReachStep(st1, CheckFails(r));
    assert Do(st1, CheckFails(r)) == Under(st, r, st.reqs[r].(stage := Refreshing({CheckFailed})));
    LoadsAndLeads(st, r, {CheckFailed});
    ReplaysIt(st, r, {CheckFailed}, CheckFailed);
  }

  /** A torn request that has the row's access token finds nothing refreshed. */
  lemma AdoptionFailureReplays(st: State, r: nat)
    requires Reachable(st) && HoldsSpent(st, r) && st.reqs[r].torn && st.row.Some? && st.reqs[r].access == Read(st.row)
    ensures Replays(st, r, AdoptionFailed)
  {
    ComesToPresent(st, r);
    ReplaysIt(st, r, {}, AdoptionFailed);
  }

  lemma ComesWithAccess(st: State, r: nat)
    requires Reachable(st) && r !in st.reqs
    ensures Reachable(To(st, r, Request(Read(st.row), Unread, false, Idle)))
  {
    ReachStep(st, Start(r));
    var st1 := Do(st, Start(r));
    ReachStep(st1, LoadAccess(r));
    assert Do(st1, LoadAccess(r)) == To(st, r, Request(Read(st.row), Unread, false, Idle));
  }

  /** When the store of the new pair fails, the next request to come sends the pair's predecessor, which the row still holds. */
  lemma StoreFailureReplays(st: State, r: nat, next: nat)
    requires Reachable(st) && r in st.reqs && st.reqs[r].stage.Storing? && st.row == Some(st.reqs[r].stage.used) && next !in st.reqs
    ensures Exchanged(st.log, st.reqs[r].stage.used) && Sent(st.log, Event(st.reqs[r].stage.used, true, {StoreFailed}))
  {
    ReachedIsOk(st);
    var q := st.reqs[r].stage.used;
    ReachStep(st, StoreFails(r, false));
    var st1 := Do(st, StoreFails(r, false));
    ReachStep(st1, Leave(r));
    var st2 := Do(st1, Leave(r));
    ComesWithAccess(st2, next);
    var st3 := To(st2, next, Request(Read(st2.row), Unread, false, Idle));
    ComesToPresent(st3, next);
    var st4 := Under(st3, next, LoadedRefresh(st3.row, st3.reqs[next], {}));
    SendsIt(st4, next);
    assert Causes(st4, st4.reqs[next]) == {StoreFailed};
  }

  // ----- and the states they start from are reached -----

  const CACHED := Request(Read(Some(0)), Read(Some(0)), false, Idle)

  /** A request caches the row's first pair and goes no further. */
  lemma Caches()
    ensures Reachable(State(Some(0), None, map[1 := CACHED], 1, {}, {}, {}, []))
  {
    ReachInit();
    ReachStep(Init(), Login);
    var st1 := Do(Init(), Login);
    ComesWithAccess(st1, 1);
    var st3 := To(st1, 1, Request(Read(st1.row), Unread, false, Idle));
    ComesToPresent(st3, 1);
    var st4 := Under(st3, 1, LoadedRefresh(st3.row, st3.reqs[1], {}));
    ReachStep(st4, ExtrasFail(1));
    var st5 := Do(st4, ExtrasFail(1));
    ReachStep(st5, Leave(1));
    assert Do(st5, Leave(1)) == State(Some(0), None, map[1 := CACHED], 1, {}, {}, {}, []);
  }

  /** Another request takes the hold and exchanges the same pair's refresh token. */
  lemma Exchanges() returns (st: State)
    ensures Reachable(st) && st.reqs.Keys == {1, 2} && st.reqs[1] == CACHED && st.reqs[2].stage == Storing(1, 0)
    ensures st.hold == Some(2) && st.row == Some(0) && 0 in st.spent
  {
    Caches();
    var st0 := State(Some(0), None, map[1 := CACHED], 1, {}, {}, {}, []);
    ComesWithAccess(st0, 2);
    var st2 := To(st0, 2, Request(Read(st0.row), Unread, false, Idle));
    ComesToPresent(st2, 2);
    var st3 := Under(st2, 2, LoadedRefresh(st2.row, st2.reqs[2], {}));
    ReachStep(st3, Present(2, true));
    st := Do(st3, Present(2, true));
  }

  /** A store that may fail on the row as it was is reached, for StoreFailureReplays. */
  lemma StoreFailureHappens()
    ensures exists st: State :: Reachable(st) && 2 in st.reqs && st.reqs[2].stage == Storing(1, 0) && st.row == Some(0) && 3 !in st.reqs
  {
    var st := Exchanges();
    assert Reachable(st) && 2 in st.reqs && st.reqs[2].stage == Storing(1, 0) && st.row == Some(0) && 3 !in st.reqs;
  }

  /** The new pair stored, the first request is left with a spent one, for CheckFailureReplays. */
  lemma SpentIsHeld() returns (st: State)
    ensures Reachable(st) && HoldsSpent(st, 1) && st.reqs[1] == CACHED && st.row == Some(1)
  {
    var st4 := Exchanges();
    ReachStep(st4, Store(2, true));
    var st5 := Do(st4, Store(2, true));
    ReachStep(st5, Leave(2));
    st := Do(st5, Leave(2));
  }

  /** And with the row's tokens removed, for RemovalReplays. */
  lemma RemovalHappens()
    ensures exists st: State :: Reachable(st) && HoldsSpent(st, 1) && st.row.None?
  {
    var st := SpentIsHeld();
    ReachStep(st, Remove);
    var st1 := Do(st, Remove);
    assert HoldsSpent(st1, 1) && st1.row.None?;
  }

  /** And torn by an adoption that failed, for AdoptionFailureReplays. */
  lemma AdoptionFailureHappens()
    ensures exists st: State ::
      Reachable(st) && HoldsSpent(st, 1) && st.reqs[1].torn && st.row.Some? && st.reqs[1].access == Read(st.row)
  {
    var st := SpentIsHeld();
    ComesToCheck(st, 1);
    var st1 := Under(st, 1, CACHED.(stage := Checking));
    ReachStep(st1, Check(1));
    var st2 := Do(st1, Check(1));
    ReachStep(st2, AdoptFails(1));
    var st3 := Do(st2, AdoptFails(1));
    ReachStep(st3, Leave(1));
    var st4 := Do(st3, Leave(1));
    assert HoldsSpent(st4, 1) && st4.reqs[1].torn && st4.row.Some? && st4.reqs[1].access == Read(st4.row);
  }
}
