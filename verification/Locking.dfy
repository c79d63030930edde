/**
  The locking manager over two ledgers (gw/locking): an internal ledger per instance and one external ledger in a KVDB.
  First the protocol, over any number of instances and asks; then the manager's own code.
 */
module Locking {
  import opened Basics
  import Decimal

  // ----- proofs -----

  /** A grant's proof: the instance's boot id and its running number. */
  function ProofText(id: string, number: nat): string {
    id + ":" + Decimal.Format(number)
  }

  /** Boot ids are hexadecimal, so no two asks of a fleet ever share a proof. */
  lemma ProofsDiffer(id: string, number: nat, id': string, number': nat)
    requires ':' !in id && ':' !in id'
    ensures ProofText(id, number) == ProofText(id', number') <==> id == id' && number == number'
  {
    CutFirst(id, ':', Decimal.Format(number));
    CutFirst(id', ':', Decimal.Format(number'));
    assert ProofText(id, number) == id + [':'] + Decimal.Format(number);
    assert ProofText(id', number') == id' + [':'] + Decimal.Format(number');
    if Decimal.Format(number) == Decimal.Format(number') {
      Decimal.FormatInjective(number, number');
    }
  }

  /** The id comes before the colon, the number after it. */
  lemma ProofReads(id: string, number: nat)
    requires ':' !in id
    ensures Cut(ProofText(id, number), ':').Some?
    ensures var (before, after) := Cut(ProofText(id, number), ':').value;
      before == id && Decimal.AllDigits(after) && Decimal.Value(after) == number
  {
    CutFirst(id, ':', Decimal.Format(number));
    Decimal.ValueOfFormat(number);
    assert ProofText(id, number) == id + [':'] + Decimal.Format(number);
  }

  // ----- the protocol -----

  datatype Proof = Proof(inst: nat, number: nat)

  /** How far an ask has come: a proof, the internal ledger, the external one; then, leaving, the external and the internal. */
  datatype Stage = Numbered | Reserved | Held | Lost | Retired

  datatype Ask = Ask(proof: Proof, name: string, stage: Stage)

  datatype State = State(
    numbers: map<nat, nat>,
    held: map<(nat, string), Proof>,
    rows: map<string, Proof>,
    asks: map<nat, Ask>)

  /** A store call that fails may have taken effect or not: `landed` says which, and the manager never learns it. */
  datatype Action =
    | Number(ask: nat, inst: nat, name: string)
    | Reserve(ask: nat)
    | Take(ask: nat)
    | TakeFails(ask: nat, landed: bool)
    | Retire(ask: nat)
    | RetireFails(ask: nat, landed: bool)
    | Release(ask: nat)
    | Cleanup(names: set<string>)

  function Init(): State {
    State(map[], map[], map[], map[])
  }

  predicate At(st: State, a: nat, stage: Stage) {
    a in st.asks && st.asks[a].stage == stage
  }

  predicate Enabled(st: State, act: Action) {
    match act
    case Number(a, _, _) => a !in st.asks
    case Reserve(a) => At(st, a, Numbered)
    case Take(a) => At(st, a, Reserved)
    case TakeFails(a, _) => At(st, a, Reserved)
    case Retire(a) => At(st, a, Held)
    case RetireFails(a, _) => At(st, a, Held)
    case Release(a) => At(st, a, Lost) || At(st, a, Retired)
    case Cleanup(_) => true
  }

  function LastNumber(numbers: map<nat, nat>, inst: nat): nat {
    if inst in numbers then numbers[inst] else 0
  }

  function Slot(ask: Ask): (nat, string) {
    (ask.proof.inst, ask.name)
  }

  /** Set-if-absent on the ask's row. */
  function Taken(rows: map<string, Proof>, ask: Ask): map<string, Proof> {
    if ask.name in rows then rows else rows[ask.name := ask.proof]
  }

  /** Delete-if-equals on the ask's row: the proof fences it. */
  function Fenced(rows: map<string, Proof>, ask: Ask): map<string, Proof> {
    if ask.name in rows && rows[ask.name] == ask.proof then rows - {ask.name} else rows
  }

  function Moved(asks: map<nat, Ask>, a: nat, stage: Stage): map<nat, Ask>
    requires a in asks
  {
    asks[a := asks[a].(stage := stage)]
  }

  function Do(st: State, act: Action): State
    requires Enabled(st, act)
  {
    match act
    case Number(a, inst, name) =>
      var n := LastNumber(st.numbers, inst) + 1;
      st.(numbers := st.numbers[inst := n], asks := st.asks[a := Ask(Proof(inst, n), name, Numbered)])
    case Reserve(a) =>
      var ask := st.asks[a];
      if Slot(ask) in st.held then st.(asks := st.asks - {a})
      else st.(held := st.held[Slot(ask) := ask.proof], asks := Moved(st.asks, a, Reserved))
    case Take(a) =>
      st.(rows := Taken(st.rows, st.asks[a]), asks := Moved(st.asks, a, if st.asks[a].name in st.rows then Lost else Held))
    case TakeFails(a, landed) =>
      st.(rows := if landed then Taken(st.rows, st.asks[a]) else st.rows, asks := Moved(st.asks, a, Lost))
    case Retire(a) =>
      st.(rows := Fenced(st.rows, st.asks[a]), asks := Moved(st.asks, a, Retired))
    case RetireFails(a, landed) =>
      st.(rows := if landed then Fenced(st.rows, st.asks[a]) else st.rows, asks := Moved(st.asks, a, Retired))
    case Release(a) =>
      st.(held := st.held - {Slot(st.asks[a])}, asks := st.asks - {a})
    case Cleanup(names) => st.(rows := st.rows - names)
  }

  // ----- what every step keeps -----

  /** Every proof in use was given out, to one ask. */
  ghost predicate ProofsOk(numbers: map<nat, nat>, asks: map<nat, Ask>) {
    && (forall a :: a in asks ==> asks[a].proof.number <= LastNumber(numbers, asks[a].proof.inst))
    && (forall a, b :: a in asks && b in asks && a != b ==> asks[a].proof != asks[b].proof)
  }

  ghost predicate RowsOk(numbers: map<nat, nat>, rows: map<string, Proof>) {
    forall n :: n in rows ==> rows[n].number <= LastNumber(numbers, rows[n].inst)
  }

  /** From its reservation to its release an ask is what its instance's ledger says holds the name. */
  ghost predicate LedgerOk(held: map<(nat, string), Proof>, asks: map<nat, Ask>) {
    forall a :: a in asks && asks[a].stage != Numbered ==>
      Slot(asks[a]) in held && held[Slot(asks[a])] == asks[a].proof
  }

  ghost predicate Facts(st: State) {
    ProofsOk(st.numbers, st.asks) && RowsOk(st.numbers, st.rows) && LedgerOk(st.held, st.asks)
  }

  lemma ProofsKept(st: State, act: Action)
    requires ProofsOk(st.numbers, st.asks) && Enabled(st, act)
    ensures ProofsOk(Do(st, act).numbers, Do(st, act).asks)
  {}

  lemma RowsKept(st: State, act: Action)
    requires ProofsOk(st.numbers, st.asks) && RowsOk(st.numbers, st.rows) && Enabled(st, act)
    ensures RowsOk(Do(st, act).numbers, Do(st, act).rows)
  {}

  /** A release forgets the releasing ask's own entry: the ledger holds no two asks in one slot. */
  lemma LedgerKept(st: State, act: Action)
    requires ProofsOk(st.numbers, st.asks) && LedgerOk(st.held, st.asks) && Enabled(st, act)
    ensures LedgerOk(Do(st, act).held, Do(st, act).asks)
  {}

  lemma StepKeeps(st: State, act: Action)
    requires Facts(st) && Enabled(st, act)
    ensures Facts(Do(st, act))
  {
    ProofsKept(st, act);
    RowsKept(st, act);
    LedgerKept(st, act);
  }

  /** No cleanup takes a name that a running ask holds. */
  predicate Careful(st: State, act: Action) {
    act.Cleanup? ==> forall a :: a in st.asks && st.asks[a].stage == Held ==> st.asks[a].name !in act.names
  }

  /** A holder's row stands under its proof. */
  ghost predicate GrantsStand(st: State) {
    forall a :: a in st.asks && st.asks[a].stage == Held ==>
      st.asks[a].name in st.rows && st.rows[st.asks[a].name] == st.asks[a].proof
  }

  lemma StepKeepsGrants(st: State, act: Action)
    requires Facts(st) && GrantsStand(st) && Enabled(st, act) && Careful(st, act)
    ensures GrantsStand(Do(st, act))
  {}

  // ----- runs -----

  ghost predicate Run(tr: seq<State>, acts: seq<Action>) {
    && |tr| == |acts| + 1 && tr[0] == Init()
    && forall i :: 0 <= i < |acts| ==> Enabled(tr[i], acts[i]) && tr[i + 1] == Do(tr[i], acts[i])
  }

  lemma {:induction false} RunKeeps(tr: seq<State>, acts: seq<Action>, k: nat)
    requires Run(tr, acts) && k < |tr|
    ensures Facts(tr[k])
  {
    if k > 0 {
      RunKeeps(tr, acts, k - 1);
      StepKeeps(tr[k - 1], acts[k - 1]);
    }
  }

  lemma {:induction false} RunKeepsGrants(tr: seq<State>, acts: seq<Action>, k: nat)
    requires Run(tr, acts) && k < |tr|
    requires forall i :: 0 <= i < |acts| ==> Careful(tr[i], acts[i])
    ensures GrantsStand(tr[k])
  {
    if k > 0 {
      RunKeepsGrants(tr, acts, k - 1);
      RunKeeps(tr, acts, k - 1);
      StepKeepsGrants(tr[k - 1], acts[k - 1]);
    }
  }

  /**
    In every run whose cleanups leave held names alone, so in every run without cleanup, at most one ask of all instances
    holds a name, whatever store calls failed on the way.
   */
  lemma OneHolder(tr: seq<State>, acts: seq<Action>, k: nat, a: nat, b: nat)
    requires Run(tr, acts) && k < |tr|
    requires forall i :: 0 <= i < |acts| ==> Careful(tr[i], acts[i])
    requires At(tr[k], a, Held) && At(tr[k], b, Held) && tr[k].asks[a].name == tr[k].asks[b].name
    ensures a == b
  {
    RunKeeps(tr, acts, k);
    RunKeepsGrants(tr, acts, k);
  }

  /** With any cleanup at all: inside one instance a name is past its reservation for one ask only. */
  lemma OneHolderInside(tr: seq<State>, acts: seq<Action>, k: nat, a: nat, b: nat)
    requires Run(tr, acts) && k < |tr|
    requires a in tr[k].asks && b in tr[k].asks && Slot(tr[k].asks[a]) == Slot(tr[k].asks[b])
    requires tr[k].asks[a].stage != Numbered && tr[k].asks[b].stage != Numbered
    ensures a == b
  {
    RunKeeps(tr, acts, k);
  }

  /** With any cleanup at all: a release removes no row but one under its own proof, so never another ask's grant. */
  lemma ReleaseIsFenced(tr: seq<State>, acts: seq<Action>, k: nat, b: nat, name: string)
    requires Run(tr, acts) && k < |acts| && (acts[k].Retire? || acts[k].RetireFails? || acts[k].Release?)
    requires b in tr[k].asks && b != acts[k].ask
    requires name in tr[k].rows && tr[k].rows[name] == tr[k].asks[b].proof
    ensures name in tr[k + 1].rows && tr[k + 1].rows[name] == tr[k].asks[b].proof
  {
    RunKeeps(tr, acts, k);
  }

  /** An ask that finds both ledgers free of its name gets it; either ledger refuses what another holds there. */
  lemma FreeIsGranted(st: State, a: nat)
    requires At(st, a, Numbered)
    ensures Slot(st.asks[a]) in st.held ==> Do(st, Reserve(a)) == st.(asks := st.asks - {a})
    ensures Slot(st.asks[a]) !in st.held ==>
      var st' := Do(Do(st, Reserve(a)), Take(a));
      if st.asks[a].name in st.rows then At(st', a, Lost) && st'.rows == st.rows
      else At(st', a, Held) && st'.rows == st.rows[st.asks[a].name := st.asks[a].proof]
  {}

  /** Some ask past its reservation stands in this slot. */
  ghost predicate HasAsk(asks: map<nat, Ask>, slot: (nat, string)) {
    exists a :: a in asks && asks[a].stage != Numbered && Slot(asks[a]) == slot
  }

  /** Some holder's row this is. */
  ghost predicate HasHolder(asks: map<nat, Ask>, name: string) {
    exists a :: a in asks && asks[a].stage == Held && asks[a].name == name
  }

  ghost predicate NothingLeft(st: State) {
    forall slot :: slot in st.held ==> HasAsk(st.asks, slot)
  }

  ghost predicate NoRowLeft(st: State) {
    forall name :: name in st.rows ==> HasHolder(st.asks, name)
  }

  lemma AskStays(st: State, act: Action, slot: (nat, string))
    requires Facts(st) && Enabled(st, act) && HasAsk(st.asks, slot) && slot in Do(st, act).held
    ensures HasAsk(Do(st, act).asks, slot)
  {
    var a :| a in st.asks && st.asks[a].stage != Numbered && Slot(st.asks[a]) == slot;
    var asks' := Do(st, act).asks;
    assert a in asks' && asks'[a].stage != Numbered && Slot(asks'[a]) == slot;
  }

  lemma StepLeavesNothing(st: State, act: Action)
    requires Facts(st) && NothingLeft(st) && Enabled(st, act)
    ensures NothingLeft(Do(st, act))
  {
    var st' := Do(st, act);
    forall slot | slot in st'.held
      ensures HasAsk(st'.asks, slot)
    {
      if slot in st.held {
        AskStays(st, act, slot);
      } else {
        assert act.ask in st'.asks && Slot(st'.asks[act.ask]) == slot;
      }
    }
  }

  lemma HolderStays(st: State, act: Action, name: string)
    requires Facts(st) && GrantsStand(st) && Enabled(st, act) && !act.TakeFails? && !act.RetireFails? && Careful(st, act)
    requires HasHolder(st.asks, name) && name in Do(st, act).rows
    ensures HasHolder(Do(st, act).asks, name)
  {
    var a :| a in st.asks && st.asks[a].stage == Held && st.asks[a].name == name;
    var asks' := Do(st, act).asks;
    assert a in asks' && asks'[a].stage == Held && asks'[a].name == name;
  }

  lemma StepLeavesNoRow(st: State, act: Action)
    requires Facts(st) && GrantsStand(st) && NoRowLeft(st) && Enabled(st, act) && Careful(st, act)
    requires !act.TakeFails? && !act.RetireFails?
    ensures NoRowLeft(Do(st, act))
  {
    var st' := Do(st, act);
    forall name | name in st'.rows
      ensures HasHolder(st'.asks, name)
    {
      if name in st.rows {
        HolderStays(st, act, name);
      } else {
        assert act.ask in st'.asks && st'.asks[act.ask].stage == Held && st'.asks[act.ask].name == name;
      }
    }
  }

  /**
    In every run, whatever failed and was cleaned up, an instance's ledger holds only names of asks under way there. With no
    store call failing and careful cleanups the external ledger holds only rows of holders. So what is over leaves nothing.
   */
  lemma {:induction false} OverLeavesNothing(tr: seq<State>, acts: seq<Action>, k: nat)
    requires Run(tr, acts) && k < |tr|
    ensures NothingLeft(tr[k]) && (tr[k].asks == map[] ==> tr[k].held == map[])
    ensures (forall i :: 0 <= i < |acts| ==> Careful(tr[i], acts[i]) && !acts[i].TakeFails? && !acts[i].RetireFails?) ==>
      NoRowLeft(tr[k]) && (tr[k].asks == map[] ==> tr[k].rows == map[])
  {
    if k > 0 {
      OverLeavesNothing(tr, acts, k - 1);
      RunKeeps(tr, acts, k - 1);
      StepLeavesNothing(tr[k - 1], acts[k - 1]);
      if forall i :: 0 <= i < |acts| ==> Careful(tr[i], acts[i]) && !acts[i].TakeFails? && !acts[i].RetireFails? {
        RunKeepsGrants(tr, acts, k - 1);
        StepLeavesNoRow(tr[k - 1], acts[k - 1]);
      }
    }
    if tr[k].asks == map[] {
      EmptyLeavesNothing(tr[k]);
    }
  }

  lemma EmptyLeavesNothing(st: State)
    requires NothingLeft(st) && st.asks == map[]
    ensures st.held == map[] && (NoRowLeft(st) ==> st.rows == map[])
  {
    assert forall slot :: slot in st.held ==> HasAsk(st.asks, slot);
    assert NoRowLeft(st) ==> forall name :: name in st.rows ==> HasHolder(st.asks, name);
  }

  /** Care is needed: after a cleanup of a held name, an ask from any instance not holding it becomes a second holder. */
  lemma CarelessCleanup(st: State, a: nat, b: nat, inst: nat)
    requires At(st, a, Held) && b !in st.asks && (inst, st.asks[a].name) !in st.held
    ensures
      var name := st.asks[a].name;
      var st1 := Do(Do(st, Cleanup({name})), Number(b, inst, name));
      var st2 := Do(st1, Reserve(b));
      At(Do(st2, Take(b)), a, Held) && At(Do(st2, Take(b)), b, Held)
  {}

  // ----- the manager's code -----

  datatype Refusal = ActionLocked(name: string) | StoreFailed

  /** A ledger with the first n names added, each under its proof. */
  ghost function Added(ledger: map<string, string>, names: seq<string>, proofs: seq<string>, n: nat): map<string, string>
    requires n <= |names| && n <= |proofs|
  {
    if n == 0 then ledger else Added(ledger, names, proofs, n - 1)[names[n - 1] := proofs[n - 1]]
  }

  lemma {:induction false} AddedKeys(ledger: map<string, string>, names: seq<string>, proofs: seq<string>, n: nat, name: string)
    requires n <= |names| && n <= |proofs|
    ensures name in Added(ledger, names, proofs, n) <==> name in ledger || name in names[..n]
  {
    if n > 0 {
      AddedKeys(ledger, names, proofs, n - 1, name);
      assert names[..n] == names[..n - 1] + [names[n - 1]];
    }
  }

  lemma {:induction false} AddedMore(ledger: map<string, string>, names: seq<string>, proofs: seq<string>, proof: string, n: nat)
    requires n <= |names| && n <= |proofs|
    ensures Added(ledger, names, proofs, n) == Added(ledger, names, proofs + [proof], n)
  {
    if n > 0 {
      AddedMore(ledger, names, proofs, proof, n - 1);
    }
  }

  lemma {:induction false} AddedAt(ledger: map<string, string>, names: seq<string>, proofs: seq<string>, n: nat, k: nat)
    requires k < n <= |names| && n <= |proofs| && Distinct(names)
    ensures names[k] in Added(ledger, names, proofs, n) && Added(ledger, names, proofs, n)[names[k]] == proofs[k]
  {
    if k < n - 1 {
      AddedAt(ledger, names, proofs, n - 1, k);
    }
  }

  /** Both ledgers at one moment. */
  datatype Ledgers = Ledgers(held: map<string, string>, rows: map<string, string>)

  /** Every name stands in both ledgers under a proof of this manager, numbered from the one after `from` on. */
  ghost predicate AllOurs(l: Ledgers, names: seq<string>, id: string, from: nat) {
    forall k :: 0 <= k < |names| ==>
      && names[k] in l.held && l.held[names[k]] == ProofText(id, from + 1 + k)
      && names[k] in l.rows && l.rows[names[k]] == ProofText(id, from + 1 + k)
  }

  lemma AddedAreOurs(held: map<string, string>, rows: map<string, string>, names: seq<string>, proofs: seq<string>, id: string,
                     from: nat)
    requires |proofs| == |names| && Distinct(names) && forall k :: 0 <= k < |proofs| ==> proofs[k] == ProofText(id, from + 1 + k)
    ensures AllOurs(Ledgers(Added(held, names, proofs, |names|), Added(rows, names, proofs, |names|)), names, id, from)
  {
    forall k | 0 <= k < |names|
      ensures names[k] in Added(held, names, proofs, |names|) && Added(held, names, proofs, |names|)[names[k]] == proofs[k]
      ensures names[k] in Added(rows, names, proofs, |names|) && Added(rows, names, proofs, |names|)[names[k]] == proofs[k]
    {
      AddedAt(held, names, proofs, |names|, k);
      AddedAt(rows, names, proofs, |names|, k);
    }
  }

  /** The names a caller could be given all at once. */
  ghost predicate AllFree(names: seq<string>, held: map<string, string>, rows: map<string, string>) {
    Distinct(names) && forall i :: 0 <= i < |names| ==> names[i] !in held && names[i] !in rows
  }

  /** Every row that stood before still stands, and a row that did not is one of these names'. */
  ghost predicate OthersStand(before: map<string, string>, rows: map<string, string>, names: seq<string>) {
    && (forall n :: n in before ==> n in rows && rows[n] == before[n])
    && (forall n :: n in rows && n !in before ==> n in names)
  }

  /** The first names are taken, each under the next of this manager's proofs, and nothing else has changed. */
  ghost predicate TakenSoFar(before: Ledgers, now: Ledgers, names: seq<string>, proofs: seq<string>, id: string, from: nat) {
    && |proofs| <= |names| && AllFree(names[..|proofs|], before.held, before.rows)
    && now == Ledgers(Added(before.held, names, proofs, |proofs|), Added(before.rows, names, proofs, |proofs|))
    && OthersStand(before.rows, now.rows, names)
    && forall k :: 0 <= k < |proofs| ==> proofs[k] == ProofText(id, from + 1 + k)
  }

  lemma TakenMore(before: Ledgers, now: Ledgers, names: seq<string>, proofs: seq<string>, id: string, from: nat, proof: string)
    requires TakenSoFar(before, now, names, proofs, id, from) && |proofs| < |names| && proof == ProofText(id, from + 1 + |proofs|)
    requires names[|proofs|] !in now.held && names[|proofs|] !in now.rows
    ensures var name := names[|proofs|];
      TakenSoFar(before, Ledgers(now.held[name := proof], now.rows[name := proof]), names, proofs + [proof], id, from)
  {
    var n := |proofs|;
    AddedKeys(before.held, names, proofs, n, names[n]);
    AddedKeys(before.rows, names, proofs, n, names[n]);
    AddedMore(before.held, names, proofs, proof, n);
    AddedMore(before.rows, names, proofs, proof, n);
    assert names[..n + 1] == names[..n] + [names[n]];
  }

  lemma TakenRefused(before: Ledgers, now: Ledgers, names: seq<string>, proofs: seq<string>, id: string, from: nat)
    requires TakenSoFar(before, now, names, proofs, id, from) && |proofs| < |names|
    ensures names[|proofs|] in now.held || names[|proofs|] in now.rows ==> !AllFree(names, before.held, before.rows)
  {
    AddedKeys(before.held, names, proofs, |proofs|, names[|proofs|]);
    AddedKeys(before.rows, names, proofs, |proofs|, names[|proofs|]);
  }

  /** One instance's manager, and the external ledger's rows as it meets them when nobody else moves. */
  class Manager {
    const id: string
    var seqNo: nat
    var held: map<string, string>
    var rows: map<string, string>

    constructor (id: string, rows: map<string, string>)
      ensures this.id == id && held == map[] && this.rows == rows
    {
      this.id, seqNo, held, this.rows := id, 0, map[], rows;
    }

    /** Takes a name, or leaves nothing behind in the internal ledger. `failed` tells whether the store call failed. */
    method Acquire(name: string) returns (r: Result<string, Refusal>, failed: bool)
      modifies this
      ensures r.Ok? ==>
        && name !in old(held) && held == old(held)[name := r.value]
        && name !in old(rows) && rows == old(rows)[name := r.value]
      ensures r.Err? ==> held == old(held) && r.error == (if failed then StoreFailed else ActionLocked(name))
      ensures r.Ok? ==> !failed && r.value == ProofText(id, seqNo)
      ensures seqNo == old(seqNo) + 1
      ensures !failed ==> (r.Ok? <==> name !in old(held) && name !in old(rows)) && (r.Err? ==> rows == old(rows))
      ensures failed ==> rows == old(rows) || (name !in old(rows) && rows == old(rows)[name := ProofText(id, seqNo)])
    {
      seqNo := seqNo + 1;
      var proof := ProofText(id, seqNo);
      if name in held {
        return Err(ActionLocked(name)), false;
      }
      held := held[name := proof];
      failed := *;
      var landed: bool := *;
      var won := name !in rows;
      if won && (!failed || landed) {
        rows := rows[name := proof];
      }
      if failed || !won {
        held := held - {name};
        return Err(if failed then StoreFailed else ActionLocked(name)), failed;
      }
      return Ok(proof), false;
    }

    /** The fenced delete, then the internal ledger, whatever the store answered. */
    method GiveBack(name: string, proof: string) returns (failed: bool)
      modifies this
      ensures held == old(held) - {name}
      ensures !failed && name in old(rows) && old(rows)[name] == proof ==> rows == old(rows) - {name}
      ensures rows == old(rows) || (name in old(rows) && old(rows)[name] == proof && rows == old(rows) - {name})
    {
      failed := *;
      var landed: bool := *;
      if (!failed || landed) && name in rows && rows[name] == proof {
        rows := rows - {name};
      }
      held := held - {name};
    }

    /** Gives back the first names taken, last first. */
    method GiveBackAll(names: seq<string>, proofs: seq<string>, ghost before: map<string, string>,
                       ghost rowsBefore: map<string, string>, failed0: bool)
      returns (freed: seq<string>, failed: bool)
      requires |proofs| <= |names|
      requires AllFree(names[..|proofs|], before, rowsBefore)
      requires held == Added(before, names, proofs, |proofs|)
      requires OthersStand(rowsBefore, rows, names)
      requires !failed0 ==> rows == Added(rowsBefore, names, proofs, |proofs|)
      modifies this
      ensures held == before && OthersStand(rowsBefore, rows, names)
      ensures failed0 ==> failed
      ensures !failed ==> rows == rowsBefore
      ensures |freed| == |proofs| && forall k :: 0 <= k < |freed| ==> freed[k] == names[|freed| - 1 - k]
    {
      freed, failed := [], failed0;
      var i := |proofs|;
      while i > 0
        invariant 0 <= i <= |proofs| && (failed0 ==> failed)
        invariant held == Added(before, names, proofs, i)
        invariant OthersStand(rowsBefore, rows, names)
        invariant !failed ==> rows == Added(rowsBefore, names, proofs, i)
        invariant |freed| == |proofs| - i
        invariant forall k :: 0 <= k < |freed| ==> freed[k] == names[|proofs| - 1 - k]
      {
        i := i - 1;
        assert names[i] !in names[..i] && names[i] == names[..|proofs|][i];
        AddedKeys(before, names, proofs, i, names[i]);
        AddedKeys(rowsBefore, names, proofs, i, names[i]);
        var f := GiveBack(names[i], proofs[i]);
        failed := failed || f;
        freed := freed + [names[i]];
      }
    }

    /** Takes the names in order, up to the first that is refused. */
    method TakeAll(names: seq<string>) returns (proofs: seq<string>, refusal: Option<Refusal>, failed: bool)
      modifies this
      ensures |proofs| <= |names| && (refusal.None? <==> |proofs| == |names|) && (failed ==> refusal.Some?)
      ensures held == Added(old(held), names, proofs, |proofs|) && OthersStand(old(rows), rows, names)
      ensures !failed ==> rows == Added(old(rows), names, proofs, |proofs|)
      ensures AllFree(names[..|proofs|], old(held), old(rows))
      ensures forall k :: 0 <= k < |proofs| ==> proofs[k] == ProofText(id, old(seqNo) + 1 + k)
      ensures refusal.Some? ==> refusal.value == if failed then StoreFailed else ActionLocked(names[|proofs|])
      ensures refusal.Some? && !failed ==> !AllFree(names, old(held), old(rows))
    {
      ghost var before, from := Ledgers(held, rows), seqNo;
      proofs := [];
      while |proofs| < |names|
        invariant seqNo == from + |proofs| && TakenSoFar(before, Ledgers(held, rows), names, proofs, id, from)
      {
        ghost var now := Ledgers(held, rows);
        var r, f := Acquire(names[|proofs|]);
        if r.Err? {
          TakenRefused(before, now, names, proofs, id, from);
          return proofs, Some(r.error), f;
        }
        TakenMore(before, now, names, proofs, id, from, r.value);
        proofs := proofs + [r.value];
      }
      return proofs, None, false;
    }

    /**
      All names or none: the function runs exactly when every name could be taken. While it runs, at `inside`, every name
      stands in both ledgers under a proof of this manager alone. Afterwards the internal ledger is what it was, no row of
      anyone else was touched, and, unless a store call failed, the external ledger is what it was.
     */
    method AcquireDoReleaseAll(names: seq<string>)
      returns (ran: bool, refusal: Option<Refusal>, freed: seq<string>, failed: bool, ghost inside: Ledgers)
      modifies this
      ensures ran ==> AllOurs(inside, names, id, old(seqNo)) && OthersStand(old(rows), inside.rows, names)
      ensures held == old(held) && OthersStand(old(rows), rows, names)
      ensures ran ==> AllFree(names, old(held), old(rows)) && refusal.None?
      ensures !failed ==> rows == old(rows) && (ran <==> AllFree(names, old(held), old(rows)))
      ensures |freed| <= |names| && (ran ==> |freed| == |names|)
      ensures forall k :: 0 <= k < |freed| ==> freed[k] == names[|freed| - 1 - k]
      ensures !ran ==> |freed| < |names| && refusal.Some? && (refusal.value == StoreFailed || refusal.value == ActionLocked(names[|freed|]))
    {
      var proofs, refused, f := TakeAll(names);
      inside := Ledgers(held, rows);
      refusal := refused;
      ran := refusal.None?;
      if ran {
        assert names[..|proofs|] == names;
        AddedAreOurs(old(held), old(rows), names, proofs, id, old(seqNo));
      }
      freed, failed := GiveBackAll(names, proofs, old(held), old(rows), f);
    }
  }
}
