/** What a rendered condition is read as, and that it means what the tree means. */
module SqlMeaning {
  import opened Basics
  import opened SqlConditions
  import opened SqlReader
  import opened SqlRoundTrip

  // ----- the expression a rendering is read as -----

  function Numbers(nth: nat, n: nat, i: nat): seq<nat>
    requires i <= n
    decreases n - i
  {
    if i == n then [] else [nth + i] + Numbers(nth, n, i + 1)
  }

  /** Of a condition that can be read; what an empty And or Or gives does not matter. */
  function Ex<V>(c: Cond<V>, nth: nat): Expr {
    match c
    case BinPred(column, op, _) => Compare(column, op, nth)
    case InPred(column, values) => Member(column, Numbers(nth, |values|, 0))
    case NotInPred(column, values) => Neg(Member(column, Numbers(nth, |values|, 0)))
    case NullPred(column) => IsNull(column)
    case NotNullPred(column) => Neg(IsNull(column))
    case Not(cond) => Neg(Ex(cond, nth))
    case And(conds) => if conds == [] then IsNull("") else ConjFrom(conds, 0, nth)
    case Or(conds) => if conds == [] then IsNull("") else DisjFrom(conds, 0, nth)
  }

  function ConjFrom<V>(conds: seq<Cond<V>>, i: nat, nth: nat): Expr
    requires i < |conds|
    decreases conds, |conds| - i
  {
    if i + 1 == |conds| then Ex(conds[i], nth)
    else Conj(Ex(conds[i], nth), ConjFrom(conds, i + 1, nth + |Args(conds[i])|))
  }

  function DisjFrom<V>(conds: seq<Cond<V>>, i: nat, nth: nat): Expr
    requires i < |conds|
    decreases conds, |conds| - i
  {
    if i + 1 == |conds| then Ex(conds[i], nth)
    else Disj(Ex(conds[i], nth), DisjFrom(conds, i + 1, nth + |Args(conds[i])|))
  }

  /** A column that stands for itself unquoted: not the zero value, and no reserved word. */
  predicate Plain(words: set<string>, column: string) {
    column != "" && !Reserved(words, column)
  }

  /** Every column is plain, and no list and no And or Or is empty. */
  predicate Readable<V>(words: set<string>, c: Cond<V>)
    decreases c
  {
    match c
    case BinPred(column, _, _) => Plain(words, column)
    case InPred(column, values) => values != [] && Plain(words, column)
    case NotInPred(column, values) => values != [] && Plain(words, column)
    case NullPred(column) => Plain(words, column)
    case NotNullPred(column) => Plain(words, column)
    case Not(cond) => Readable(words, cond)
    case And(conds) => conds != [] && ReadableFrom(words, conds, 0)
    case Or(conds) => conds != [] && ReadableFrom(words, conds, 0)
  }

  predicate ReadableFrom<V>(words: set<string>, conds: seq<Cond<V>>, i: nat)
    requires i <= |conds|
    decreases conds, |conds| - i
  {
    i == |conds| || (Readable(words, conds[i]) && ReadableFrom(words, conds, i + 1))
  }

  // ----- parsing -----

  /** The tokens parse as this expression, or not at all, folded. */
  ghost predicate UnaryIs(words: set<string>, t: seq<Token>, r: Option<(Expr, seq<Token>)>) {
    forall x :: x == t ==> ParseUnary(words, x) == r
  }

  ghost predicate ConjIs(words: set<string>, t: seq<Token>, r: Option<(Expr, seq<Token>)>) {
    forall x :: x == t ==> ParseConj(words, x) == r
  }

  ghost predicate DisjIs(words: set<string>, t: seq<Token>, r: Option<(Expr, seq<Token>)>) {
    forall x :: x == t ==> ParseDisj(words, x) == r
  }

  function Answer(ok: bool, e: Expr, rest: seq<Token>): Option<(Expr, seq<Token>)> {
    if ok then Some((e, rest)) else None
  }

  lemma UnaryThenConj(words: set<string>, t: seq<Token>, ok: bool, e: Expr, rest: seq<Token>)
    requires UnaryIs(words, t, Answer(ok, e, rest)) && (ok ==> !Starts(rest, AndWord))
    ensures ConjIs(words, t, Answer(ok, e, rest))
  {
    assert ParseUnary(words, t) == Answer(ok, e, rest);
  }

  lemma ConjThenDisj(words: set<string>, t: seq<Token>, ok: bool, e: Expr, rest: seq<Token>)
    requires ConjIs(words, t, Answer(ok, e, rest)) && (ok ==> !Starts(rest, OrWord))
    ensures DisjIs(words, t, Answer(ok, e, rest))
  {
    assert ParseConj(words, t) == Answer(ok, e, rest);
  }

  lemma ConjMore(words: set<string>, t: seq<Token>, ok: bool, e: Expr, more: seq<Token>, ok': bool, e': Expr, rest: seq<Token>)
    requires UnaryIs(words, t, Answer(ok, e, [AndWord] + more)) && ConjIs(words, more, Answer(ok', e', rest))
    ensures ConjIs(words, t, Answer(ok && ok', Conj(e, e'), rest))
  {
    assert ([AndWord] + more)[1..] == more;
    assert ParseUnary(words, t) == Answer(ok, e, [AndWord] + more);
    assert ParseConj(words, more) == Answer(ok', e', rest);
  }

  lemma DisjMore(words: set<string>, t: seq<Token>, ok: bool, e: Expr, more: seq<Token>, ok': bool, e': Expr, rest: seq<Token>)
    requires ConjIs(words, t, Answer(ok, e, [OrWord] + more)) && DisjIs(words, more, Answer(ok', e', rest))
    ensures DisjIs(words, t, Answer(ok && ok', Disj(e, e'), rest))
  {
    assert ([OrWord] + more)[1..] == more;
    assert ParseConj(words, t) == Answer(ok, e, [OrWord] + more);
    assert ParseDisj(words, more) == Answer(ok', e', rest);
  }

  lemma Parenthesized(words: set<string>, t: seq<Token>, ok: bool, e: Expr, rest: seq<Token>)
    requires DisjIs(words, t, Answer(ok, e, [RParen] + rest))
    ensures UnaryIs(words, [LParen] + t, Answer(ok, e, rest))
    ensures UnaryIs(words, [NotWord, LParen] + t, Answer(ok, Neg(e), rest))
  {
    assert ([LParen] + t)[1..] == t && ([RParen] + rest)[1..] == rest;
    assert ParseDisj(words, t) == Answer(ok, e, [RParen] + rest);
    assert ([NotWord, LParen] + t)[1..] == [LParen] + t;
  }

  lemma ListStep(first: bool, n: nat, more: seq<Token>, numbers: seq<nat>, rest: seq<Token>)
    requires ParseList(more, false) == Some((numbers, rest))
    ensures ParseList((if first then [] else [Comma]) + ([Param(n)] + more), first) == Some(([n] + numbers, rest))
  {
    var u := [Param(n)] + more;
    assert u[1..] == more;
    var t := (if first then [] else [Comma]) + u;
    assert first ==> t == u;
    assert !first ==> t[0] == Comma && t[1..] == u;
  }

  lemma {:induction false} ListIs(nth: nat, n: nat, i: nat, rest: seq<Token>)
    requires i <= n && n > 0
    ensures ParseList(Params(nth, n, i) + ([RParen] + rest), i == 0) == Some((Numbers(nth, n, i), rest))
    decreases n - i
  {
    if i == n {
      assert Params(nth, n, i) + ([RParen] + rest) == [RParen] + rest && ([RParen] + rest)[1..] == rest;
    } else {
      var lead: seq<Token> := if i > 0 then [Comma] else [];
      ListIs(nth, n, i + 1, rest);
      ListStep(i == 0, nth + i, Params(nth, n, i + 1) + ([RParen] + rest), Numbers(nth, n, i + 1), rest);
      Regroup(lead, [Param(nth + i)], Params(nth, n, i + 1), [RParen] + rest);
    }
  }

  lemma {:induction false} HeadWhole(name: string)
    requires '.' !in name
    ensures Head(name) == name
  {
    if name != [] {
      HeadWhole(name[1..]);
      assert name == [name[0]] + name[1..];
    }
  }

  lemma NoDots(w: string, k: string)
    requires Upper(w) == k && k in KEYWORDS
    ensures '.' !in w
  {
    assert '.' !in k;
    forall i | 0 <= i < |w|
      ensures w[i] != '.'
    {
      assert Upper(w)[i] == UpperChar(w[i]);
    }
  }

  /** A word the lexer takes for a keyword is reserved. */
  lemma KeywordReserved(words: set<string>, w: string)
    requires KEYWORDS <= words && !WordToken(w).Name?
    ensures Reserved(words, w)
  {
    NoDots(w, Upper(w));
    HeadWhole(w);
  }

  /** What follows a column in a predicate: no parenthesis or name, and NOT only before LIKE or IN. */
  predicate Follows(t: seq<Token>) {
    |t| > 1 && t[0] != LParen && !t[0].Name? && (t[0] == NotWord ==> t[1] in {LikeWord, InWord})
  }

  /** A predicate is read after a plain column, and fails after any other. */
  lemma ColumnThen(words: set<string>, column: string, t: seq<Token>)
    requires KEYWORDS <= words && Follows(t)
    ensures UnaryIs(words, ColumnTokens(column) + t, if Plain(words, column) then ParsePredicate(column, t) else None)
  {
    var all := ColumnTokens(column) + t;
    assert ParseUnary(words, t) == None;
    if column == "" {
      assert all == t;
    } else {
      assert all[1..] == t;
      if WordToken(column).Name? {
        assert WordToken(column) == Name(column);
      } else {
        KeywordReserved(words, column);
        assert ParseUnary(words, all) == None;
      }
    }
  }

  lemma BinIs(words: set<string>, column: string, op: Op, nth: nat, rest: seq<Token>)
    requires KEYWORDS <= words
    ensures UnaryIs(words, ColumnTokens(column) + OpTokens(op) + [Param(nth)] + rest,
                    Answer(Plain(words, column), Compare(column, op, nth), rest))
  {
    var t := OpTokens(op) + [Param(nth)] + rest;
    assert ColumnTokens(column) + OpTokens(op) + [Param(nth)] + rest == ColumnTokens(column) + t;
    assert t[|OpTokens(op)| + 1..] == rest;
    ColumnThen(words, column, t);
  }

  lemma MemberIs(words: set<string>, column: string, list: seq<Token>, numbers: seq<nat>, rest: seq<Token>)
    requires KEYWORDS <= words && ParseList(list, true) == if numbers == [] then None else Some((numbers, rest))
    ensures UnaryIs(words, ColumnTokens(column) + [InWord, LParen] + list,
                    Answer(numbers != [] && Plain(words, column), Member(column, numbers), rest))
  {
    var t := [InWord, LParen] + list;
    assert ColumnTokens(column) + [InWord, LParen] + list == ColumnTokens(column) + t && t[2..] == list;
    ColumnThen(words, column, t);
  }

  lemma NotMemberIs(words: set<string>, column: string, list: seq<Token>, numbers: seq<nat>, rest: seq<Token>)
    requires KEYWORDS <= words && ParseList(list, true) == if numbers == [] then None else Some((numbers, rest))
    ensures UnaryIs(words, ColumnTokens(column) + [NotWord, InWord, LParen] + list,
                    Answer(numbers != [] && Plain(words, column), Neg(Member(column, numbers)), rest))
  {
    var t := [NotWord, InWord, LParen] + list;
    assert ColumnTokens(column) + [NotWord, InWord, LParen] + list == ColumnTokens(column) + t && t[3..] == list;
    ColumnThen(words, column, t);
  }

  lemma InIs(words: set<string>, column: string, n: nat, nth: nat, rest: seq<Token>)
    requires KEYWORDS <= words
    ensures UnaryIs(words, ColumnTokens(column) + [InWord, LParen] + Params(nth, n, 0) + [RParen] + rest,
                    Answer(n > 0 && Plain(words, column), Member(column, Numbers(nth, n, 0)), rest))
    ensures UnaryIs(words, ColumnTokens(column) + [NotWord, InWord, LParen] + Params(nth, n, 0) + [RParen] + rest,
                    Answer(n > 0 && Plain(words, column), Neg(Member(column, Numbers(nth, n, 0))), rest))
  {
    var list, numbers := Params(nth, n, 0) + ([RParen] + rest), Numbers(nth, n, 0);
    if n > 0 {
      ListIs(nth, n, 0, rest);
    } else {
      assert list[0] == RParen;
    }
    assert numbers == [] <==> n == 0;
    MemberIs(words, column, list, numbers, rest);
    NotMemberIs(words, column, list, numbers, rest);
    Regroup(ColumnTokens(column) + [InWord, LParen], Params(nth, n, 0), [RParen], rest);
    Regroup(ColumnTokens(column) + [NotWord, InWord, LParen], Params(nth, n, 0), [RParen], rest);
  }

  lemma NullIs(words: set<string>, column: string, rest: seq<Token>)
    requires KEYWORDS <= words
    ensures UnaryIs(words, ColumnTokens(column) + [IsWord, NullWord] + rest,
                    Answer(Plain(words, column), IsNull(column), rest))
    ensures UnaryIs(words, ColumnTokens(column) + [IsWord, NotWord, NullWord] + rest,
                    Answer(Plain(words, column), Neg(IsNull(column)), rest))
  {
    var t, u := [IsWord, NullWord] + rest, [IsWord, NotWord, NullWord] + rest;
    assert ColumnTokens(column) + [IsWord, NullWord] + rest == ColumnTokens(column) + t && t[2..] == rest;
    assert ColumnTokens(column) + [IsWord, NotWord, NullWord] + rest == ColumnTokens(column) + u && u[3..] == rest;
    ColumnThen(words, column, t);
    ColumnThen(words, column, u);
  }

  /** What may come after a condition. */
  predicate Closes(t: seq<Token>) {
    t == [] || t[0] in {RParen, AndWord, OrWord}
  }

  lemma EmptyIs(words: set<string>, rest: seq<Token>)
    requires Closes(rest)
    ensures UnaryIs(words, [] + rest, None)
  {
    assert [] + rest == rest;
  }

  /** A rendering is read as its expression exactly when it is readable, and otherwise not at all. */
  lemma {:induction false} ParseCond<V>(words: set<string>, c: Cond<V>, nth: nat, rest: seq<Token>)
    requires KEYWORDS <= words && Closes(rest)
    ensures UnaryIs(words, Tokens(c, nth) + rest, Answer(Readable(words, c), Ex(c, nth), rest))
    decreases c, 1
  {
    match c
    case BinPred(column, op, _) => BinIs(words, column, op, nth, rest);
    case InPred(column, values) => InIs(words, column, |values|, nth, rest);
    case NotInPred(column, values) => InIs(words, column, |values|, nth, rest);
    case NullPred(column) => NullIs(words, column, rest);
    case NotNullPred(column) => NullIs(words, column, rest);
    case Not(cond) => ParseNot(words, cond, nth, rest);
    case And(conds) => if conds == [] { EmptyIs(words, rest); } else { ParseAnd(words, conds, nth, rest); }
    case Or(conds) => if conds == [] { EmptyIs(words, rest); } else { ParseOr(words, conds, nth, rest); }
  }

  lemma {:induction false} ParseNot<V>(words: set<string>, cond: Cond<V>, nth: nat, rest: seq<Token>)
    requires KEYWORDS <= words
    ensures UnaryIs(words, [NotWord, LParen] + Tokens(cond, nth) + [RParen] + rest, Answer(Readable(words, cond), Neg(Ex(cond, nth)), rest))
    decreases cond, 2
  {
    var tail := [RParen] + rest;
    ParseCond(words, cond, nth, tail);
    UnaryThenConj(words, Tokens(cond, nth) + tail, Readable(words, cond), Ex(cond, nth), tail);
    ConjThenDisj(words, Tokens(cond, nth) + tail, Readable(words, cond), Ex(cond, nth), tail);
    Parenthesized(words, Tokens(cond, nth) + tail, Readable(words, cond), Ex(cond, nth), rest);
    Regroup([NotWord, LParen], Tokens(cond, nth), [RParen], rest);
  }

  lemma {:induction false} ParseElement<V>(words: set<string>, conds: seq<Cond<V>>, i: nat, nth: nat, rest: seq<Token>)
    requires KEYWORDS <= words && i < |conds| && Closes(rest)
    ensures UnaryIs(words, Tokens(conds[i], nth) + rest, Answer(Readable(words, conds[i]), Ex(conds[i], nth), rest))
    decreases conds, 0
  {
    ParseCond(words, conds[i], nth, rest);
  }

  lemma {:induction false} ParseAnd<V>(words: set<string>, conds: seq<Cond<V>>, nth: nat, rest: seq<Token>)
    requires KEYWORDS <= words && conds != [] && Closes(rest)
    ensures UnaryIs(words, (if |conds| == 1 then Tokens(conds[0], nth) else [LParen] + JoinedTokens(conds, AndWord, 0, nth) + [RParen]) + rest,
                    Answer(ReadableFrom(words, conds, 0), ConjFrom(conds, 0, nth), rest))
    decreases conds, |conds| + 2
  {
    if |conds| == 1 {
      ParseElement(words, conds, 0, nth, rest);
    } else {
      var t, tail := JoinedTokens(conds, AndWord, 0, nth), [RParen] + rest;
      ParseConjFrom(words, conds, 0, nth, tail);
      Leading(conds, AndWord, 0, nth, tail);
      ConjThenDisj(words, t + tail, ReadableFrom(words, conds, 0), ConjFrom(conds, 0, nth), tail);
      Parenthesized(words, t + tail, ReadableFrom(words, conds, 0), ConjFrom(conds, 0, nth), rest);
      Regroup([LParen], t, [RParen], rest);
    }
  }

  lemma {:induction false} ParseOr<V>(words: set<string>, conds: seq<Cond<V>>, nth: nat, rest: seq<Token>)
    requires KEYWORDS <= words && conds != [] && Closes(rest)
    ensures UnaryIs(words, (if |conds| == 1 then Tokens(conds[0], nth) else [LParen] + JoinedTokens(conds, OrWord, 0, nth) + [RParen]) + rest,
                    Answer(ReadableFrom(words, conds, 0), DisjFrom(conds, 0, nth), rest))
    decreases conds, |conds| + 2
  {
    if |conds| == 1 {
      ParseElement(words, conds, 0, nth, rest);
    } else {
      var t, tail := JoinedTokens(conds, OrWord, 0, nth), [RParen] + rest;
      ParseDisjFrom(words, conds, 0, nth, tail);
      Leading(conds, OrWord, 0, nth, tail);
      Parenthesized(words, t + tail, ReadableFrom(words, conds, 0), DisjFrom(conds, 0, nth), rest);
      Regroup([LParen], t, [RParen], rest);
    }
  }

  /** The conditions from the i-th on, without the separator before it. */
  function Remaining<V>(conds: seq<Cond<V>>, sep: Token, i: nat, nth: nat, rest: seq<Token>): seq<Token>
    requires i < |conds|
  {
    Tokens(conds[i], nth) + (JoinedTokens(conds, sep, i + 1, nth + |Args(conds[i])|) + rest)
  }

  lemma Leading<V>(conds: seq<Cond<V>>, sep: Token, i: nat, nth: nat, rest: seq<Token>)
    requires i <= |conds|
    ensures i == |conds| ==> JoinedTokens(conds, sep, i, nth) + rest == rest
    ensures i < |conds| ==>
      JoinedTokens(conds, sep, i, nth) + rest == (if i > 0 then [sep] else []) + Remaining(conds, sep, i, nth, rest)
    ensures i == 0 < |conds| ==> JoinedTokens(conds, sep, i, nth) + rest == Remaining(conds, sep, i, nth, rest)
  {
    if i < |conds| {
      var lead: seq<Token> := if i > 0 then [sep] else [];
      var more := JoinedTokens(conds, sep, i + 1, nth + |Args(conds[i])|);
      assert JoinedTokens(conds, sep, i, nth) == lead + Tokens(conds[i], nth) + more;
      Regroup(lead, Tokens(conds[i], nth), more, rest);
      assert i == 0 ==> lead + Remaining(conds, sep, i, nth, rest) == Remaining(conds, sep, i, nth, rest);
    } else {
      assert JoinedTokens(conds, sep, i, nth) == [] && [] + rest == rest;
    }
  }

  lemma {:induction false} ParseConjFrom<V>(words: set<string>, conds: seq<Cond<V>>, i: nat, nth: nat, rest: seq<Token>)
    requires KEYWORDS <= words && i < |conds| && Starts(rest, RParen)
    ensures ConjIs(words, Remaining(conds, AndWord, i, nth, rest), Answer(ReadableFrom(words, conds, i), ConjFrom(conds, i, nth), rest))
    decreases conds, |conds| - i
  {
    var nth', t := nth + |Args(conds[i])|, Remaining(conds, AndWord, i, nth, rest);
    var tail := JoinedTokens(conds, AndWord, i + 1, nth') + rest;
    ParseElement(words, conds, i, nth, tail);
    Leading(conds, AndWord, i + 1, nth', rest);
    if i + 1 == |conds| {
      UnaryThenConj(words, t, Readable(words, conds[i]), Ex(conds[i], nth), rest);
    } else {
      ParseConjFrom(words, conds, i + 1, nth', rest);
      ConjMore(words, t, Readable(words, conds[i]), Ex(conds[i], nth), Remaining(conds, AndWord, i + 1, nth', rest),
               ReadableFrom(words, conds, i + 1), ConjFrom(conds, i + 1, nth'), rest);
    }
  }

  lemma {:induction false} ParseDisjFrom<V>(words: set<string>, conds: seq<Cond<V>>, i: nat, nth: nat, rest: seq<Token>)
    requires KEYWORDS <= words && i < |conds| && Starts(rest, RParen)
    ensures DisjIs(words, Remaining(conds, OrWord, i, nth, rest), Answer(ReadableFrom(words, conds, i), DisjFrom(conds, i, nth), rest))
    decreases conds, |conds| - i
  {
    var nth', t := nth + |Args(conds[i])|, Remaining(conds, OrWord, i, nth, rest);
    var tail := JoinedTokens(conds, OrWord, i + 1, nth') + rest;
    ParseElement(words, conds, i, nth, tail);
    Leading(conds, OrWord, i + 1, nth', rest);
    UnaryThenConj(words, t, Readable(words, conds[i]), Ex(conds[i], nth), tail);
    if i + 1 == |conds| {
      ConjThenDisj(words, t, Readable(words, conds[i]), Ex(conds[i], nth), rest);
    } else {
      ParseDisjFrom(words, conds, i + 1, nth', rest);
      DisjMore(words, t, Readable(words, conds[i]), Ex(conds[i], nth), Remaining(conds, OrWord, i + 1, nth', rest),
               ReadableFrom(words, conds, i + 1), DisjFrom(conds, i + 1, nth'), rest);
    }
  }

  lemma LexWhole<V>(c: Cond<V>, nth: nat)
    requires ColumnsOk(c)
    ensures Lex(Text(c), nth) == Some(Tokens(c, nth))
  {
    LexEnd(nth + |Args(c)|);
    LexCond(c, "", nth, []);
    assert Text(c) + "" == Text(c) && Tokens(c, nth) + [] == Tokens(c, nth);
  }

  lemma ParseWhole<V>(words: set<string>, c: Cond<V>, nth: nat)
    requires KEYWORDS <= words
    ensures ParseDisj(words, Tokens(c, nth)) == Answer(Readable(words, c), Ex(c, nth), [])
  {
    ParseCond(words, c, nth, []);
    assert Tokens(c, nth) + [] == Tokens(c, nth);
    UnaryThenConj(words, Tokens(c, nth), Readable(words, c), Ex(c, nth), []);
    ConjThenDisj(words, Tokens(c, nth), Readable(words, c), Ex(c, nth), []);
  }

  // ----- meaning -----

  datatype Truth = True | False | Unknown

  function NotT(a: Truth): Truth {
    match a
    case True => False
    case False => True
    case Unknown => Unknown
  }

  function AndT(a: Truth, b: Truth): Truth {
    if a.False? || b.False? then False else if a.Unknown? || b.Unknown? then Unknown else True
  }

  function OrT(a: Truth, b: Truth): Truth {
    if a.True? || b.True? then True else if a.Unknown? || b.Unknown? then Unknown else False
  }

  function Rank(a: Truth): nat {
    match a
    case False => 0
    case Unknown => 1
    case True => 2
  }

  /** The connectives are the minimum, the maximum and the reversal of False < Unknown < True. */
  lemma ThreeValued(a: Truth, b: Truth)
    ensures Rank(AndT(a, b)) == if Rank(a) < Rank(b) then Rank(a) else Rank(b)
    ensures Rank(OrT(a, b)) == if Rank(a) > Rank(b) then Rank(a) else Rank(b)
    ensures Rank(NotT(a)) == 2 - Rank(a)
  {}

  /** One row as a condition sees it: how a column compares with a value, and whether it is null. */
  datatype Row<!V> = Row(compare: (string, Op, V) -> Truth, isNull: string -> bool)

  function Bool(b: bool): Truth {
    if b then True else False
  }

  /** The meaning of a tree. */
  function Eval<V>(c: Cond<V>, row: Row<V>): Truth {
    match c
    case BinPred(column, op, value) => row.compare(column, op, value)
    case InPred(column, values) => AnyOf(column, values, 0, row)
    case NotInPred(column, values) => NotT(AnyOf(column, values, 0, row))
    case NullPred(column) => Bool(row.isNull(column))
    case NotNullPred(column) => Bool(!row.isNull(column))
    case Not(cond) => NotT(Eval(cond, row))
    case And(conds) => All(conds, 0, row)
    case Or(conds) => Any(conds, 0, row)
  }

  function AnyOf<V>(column: string, values: seq<V>, i: nat, row: Row<V>): Truth
    requires i <= |values|
    decreases |values| - i
  {
    if i == |values| then False else OrT(row.compare(column, Eq, values[i]), AnyOf(column, values, i + 1, row))
  }

  function All<V>(conds: seq<Cond<V>>, i: nat, row: Row<V>): Truth
    requires i <= |conds|
    decreases conds, |conds| - i
  {
    if i == |conds| then True else AndT(Eval(conds[i], row), All(conds, i + 1, row))
  }

  function Any<V>(conds: seq<Cond<V>>, i: nat, row: Row<V>): Truth
    requires i <= |conds|
    decreases conds, |conds| - i
  {
    if i == |conds| then False else OrT(Eval(conds[i], row), Any(conds, i + 1, row))
  }

  /** The meaning of what was read, the placeholder numbered n standing for the n-th value. */
  function EvalExpr<V>(e: Expr, args: seq<V>, row: Row<V>): Truth {
    match e
    case Compare(column, op, n) => if 1 <= n <= |args| then row.compare(column, op, args[n - 1]) else Unknown
    case Member(column, numbers) => AnyNumber(column, numbers, 0, args, row)
    case IsNull(column) => Bool(row.isNull(column))
    case Neg(e') => NotT(EvalExpr(e', args, row))
    case Conj(l, r) => AndT(EvalExpr(l, args, row), EvalExpr(r, args, row))
    case Disj(l, r) => OrT(EvalExpr(l, args, row), EvalExpr(r, args, row))
  }

  function AnyNumber<V>(column: string, numbers: seq<nat>, i: nat, args: seq<V>, row: Row<V>): Truth
    requires i <= |numbers|
    decreases |numbers| - i
  {
    if i == |numbers| then False
    else OrT(if 1 <= numbers[i] <= |args| then row.compare(column, Eq, args[numbers[i] - 1]) else Unknown,
             AnyNumber(column, numbers, i + 1, args, row))
  }

  /** The values of a condition stand at its numbers. */
  ghost predicate Bound<V>(values: seq<V>, nth: nat, args: seq<V>) {
    nth >= 1 && nth - 1 + |values| <= |args| && args[nth - 1..nth - 1 + |values|] == values
  }

  lemma BoundSplits<V>(a: seq<V>, b: seq<V>, nth: nat, args: seq<V>)
    requires Bound(a + b, nth, args)
    ensures Bound(a, nth, args) && Bound(b, nth + |a|, args)
  {
    var s := args[nth - 1..nth - 1 + |a + b|];
    assert s[..|a|] == a && s[|a|..] == b;
    assert args[nth - 1..nth - 1 + |a|] == s[..|a|];
    assert args[nth - 1 + |a|..nth - 1 + |a| + |b|] == s[|a|..];
  }

  lemma {:induction false} NumbersAt(nth: nat, n: nat, i: nat, k: nat)
    requires i <= n && k < n - i
    ensures |Numbers(nth, n, i)| == n - i && Numbers(nth, n, i)[k] == nth + i + k
    decreases n - i
  {
    if i + 1 < n {
      NumbersAt(nth, n, i + 1, if k > 0 then k - 1 else 0);
    }
  }

  lemma {:induction false} SameMembers<V>(column: string, values: seq<V>, nth: nat, i: nat, args: seq<V>, row: Row<V>)
    requires Bound(values, nth, args) && i <= |values|
    ensures |Numbers(nth, |values|, 0)| == |values|
    ensures AnyNumber(column, Numbers(nth, |values|, 0), i, args, row) == AnyOf(column, values, i, row)
    decreases |values| - i
  {
    if |values| > 0 {
      NumbersAt(nth, |values|, 0, if i < |values| then i else 0);
    }
    if i < |values| {
      SameMembers(column, values, nth, i + 1, args, row);
      assert args[nth - 1..nth - 1 + |values|][i] == values[i];
    }
  }

  lemma {:induction false} SameMeaning<V>(words: set<string>, c: Cond<V>, nth: nat, args: seq<V>, row: Row<V>)
    requires Readable(words, c) && Bound(Args(c), nth, args)
    ensures EvalExpr(Ex(c, nth), args, row) == Eval(c, row)
    decreases c, 1
  {
    match c
    case BinPred(_, _, value) => assert args[nth - 1..nth][0] == value;
    case InPred(column, values) => SameMembers(column, values, nth, 0, args, row);
    case NotInPred(column, values) => SameMembers(column, values, nth, 0, args, row);
    case NullPred(_) =>
    case NotNullPred(_) =>
    case Not(cond) => SameMeaning(words, cond, nth, args, row);
    case And(conds) => SameAll(words, conds, 0, nth, args, row);
    case Or(conds) => SameAny(words, conds, 0, nth, args, row);
  }

  lemma {:induction false} SameElement<V>(words: set<string>, conds: seq<Cond<V>>, i: nat, nth: nat, args: seq<V>, row: Row<V>)
    requires i < |conds| && Readable(words, conds[i]) && Bound(Args(conds[i]), nth, args)
    ensures EvalExpr(Ex(conds[i], nth), args, row) == Eval(conds[i], row)
    decreases conds, 0
  {
    SameMeaning(words, conds[i], nth, args, row);
  }

  lemma {:induction false} SameAll<V>(words: set<string>, conds: seq<Cond<V>>, i: nat, nth: nat, args: seq<V>, row: Row<V>)
    requires i < |conds| && ReadableFrom(words, conds, i) && Bound(ArgsFrom(conds, i), nth, args)
    ensures EvalExpr(ConjFrom(conds, i, nth), args, row) == All(conds, i, row)
    decreases conds, |conds| - i
  {
    BoundSplits(Args(conds[i]), ArgsFrom(conds, i + 1), nth, args);
    SameElement(words, conds, i, nth, args, row);
    if i + 1 < |conds| {
      SameAll(words, conds, i + 1, nth + |Args(conds[i])|, args, row);
    }
  }

  lemma {:induction false} SameAny<V>(words: set<string>, conds: seq<Cond<V>>, i: nat, nth: nat, args: seq<V>, row: Row<V>)
    requires i < |conds| && ReadableFrom(words, conds, i) && Bound(ArgsFrom(conds, i), nth, args)
    ensures EvalExpr(DisjFrom(conds, i, nth), args, row) == Any(conds, i, row)
    decreases conds, |conds| - i
  {
    BoundSplits(Args(conds[i]), ArgsFrom(conds, i + 1), nth, args);
    SameElement(words, conds, i, nth, args, row);
    if i + 1 < |conds| {
      SameAny(words, conds, i + 1, nth + |Args(conds[i])|, args, row);
    }
  }

  /**
    Rendering any condition that can be constructed, then reading the text back, gives an expression exactly when every
    column is named and by no reserved word, and no IN list, And or Or is empty, whatever words a dialect reserves beside
    the grammar's own; with the k-th placeholder bound to the k-th value it evaluates on every row as the tree does.
   */
  lemma RenderingKeepsMeaning<V>(words: set<string>, c: Cond<V>)
    requires KEYWORDS <= words && ColumnsOk(c)
    ensures Read(words, Text(c), 1).Some? <==> Readable(words, c)
    ensures Readable(words, c) ==> forall row :: EvalExpr(Read(words, Text(c), 1).value, Args(c), row) == Eval(c, row)
  {
    LexWhole(c, 1);
    ParseWhole(words, c, 1);
    forall row: Row<V> | Readable(words, c)
      ensures EvalExpr(Ex(c, 1), Args(c), row) == Eval(c, row)
    {
      SameMeaning(words, c, 1, Args(c), row);
    }
  }

  lemma UserReserved(words: set<string>)
    requires "USER" in words
    ensures Reserved(words, "user")
  {
    HeadWhole("user");
    assert Upper("user") == "USER";
  }

  /** Validated columns are not enough: a column `user` where that word is reserved, or an empty list, gives no expression. */
  lemma Unreadable<V>(words: set<string>)
    requires KEYWORDS <= words
    ensures "USER" in words ==> IsIdentifier("user") && Read(words, Text<V>(NullPred("user")), 1) == None
    ensures IsIdentifier("id") && Read(words, Text<V>(InPred("id", [])), 1) == None
  {
    if "USER" in words {
      UserReserved(words);
      RenderingKeepsMeaning<V>(words, NullPred("user"));
    }
    RenderingKeepsMeaning<V>(words, InPred("id", []));
  }
}
