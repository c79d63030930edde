/** Rendering a condition and reading the text back: token by token, then expression by expression, then in meaning. */
module SqlRoundTrip {
  import opened Basics
  import opened SqlConditions
  import opened SqlReader

  // ----- the tokens of a rendering -----

  function Params(nth: nat, n: nat, i: nat): seq<Token>
    requires i <= n
    decreases n - i
  {
    if i == n then [] else (if i > 0 then [Comma] else []) + [Param(nth + i)] + Params(nth, n, i + 1)
  }

  function OpTokens(op: Op): seq<Token> {
    match op
    case Like => [LikeWord]
    case NotLike => [NotWord, LikeWord]
    case _ => [Compares(op)]
  }

  /** The zero value renders as nothing. */
  function ColumnTokens(column: string): seq<Token> {
    if column == "" then [] else [WordToken(column)]
  }

  function Tokens<V>(c: Cond<V>, nth: nat): seq<Token> {
    match c
    case BinPred(column, op, _) => ColumnTokens(column) + OpTokens(op) + [Param(nth)]
    case InPred(column, values) => ColumnTokens(column) + [InWord, LParen] + Params(nth, |values|, 0) + [RParen]
    case NotInPred(column, values) => ColumnTokens(column) + [NotWord, InWord, LParen] + Params(nth, |values|, 0) + [RParen]
    case NullPred(column) => ColumnTokens(column) + [IsWord, NullWord]
    case NotNullPred(column) => ColumnTokens(column) + [IsWord, NotWord, NullWord]
    case Not(cond) => [NotWord, LParen] + Tokens(cond, nth) + [RParen]
    case And(conds) =>
      if |conds| == 0 then [] else if |conds| == 1 then Tokens(conds[0], nth)
      else [LParen] + JoinedTokens(conds, AndWord, 0, nth) + [RParen]
    case Or(conds) =>
      if |conds| == 0 then [] else if |conds| == 1 then Tokens(conds[0], nth)
      else [LParen] + JoinedTokens(conds, OrWord, 0, nth) + [RParen]
  }

  function JoinedTokens<V>(conds: seq<Cond<V>>, sep: Token, i: nat, nth: nat): seq<Token>
    requires i <= |conds|
    decreases conds, |conds| - i
  {
    if i == |conds| then []
    else (if i > 0 then [sep] else []) + Tokens(conds[i], nth) + JoinedTokens(conds, sep, i + 1, nth + |Args(conds[i])|)
  }

  // ----- lexing -----

  /** A word ends here. */
  predicate Boundary(s: string) {
    s == [] || !WordChar(s[0])
  }

  lemma {:induction false} WordLengthIs(w: string, rest: string)
    requires (forall i :: 0 <= i < |w| ==> WordChar(w[i])) && Boundary(rest)
    ensures WordLength(w + rest) == |w|
  {
    if w == [] {
      assert w + rest == rest;
    } else {
      assert (w + rest)[1..] == w[1..] + rest;
      WordLengthIs(w[1..], rest);
    }
  }

  /** The text lexes to these tokens, folded. */
  ghost predicate LexesTo(s: string, next: nat, ts: seq<Token>) {
    forall x :: x == s ==> Lex(x, next) == Some(ts)
  }

  lemma LexEnd(next: nat)
    ensures LexesTo("", next, [])
  {}

  lemma LexWord(w: string, rest: string, next: nat, ts: seq<Token>)
    requires IsIdentifier(w) && Boundary(rest) && LexesTo(rest, next, ts)
    ensures LexesTo(w + rest, next, [WordToken(w)] + ts)
  {
    WordLengthIs(w, rest);
    var s := w + rest;
    assert s[..|w|] == w && s[|w|..] == rest && s[0] == w[0];
    assert Lex(rest, next) == Some(ts);
  }

  lemma LexColumn(column: string, rest: string, next: nat, ts: seq<Token>)
    requires ColumnOk(column) && Boundary(rest) && LexesTo(rest, next, ts)
    ensures LexesTo(column + rest, next, ColumnTokens(column) + ts)
  {
    if column == "" {
      assert column + rest == rest && [] + ts == ts;
    } else {
      LexWord(column, rest, next, ts);
    }
  }

  function SymbolTokens(c: char): seq<Token> {
    match c
    case '(' => [LParen]
    case ')' => [RParen]
    case ',' => [Comma]
    case _ => []
  }

  lemma LexSymbol(c: char, rest: string, next: nat, ts: seq<Token>)
    requires c in {' ', '(', ')', ','} && LexesTo(rest, next, ts)
    ensures LexesTo([c] + rest, next, SymbolTokens(c) + ts)
  {
    assert ([c] + rest)[1..] == rest;
    assert Lex(rest, next) == Some(ts);
    assert c == ' ' ==> SymbolTokens(c) + ts == ts;
  }

  lemma LexMark(rest: string, next: nat, ts: seq<Token>)
    requires LexesTo(rest, next + 1, ts)
    ensures LexesTo(['?'] + rest, next, [Param(next)] + ts)
  {
    assert (['?'] + rest)[1..] == rest;
    assert Lex(rest, next + 1) == Some(ts);
  }

  /** A space and a word. */
  lemma LexSpaced(w: string, rest: string, next: nat, ts: seq<Token>)
    requires IsIdentifier(w) && Boundary(rest) && LexesTo(rest, next, ts)
    ensures LexesTo(" " + w + rest, next, [WordToken(w)] + ts)
  {
    LexWord(w, rest, next, ts);
    LexSymbol(' ', w + rest, next, [WordToken(w)] + ts);
    assert [' '] + (w + rest) == " " + w + rest;
  }

  /** The words of the grammar, whatever follows them. */
  lemma LexKeyword(w: string, rest: string, next: nat, ts: seq<Token>)
    requires w in {"AND", "OR", "NOT", "IN", "IS", "NULL", "LIKE"} && Boundary(rest) && LexesTo(rest, next, ts)
    ensures IsIdentifier(w) && LexesTo(" " + w + rest, next, [WordToken(w)] + ts)
  {
    LexSpaced(w, rest, next, ts);
  }

  lemma Keywords()
    ensures WordToken("AND") == AndWord && WordToken("OR") == OrWord && WordToken("NOT") == NotWord
    ensures WordToken("IN") == InWord && WordToken("IS") == IsWord && WordToken("NULL") == NullWord
    ensures WordToken("LIKE") == LikeWord
  {
    assert Upper("AND") == "AND";
    assert Upper("OR") == "OR";
    assert Upper("NOT") == "NOT";
    assert Upper("IN") == "IN";
    assert Upper("IS") == "IS";
    assert Upper("NULL") == "NULL";
    assert Upper("LIKE") == "LIKE";
  }

  lemma LexCompare(op: Op, rest: string, next: nat, ts: seq<Token>)
    requires rest != [] && rest[0] == ' ' && op != Like && op != NotLike && LexesTo(rest, next, ts)
    ensures LexesTo(" " + OpText(op) + rest, next, [Compares(op)] + ts)
  {
    var s := OpText(op) + rest;
    assert s[|OpText(op)|..] == rest;
    assert Lex(rest, next) == Some(ts);
    assert LexesTo(s, next, [Compares(op)] + ts);
    LexSymbol(' ', s, next, [Compares(op)] + ts);
    assert [' '] + s == " " + OpText(op) + rest;
  }

  lemma LexLike(rest: string, next: nat, ts: seq<Token>)
    requires rest != [] && rest[0] == ' ' && LexesTo(rest, next, ts)
    ensures LexesTo(" LIKE" + rest, next, [LikeWord] + ts)
  {
    Keywords();
    LexKeyword("LIKE", rest, next, ts);
    assert " LIKE" + rest == " " + "LIKE" + rest;
  }

  lemma LexOp(op: Op, rest: string, next: nat, ts: seq<Token>)
    requires rest != [] && rest[0] == ' ' && LexesTo(rest, next, ts)
    ensures LexesTo(" " + OpText(op) + rest, next, OpTokens(op) + ts)
  {
    match op
    case Like =>
      LexLike(rest, next, ts);
      assert " " + OpText(op) + rest == " LIKE" + rest;
    case NotLike =>
      LexLike(rest, next, ts);
      LexNotWord(" LIKE" + rest, next, [LikeWord] + ts);
      assert " " + OpText(op) + rest == " NOT" + (" LIKE" + rest);
      assert OpTokens(op) + ts == [NotWord] + ([LikeWord] + ts);
    case _ => LexCompare(op, rest, next, ts);
  }

  lemma LexSpacedMark(rest: string, nth: nat, ts: seq<Token>)
    requires LexesTo(rest, nth + 1, ts)
    ensures LexesTo(" ?" + rest, nth, [Param(nth)] + ts)
  {
    LexMark(rest, nth, ts);
    LexSymbol(' ', ['?'] + rest, nth, [Param(nth)] + ts);
    assert [' '] + (['?'] + rest) == " ?" + rest;
  }

  lemma FiveParts<T>(a: seq<T>, b: seq<T>, c: seq<T>, d: seq<T>, e: seq<T>)
    ensures a + b + c + d + e == a + (b + c + (d + e))
  {}

  lemma LexBin(column: string, op: Op, rest: string, nth: nat, ts: seq<Token>)
    requires ColumnOk(column) && LexesTo(rest, nth + 1, ts)
    ensures LexesTo(column + " " + OpText(op) + " ?" + rest, nth, ColumnTokens(column) + OpTokens(op) + [Param(nth)] + ts)
  {
    LexSpacedMark(rest, nth, ts);
    LexOp(op, " ?" + rest, nth, [Param(nth)] + ts);
    LexColumn(column, " " + OpText(op) + (" ?" + rest), nth, OpTokens(op) + ([Param(nth)] + ts));
    FiveParts(column, " ", OpText(op), " ?", rest);
    Regroup(ColumnTokens(column), OpTokens(op), [Param(nth)], ts);
  }

  lemma LexComma(rest: string, next: nat, ts: seq<Token>)
    requires LexesTo(rest, next, ts)
    ensures LexesTo(", " + rest, next, [Comma] + ts)
  {
    LexSymbol(' ', rest, next, ts);
    assert SymbolTokens(' ') + ts == ts;
    LexSymbol(',', [' '] + rest, next, ts);
    assert ", " + rest == [','] + ([' '] + rest);
  }

  lemma {:induction false} LexMarks(n: nat, i: nat, nth: nat, rest: string, ts: seq<Token>)
    requires i <= n && LexesTo(rest, nth + n, ts)
    ensures LexesTo(MarksFrom(n, i) + rest, nth + i, Params(nth, n, i) + ts)
    decreases n - i
  {
    if i == n {
      assert MarksFrom(n, i) + rest == rest && Params(nth, n, i) + ts == ts;
    } else {
      LexMarks(n, i + 1, nth, rest, ts);
      LexMark(MarksFrom(n, i + 1) + rest, nth + i, Params(nth, n, i + 1) + ts);
      LexNextMark(n, i, nth, rest, ts);
    }
  }

  lemma MarksNext(n: nat, i: nat, rest: string)
    requires i < n
    ensures MarksFrom(n, i) + rest == (if i > 0 then ", " else "") + (['?'] + (MarksFrom(n, i + 1) + rest))
  {
    Regroup(if i > 0 then ", " else "", "?", MarksFrom(n, i + 1), rest);
  }

  lemma ParamsNext(nth: nat, n: nat, i: nat, ts: seq<Token>)
    requires i < n
    ensures Params(nth, n, i) + ts == (if i > 0 then [Comma] else []) + ([Param(nth + i)] + (Params(nth, n, i + 1) + ts))
  {
    Regroup(if i > 0 then [Comma] else [], [Param(nth + i)], Params(nth, n, i + 1), ts);
  }

  lemma LexNextMark(n: nat, i: nat, nth: nat, rest: string, ts: seq<Token>)
    requires i < n
    requires LexesTo(['?'] + (MarksFrom(n, i + 1) + rest), nth + i, [Param(nth + i)] + (Params(nth, n, i + 1) + ts))
    ensures LexesTo(MarksFrom(n, i) + rest, nth + i, Params(nth, n, i) + ts)
  {
    var s, vs := ['?'] + (MarksFrom(n, i + 1) + rest), [Param(nth + i)] + (Params(nth, n, i + 1) + ts);
    MarksNext(n, i, rest);
    ParamsNext(nth, n, i, ts);
    if i > 0 {
      LexComma(s, nth + i, vs);
    } else {
      assert "" + s == s && [] + vs == vs;
    }
  }

  /** A space, an opening parenthesis, the placeholders, the closing one. */
  lemma LexList(n: nat, nth: nat, rest: string, ts: seq<Token>)
    requires LexesTo(rest, nth + n, ts)
    ensures LexesTo(" (" + Marks(n) + ")" + rest, nth, [LParen] + Params(nth, n, 0) + [RParen] + ts)
  {
    var tail, us := [')'] + rest, [RParen] + ts;
    LexSymbol(')', rest, nth + n, ts);
    LexMarks(n, 0, nth, tail, us);
    LexSymbol('(', Marks(n) + tail, nth, Params(nth, n, 0) + us);
    LexSymbol(' ', ['('] + (Marks(n) + tail), nth, [LParen] + (Params(nth, n, 0) + us));
    assert " (" + Marks(n) + ")" + rest == [' '] + (['('] + (Marks(n) + tail));
    assert [LParen] + Params(nth, n, 0) + [RParen] + ts == [LParen] + (Params(nth, n, 0) + us);
  }

  lemma LexInWord(rest: string, next: nat, ts: seq<Token>)
    requires LexesTo(rest, next, ts) && rest != [] && rest[0] == ' '
    ensures LexesTo(" IN" + rest, next, [InWord] + ts)
  {
    Keywords();
    LexKeyword("IN", rest, next, ts);
    assert " IN" + rest == " " + "IN" + rest;
  }

  lemma LexNotWord(rest: string, next: nat, ts: seq<Token>)
    requires LexesTo(rest, next, ts) && rest != [] && rest[0] == ' '
    ensures LexesTo(" NOT" + rest, next, [NotWord] + ts)
  {
    Keywords();
    LexKeyword("NOT", rest, next, ts);
    assert " NOT" + rest == " " + "NOT" + rest;
  }

  lemma LexIsWord(rest: string, next: nat, ts: seq<Token>)
    requires LexesTo(rest, next, ts) && rest != [] && rest[0] == ' '
    ensures LexesTo(" IS" + rest, next, [IsWord] + ts)
  {
    Keywords();
    LexKeyword("IS", rest, next, ts);
    assert " IS" + rest == " " + "IS" + rest;
  }

  lemma LexNullWord(rest: string, next: nat, ts: seq<Token>)
    requires LexesTo(rest, next, ts) && Boundary(rest)
    ensures LexesTo(" NULL" + rest, next, [NullWord] + ts)
  {
    Keywords();
    LexKeyword("NULL", rest, next, ts);
    assert " NULL" + rest == " " + "NULL" + rest;
  }

  lemma LexIn(column: string, n: nat, rest: string, nth: nat, ts: seq<Token>)
    requires ColumnOk(column) && LexesTo(rest, nth + n, ts)
    ensures LexesTo(column + " IN (" + Marks(n) + ")" + rest, nth,
                    ColumnTokens(column) + [InWord, LParen] + Params(nth, n, 0) + [RParen] + ts)
  {
    var list, us := " (" + Marks(n) + ")" + rest, [LParen] + Params(nth, n, 0) + [RParen] + ts;
    LexList(n, nth, rest, ts);
    LexInWord(list, nth, us);
    LexColumn(column, " IN" + list, nth, [InWord] + us);
    assert column + " IN (" + Marks(n) + ")" + rest == column + (" IN" + list);
    assert ColumnTokens(column) + [InWord, LParen] + Params(nth, n, 0) + [RParen] + ts == ColumnTokens(column) + ([InWord] + us);
  }

  lemma LexNotIn(column: string, n: nat, rest: string, nth: nat, ts: seq<Token>)
    requires ColumnOk(column) && LexesTo(rest, nth + n, ts)
    ensures LexesTo(column + " NOT IN (" + Marks(n) + ")" + rest, nth,
                    ColumnTokens(column) + [NotWord, InWord, LParen] + Params(nth, n, 0) + [RParen] + ts)
  {
    var list, us := " (" + Marks(n) + ")" + rest, [LParen] + Params(nth, n, 0) + [RParen] + ts;
    LexList(n, nth, rest, ts);
    LexInWord(list, nth, us);
    LexNotWord(" IN" + list, nth, [InWord] + us);
    LexColumn(column, " NOT" + (" IN" + list), nth, [NotWord] + ([InWord] + us));
    assert column + " NOT IN (" + Marks(n) + ")" + rest == column + (" NOT" + (" IN" + list));
    assert ColumnTokens(column) + [NotWord, InWord, LParen] + Params(nth, n, 0) + [RParen] + ts
        == ColumnTokens(column) + ([NotWord] + ([InWord] + us));
  }

  lemma LexNull(column: string, rest: string, nth: nat, ts: seq<Token>)
    requires ColumnOk(column) && Boundary(rest) && LexesTo(rest, nth, ts)
    ensures LexesTo(column + " IS NULL" + rest, nth, ColumnTokens(column) + [IsWord, NullWord] + ts)
  {
    LexNullWord(rest, nth, ts);
    LexIsWord(" NULL" + rest, nth, [NullWord] + ts);
    LexColumn(column, " IS" + (" NULL" + rest), nth, [IsWord] + ([NullWord] + ts));
    assert column + " IS NULL" + rest == column + (" IS" + (" NULL" + rest));
    assert ColumnTokens(column) + [IsWord, NullWord] + ts == ColumnTokens(column) + ([IsWord] + ([NullWord] + ts));
  }

  lemma LexNotNull(column: string, rest: string, nth: nat, ts: seq<Token>)
    requires ColumnOk(column) && Boundary(rest) && LexesTo(rest, nth, ts)
    ensures LexesTo(column + " IS NOT NULL" + rest, nth, ColumnTokens(column) + [IsWord, NotWord, NullWord] + ts)
  {
    var tail, us := " NOT" + (" NULL" + rest), [NotWord] + ([NullWord] + ts);
    LexNullWord(rest, nth, ts);
    LexNotWord(" NULL" + rest, nth, [NullWord] + ts);
    LexIsWord(tail, nth, us);
    LexColumn(column, " IS" + tail, nth, [IsWord] + us);
    assert column + " IS NOT NULL" + rest == column + (" IS" + tail);
    assert ColumnTokens(column) + [IsWord, NotWord, NullWord] + ts == ColumnTokens(column) + ([IsWord] + us);
  }

  function Sep(sep: Token): string {
    if sep == AndWord then " AND " else " OR "
  }

  lemma LexSep(sep: Token, rest: string, nth: nat, ts: seq<Token>)
    requires (sep == AndWord || sep == OrWord) && LexesTo(rest, nth, ts)
    ensures LexesTo(Sep(sep) + rest, nth, [sep] + ts)
  {
    Keywords();
    var spaced := [' '] + rest;
    LexSymbol(' ', rest, nth, ts);
    if sep == AndWord {
      LexKeyword("AND", spaced, nth, ts);
      assert " AND " + rest == " " + "AND" + spaced;
    } else {
      LexKeyword("OR", spaced, nth, ts);
      assert " OR " + rest == " " + "OR" + spaced;
    }
  }

  lemma LexNotOpens(body: string, nth: nat, ts: seq<Token>)
    requires LexesTo(body, nth, ts)
    ensures LexesTo("NOT (" + body, nth, [NotWord, LParen] + ts)
  {
    Keywords();
    LexSymbol('(', body, nth, ts);
    LexSymbol(' ', ['('] + body, nth, [LParen] + ts);
    LexWord("NOT", [' '] + (['('] + body), nth, [LParen] + ts);
    assert "NOT (" + body == "NOT" + ([' '] + (['('] + body));
    assert [NotWord, LParen] + ts == [NotWord] + ([LParen] + ts);
  }

  /** The rendering of a condition is its tokens, and its placeholders are numbered by its values. */
  lemma {:induction false} LexCond<V>(c: Cond<V>, rest: string, nth: nat, ts: seq<Token>)
    requires ColumnsOk(c) && Boundary(rest) && LexesTo(rest, nth + |Args(c)|, ts)
    ensures LexesTo(Text(c) + rest, nth, Tokens(c, nth) + ts)
    decreases c, 1
  {
    match c
    case BinPred(column, op, _) => LexBin(column, op, rest, nth, ts);
    case InPred(column, values) => LexIn(column, |values|, rest, nth, ts);
    case NotInPred(column, values) => LexNotIn(column, |values|, rest, nth, ts);
    case NullPred(column) => LexNull(column, rest, nth, ts);
    case NotNullPred(column) => LexNotNull(column, rest, nth, ts);
    case Not(cond) => LexNot(cond, rest, nth, ts);
    case And(conds) => LexGroup(conds, AndWord, rest, nth, ts);
    case Or(conds) => LexGroup(conds, OrWord, rest, nth, ts);
  }

  lemma {:induction false} LexNot<V>(cond: Cond<V>, rest: string, nth: nat, ts: seq<Token>)
    requires ColumnsOk(cond) && LexesTo(rest, nth + |Args(cond)|, ts)
    ensures LexesTo("NOT (" + Text(cond) + ")" + rest, nth, [NotWord, LParen] + Tokens(cond, nth) + [RParen] + ts)
    decreases cond, 2
  {
    var tail, us := [')'] + rest, [RParen] + ts;
    LexSymbol(')', rest, nth + |Args(cond)|, ts);
    LexCond(cond, tail, nth, us);
    LexNotOpens(Text(cond) + tail, nth, Tokens(cond, nth) + us);
    assert "NOT (" + Text(cond) + ")" + rest == "NOT (" + (Text(cond) + tail);
    assert [NotWord, LParen] + Tokens(cond, nth) + [RParen] + ts == [NotWord, LParen] + (Tokens(cond, nth) + us);
  }

  /** One condition stands for itself; several stand in parentheses. */
  lemma {:induction false} LexGroup<V>(conds: seq<Cond<V>>, sep: Token, rest: string, nth: nat, ts: seq<Token>)
    requires (sep == AndWord || sep == OrWord) && (forall i :: 0 <= i < |conds| ==> ColumnsOk(conds[i]))
    requires Boundary(rest) && LexesTo(rest, nth + |ArgsFrom(conds, 0)|, ts)
    ensures |conds| == 0 ==> LexesTo("" + rest, nth, [] + ts)
    ensures |conds| == 1 ==> LexesTo(Text(conds[0]) + rest, nth, Tokens(conds[0], nth) + ts)
    ensures |conds| > 1 ==> LexesTo("(" + Joined(conds, Sep(sep), 0) + ")" + rest, nth,
                                    [LParen] + JoinedTokens(conds, sep, 0, nth) + [RParen] + ts)
    decreases conds, |conds| + 2
  {
    if |conds| == 0 {
      assert "" + rest == rest && [] + ts == ts;
    } else if |conds| == 1 {
      assert ArgsFrom(conds, 0) == Args(conds[0]) + ArgsFrom(conds, 1);
      LexCond(conds[0], rest, nth, ts);
    } else {
      LexSymbol(')', rest, nth + |ArgsFrom(conds, 0)|, ts);
      LexJoined(conds, sep, 0, [')'] + rest, nth, [RParen] + ts);
      LexParens(Joined(conds, Sep(sep), 0), JoinedTokens(conds, sep, 0, nth), rest, nth, ts);
    }
  }

  lemma LexParens(body: string, t: seq<Token>, rest: string, nth: nat, ts: seq<Token>)
    requires LexesTo(body + ([')'] + rest), nth, t + ([RParen] + ts))
    ensures LexesTo("(" + body + ")" + rest, nth, [LParen] + t + [RParen] + ts)
  {
    LexSymbol('(', body + ([')'] + rest), nth, t + ([RParen] + ts));
    Regroup("(", body, ")", rest);
    Regroup([LParen], t, [RParen], ts);
  }

  lemma {:induction false} LexJoined<V>(conds: seq<Cond<V>>, sep: Token, i: nat, rest: string, nth: nat, ts: seq<Token>)
    requires (sep == AndWord || sep == OrWord) && (forall k :: 0 <= k < |conds| ==> ColumnsOk(conds[k]))
    requires i <= |conds| && Boundary(rest) && LexesTo(rest, nth + |ArgsFrom(conds, i)|, ts)
    ensures LexesTo(Joined(conds, Sep(sep), i) + rest, nth, JoinedTokens(conds, sep, i, nth) + ts)
    ensures i > 0 ==> Boundary(Joined(conds, Sep(sep), i) + rest)
    decreases conds, |conds| - i + 1
  {
    if i == |conds| {
      assert Joined(conds, Sep(sep), i) + rest == rest && JoinedTokens(conds, sep, i, nth) + ts == ts;
    } else {
      var nth' := nth + |Args(conds[i])|;
      var more, us := Joined(conds, Sep(sep), i + 1) + rest, JoinedTokens(conds, sep, i + 1, nth') + ts;
      LexJoined(conds, sep, i + 1, rest, nth', ts);
      LexElement(conds, i, more, nth, us);
      LexLed(sep, i > 0, Text(conds[i]) + more, nth, Tokens(conds[i], nth) + us);
      Regroup(Lead(sep, i > 0), Text(conds[i]), Joined(conds, Sep(sep), i + 1), rest);
      Regroup(if i > 0 then [sep] else [], Tokens(conds[i], nth), JoinedTokens(conds, sep, i + 1, nth'), ts);
    }
  }

  lemma {:induction false} LexElement<V>(conds: seq<Cond<V>>, i: nat, rest: string, nth: nat, ts: seq<Token>)
    requires (forall k :: 0 <= k < |conds| ==> ColumnsOk(conds[k])) && i < |conds|
    requires Boundary(rest) && LexesTo(rest, nth + |Args(conds[i])|, ts)
    ensures LexesTo(Text(conds[i]) + rest, nth, Tokens(conds[i], nth) + ts)
    decreases conds, 0
  {
    LexCond(conds[i], rest, nth, ts);
  }

  function Lead(sep: Token, led: bool): string {
    if led then Sep(sep) else ""
  }

  lemma Regroup<T>(a: seq<T>, b: seq<T>, c: seq<T>, d: seq<T>)
    ensures a + b + c + d == a + (b + (c + d))
  {}

  /** What comes after the first condition is led by the separator. */
  lemma LexLed(sep: Token, led: bool, rest: string, nth: nat, ts: seq<Token>)
    requires (sep == AndWord || sep == OrWord) && LexesTo(rest, nth, ts)
    ensures LexesTo(Lead(sep, led) + rest, nth, (if led then [sep] else []) + ts)
    ensures led ==> Boundary(Lead(sep, led) + rest)
  {
    if led {
      LexSep(sep, rest, nth, ts);
    } else {
      assert "" + rest == rest && [] + ts == ts;
    }
  }
}
