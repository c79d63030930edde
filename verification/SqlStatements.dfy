/**
  Statement assembly of the PostgreSQL client (sqldbs/pgsql/db.go, gw/sqldbs/whereclause.go, gw/sqldbs/wherepk.go): `?`
  becomes `$n`, identifiers are quoted, and the values are gathered beside the text.
 */
module SqlStatements {
  import opened Basics
  import opened SqlConditions
  import Decimal

  // ----- placeholder translation -----

  function Dollar(n: nat): string {
    "$" + Decimal.Format(n)
  }

  /** Every `?` replaced by the next number. */
  function Translate(raw: string, nth: nat): string {
    if raw == [] then []
    else if raw[0] == '?' then Dollar(nth) + Translate(raw[1..], nth + 1)
    else [raw[0]] + Translate(raw[1..], nth)
  }

  method TranslateAll(raw: string, startNth: nat) returns (b: string)
    ensures b == Translate(raw, startNth)
  {
    var nth, i := startNth, 0;
    b := "";
    while i < |raw|
      invariant 0 <= i <= |raw|
      invariant b + Translate(raw[i..], nth) == Translate(raw, startNth)
    {
      assert raw[i..][1..] == raw[i + 1..];
      if raw[i] == '?' {
        b := b + Dollar(nth);
        nth := nth + 1;
      } else {
        b := b + [raw[i]];
      }
      i := i + 1;
    }
  }

  /** The clause of a condition, numbered from startNth on, and its values. A condition that renders nothing adds nothing. */
  method Build<V>(cond: Option<Cond<V>>, startNth: nat) returns (text: string, args: seq<V>)
    ensures text == WhereText(cond, startNth) && args == WhereArgs(cond)
  {
    if cond.None? {
      return "", [];
    }
    var raw, bound := BindRepr(cond.value);
    if raw == "" {
      return "", [];
    }
    var b := TranslateAll(raw, startNth);
    return " WHERE " + b, bound;
  }

  function WhereText<V>(cond: Option<Cond<V>>, nth: nat): string {
    if cond.None? || Text(cond.value) == "" then "" else " WHERE " + Translate(Text(cond.value), nth)
  }

  function WhereArgs<V>(cond: Option<Cond<V>>): seq<V> {
    if cond.None? || Text(cond.value) == "" then [] else Args(cond.value)
  }

  // ----- what a rendering is made of -----

  /** No `$`, no quote, and no digit right after a placeholder. */
  predicate Tame(s: string) {
    && (forall i :: 0 <= i < |s| ==> s[i] != '$' && s[i] != '"')
    && (forall i :: 0 < i < |s| && s[i - 1] == '?' ==> !Decimal.IsDigit(s[i]))
  }

  predicate StartsDigit(s: string) {
    s != [] && Decimal.IsDigit(s[0])
  }

  function MarkCount(s: string): nat {
    if s == [] then 0 else (if s[0] == '?' then 1 else 0) + MarkCount(s[1..])
  }

  /** Tame, with k placeholders, and safe to stand after one. */
  ghost predicate Piece(s: string, k: nat) {
    Tame(s) && !StartsDigit(s) && MarkCount(s) == k
  }

  lemma {:induction false} MarkCountAppend(a: string, b: string)
    ensures MarkCount(a + b) == MarkCount(a) + MarkCount(b)
  {
    if a == [] {
      assert a + b == b;
    } else {
      assert (a + b)[1..] == a[1..] + b;
      MarkCountAppend(a[1..], b);
    }
  }

  lemma PieceAppend(a: string, j: nat, b: string, k: nat)
    requires Piece(a, j) && Piece(b, k)
    ensures Piece(a + b, j + k)
  {
    MarkCountAppend(a, b);
    var s := a + b;
    forall i | 0 < i < |s| && s[i - 1] == '?'
      ensures !Decimal.IsDigit(s[i])
    {
      if i > |a| {
        assert s[i] == b[i - |a|] && s[i - 1] == b[i - 1 - |a|];
      }
    }
  }

  /** Words, spaces and parentheses. */
  predicate Quiet(s: string) {
    forall i :: 0 <= i < |s| ==> s[i] != '?' && s[i] != '$' && s[i] != '"'
  }

  lemma {:induction false} QuietPiece(s: string)
    requires Quiet(s) && !StartsDigit(s)
    ensures Piece(s, 0)
  {
    QuietCount(s);
  }

  lemma {:induction false} QuietCount(s: string)
    requires Quiet(s)
    ensures MarkCount(s) == 0
  {
    if s != [] {
      QuietCount(s[1..]);
    }
  }

  lemma {:induction false} MarksPiece(n: nat, i: nat)
    requires i <= n
    ensures Piece(MarksFrom(n, i), n - i)
    decreases n - i
  {
    if i < n {
      MarksPiece(n, i + 1);
      assert Piece("?", 1) by { assert "?"[1..] == ""; }
      QuietPiece(if i > 0 then ", " else "");
      PieceAppend(if i > 0 then ", " else "", 0, "?", 1);
      PieceAppend((if i > 0 then ", " else "") + "?", 1, MarksFrom(n, i + 1), n - i - 1);
    }
  }

  lemma BinPiece(column: string, op: Op)
    requires ColumnOk(column)
    ensures Piece(column + " " + OpText(op) + " ?", 1)
  {
    QuietPiece(column);
    QuietPiece(" ");
    PieceAppend(column, 0, " ", 0);
    QuietPiece(OpText(op));
    PieceAppend(column + " ", 0, OpText(op), 0);
    assert Piece(" ?", 1) by { assert " ?"[1..] == "?" && "?"[1..] == ""; }
    PieceAppend(column + " " + OpText(op), 0, " ?", 1);
  }

  /** A list predicate: the column, the words up to the parenthesis, the placeholders. */
  lemma InPiece(column: string, words: string, n: nat)
    requires ColumnOk(column) && Quiet(words) && !StartsDigit(words)
    ensures Piece(column + words + Marks(n) + ")", n)
  {
    QuietPiece(column);
    QuietPiece(words);
    PieceAppend(column, 0, words, 0);
    MarksPiece(n, 0);
    PieceAppend(column + words, 0, Marks(n), n);
    QuietPiece(")");
    PieceAppend(column + words + Marks(n), n, ")", 0);
  }

  lemma NullPiece(column: string)
    requires ColumnOk(column)
    ensures Piece(column + " IS NULL", 0) && Piece(column + " IS NOT NULL", 0)
  {
    QuietPiece(column + " IS NULL");
    QuietPiece(column + " IS NOT NULL");
  }

  /** A rendering has a placeholder for each of its values and nothing that looks like one. */
  lemma {:induction false} TextPiece<V>(c: Cond<V>)
    requires ColumnsOk(c)
    ensures Piece(Text(c), |Args(c)|)
    decreases c, 1
  {
    match c
    case BinPred(column, op, _) => BinPiece(column, op);
    case InPred(column, values) => InPiece(column, " IN (", |values|);
    case NotInPred(column, values) => InPiece(column, " NOT IN (", |values|);
    case NullPred(column) => NullPiece(column);
    case NotNullPred(column) => NullPiece(column);
    case Not(cond) =>
      TextPiece(cond);
      Wrapped("NOT (", Text(cond), |Args(cond)|);
    case And(conds) => GroupPiece(conds, " AND ");
    case Or(conds) => GroupPiece(conds, " OR ");
  }

  lemma Wrapped(opening: string, body: string, k: nat)
    requires Quiet(opening) && !StartsDigit(opening) && Piece(body, k)
    ensures Piece(opening + body + ")", k)
  {
    QuietPiece(opening);
    QuietPiece(")");
    PieceAppend(opening, 0, body, k);
    PieceAppend(opening + body, k, ")", 0);
  }

  lemma {:induction false} GroupPiece<V>(conds: seq<Cond<V>>, sep: string)
    requires (forall i :: 0 <= i < |conds| ==> ColumnsOk(conds[i])) && Quiet(sep) && !StartsDigit(sep)
    ensures |conds| > 1 ==> Piece("(" + Joined(conds, sep, 0) + ")", |ArgsFrom(conds, 0)|)
    ensures |conds| == 1 ==> Piece(Text(conds[0]), |ArgsFrom(conds, 0)|)
    ensures |conds| == 0 ==> Piece("", |ArgsFrom(conds, 0)|)
    decreases conds, |conds| + 2
  {
    if |conds| == 1 {
      TextPiece(conds[0]);
      assert ArgsFrom(conds, 0) == Args(conds[0]) + ArgsFrom(conds, 1);
    } else {
      JoinedPiece(conds, sep, 0);
      Wrapped("(", Joined(conds, sep, 0), |ArgsFrom(conds, 0)|);
    }
  }

  lemma {:induction false} JoinedPiece<V>(conds: seq<Cond<V>>, sep: string, i: nat)
    requires (forall k :: 0 <= k < |conds| ==> ColumnsOk(conds[k])) && Quiet(sep) && !StartsDigit(sep) && i <= |conds|
    ensures Piece(Joined(conds, sep, i), |ArgsFrom(conds, i)|)
    decreases conds, |conds| - i + 1
  {
    if i < |conds| {
      ElementPiece(conds, i);
      JoinedPiece(conds, sep, i + 1);
      var lead := if i > 0 then sep else "";
      QuietPiece(lead);
      PieceAppend(lead, 0, Text(conds[i]), |Args(conds[i])|);
      PieceAppend(lead + Text(conds[i]), |Args(conds[i])|, Joined(conds, sep, i + 1), |ArgsFrom(conds, i + 1)|);
    }
  }

  lemma {:induction false} ElementPiece<V>(conds: seq<Cond<V>>, i: nat)
    requires (forall k :: 0 <= k < |conds| ==> ColumnsOk(conds[k])) && i < |conds|
    ensures Piece(Text(conds[i]), |Args(conds[i])|)
    decreases conds, 0
  {
    TextPiece(conds[i]);
  }
}
