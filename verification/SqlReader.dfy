/**
  An independent reading of condition text: a lexer, a recursive-descent parser with SQL's precedence (OR, AND, NOT), and
  three-valued evaluation. Rendering a condition and reading it back gives its meaning.
 */
module SqlReader {
  import opened Basics
  import opened SqlConditions
  import Decimal

  // ----- tokens -----

  datatype Token =
    | Name(name: string)
    | AndWord | OrWord | NotWord | InWord | IsWord | NullWord | LikeWord
    | LParen | RParen | Comma
    | Compares(op: Op)
    | Param(n: nat)

  function UpperChar(c: char): char {
    if 'a' <= c <= 'z' then ((c as int) - ('a' as int) + ('A' as int)) as char else c
  }

  function Upper(s: string): string {
    seq(|s|, i requires 0 <= i < |s| => UpperChar(s[i]))
  }

  /** A word is a keyword in any case, or else a name. */
  function WordToken(w: string): Token {
    var u := Upper(w);
    if u == "AND" then AndWord
    else if u == "OR" then OrWord
    else if u == "NOT" then NotWord
    else if u == "IN" then InWord
    else if u == "IS" then IsWord
    else if u == "NULL" then NullWord
    else if u == "LIKE" then LikeWord
    else Name(w)
  }

  /** The length of the word, or of the number, the text starts with. */
  function WordLength(s: string): (n: nat)
    ensures n <= |s|
  {
    if s == [] || !WordChar(s[0]) then 0 else 1 + WordLength(s[1..])
  }

  function DigitsLength(s: string): (n: nat)
    ensures n <= |s| && Decimal.AllDigits(s[..n])
  {
    if s == [] || !Decimal.IsDigit(s[0]) then 0
    else
      var n := DigitsLength(s[1..]);
      assert s[..n + 1] == [s[0]] + s[1..][..n];
      n + 1
  }

  function Front(t: Token, more: Option<seq<Token>>): Option<seq<Token>> {
    if more.Some? then Some([t] + more.value) else None
  }

  /** The tokens of a text; its `?` are numbered from `next` on, a `$n` is number n. */
  function Lex(s: string, next: nat): Option<seq<Token>>
    decreases |s|
  {
    if s == [] then Some([])
    else
      match s[0]
      case ' ' => Lex(s[1..], next)
      case '(' => Front(LParen, Lex(s[1..], next))
      case ')' => Front(RParen, Lex(s[1..], next))
      case ',' => Front(Comma, Lex(s[1..], next))
      case '=' => Front(Compares(Eq), Lex(s[1..], next))
      case '?' => Front(Param(next), Lex(s[1..], next + 1))
      case '!' => if |s| > 1 && s[1] == '=' then Front(Compares(Neq), Lex(s[2..], next)) else None
      case '<' =>
        if |s| > 1 && s[1] == '=' then Front(Compares(LtEq), Lex(s[2..], next)) else Front(Compares(Lt), Lex(s[1..], next))
      case '>' =>
        if |s| > 1 && s[1] == '=' then Front(Compares(GtEq), Lex(s[2..], next)) else Front(Compares(Gt), Lex(s[1..], next))
      case '$' =>
        var n := DigitsLength(s[1..]);
        if n == 0 then None else Front(Param(Decimal.Value(s[1..][..n])), Lex(s[1..][n..], next))
      case _ =>
        var n := WordLength(s);
        if n == 0 || !IsIdentifier(s[..n]) then None else Front(WordToken(s[..n]), Lex(s[n..], next))
  }

  // ----- the grammar -----

  /** The words this grammar gives a meaning of its own. A dialect reserves these and more. */
  const KEYWORDS := {"AND", "OR", "NOT", "IN", "IS", "NULL", "LIKE"}

  /** The part of a name before its first dot. */
  function Head(name: string): string {
    if name == [] || name[0] == '.' then [] else [name[0]] + Head(name[1..])
  }

  /** A column whose name, in any case, is or is qualified by one of these words: unquoted it is no column's name. */
  predicate Reserved(words: set<string>, column: string) {
    Upper(Head(column)) in words
  }

  datatype Expr =
    | Compare(column: string, op: Op, arg: nat)
    | Member(column: string, args: seq<nat>)
    | IsNull(column: string)
    | Neg(e: Expr)
    | Conj(l: Expr, r: Expr)
    | Disj(l: Expr, r: Expr)

  predicate Starts(t: seq<Token>, first: Token) {
    t != [] && t[0] == first
  }

  function ParseDisj(words: set<string>, t: seq<Token>): (r: Option<(Expr, seq<Token>)>)
    ensures r.Some? ==> |r.value.1| < |t|
    decreases |t|, 3
  {
    match ParseConj(words, t)
    case None => None
    case Some((e, rest)) =>
      if !Starts(rest, OrWord) then Some((e, rest))
      else
        match ParseDisj(words, rest[1..])
        case None => None
        case Some((e', rest')) => Some((Disj(e, e'), rest'))
  }

  function ParseConj(words: set<string>, t: seq<Token>): (r: Option<(Expr, seq<Token>)>)
    ensures r.Some? ==> |r.value.1| < |t|
    decreases |t|, 2
  {
    match ParseUnary(words, t)
    case None => None
    case Some((e, rest)) =>
      if !Starts(rest, AndWord) then Some((e, rest))
      else
        match ParseConj(words, rest[1..])
        case None => None
        case Some((e', rest')) => Some((Conj(e, e'), rest'))
  }

  function ParseUnary(words: set<string>, t: seq<Token>): (r: Option<(Expr, seq<Token>)>)
    ensures r.Some? ==> |r.value.1| < |t|
    decreases |t|, 1
  {
    if t == [] then None
    else
      match t[0]
      case NotWord =>
        (match ParseUnary(words, t[1..])
         case None => None
         case Some((e, rest)) => Some((Neg(e), rest)))
      case LParen =>
        (match ParseDisj(words, t[1..])
         case None => None
         case Some((e, rest)) => if Starts(rest, RParen) then Some((e, rest[1..])) else None)
      case Name(column) => if Reserved(words, column) then None else ParsePredicate(column, t[1..])
      case _ => None
  }

  function ParsePredicate(column: string, t: seq<Token>): (r: Option<(Expr, seq<Token>)>)
    ensures r.Some? ==> |r.value.1| < |t|
  {
    if |t| < 2 then None
    else if t[0].Compares? then
      if t[1].Param? then Some((Compare(column, t[0].op, t[1].n), t[2..])) else None
    else if t[0] == LikeWord then
      if t[1].Param? then Some((Compare(column, Like, t[1].n), t[2..])) else None
    else if t[0] == IsWord then
      if t[1] == NullWord then Some((IsNull(column), t[2..]))
      else if t[1] == NotWord && |t| > 2 && t[2] == NullWord then Some((Neg(IsNull(column)), t[3..]))
      else None
    else if t[0] == NotWord && t[1] == LikeWord then
      if |t| > 2 && t[2].Param? then Some((Compare(column, NotLike, t[2].n), t[3..])) else None
    else if t[0] == NotWord && t[1] == InWord then
      if |t| > 2 && t[2] == LParen then
        match ParseList(t[3..], true)
        case None => None
        case Some((args, rest)) => Some((Neg(Member(column, args)), rest))
      else None
    else if t[0] == InWord && t[1] == LParen then
      match ParseList(t[2..], true)
      case None => None
      case Some((args, rest)) => Some((Member(column, args), rest))
    else None
  }

  /** Placeholders separated by commas, at least one, up to the closing parenthesis. */
  function ParseList(t: seq<Token>, first: bool): (r: Option<(seq<nat>, seq<Token>)>)
    ensures r.Some? ==> |r.value.1| < |t|
  {
    if Starts(t, RParen) then (if first then None else Some(([], t[1..])))
    else
      var u := if first then t else if Starts(t, Comma) then t[1..] else [];
      if u == [] || !u[0].Param? then None
      else
        match ParseList(u[1..], false)
        case None => None
        case Some((args, rest)) => Some(([u[0].n] + args, rest))
  }

  /** A whole text: everything is read, nothing is left over. */
  function Read(words: set<string>, s: string, next: nat): Option<Expr> {
    match Lex(s, next)
    case None => None
    case Some(t) =>
      match ParseDisj(words, t)
      case None => None
      case Some((e, rest)) => if rest == [] then Some(e) else None
  }
}
