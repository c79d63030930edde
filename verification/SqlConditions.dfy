/**
  SQL conditions and their rendering (gw/sqldbs): a tree becomes text with a `?` per bind value and the values in order.
  The functions say what the text and the values are; the methods are the loops that write them.
 */
module SqlConditions {
  import opened Basics
  import Decimal

  datatype Op = Eq | Neq | Gt | Lt | GtEq | LtEq | Like | NotLike

  function OpText(op: Op): string {
    match op
    case Eq => "="
    case Neq => "!="
    case Gt => ">"
    case Lt => "<"
    case GtEq => ">="
    case LtEq => "<="
    case Like => "LIKE"
    case NotLike => "NOT LIKE"
  }

  datatype Cond<V> =
    | BinPred(column: string, op: Op, value: V)
    | InPred(column: string, values: seq<V>)
    | NotInPred(column: string, values: seq<V>)
    | NullPred(column: string)
    | NotNullPred(column: string)
    | Not(cond: Cond<V>)
    | And(conds: seq<Cond<V>>)
    | Or(conds: seq<Cond<V>>)

  // ----- identifiers -----

  predicate WordStart(c: char) {
    'A' <= c <= 'Z' || 'a' <= c <= 'z' || c == '_'
  }

  predicate WordChar(c: char) {
    WordStart(c) || Decimal.IsDigit(c) || c == '.'
  }

  /** Words of letters, digits and underscores, not starting with a digit, joined by single dots. */
  predicate IsIdentifier(s: string) {
    && s != [] && WordStart(s[0])
    && (forall i :: 0 <= i < |s| ==> WordChar(s[i]))
    && (forall i :: 0 <= i < |s| && s[i] == '.' ==> i + 1 < |s| && WordStart(s[i + 1]))
  }

  /** A column is a validated identifier, or the zero value: nothing else can be constructed. */
  predicate ColumnOk(column: string) {
    column == "" || IsIdentifier(column)
  }

  predicate ColumnsOk<V>(c: Cond<V>) {
    match c
    case BinPred(column, _, _) => ColumnOk(column)
    case InPred(column, _) => ColumnOk(column)
    case NotInPred(column, _) => ColumnOk(column)
    case NullPred(column) => ColumnOk(column)
    case NotNullPred(column) => ColumnOk(column)
    case Not(cond) => ColumnsOk(cond)
    case And(conds) => forall i :: 0 <= i < |conds| ==> ColumnsOk(conds[i])
    case Or(conds) => forall i :: 0 <= i < |conds| ==> ColumnsOk(conds[i])
  }

  // ----- the rendering -----

  /** n placeholders, comma-separated. */
  function Marks(n: nat): string {
    MarksFrom(n, 0)
  }

  function MarksFrom(n: nat, i: nat): string
    requires i <= n
    decreases n - i
  {
    if i == n then "" else (if i > 0 then ", " else "") + "?" + MarksFrom(n, i + 1)
  }

  function Text<V>(c: Cond<V>): string {
    match c
    case BinPred(column, op, _) => column + " " + OpText(op) + " ?"
    case InPred(column, values) => column + " IN (" + Marks(|values|) + ")"
    case NotInPred(column, values) => column + " NOT IN (" + Marks(|values|) + ")"
    case NullPred(column) => column + " IS NULL"
    case NotNullPred(column) => column + " IS NOT NULL"
    case Not(cond) => "NOT (" + Text(cond) + ")"
    case And(conds) =>
      if |conds| == 0 then "" else if |conds| == 1 then Text(conds[0]) else "(" + Joined(conds, " AND ", 0) + ")"
    case Or(conds) =>
      if |conds| == 0 then "" else if |conds| == 1 then Text(conds[0]) else "(" + Joined(conds, " OR ", 0) + ")"
  }

  /** The conditions from the i-th on, the separator before each but the first. */
  function Joined<V>(conds: seq<Cond<V>>, sep: string, i: nat): string
    requires i <= |conds|
    decreases conds, |conds| - i
  {
    if i == |conds| then "" else (if i > 0 then sep else "") + Text(conds[i]) + Joined(conds, sep, i + 1)
  }

  function Args<V>(c: Cond<V>): seq<V> {
    match c
    case BinPred(_, _, value) => [value]
    case InPred(_, values) => values
    case NotInPred(_, values) => values
    case NullPred(_) => []
    case NotNullPred(_) => []
    case Not(cond) => Args(cond)
    case And(conds) => ArgsFrom(conds, 0)
    case Or(conds) => ArgsFrom(conds, 0)
  }

  function ArgsFrom<V>(conds: seq<Cond<V>>, i: nat): seq<V>
    requires i <= |conds|
    decreases conds, |conds| - i
  {
    if i == |conds| then [] else Args(conds[i]) + ArgsFrom(conds, i + 1)
  }

  // ----- the loops -----

  method WriteMarks(n: nat) returns (b: string)
    ensures b == Marks(n)
  {
    b := "";
    var i := 0;
    while i < n
      invariant 0 <= i <= n
      invariant b + MarksFrom(n, i) == Marks(n)
    {
      if i > 0 {
        b := b + ", ";
      }
      b := b + "?";
      i := i + 1;
    }
  }

  method BindRepr<V>(c: Cond<V>) returns (text: string, args: seq<V>)
    ensures text == Text(c) && args == Args(c)
    decreases c, 1
  {
    match c
    case BinPred(column, op, value) =>
      text, args := column + " " + OpText(op) + " ?", [value];
    case InPred(column, values) =>
      var marks := WriteMarks(|values|);
      text, args := column + " IN (" + marks + ")", values;
    case NotInPred(column, values) =>
      var marks := WriteMarks(|values|);
      text, args := column + " NOT IN (" + marks + ")", values;
    case NullPred(column) =>
      text, args := column + " IS NULL", [];
    case NotNullPred(column) =>
      text, args := column + " IS NOT NULL", [];
    case Not(cond) =>
      text, args := BindRepr(cond);
      text := "NOT (" + text + ")";
    case And(conds) =>
      text, args := BindReprAll(conds, " AND ");
    case Or(conds) =>
      text, args := BindReprAll(conds, " OR ");
  }

  method BindReprAll<V>(conds: seq<Cond<V>>, sep: string) returns (text: string, args: seq<V>)
    ensures args == ArgsFrom(conds, 0)
    ensures text == if |conds| == 0 then "" else if |conds| == 1 then Text(conds[0]) else "(" + Joined(conds, sep, 0) + ")"
    decreases conds, 0
  {
    if |conds| == 0 {
      return "", [];
    }
    if |conds| == 1 {
      text, args := BindRepr(conds[0]);
      assert ArgsFrom(conds, 0) == args + ArgsFrom(conds, 1);
      return;
    }
    var b := "";
    args := [];
    var i := 0;
    while i < |conds|
      invariant 0 <= i <= |conds|
      invariant args + ArgsFrom(conds, i) == ArgsFrom(conds, 0)
      invariant b + Joined(conds, sep, i) == Joined(conds, sep, 0)
    {
      if i > 0 {
        b := b + sep;
      }
      var s, a := BindRepr(conds[i]);
      b, args := b + s, args + a;
      i := i + 1;
    }
    text := "(" + b + ")";
  }
}
