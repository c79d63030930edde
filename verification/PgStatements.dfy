/**
  The statements of the PostgreSQL driver (sqldbs/pgsql/db.go) and the placeholders a server finds in them: the numbers
  after a `$` outside double quotes, in text order.
 */
module PgStatements {
  import opened Basics
  import opened SqlConditions
  import opened SqlReader
  import opened SqlMeaning
  import opened SqlRoundTrip
  import opened SqlStatements
  import Decimal

  // ----- the placeholders of a text -----

  function Placeholders(s: string, quoted: bool): seq<nat>
    decreases |s|
  {
    if s == [] then []
    else if s[0] == '"' then Placeholders(s[1..], !quoted)
    else if quoted || s[0] != '$' then Placeholders(s[1..], quoted)
    else
      var n := DigitsLength(s[1..]);
      if n == 0 then Placeholders(s[1..], false)
      else [Decimal.Value(s[1..][..n])] + Placeholders(s[1..][n..], false)
  }

  /** The numbers from lo on, n of them. */
  function Range(lo: nat, n: nat): seq<nat>
    decreases n
  {
    if n == 0 then [] else [lo] + Range(lo + 1, n - 1)
  }

  lemma {:induction false} RangeAppend(lo: nat, m: nat, n: nat)
    ensures Range(lo, m) + Range(lo + m, n) == Range(lo, m + n)
    decreases m
  {
    if m == 0 {
      assert [] + Range(lo, n) == Range(lo, n);
    } else {
      var front, back := Range(lo + 1, m - 1), Range(lo + m, n);
      RangeAppend(lo + 1, m - 1, n);
      assert lo + 1 + (m - 1) == lo + m;
      assert [lo] + front + back == [lo] + (front + back);
    }
  }

  /** Whatever follows, unless a digit, this text adds these numbers. */
  ghost predicate Gives(s: string, numbers: seq<nat>) {
    forall rest {:trigger Placeholders(s + rest, false)} :: !StartsDigit(rest) ==>
      Placeholders(s + rest, false) == numbers + Placeholders(rest, false)
  }

  lemma GivesWhole(s: string, numbers: seq<nat>)
    requires Gives(s, numbers)
    ensures Placeholders(s, false) == numbers
  {
    assert s + "" == s && numbers + [] == numbers;
    assert Placeholders(s + "", false) == numbers + Placeholders("", false);
  }

  lemma GivesAppend(a: string, x: seq<nat>, b: string, y: seq<nat>)
    requires Gives(a, x) && Gives(b, y) && !StartsDigit(b)
    ensures Gives(a + b, x + y)
  {
    forall rest | !StartsDigit(rest)
      ensures Placeholders(a + b + rest, false) == x + y + Placeholders(rest, false)
    {
      assert a + b + rest == a + (b + rest);
      assert !StartsDigit(b + rest);
      assert x + y + Placeholders(rest, false) == x + (y + Placeholders(rest, false));
    }
  }

  lemma {:induction false} GivesNothing(s: string)
    requires Quiet(s)
    ensures Gives(s, [])
  {
    forall rest | !StartsDigit(rest)
      ensures Placeholders(s + rest, false) == [] + Placeholders(rest, false)
    {
      SkipQuiet(s, rest);
    }
  }

  lemma {:induction false} SkipQuiet(s: string, rest: string)
    requires Quiet(s)
    ensures Placeholders(s + rest, false) == Placeholders(rest, false)
  {
    if s == [] {
      assert s + rest == rest;
    } else {
      assert (s + rest)[1..] == s[1..] + rest;
      SkipQuiet(s[1..], rest);
    }
  }

  lemma {:induction false} DigitsLengthIs(s: string, rest: string)
    requires Decimal.AllDigits(s) && !StartsDigit(rest)
    ensures DigitsLength(s + rest) == |s|
  {
    if s == [] {
      assert s + rest == rest;
    } else {
      assert (s + rest)[1..] == s[1..] + rest;
      DigitsLengthIs(s[1..], rest);
    }
  }

  lemma GivesOne(n: nat)
    ensures Gives(Dollar(n), [n])
  {
    forall rest | !StartsDigit(rest)
      ensures Placeholders(Dollar(n) + rest, false) == [n] + Placeholders(rest, false)
    {
      var s, f := Dollar(n) + rest, Decimal.Format(n);
      assert s[0] == '$' && s[1..] == f + rest;
      DigitsLengthIs(f, rest);
      assert (f + rest)[..|f|] == f && (f + rest)[|f|..] == rest;
      Decimal.ValueOfFormat(n);
    }
  }

  /** A translated clause holds exactly the next numbers, as many as it has placeholders. */
  lemma {:induction false} TranslateGives(raw: string, nth: nat)
    requires Tame(raw)
    ensures Gives(Translate(raw, nth), Range(nth, MarkCount(raw)))
    ensures !StartsDigit(raw) ==> !StartsDigit(Translate(raw, nth))
  {
    if raw == [] {
      GivesNothing("");
    } else {
      var more := raw[1..];
      assert Tame(more) by { assert forall i :: 0 <= i < |more| ==> more[i] == raw[i + 1]; }
      if raw[0] == '?' {
        TranslateGives(more, nth + 1);
        GivesOne(nth);
        assert more != [] ==> more[0] == raw[1];
        GivesAppend(Dollar(nth), [nth], Translate(more, nth + 1), Range(nth + 1, MarkCount(more)));
      } else {
        TranslateGives(more, nth);
        SkipOne(raw[0], Translate(more, nth), Range(nth, MarkCount(more)));
      }
    }
  }

  lemma SkipOne(c: char, s: string, numbers: seq<nat>)
    requires c != '$' && c != '"' && Gives(s, numbers)
    ensures Gives([c] + s, numbers)
  {
    forall rest | !StartsDigit(rest)
      ensures Placeholders([c] + s + rest, false) == numbers + Placeholders(rest, false)
    {
      assert ([c] + s + rest)[1..] == s + rest;
    }
  }

  // ----- identifiers -----

  function Doubled(part: string): string {
    if part == [] then [] else (if part[0] == '"' then ['"', '"'] else [part[0]]) + Doubled(part[1..])
  }

  function QuotePart(part: string): string {
    "\"" + Doubled(part) + "\""
  }

  function QuotedParts(name: string): seq<string> {
    var parts := Split(name, '.');
    seq(|parts|, i requires 0 <= i < |parts| => QuotePart(parts[i]))
  }

  /** Each dotted part in quotes, a quote inside it doubled. */
  function QuoteIdentifier(name: string): string {
    JoinFrom(QuotedParts(name), ".", 0)
  }

  lemma {:induction false} InsideQuotes(part: string, rest: string)
    ensures Placeholders(Doubled(part) + rest, true) == Placeholders(rest, true)
  {
    if part == [] {
      assert Doubled(part) + rest == rest;
    } else {
      InsideQuotes(part[1..], rest);
      var more := Doubled(part[1..]) + rest;
      var tail := ['"'] + more;
      assert tail[1..] == more;
      if part[0] == '"' {
        assert Doubled(part) + rest == ['"'] + tail && (['"'] + tail)[1..] == tail;
      } else {
        assert Doubled(part) + rest == [part[0]] + more && ([part[0]] + more)[1..] == more;
      }
    }
  }

  lemma GivesQuotePart(part: string)
    ensures Gives(QuotePart(part), [])
  {
    forall rest | !StartsDigit(rest)
      ensures Placeholders(QuotePart(part) + rest, false) == [] + Placeholders(rest, false)
    {
      var s, tail := QuotePart(part) + rest, "\"" + rest;
      assert s[1..] == Doubled(part) + tail && tail[1..] == rest;
      InsideQuotes(part, tail);
    }
  }

  lemma {:induction false} GivesJoined(parts: seq<string>, sep: string, i: nat)
    requires i <= |parts| && Quiet(sep) && !StartsDigit(sep)
    requires forall k :: 0 <= k < |parts| ==> Gives(parts[k], []) && !StartsDigit(parts[k])
    ensures Gives(JoinFrom(parts, sep, i), []) && !StartsDigit(JoinFrom(parts, sep, i))
    decreases |parts| - i
  {
    if i == |parts| {
      GivesNothing("");
    } else {
      var lead := if i > 0 then sep else "";
      GivesJoined(parts, sep, i + 1);
      GivesNothing(lead);
      GivesAppend(lead, [], parts[i], []);
      GivesAppend(lead + parts[i], [], JoinFrom(parts, sep, i + 1), []);
    }
  }

  /** A quoted name holds no placeholder, whatever the name. */
  lemma GivesIdentifier(name: string)
    ensures Gives(QuoteIdentifier(name), []) && !StartsDigit(QuoteIdentifier(name))
  {
    var parts := QuotedParts(name);
    forall k | 0 <= k < |parts|
      ensures Gives(parts[k], []) && !StartsDigit(parts[k])
    {
      GivesQuotePart(Split(name, '.')[k]);
    }
    GivesJoined(parts, ".", 0);
  }

  /** What a server reads as one quoted part, after its opening quote: the part, and what follows its closing quote. */
  function ReadPart(s: string): Option<(string, string)> {
    if s == [] then None
    else if s[0] != '"' then
      match ReadPart(s[1..])
      case None => None
      case Some((part, rest)) => Some(([s[0]] + part, rest))
    else if |s| > 1 && s[1] == '"' then
      match ReadPart(s[2..])
      case None => None
      case Some((part, rest)) => Some((['"'] + part, rest))
    else Some(("", s[1..]))
  }

  /** The text is read as this part and this rest, folded. */
  ghost predicate PartReads(s: string, part: string, rest: string) {
    forall x :: x == s ==> ReadPart(x) == Some((part, rest))
  }

  lemma PartEnds(rest: string)
    requires rest == [] || rest[0] != '"'
    ensures PartReads(['"'] + rest, "", rest)
  {
    assert (['"'] + rest)[1..] == rest;
  }

  lemma PartGrows(c: char, s: string, part: string, rest: string)
    requires PartReads(s, part, rest)
    ensures PartReads((if c == '"' then ['"', '"'] else [c]) + s, [c] + part, rest)
  {
    assert ReadPart(s) == Some((part, rest));
    assert (['"', '"'] + s)[2..] == s && ([c] + s)[1..] == s;
  }

  lemma {:induction false} ReadOfDoubled(part: string, rest: string)
    requires rest == [] || rest[0] != '"'
    ensures PartReads(Doubled(part) + (['"'] + rest), part, rest)
  {
    var tail := ['"'] + rest;
    if part == [] {
      PartEnds(rest);
      assert Doubled(part) + tail == tail;
    } else {
      var c, more := part[0], Doubled(part[1..]) + tail;
      ReadOfDoubled(part[1..], rest);
      PartGrows(c, more, part[1..], rest);
      assert [c] + part[1..] == part;
      assert Doubled(part) + tail == (if c == '"' then ['"', '"'] else [c]) + more;
    }
  }

  /** A qualified name as a server reads it: quoted parts with dots between them. */
  function ReadName(s: string): Option<(seq<string>, string)>
    decreases |s|
  {
    if s == [] || s[0] != '"' then None
    else
      match ReadPart(s[1..])
      case None => None
      case Some((part, rest)) =>
        if rest == [] || rest[0] != '.' || |rest| >= |s| then Some(([part], rest))
        else
          match ReadName(rest[1..])
          case None => None
          case Some((parts, rest')) => Some(([part] + parts, rest'))
  }

  ghost predicate NameReads(s: string, parts: seq<string>, rest: string) {
    forall x :: x == s ==> ReadName(x) == Some((parts, rest))
  }

  lemma QuotedPartReads(part: string, rest: string)
    requires rest == [] || rest[0] != '"'
    ensures var s := QuotePart(part) + rest; s[0] == '"' && PartReads(s[1..], part, rest) && |rest| < |s|
  {
    ReadOfDoubled(part, rest);
    var s := QuotePart(part) + rest;
    assert s[1..] == Doubled(part) + (['"'] + rest);
  }

  lemma NameEnds(part: string, rest: string)
    requires rest == [] || (rest[0] != '"' && rest[0] != '.')
    ensures NameReads(QuotePart(part) + rest, [part], rest)
  {
    QuotedPartReads(part, rest);
    assert ReadPart((QuotePart(part) + rest)[1..]) == Some((part, rest));
  }

  lemma NameGrows(part: string, s: string, parts: seq<string>, rest: string)
    requires NameReads(s, parts, rest)
    ensures NameReads(QuotePart(part) + (['.'] + s), [part] + parts, rest)
  {
    QuotedPartReads(part, ['.'] + s);
    assert ReadPart((QuotePart(part) + (['.'] + s))[1..]) == Some((part, ['.'] + s));
    assert (['.'] + s)[1..] == s;
    assert ReadName(s) == Some((parts, rest));
  }

  lemma {:induction false} ReadOfParts(parts: seq<string>, quoted: seq<string>, i: nat, rest: string)
    requires |quoted| == |parts| && (forall k :: 0 <= k < |parts| ==> quoted[k] == QuotePart(parts[k])) && i < |parts|
    requires rest == [] || (rest[0] != '"' && rest[0] != '.')
    ensures NameReads(quoted[i] + (JoinFrom(quoted, ".", i + 1) + rest), parts[i..], rest)
    decreases |parts| - i
  {
    var tail := JoinFrom(quoted, ".", i + 1) + rest;
    if i + 1 == |parts| {
      assert tail == rest && parts[i..] == [parts[i]];
      NameEnds(parts[i], rest);
    } else {
      var more := quoted[i + 1] + (JoinFrom(quoted, ".", i + 2) + rest);
      ReadOfParts(parts, quoted, i + 1, rest);
      NameGrows(parts[i], more, parts[i + 1..], rest);
      assert tail == ['.'] + more;
      assert parts[i..] == [parts[i]] + parts[i + 1..];
    }
  }

  /** Whatever a name contains, quoted it is read back as exactly its dotted parts, and nothing of it leaks out. */
  lemma QuotedNameReadsBack(name: string, rest: string)
    requires rest == [] || (rest[0] != '"' && rest[0] != '.')
    ensures NameReads(QuoteIdentifier(name) + rest, Split(name, '.'), rest)
  {
    var parts, quoted := Split(name, '.'), QuotedParts(name);
    ReadOfParts(parts, quoted, 0, rest);
    assert parts[0..] == parts;
    assert QuoteIdentifier(name) + rest == quoted[0] + (JoinFrom(quoted, ".", 1) + rest);
  }

  // ----- the statements -----

  datatype Table = Table(name: string, pk: seq<string>, columns: seq<string>)

  datatype Error = NoColumns | LengthMismatch | BadColumn | BadKey

  /** Only columns of the table, none twice. */
  ghost predicate Chosen(table: Table, columns: seq<string>) {
    Distinct(columns) && forall i :: 0 <= i < |columns| ==> columns[i] in table.columns
  }

  method Choose(table: Table, columns: seq<string>) returns (ok: bool)
    ensures ok <==> Chosen(table, columns)
  {
    var seen: set<string>, i := {}, 0;
    while i < |columns|
      invariant 0 <= i <= |columns| && Distinct(columns[..i])
      invariant forall k :: 0 <= k < i ==> columns[k] in table.columns
      invariant forall c :: c in seen <==> c in columns[..i]
    {
      if columns[i] in seen {
        assert exists k :: 0 <= k < i && columns[k] == columns[i];
        return false;
      }
      if columns[i] !in table.columns {
        return false;
      }
      assert columns[..i + 1] == columns[..i] + [columns[i]];
      seen := seen + {columns[i]};
      i := i + 1;
    }
    assert columns[..i] == columns;
    return true;
  }

  /** `"col" = $n`, for the i-th of these columns numbered from nth on. */
  function Assigned(columns: seq<string>, nth: nat, i: nat): string
    requires i < |columns|
  {
    QuoteIdentifier(columns[i]) + " = " + Dollar(nth + i)
  }

  /** The assignments from the i-th on, joined; with ", " a SET list, with " AND " a key comparison. */
  function AssignedFrom(columns: seq<string>, sep: string, nth: nat, i: nat): string
    requires i <= |columns|
    decreases |columns| - i
  {
    if i == |columns| then ""
    else (if i > 0 then sep else "") + Assigned(columns, nth, i) + AssignedFrom(columns, sep, nth, i + 1)
  }

  method Assign(columns: seq<string>, sep: string, nth: nat) returns (text: string)
    ensures text == AssignedFrom(columns, sep, nth, 0)
  {
    text := "";
    var i := 0;
    while i < |columns|
      invariant 0 <= i <= |columns|
      invariant text + AssignedFrom(columns, sep, nth, i) == AssignedFrom(columns, sep, nth, 0)
    {
      if i > 0 {
        text := text + sep;
      }
      text := text + (QuoteIdentifier(columns[i]) + " = " + Dollar(nth + i));
      i := i + 1;
    }
  }

  // ----- reading a statement back -----

  /** A column as a server reads it, and the number of the value it stands beside. */
  datatype Place = Place(parts: seq<string>, number: nat)

  const EQUALS := " = $"

  /** A quoted name, an equals sign, a numbered placeholder. */
  function ReadAssignment(s: string): Option<(Place, string)> {
    match ReadName(s)
    case None => None
    case Some((parts, rest)) =>
      if !(EQUALS <= rest) then None
      else
        var d := rest[|EQUALS|..];
        var n := DigitsLength(d);
        if n == 0 then None else Some((Place(parts, Decimal.Value(d[..n])), d[n..]))
  }

  function ReadAssignments(s: string, sep: string): Option<(seq<Place>, string)>
    decreases |s|
  {
    match ReadAssignment(s)
    case None => None
    case Some((p, rest)) =>
      if sep <= rest && |rest| < |s| then
        match ReadAssignments(rest[|sep|..], sep)
        case None => None
        case Some((places, rest')) => Some(([p] + places, rest'))
      else Some(([p], rest))
  }

  /** These columns, numbered from nth on. */
  function Placed(columns: seq<string>, nth: nat): seq<Place> {
    seq(|columns|, i requires 0 <= i < |columns| => Place(Split(columns[i], '.'), nth + i))
  }

  /** The i-th place names the i-th column, and the number beside it is that of the i-th value. */
  ghost predicate Puts<V>(places: seq<Place>, args: seq<V>, columns: seq<string>, values: seq<V>) {
    && |places| == |columns| == |values|
    && forall i :: 0 <= i < |places| ==>
         && places[i].parts == Split(columns[i], '.')
         && 1 <= places[i].number <= |args| && args[places[i].number - 1] == values[i]
  }

  lemma PutsFirst<V>(columns: seq<string>, values: seq<V>, after: seq<V>)
    requires |columns| == |values|
    ensures Puts(Placed(columns, 1), values + after, columns, values)
  {}

  lemma PutsLast<V>(columns: seq<string>, values: seq<V>, before: seq<V>)
    requires |columns| == |values|
    ensures Puts(Placed(columns, |before| + 1), before + values, columns, values)
  {}

  ghost predicate AssignmentReads(s: string, p: Place, rest: string) {
    forall x :: x == s ==> ReadAssignment(x) == Some((p, rest))
  }

  ghost predicate AssignmentsRead(s: string, sep: string, places: seq<Place>, rest: string) {
    forall x :: x == s ==> ReadAssignments(x, sep) == Some((places, rest))
  }

  lemma DollarReads(n: nat, rest: string)
    requires !StartsDigit(rest)
    ensures var s := " = " + Dollar(n) + rest;
      && EQUALS <= s && s[|EQUALS|..] == Decimal.Format(n) + rest
      && DigitsLength(s[|EQUALS|..]) == |Decimal.Format(n)| > 0
      && Decimal.Value(s[|EQUALS|..][..|Decimal.Format(n)|]) == n && s[|EQUALS|..][|Decimal.Format(n)|..] == rest
  {
    var f := Decimal.Format(n);
    DigitsLengthIs(f, rest);
    Decimal.ValueOfFormat(n);
    assert (f + rest)[..|f|] == f && (f + rest)[|f|..] == rest;
  }

  lemma OneReads(column: string, n: nat, rest: string)
    requires !StartsDigit(rest)
    ensures AssignmentReads(QuoteIdentifier(column) + " = " + Dollar(n) + rest, Place(Split(column, '.'), n), rest)
  {
    var tail := " = " + Dollar(n) + rest;
    QuotedNameReadsBack(column, tail);
    DollarReads(n, rest);
    assert QuoteIdentifier(column) + " = " + Dollar(n) + rest == QuoteIdentifier(column) + tail;
    assert ReadName(QuoteIdentifier(column) + tail) == Some((Split(column, '.'), tail));
  }

  lemma LastReads(s: string, sep: string, p: Place, rest: string)
    requires AssignmentReads(s, p, rest) && !(sep <= rest)
    ensures AssignmentsRead(s, sep, [p], rest)
  {
    assert ReadAssignment(s) == Some((p, rest));
  }

  lemma MoreReads(here: string, sep: string, p: Place, more: string, places: seq<Place>, rest: string)
    requires AssignmentReads(here + (sep + more), p, sep + more) && AssignmentsRead(more, sep, places, rest) && here != ""
    ensures AssignmentsRead(here + (sep + more), sep, [p] + places, rest)
  {
    var s := here + (sep + more);
    assert (sep + more)[|sep|..] == more && |sep + more| < |s|;
    assert ReadAssignment(s) == Some((p, sep + more));
    assert ReadAssignments(more, sep) == Some((places, rest));
  }

  lemma AssignedReads(columns: seq<string>, nth: nat, i: nat, rest: string)
    requires i < |columns| && !StartsDigit(rest)
    ensures AssignmentReads(Assigned(columns, nth, i) + rest, Placed(columns, nth)[i], rest)
    ensures Assigned(columns, nth, i) != ""
  {
    OneReads(columns[i], nth + i, rest);
    assert |" = "| == 3;
  }

  lemma PlacedStep(columns: seq<string>, nth: nat, i: nat)
    requires i < |columns|
    ensures Placed(columns, nth)[i..] == [Placed(columns, nth)[i]] + Placed(columns, nth)[i + 1..]
  {}

  /** The assignments are read back as these columns with these numbers, in order. */
  lemma {:induction false} AssignedReadsBack(columns: seq<string>, sep: string, nth: nat, i: nat, tail: string)
    requires i < |columns| && sep != "" && !StartsDigit(sep) && !StartsDigit(tail) && !(sep <= tail)
    ensures AssignmentsRead(Assigned(columns, nth, i) + (AssignedFrom(columns, sep, nth, i + 1) + tail), sep,
                            Placed(columns, nth)[i..], tail)
    decreases |columns| - i
  {
    var here, p := Assigned(columns, nth, i), Placed(columns, nth)[i];
    PlacedStep(columns, nth, i);
    if i + 1 == |columns| {
      assert AssignedFrom(columns, sep, nth, i + 1) + tail == tail;
      AssignedReads(columns, nth, i, tail);
      LastReads(here + tail, sep, p, tail);
      assert Placed(columns, nth)[i..] == [p];
    } else {
      var more := Assigned(columns, nth, i + 1) + (AssignedFrom(columns, sep, nth, i + 2) + tail);
      NextAssigned(columns, sep, nth, i + 1, tail);
      AssignedReadsBack(columns, sep, nth, i + 1, tail);
      AssignedReads(columns, nth, i, sep + more);
      MoreReads(here, sep, p, more, Placed(columns, nth)[i + 1..], tail);
    }
  }

  lemma NextAssigned(columns: seq<string>, sep: string, nth: nat, i: nat, tail: string)
    requires 0 < i < |columns|
    ensures AssignedFrom(columns, sep, nth, i) + tail
         == sep + (Assigned(columns, nth, i) + (AssignedFrom(columns, sep, nth, i + 1) + tail))
  {
    Regroup(sep, Assigned(columns, nth, i), AssignedFrom(columns, sep, nth, i + 1), tail);
  }

  lemma WholeListReads(columns: seq<string>, sep: string, nth: nat, tail: string)
    requires columns != [] && sep != "" && !StartsDigit(sep) && !StartsDigit(tail) && !(sep <= tail)
    ensures AssignmentsRead(AssignedFrom(columns, sep, nth, 0) + tail, sep, Placed(columns, nth), tail)
  {
    AssignedReadsBack(columns, sep, nth, 0, tail);
    assert Placed(columns, nth)[0..] == Placed(columns, nth);
    assert AssignedFrom(columns, sep, nth, 0) + tail
        == Assigned(columns, nth, 0) + (AssignedFrom(columns, sep, nth, 1) + tail);
  }

  /** What an UPDATE says: its table, its assignments, and what follows them. */
  datatype Update = Update(table: seq<string>, sets: seq<Place>, rest: string)

  /** What follows this word, if the text starts with it. */
  function After(s: string, word: string): Option<string> {
    if word <= s then Some(s[|word|..]) else None
  }

  /** A word, a name, another word: the name, and what follows. */
  function ReadHead(s: string, word: string, next: string): Option<(seq<string>, string)> {
    var named := After(s, word);
    if named.None? then None
    else
      match ReadName(named.value)
      case None => None
      case Some((name, rest)) =>
        var more := After(rest, next);
        if more.None? then None else Some((name, more.value))
  }

  const UPDATE := "UPDATE "
  const SET := " SET "
  const COMMA := ", "
  const AND := " AND "
  const WHERE := " WHERE "

  function ReadUpdate(s: string): Option<Update> {
    match ReadHead(s, UPDATE, SET)
    case None => None
    case Some((table, list)) =>
      match ReadAssignments(list, COMMA)
      case None => None
      case Some((sets, rest)) => Some(Update(table, sets, rest))
  }

  /** The comparisons of a key clause, and nothing after them. */
  function ReadKeys(s: string): Option<seq<Place>> {
    var keys := After(s, WHERE);
    if keys.None? then None
    else
      match ReadAssignments(keys.value, AND)
      case None => None
      case Some((places, rest)) => if rest == "" then Some(places) else None
  }

  lemma AfterWord(word: string, rest: string)
    ensures After(word + rest, word) == Some(rest)
  {}

  ghost predicate HeadReads(s: string, word: string, next: string, parts: seq<string>, rest: string) {
    forall x :: x == s ==> ReadHead(x, word, next) == Some((parts, rest))
  }

  lemma NamedHead(word: string, name: string, next: string, rest: string)
    requires next != "" && next[0] != '"' && next[0] != '.'
    ensures HeadReads(word + QuoteIdentifier(name) + next + rest, word, next, Split(name, '.'), rest)
  {
    var tail := next + rest;
    var named := QuoteIdentifier(name) + tail;
    assert word + QuoteIdentifier(name) + next + rest == word + named;
    AfterWord(word, named);
    QuotedNameReadsBack(name, tail);
    assert ReadName(named) == Some((Split(name, '.'), tail));
    AfterWord(next, rest);
  }

  lemma Words()
    ensures SET != "" && SET[0] != '"' && SET[0] != '.'
    ensures COMMA != "" && !StartsDigit(COMMA) && AND != "" && !StartsDigit(AND)
    ensures WHERE != "" && WHERE[0] == ' ' && !StartsDigit("") && !(AND <= "")
  {}

  /** A list's separator does not start the clause that follows it. */
  predicate Ends(clause: string, sep: string) {
    !StartsDigit(clause) && !(sep <= clause)
  }

  lemma UpdateParts(s: string, table: seq<string>, list: string, sets: seq<Place>, clause: string)
    requires HeadReads(s, UPDATE, SET, table, list) && AssignmentsRead(list, COMMA, sets, clause)
    ensures ReadUpdate(s) == Some(Update(table, sets, clause))
  {
    assert ReadHead(s, UPDATE, SET) == Some((table, list));
    assert ReadAssignments(list, COMMA) == Some((sets, clause));
  }

  /** An UPDATE of these columns. */
  function UpdateOf(name: string, columns: seq<string>, clause: string): string {
    UPDATE + QuoteIdentifier(name) + SET + AssignedFrom(columns, COMMA, 1, 0) + clause
  }

  /** It says so, and leaves its clause as it is. */
  lemma UpdateReads(name: string, columns: seq<string>, clause: string)
    requires columns != [] && Ends(clause, COMMA)
    ensures ReadUpdate(UpdateOf(name, columns, clause)) == Some(Update(Split(name, '.'), Placed(columns, 1), clause))
  {
    Words();
    UpdateReadsWith(UPDATE, SET, COMMA, name, columns, clause);
    UpdateParts(UpdateOf(name, columns, clause), Split(name, '.'), AssignedFrom(columns, COMMA, 1, 0) + clause,
                Placed(columns, 1), clause);
  }

  lemma UpdateReadsWith(word: string, next: string, sep: string, name: string, columns: seq<string>, clause: string)
    requires columns != [] && Ends(clause, sep) && sep != "" && !StartsDigit(sep)
    requires next != "" && next[0] != '"' && next[0] != '.'
    ensures HeadReads(word + QuoteIdentifier(name) + next + AssignedFrom(columns, sep, 1, 0) + clause, word, next,
                      Split(name, '.'), AssignedFrom(columns, sep, 1, 0) + clause)
    ensures AssignmentsRead(AssignedFrom(columns, sep, 1, 0) + clause, sep, Placed(columns, 1), clause)
  {
    NamedHead(word, name, next, AssignedFrom(columns, sep, 1, 0) + clause);
    assert word + QuoteIdentifier(name) + next + AssignedFrom(columns, sep, 1, 0) + clause
        == word + QuoteIdentifier(name) + next + (AssignedFrom(columns, sep, 1, 0) + clause);
    WholeListReads(columns, sep, 1, clause);
  }

  /** A key's clause. */
  function KeyClause(pk: seq<string>, nth: nat): string {
    WHERE + AssignedFrom(pk, AND, nth, 0)
  }

  lemma KeysRead(pk: seq<string>, nth: nat)
    requires pk != []
    ensures ReadKeys(KeyClause(pk, nth)) == Some(Placed(pk, nth))
  {
    var list := AssignedFrom(pk, AND, nth, 0);
    Words();
    AfterWord(WHERE, list);
    WholeListReads(pk, AND, nth, "");
    assert list + "" == list;
    assert ReadAssignments(list, AND) == Some((Placed(pk, nth), ""));
  }

  lemma KeyClauseEnds(pk: seq<string>, nth: nat)
    ensures Ends(KeyClause(pk, nth), COMMA)
  {
    assert KeyClause(pk, nth)[0] == ' ';
  }

  /** The statement gives each column its value, in the table's row whose key columns have the key's values. */
  ghost predicate UpdatesRow<V>(query: string, args: seq<V>, table: Table, columns: seq<string>, values: seq<V>, key: seq<V>) {
    forall u :: u == ReadUpdate(query) ==>
      && u.Some? && u.value.table == Split(table.name, '.') && Puts(u.value.sets, args, columns, values)
      && (table.pk != [] ==> ReadKeys(u.value.rest).Some? && Puts(ReadKeys(u.value.rest).value, args, table.pk, key))
  }

  lemma UpdateRowReads<V>(table: Table, columns: seq<string>, values: seq<V>, key: seq<V>)
    requires columns != [] && |columns| == |values| && |table.pk| == |key|
    ensures UpdatesRow(UpdateOf(table.name, columns, KeyClause(table.pk, |columns| + 1)), values + key, table, columns, values, key)
  {
    var clause := KeyClause(table.pk, |columns| + 1);
    KeyClauseEnds(table.pk, |columns| + 1);
    UpdateReads(table.name, columns, clause);
    SetsAndKeysPut(table.pk, columns, values, key);
    if table.pk != [] {
      KeysRead(table.pk, |columns| + 1);
    }
    UpdatesRowIs(UpdateOf(table.name, columns, clause), table, columns, values, key, clause);
  }

  lemma SetsAndKeysPut<V>(pk: seq<string>, columns: seq<string>, values: seq<V>, key: seq<V>)
    requires |columns| == |values| && |pk| == |key|
    ensures Puts(Placed(columns, 1), values + key, columns, values) && Puts(Placed(pk, |columns| + 1), values + key, pk, key)
  {
    PutsFirst(columns, values, key);
    PutsLast(pk, key, values);
  }

  lemma UpdatesRowIs<V>(query: string, table: Table, columns: seq<string>, values: seq<V>, key: seq<V>, clause: string)
    requires ReadUpdate(query) == Some(Update(Split(table.name, '.'), Placed(columns, 1), clause))
    requires Puts(Placed(columns, 1), values + key, columns, values) && Puts(Placed(table.pk, |columns| + 1), values + key, table.pk, key)
    requires table.pk != [] ==> ReadKeys(clause) == Some(Placed(table.pk, |columns| + 1))
    ensures UpdatesRow(query, values + key, table, columns, values, key)
  {}

  /** The statement gives each column its value, in the rows its clause picks. */
  ghost predicate UpdatesRows<V>(query: string, args: seq<V>, table: Table, columns: seq<string>, values: seq<V>, clause: string) {
    forall u :: u == ReadUpdate(query) ==>
      u.Some? && u.value.table == Split(table.name, '.') && Puts(u.value.sets, args, columns, values) && u.value.rest == clause
  }

  lemma UpdateRowsReads<V>(table: Table, columns: seq<string>, values: seq<V>, cond: Option<Cond<V>>, clause: string, bound: seq<V>)
    requires columns != [] && |columns| == |values| && clause == WhereText(cond, |columns| + 1)
    ensures UpdatesRows(UpdateOf(table.name, columns, clause), values + bound, table, columns, values, clause)
  {
    ClauseStops(cond, |columns| + 1);
    UpdateReads(table.name, columns, clause);
    PutsFirst(columns, values, bound);
    UpdatesRowsIs(UpdateOf(table.name, columns, clause), values + bound, table, columns, values, clause);
  }

  lemma UpdatesRowsIs<V>(query: string, args: seq<V>, table: Table, columns: seq<string>, values: seq<V>, clause: string)
    requires ReadUpdate(query) == Some(Update(Split(table.name, '.'), Placed(columns, 1), clause))
    requires Puts(Placed(columns, 1), args, columns, values)
    ensures UpdatesRows(query, args, table, columns, values, clause)
  {}

  // ----- the list of a SELECT -----

  function ReadNames(s: string): Option<(seq<seq<string>>, string)>
    decreases |s|
  {
    match ReadName(s)
    case None => None
    case Some((parts, rest)) =>
      if COMMA <= rest && |rest| < |s| then
        match ReadNames(rest[|COMMA|..])
        case None => None
        case Some((names, rest')) => Some(([parts] + names, rest'))
      else Some(([parts], rest))
  }

  /** The table and the clause of the FROM that follows. */
  function ReadFrom(s: string, word: string): Option<(seq<string>, string)> {
    var named := After(s, word);
    if named.None? then None else ReadName(named.value)
  }

  const SELECT := "SELECT "
  const FROM := " FROM "

  /** What a SELECT says: its columns, its table, and its clause. */
  function ReadSelect(s: string): Option<(seq<seq<string>>, seq<string>, string)> {
    var listed := After(s, SELECT);
    if listed.None? then None
    else
      match ReadNames(listed.value)
      case None => None
      case Some((names, rest)) =>
        match ReadFrom(rest, FROM)
        case None => None
        case Some((table, rest')) => Some((names, table, rest'))
  }

  function PartsOf(columns: seq<string>): seq<seq<string>> {
    seq(|columns|, i requires 0 <= i < |columns| => Split(columns[i], '.'))
  }

  ghost predicate NamesRead(s: string, names: seq<seq<string>>, rest: string) {
    forall x :: x == s ==> ReadNames(x) == Some((names, rest))
  }

  lemma LastName(name: string, rest: string)
    requires !(COMMA <= rest) && (rest == [] || (rest[0] != '"' && rest[0] != '.'))
    ensures NamesRead(QuoteIdentifier(name) + rest, [Split(name, '.')], rest)
  {
    QuotedNameReadsBack(name, rest);
    assert ReadName(QuoteIdentifier(name) + rest) == Some((Split(name, '.'), rest));
  }

  lemma MoreNames(name: string, more: string, names: seq<seq<string>>, rest: string)
    requires NamesRead(more, names, rest)
    ensures NamesRead(QuoteIdentifier(name) + (COMMA + more), [Split(name, '.')] + names, rest)
  {
    Words();
    QuotedNameReadsBack(name, COMMA + more);
    assert ReadName(QuoteIdentifier(name) + (COMMA + more)) == Some((Split(name, '.'), COMMA + more));
    assert (COMMA + more)[|COMMA|..] == more && ReadNames(more) == Some((names, rest));
  }

  lemma {:induction false} JoinedNamesRead(columns: seq<string>, quoted: seq<string>, i: nat, rest: string)
    requires |quoted| == |columns| && (forall k :: 0 <= k < |columns| ==> quoted[k] == QuoteIdentifier(columns[k])) && i < |columns|
    requires !(COMMA <= rest) && (rest == [] || (rest[0] != '"' && rest[0] != '.'))
    ensures NamesRead(quoted[i] + (JoinFrom(quoted, COMMA, i + 1) + rest), PartsOf(columns)[i..], rest)
    decreases |columns| - i
  {
    var tail := JoinFrom(quoted, COMMA, i + 1) + rest;
    if i + 1 == |columns| {
      assert tail == rest && PartsOf(columns)[i..] == [Split(columns[i], '.')];
      LastName(columns[i], rest);
    } else {
      var more := quoted[i + 1] + (JoinFrom(quoted, COMMA, i + 2) + rest);
      JoinedNamesRead(columns, quoted, i + 1, rest);
      MoreNames(columns[i], more, PartsOf(columns)[i + 1..], rest);
      assert tail == COMMA + more;
      assert PartsOf(columns)[i..] == [Split(columns[i], '.')] + PartsOf(columns)[i + 1..];
    }
  }

  /** A clause neither continues a name nor a list. */
  lemma ClauseStops<V>(cond: Option<Cond<V>>, nth: nat)
    ensures var w := WhereText(cond, nth); Ends(w, COMMA) && (w == [] || (w[0] != '"' && w[0] != '.'))
  {
    assert WhereText(cond, nth) != "" ==> WhereText(cond, nth)[0] == ' ';
  }

  lemma FromReads(word: string, name: string, clause: string)
    requires clause == [] || (clause[0] != '"' && clause[0] != '.')
    ensures ReadFrom(word + QuoteIdentifier(name) + clause, word) == Some((Split(name, '.'), clause))
  {
    assert word + QuoteIdentifier(name) + clause == word + (QuoteIdentifier(name) + clause);
    AfterWord(word, QuoteIdentifier(name) + clause);
    QuotedNameReadsBack(name, clause);
    assert ReadName(QuoteIdentifier(name) + clause) == Some((Split(name, '.'), clause));
  }

  function SelectOf(columns: seq<string>, name: string, clause: string): string {
    SELECT + QuoteJoin(columns) + (FROM + QuoteIdentifier(name)) + clause
  }

  lemma JoinFirst<T>(parts: seq<seq<T>>, sep: seq<T>, rest: seq<T>)
    requires parts != []
    ensures JoinFrom(parts, sep, 0) + rest == parts[0] + (JoinFrom(parts, sep, 1) + rest)
  {}

  lemma NamesOf(columns: seq<string>, rest: string)
    requires columns != [] && !(COMMA <= rest) && (rest == [] || (rest[0] != '"' && rest[0] != '.'))
    ensures NamesRead(QuoteJoin(columns) + rest, PartsOf(columns), rest)
  {
    var quoted := QuotedColumns(columns);
    JoinedNamesRead(columns, quoted, 0, rest);
    assert PartsOf(columns)[0..] == PartsOf(columns);
    JoinFirst(quoted, COMMA, rest);
  }

  lemma FromEnds(rest: string)
    ensures FROM + rest != [] && (FROM + rest)[0] == ' ' && !(COMMA <= FROM + rest)
  {
    assert (FROM + rest)[0] != COMMA[0];
  }

  /** A SELECT of these columns says so. */
  lemma SelectReads<V>(columns: seq<string>, name: string, cond: Option<Cond<V>>)
    requires columns != []
    ensures ReadSelect(SelectOf(columns, name, WhereText(cond, 1))) == Some((PartsOf(columns), Split(name, '.'), WhereText(cond, 1)))
  {
    var clause := WhereText(cond, 1);
    var source := FROM + QuoteIdentifier(name) + clause;
    ClauseStops(cond, 1);
    FromReads(FROM, name, clause);
    FromStarts(QuoteIdentifier(name), clause);
    NamesOf(columns, source);
    SelectParts(QuoteJoin(columns) + source, PartsOf(columns), source, Split(name, '.'), clause);
    assert SelectOf(columns, name, clause) == SELECT + (QuoteJoin(columns) + source) by {
      FourParts(SELECT, QuoteJoin(columns), FROM, QuoteIdentifier(name), clause);
    }
  }

  lemma FromStarts(name: string, clause: string)
    ensures var source := FROM + name + clause; source != [] && source[0] == ' ' && !(COMMA <= source)
  {
    assert FROM + name + clause == FROM + (name + clause);
    FromEnds(name + clause);
  }

  lemma FourParts(a: string, b: string, c: string, d: string, e: string)
    ensures a + b + (c + d) + e == a + (b + (c + d + e))
  {}

  lemma SelectParts(list: string, names: seq<seq<string>>, source: string, table: seq<string>, clause: string)
    requires NamesRead(list, names, source) && ReadFrom(source, FROM) == Some((table, clause))
    ensures ReadSelect(SELECT + list) == Some((names, table, clause))
  {
    AfterWord(SELECT, list);
    assert ReadNames(list) == Some((names, source));
  }

  function QuotedColumns(columns: seq<string>): seq<string> {
    seq(|columns|, i requires 0 <= i < |columns| => QuoteIdentifier(columns[i]))
  }

  lemma {:induction false} GivesAssigned(columns: seq<string>, sep: string, nth: nat, i: nat)
    requires i <= |columns| && Quiet(sep) && !StartsDigit(sep)
    ensures Gives(AssignedFrom(columns, sep, nth, i), Range(nth + i, |columns| - i))
    ensures !StartsDigit(AssignedFrom(columns, sep, nth, i))
    decreases |columns| - i
  {
    if i == |columns| {
      GivesNothing("");
    } else {
      var lead, here := if i > 0 then sep else "", Assigned(columns, nth, i);
      GivesAssigned(columns, sep, nth, i + 1);
      GivesAssignment(columns[i], nth + i);
      GivesNothing(lead);
      GivesAppend(lead, [], here, [nth + i]);
      assert [] + [nth + i] == [nth + i];
      assert !StartsDigit(AssignedFrom(columns, sep, nth, i + 1));
      GivesAppend(lead + here, [nth + i], AssignedFrom(columns, sep, nth, i + 1), Range(nth + i + 1, |columns| - i - 1));
    }
  }

  lemma GivesAssignment(column: string, n: nat)
    ensures Gives(QuoteIdentifier(column) + " = " + Dollar(n), [n])
    ensures !StartsDigit(QuoteIdentifier(column) + " = " + Dollar(n))
  {
    GivesIdentifier(column);
    GivesNothing(" = ");
    GivesAppend(QuoteIdentifier(column), [], " = ", []);
    GivesOne(n);
    GivesAppend(QuoteIdentifier(column) + " = ", [], Dollar(n), [n]);
    assert [] + [] + [n] == [n];
  }

  lemma GivesWhere<V>(cond: Option<Cond<V>>, nth: nat)
    requires cond.Some? ==> ColumnsOk(cond.value)
    ensures Gives(WhereText(cond, nth), Range(nth, |WhereArgs(cond)|)) && !StartsDigit(WhereText(cond, nth))
  {
    if cond.None? || Text(cond.value) == "" {
      GivesNothing("");
    } else {
      TextPiece(cond.value);
      TranslateGives(Text(cond.value), nth);
      GivesNothing(" WHERE ");
      GivesAppend(" WHERE ", [], Translate(Text(cond.value), nth), Range(nth, |Args(cond.value)|));
      assert [] + Range(nth, |Args(cond.value)|) == Range(nth, |Args(cond.value)|);
    }
  }

  /** A quiet opening, a quoted name, a quiet middle. */
  lemma GivesHead(opening: string, name: string, middle: string)
    requires Quiet(opening) && Quiet(middle) && !StartsDigit(middle)
    ensures Gives(opening + QuoteIdentifier(name) + middle, [])
  {
    GivesNothing(opening);
    GivesIdentifier(name);
    GivesNothing(middle);
    GivesAppend(opening, [], QuoteIdentifier(name), []);
    GivesAppend(opening + QuoteIdentifier(name), [], middle, []);
  }

  /** A head without placeholders, and two parts that number on from each other. */
  lemma GivesStatement(head: string, a: string, m: nat, b: string, n: nat)
    requires Gives(head, []) && Gives(a, Range(1, m)) && Gives(b, Range(1 + m, n)) && !StartsDigit(a) && !StartsDigit(b)
    ensures Placeholders(head + a + b, false) == Range(1, m + n)
  {
    GivesAppend(head, [], a, Range(1, m));
    assert [] + Range(1, m) == Range(1, m);
    GivesAppend(head + a, Range(1, m), b, Range(1 + m, n));
    RangeAppend(1, m, n);
    GivesWhole(head + a + b, Range(1, m + n));
  }

  /** The statement of one row by its key: the new values, then the key's. */
  method UpdateRow<V>(table: Table, pkValue: seq<V>, columns: seq<string>, values: seq<V>)
    returns (r: Result<(string, seq<V>), Error>)
    ensures r.Ok? <==> columns != [] && |columns| == |values| && Chosen(table, columns) && |pkValue| == |table.pk|
    ensures r.Err? ==> r.error == if columns == [] then NoColumns else if |columns| != |values| then LengthMismatch
                                  else if !Chosen(table, columns) then BadColumn else BadKey
    ensures r.Ok? ==> r.value.1 == values + pkValue && Placeholders(r.value.0, false) == Range(1, |r.value.1|)
    ensures r.Ok? ==> r.value.0 == UpdateOf(table.name, columns, KeyClause(table.pk, |columns| + 1))
    ensures r.Ok? ==> UpdatesRow(r.value.0, r.value.1, table, columns, values, pkValue)
  {
    if |columns| == 0 {
      return Err(NoColumns);
    }
    if |columns| != |values| {
      return Err(LengthMismatch);
    }
    var chosen := Choose(table, columns);
    if !chosen {
      return Err(BadColumn);
    }
    if |pkValue| != |table.pk| {
      return Err(BadKey);
    }
    var query := UpdateText(table, columns);
    UpdateRowReads(table, columns, values, pkValue);
    return Ok((query, values + pkValue));
  }

  lemma UpdateHead(table: Table)
    ensures Gives(UPDATE + QuoteIdentifier(table.name) + SET, [])
  {
    GivesHead(UPDATE, table.name, SET);
  }

  lemma UpdateKeys(pk: seq<string>, nth: nat)
    ensures Gives(AssignedFrom(pk, AND, nth, 0), Range(nth, |pk|)) && !StartsDigit(AssignedFrom(pk, AND, nth, 0))
  {
    GivesAssigned(pk, AND, nth, 0);
  }

  lemma UpdateSets(columns: seq<string>)
    ensures Gives(AssignedFrom(columns, COMMA, 1, 0), Range(1, |columns|)) && !StartsDigit(AssignedFrom(columns, COMMA, 1, 0))
  {
    GivesAssigned(columns, COMMA, 1, 0);
  }

  lemma GivesSetsAndKeys(head: string, sets: string, m: nat, keys: string, n: nat)
    requires Gives(head, []) && Gives(sets, Range(1, m)) && Gives(keys, Range(1 + m, n)) && !StartsDigit(sets) && !StartsDigit(keys)
    ensures Placeholders(head + sets + (WHERE + keys), false) == Range(1, m + n)
  {
    GivesKeyed(head, sets, m, WHERE, keys, n);
  }

  method UpdateText(table: Table, columns: seq<string>) returns (query: string)
    ensures Placeholders(query, false) == Range(1, |columns| + |table.pk|)
    ensures query == UpdateOf(table.name, columns, KeyClause(table.pk, |columns| + 1))
  {
    var sets := Assign(columns, COMMA, 1);
    var keys := Assign(table.pk, AND, |columns| + 1);
    var head := UPDATE + QuoteIdentifier(table.name) + SET;
    UpdateHead(table);
    UpdateSets(columns);
    UpdateKeys(table.pk, |columns| + 1);
    GivesSetsAndKeys(head, sets, |columns|, keys, |table.pk|);
    query := head + sets + (WHERE + keys);
  }

  lemma GivesKeyed(head: string, sets: string, m: nat, middle: string, keys: string, n: nat)
    requires Gives(head, []) && Gives(sets, Range(1, m)) && Gives(keys, Range(1 + m, n)) && !StartsDigit(sets) && !StartsDigit(keys)
    requires Quiet(middle) && middle != "" && !StartsDigit(middle)
    ensures Placeholders(head + sets + (middle + keys), false) == Range(1, m + n)
  {
    GivesNothing(middle);
    GivesAppend(middle, [], keys, Range(1 + m, n));
    assert [] + Range(1 + m, n) == Range(1 + m, n);
    GivesStatement(head, sets, m, middle + keys, n);
  }

  /** The statement of the rows a condition picks: the new values, then the condition's. */
  method UpdateRows<V>(table: Table, columns: seq<string>, values: seq<V>, cond: Option<Cond<V>>)
    returns (r: Result<(string, seq<V>), Error>)
    requires cond.Some? ==> ColumnsOk(cond.value)
    ensures r.Ok? <==> columns != [] && |columns| == |values| && Chosen(table, columns)
    ensures r.Err? ==> r.error == if columns == [] || |columns| != |values| then LengthMismatch else BadColumn
    ensures r.Ok? ==> r.value.1 == values + WhereArgs(cond) && Placeholders(r.value.0, false) == Range(1, |r.value.1|)
    ensures r.Ok? ==> r.value.0 == UpdateOf(table.name, columns, WhereText(cond, |columns| + 1))
    ensures r.Ok? ==> UpdatesRows(r.value.0, r.value.1, table, columns, values, WhereText(cond, |columns| + 1))
  {
    if |columns| == 0 || |columns| != |values| {
      return Err(LengthMismatch);
    }
    var chosen := Choose(table, columns);
    if !chosen {
      return Err(BadColumn);
    }
    var query, args := UpdateRowsText(table, columns, values, cond, WhereText(cond, |columns| + 1));
    return Ok((query, args));
  }

  method UpdateRowsText<V>(table: Table, columns: seq<string>, values: seq<V>, cond: Option<Cond<V>>, ghost clause: string)
    returns (query: string, args: seq<V>)
    requires (cond.Some? ==> ColumnsOk(cond.value)) && columns != [] && |columns| == |values|
    requires clause == WhereText(cond, |columns| + 1)
    ensures query == UpdateOf(table.name, columns, clause) && args == values + WhereArgs(cond)
    ensures Placeholders(query, false) == Range(1, |args|)
    ensures UpdatesRows(query, args, table, columns, values, clause)
  {
    var sets := Assign(columns, COMMA, 1);
    query := UPDATE + QuoteIdentifier(table.name) + SET + sets;
    var whereSQL, whereArgs := Build(cond, |columns| + 1);
    query, args := query + whereSQL, values + whereArgs;
    UpdateRowsGives(table, columns, cond, clause, |args|);
    UpdateRowsReads(table, columns, values, cond, clause, whereArgs);
  }

  lemma UpdateRowsGives<V>(table: Table, columns: seq<string>, cond: Option<Cond<V>>, clause: string, total: nat)
    requires cond.Some? ==> ColumnsOk(cond.value)
    requires clause == WhereText(cond, |columns| + 1) && total == |columns| + |WhereArgs(cond)|
    ensures Placeholders(UpdateOf(table.name, columns, clause), false) == Range(1, total)
  {
    WhereGiven(cond, |columns| + 1);
    UpdateGives(table, columns, clause, |WhereArgs(cond)|);
  }

  /** The clause gives these numbers, folded. */
  ghost predicate Given(clause: string, lo: nat, n: nat) {
    forall x :: x == clause ==> Gives(x, Range(lo, n)) && !StartsDigit(x)
  }

  lemma WhereGiven<V>(cond: Option<Cond<V>>, nth: nat)
    requires cond.Some? ==> ColumnsOk(cond.value)
    ensures Given(WhereText(cond, nth), nth, |WhereArgs(cond)|)
  {
    GivesWhere(cond, nth);
  }

  lemma UpdateGives(table: Table, columns: seq<string>, clause: string, n: nat)
    requires Given(clause, |columns| + 1, n)
    ensures Placeholders(UpdateOf(table.name, columns, clause), false) == Range(1, |columns| + n)
  {
    UpdateHead(table);
    UpdateSets(columns);
    GivesStatement(UPDATE + QuoteIdentifier(table.name) + SET, AssignedFrom(columns, COMMA, 1, 0), |columns|, clause, n);
  }

  const DELETE_FROM := "DELETE FROM "

  function DeleteOf(name: string, clause: string): string {
    DELETE_FROM + QuoteIdentifier(name) + clause
  }

  lemma DeleteGives(name: string, clause: string, n: nat)
    requires Given(clause, 1, n)
    ensures Placeholders(DeleteOf(name, clause), false) == Range(1, n)
  {
    GivesNothing("");
    GivesHead(DELETE_FROM, name, "");
    var head := DELETE_FROM + QuoteIdentifier(name);
    GivesStatement(head + "", "", 0, clause, n);
    assert head + "" + "" + clause == head + clause;
  }

  method DeleteRows<V>(table: Table, cond: Option<Cond<V>>) returns (query: string, args: seq<V>)
    requires cond.Some? ==> ColumnsOk(cond.value)
    ensures args == WhereArgs(cond) && Placeholders(query, false) == Range(1, |args|)
    ensures query == DeleteOf(table.name, WhereText(cond, 1))
    ensures ReadFrom(query, DELETE_FROM) == Some((Split(table.name, '.'), WhereText(cond, 1)))
  {
    var whereSQL, whereArgs := Build(cond, 1);
    query, args := DELETE_FROM + QuoteIdentifier(table.name) + whereSQL, whereArgs;
    WhereGiven(cond, 1);
    DeleteGives(table.name, whereSQL, |whereArgs|);
    ClauseStops(cond, 1);
    FromReads(DELETE_FROM, table.name, whereSQL);
  }

  /** The columns' quoted names, comma-separated. */
  function QuoteJoin(columns: seq<string>): string {
    JoinFrom(QuotedColumns(columns), COMMA, 0)
  }

  lemma GivesColumns(columns: seq<string>)
    ensures Gives(QuoteJoin(columns), []) && !StartsDigit(QuoteJoin(columns))
  {
    forall k | 0 <= k < |columns|
      ensures Gives(QuoteIdentifier(columns[k]), []) && !StartsDigit(QuoteIdentifier(columns[k]))
    {
      GivesIdentifier(columns[k]);
    }
    GivesJoined(QuotedColumns(columns), COMMA, 0);
  }

  /** Choosing no column is choosing all. */
  method SelectRows<V>(table: Table, cond: Option<Cond<V>>, columns: seq<string>) returns (r: Result<(string, seq<V>), Error>)
    requires cond.Some? ==> ColumnsOk(cond.value)
    ensures r.Ok? <==> columns == [] || Chosen(table, columns)
    ensures r.Err? ==> r.error == BadColumn
    ensures r.Ok? ==> r.value.1 == WhereArgs(cond) && Placeholders(r.value.0, false) == Range(1, |r.value.1|)
    ensures r.Ok? ==> r.value.0 == SelectOf(if columns == [] then table.columns else columns, table.name, WhereText(cond, 1))
    ensures r.Ok? && (columns != [] || table.columns != []) ==>
      ReadSelect(r.value.0) == Some((PartsOf(if columns == [] then table.columns else columns), Split(table.name, '.'), WhereText(cond, 1)))
  {
    if |columns| > 0 {
      var chosen := Choose(table, columns);
      if !chosen {
        return Err(BadColumn);
      }
    }
    var names := if columns == [] then table.columns else columns;
    var whereSQL, whereArgs := Build(cond, 1);
    WhereGiven(cond, 1);
    SelectGives(names, table.name, whereSQL, |whereArgs|);
    if names != [] {
      SelectReads(names, table.name, cond);
    }
    return Ok((SELECT + QuoteJoin(names) + (FROM + QuoteIdentifier(table.name)) + whereSQL, whereArgs));
  }

  lemma SelectGives(columns: seq<string>, name: string, clause: string, n: nat)
    requires Given(clause, 1, n)
    ensures Placeholders(SelectOf(columns, name, clause), false) == Range(1, n)
  {
    var source := FROM + QuoteIdentifier(name);
    assert source == source + "";
    GivesNothing(SELECT);
    GivesColumns(columns);
    GivesAppend(SELECT, [], QuoteJoin(columns), []);
    GivesHead(FROM, name, "");
    GivesStatement(SELECT + QuoteJoin(columns), source, 0, clause, n);
  }

  // ----- the meaning of a translated clause -----

  lemma {:induction false} TranslateWord(w: string, rest: string, nth: nat)
    requires forall i :: 0 <= i < |w| ==> w[i] != '?'
    ensures Translate(w + rest, nth) == w + Translate(rest, nth)
  {
    if w == [] {
      assert w + rest == rest;
    } else {
      assert (w + rest)[1..] == w[1..] + rest;
      TranslateWord(w[1..], rest, nth);
    }
  }

  lemma {:induction false} WordSplits(s: string)
    ensures forall i :: 0 <= i < WordLength(s) ==> WordChar(s[i])
    ensures Boundary(s[WordLength(s)..])
  {
    if s != [] && WordChar(s[0]) {
      WordSplits(s[1..]);
      assert s[WordLength(s)..] == s[1..][WordLength(s[1..])..];
      assert forall i :: 0 < i < WordLength(s) ==> s[i] == s[1..][i - 1];
    }
  }

  lemma TameTail(s: string, n: nat)
    requires Tame(s) && n <= |s|
    ensures Tame(s[n..])
  {
    assert forall i :: 0 <= i < |s[n..]| ==> s[n..][i] == s[i + n];
  }

  /** The first character of a text survives translation, unless it is a placeholder. */
  lemma TranslateFirst(s: string, nth: nat)
    ensures s != [] ==> Translate(s, nth) != [] && Translate(s, nth)[0] == if s[0] == '?' then '$' else s[0]
    ensures s == [] ==> Translate(s, nth) == []
  {}

  /** Numbered or not, a text has the same tokens. */
  lemma {:induction false} LexTranslated(s: string, nth: nat, next: nat)
    requires Tame(s)
    ensures Lex(Translate(s, nth), next) == Lex(s, nth)
    decreases |s|
  {
    if s != [] {
      TameTail(s, 1);
      if s[0] == '?' {
        LexTranslated(s[1..], nth + 1, next);
        TranslateFirst(s[1..], nth + 1);
        LexDollar(Translate(s[1..], nth + 1), nth, next);
      } else {
        LexTranslated(s[1..], nth, next);
        TranslateFirst(s[1..], nth);
        var t := Translate(s, nth);
        assert t[0] == s[0] && t[1..] == Translate(s[1..], nth);
        if |s| > 1 && s[1] == '=' {
          TameTail(s, 2);
          LexTranslated(s[2..], nth, next);
          assert s[1..][1..] == s[2..] && t[2..] == t[1..][1..] == Translate(s[2..], nth);
        }
        if WordLength(s) > 0 {
          LexTranslatedWord(s, nth, next);
        }
      }
    }
  }

  lemma LexDollar(more: string, n: nat, next: nat)
    requires !StartsDigit(more)
    ensures Lex(Dollar(n) + more, next) == Front(Param(n), Lex(more, next))
  {
    var f := Decimal.Format(n);
    DigitsLengthIs(f, more);
    Decimal.ValueOfFormat(n);
    var t := Dollar(n) + more;
    assert t[0] == '$' && t[1..] == f + more && (f + more)[..|f|] == f && (f + more)[|f|..] == more;
  }

  lemma {:induction false} LexTranslatedWord(s: string, nth: nat, next: nat)
    requires Tame(s) && WordLength(s) > 0
    ensures Lex(Translate(s, nth), next) == Lex(s, nth)
    decreases |s|, 0
  {
    var n := WordLength(s);
    var w, rest := s[..n], s[n..];
    WordSplits(s);
    TameTail(s, n);
    LexTranslated(rest, nth, next);
    assert s == w + rest;
    TranslateWord(w, rest, nth);
    TranslateFirst(rest, nth);
    var more := Translate(rest, nth);
    LexWordStep(w, more, next);
    LexWordStep(w, rest, nth);
  }

  /** A word is lexed at once, whatever ends it. */
  lemma LexWordStep(w: string, rest: string, next: nat)
    requires w != "" && (forall i :: 0 <= i < |w| ==> WordChar(w[i])) && Boundary(rest)
    ensures Lex(w + rest, next) == if IsIdentifier(w) then Front(WordToken(w), Lex(rest, next)) else None
  {
    WordLengthIs(w, rest);
    var s := w + rest;
    assert s[..|w|] == w && s[|w|..] == rest && s[0] == w[0];
  }

  /**
    The clause a statement carries after |values| earlier values, read back with `$n` standing for the n-th value of the
    whole statement, is an expression exactly when the condition is readable, and then evaluates on every row as it does.
   */
  lemma ClauseKeepsMeaning<V>(words: set<string>, c: Cond<V>, values: seq<V>, row: Row<V>)
    requires KEYWORDS <= words && ColumnsOk(c)
    ensures var e := Read(words, Translate(Text(c), |values| + 1), 0);
      && (e.Some? <==> Readable(words, c))
      && (e.Some? ==> EvalExpr(e.value, values + Args(c), row) == Eval(c, row))
  {
    var nth := |values| + 1;
    TextPiece(c);
    LexTranslated(Text(c), nth, 0);
    LexWhole(c, nth);
    ParseWhole(words, c, nth);
    assert (values + Args(c))[nth - 1..nth - 1 + |Args(c)|] == Args(c);
    if Readable(words, c) {
      SameMeaning(words, c, nth, values + Args(c), row);
    }
  }

  // ----- conditions that render nothing -----

  /** An empty And or Or, alone or as the only element of another. */
  predicate Hollow<V>(c: Cond<V>) {
    match c
    case And(conds) => |conds| == 0 || (|conds| == 1 && Hollow(conds[0]))
    case Or(conds) => |conds| == 0 || (|conds| == 1 && Hollow(conds[0]))
    case _ => false
  }

  /** What it means: an empty And holds, an empty Or does not. */
  function HollowTruth<V>(c: Cond<V>): Truth
    requires Hollow(c)
  {
    match c
    case And(conds) => if |conds| == 0 then True else HollowTruth(conds[0])
    case Or(conds) => if |conds| == 0 then False else HollowTruth(conds[0])
  }

  lemma {:induction false} HollowIs<V>(words: set<string>, c: Cond<V>, row: Row<V>)
    ensures Text(c) == "" <==> Hollow(c)
    ensures Hollow(c) ==> Eval(c, row) == HollowTruth(c) && !Readable(words, c)
  {
    match c
    case And(conds) =>
      if |conds| == 1 {
        HollowIs(words, conds[0], row);
        assert All(conds, 0, row) == AndT(Eval(conds[0], row), All(conds, 1, row));
      }
    case Or(conds) =>
      if |conds| == 1 {
        HollowIs(words, conds[0], row);
        assert Any(conds, 0, row) == OrT(Eval(conds[0], row), Any(conds, 1, row));
      }
    case _ =>
  }

  /** Whether a statement with this clause takes the row: every row without one; None when the clause cannot be read. */
  function Takes<V>(words: set<string>, whereText: string, args: seq<V>, row: Row<V>): Option<Truth> {
    if whereText == "" then Some(True)
    else if !(WHERE <= whereText) then None
    else
      match Read(words, whereText[|WHERE|..], 0)
      case None => None
      case Some(e) => Some(EvalExpr(e, args, row))
  }

  lemma WhereTextIs<V>(c: Cond<V>, nth: nat)
    requires Text(c) != ""
    ensures var w := WhereText(Some(c), nth); WHERE <= w && w != "" && w[|WHERE|..] == Translate(Text(c), nth)
  {}

  /**
    A statement with this condition after |values| earlier values takes exactly the rows the condition is true of, if and
    only if the condition is readable or renders nothing and means true. One that renders nothing takes every row.
   */
  lemma StatementTakes<V>(words: set<string>, c: Cond<V>, values: seq<V>, row: Row<V>)
    requires KEYWORDS <= words && ColumnsOk(c)
    ensures var takes := Takes(words, WhereText(Some(c), |values| + 1), values + WhereArgs(Some(c)), row);
      && (takes == Some(Eval(c, row)) <==> Readable(words, c) || (Hollow(c) && HollowTruth(c) == True))
      && (takes.None? <==> !Readable(words, c) && !Hollow(c))
      && (Hollow(c) ==> takes == Some(True))
  {
    HollowIs(words, c, row);
    ClauseKeepsMeaning(words, c, values, row);
    if Text(c) != "" {
      WhereTextIs(c, |values| + 1);
    }
  }

  /** An empty Or is true of no row, and a statement with it takes them all. */
  lemma EmptyOrTakesAll<V>(words: set<string>, row: Row<V>)
    requires KEYWORDS <= words
    ensures Eval(Or([]), row) == False && Takes(words, WhereText<V>(Some(Or([])), 1), [], row) == Some(True)
  {
    StatementTakes(words, Or([]), [], row);
  }
}
