/** The text of an INSERT statement (build_insert_query of src/database.c) and what it determines. */
module Sql {
  import opened Words
  import opened Decimal
  import C = Clinsert

  /** The part of the configuration the statement depends on. */
  datatype Config = Config(useRate: bool, useCurrvalue: bool, allowZero: bool)

  /** The filter: rows with a zero rate are left out unless allowed. */
  predicate Keeps(cfg: Config, v: C.Value) {
    cfg.allowZero || v.rate != 0
  }

  /** The values kept among the first `n`, in order. */
  function Kept(cfg: Config, values: seq<C.Value>, n: nat): (kept: seq<C.Value>)
    requires n <= |values|
    ensures |kept| <= n
  {
    if n == 0 then []
    else Kept(cfg, values, n - 1) + if Keeps(cfg, values[n - 1]) then [values[n - 1]] else []
  }

  // Rows, each written in front of the text that follows it.

  const OPEN := "("
  const FROM := ", FROM_UNIXTIME("
  const CLOSE := ")"
  const COMMA := ", "

  function OptionalColumn(present: bool, n: nat, rest: string): string {
    if present then COMMA + (Dec(n) + rest) else rest
  }

  function ColumnsText(cfg: Config, v: C.Value, rest: string): string {
    OptionalColumn(cfg.useRate, v.rate, OptionalColumn(cfg.useCurrvalue, Wrap32(v.currvalue), CLOSE + rest))
  }

  function RowText(cfg: Config, v: C.Value, rest: string): string {
    OPEN + (Dec(v.id) + (FROM + (Dec(v.dtime) + (CLOSE + (COMMA + (Dec(v.counter) + ColumnsText(cfg, v, rest)))))))
  }

  /** A comma goes in front of every row but the first. */
  function Separated(k: nat, row: string): string {
    if k == 0 then row else COMMA + row
  }

  /** The rows from position `k` on, separated by commas. */
  function RowsText(cfg: Config, rows: seq<C.Value>, k: nat): string
    requires k <= |rows|
    decreases |rows| - k
  {
    if k == |rows| then "" else Separated(k, RowText(cfg, rows[k], RowsText(cfg, rows, k + 1)))
  }

  const INSERT := "INSERT INTO "
  const COLUMNS := " (id, dtime, counter"
  const RATE := ", rate"
  const CURRVALUE := ", currvalue"
  const VALUES := ") VALUES "

  /** Everything after the table name up to the rows. */
  function ColumnList(useRate: bool, useCurrvalue: bool): string {
    COLUMNS + ((if useRate then RATE else "") + ((if useCurrvalue then CURRVALUE else "") + VALUES))
  }

  function Header(cfg: Config, table: string): string {
    INSERT + (table + ColumnList(cfg.useRate, cfg.useCurrvalue))
  }

  function KeptText(cfg: Config, insert: C.Insert): string {
    RowsText(cfg, Kept(cfg, insert.values, |insert.values|), 0)
  }

  function QueryText(cfg: Config, insert: C.Insert): string {
    Header(cfg, insert.table) + KeptText(cfg, insert)
  }

  /** The statement, or null when no row is kept. */
  function Query(cfg: Config, insert: C.Insert): Option<string> {
    if Kept(cfg, insert.values, |insert.values|) == [] then None else Some(QueryText(cfg, insert))
  }

  // A decoder.

  /** What a row of the statement says; columns the schema lacks are absent. */
  datatype Row = Row(id: nat, dtime: nat, counter: nat, rate: Option<nat>, currvalue: Option<nat>)

  datatype Statement = Statement(table: string, useRate: bool, useCurrvalue: bool, rows: seq<Row>)

  function Expect(s: string, literal: string): Option<string> {
    if literal <= s then Some(s[|literal|..]) else None
  }

  lemma ExpectRoundTrip(literal: string, rest: string)
    ensures Expect(literal + rest, literal) == Some(rest)
  {
    assert literal <= literal + rest;
    assert (literal + rest)[|literal|..] == rest;
  }

  /** A literal and then a number. */
  function ReadField(s: string, literal: string): Option<(nat, string)> {
    match Expect(s, literal)
    case None => None
    case Some(rest) => ReadNumber(rest)
  }

  lemma FieldRoundTrip(literal: string, n: nat, rest: string)
    requires StartsPlain(rest)
    ensures ReadField(literal + (Dec(n) + rest), literal) == Some((n, rest))
  {
    ExpectRoundTrip(literal, Dec(n) + rest);
    NumberRoundTrip(n, rest);
  }

  function ReadOptional(present: bool, s: string): Option<(Option<nat>, string)> {
    if !present then Some((None, s))
    else
      match ReadField(s, COMMA)
      case None => None
      case Some((n, rest)) => Some((Some(n), rest))
  }

  function ReadColumns(useRate: bool, useCurrvalue: bool, s: string): Option<(Option<nat>, Option<nat>, string)> {
    match ReadOptional(useRate, s)
    case None => None
    case Some((rate, s1)) =>
      match ReadOptional(useCurrvalue, s1)
      case None => None
      case Some((currvalue, s2)) =>
        match Expect(s2, CLOSE)
        case None => None
        case Some(rest) => Some((rate, currvalue, rest))
  }

  function ReadRow(useRate: bool, useCurrvalue: bool, s: string): Option<(Row, string)> {
    match ReadField(s, OPEN)
    case None => None
    case Some((id, s1)) =>
      match ReadField(s1, FROM)
      case None => None
      case Some((dtime, s2)) =>
        match Expect(s2, CLOSE)
        case None => None
        case Some(s3) =>
          match ReadField(s3, COMMA)
          case None => None
          case Some((counter, s4)) =>
            match ReadColumns(useRate, useCurrvalue, s4)
            case None => None
            case Some((rate, currvalue, rest)) => Some((Row(id, dtime, counter, rate, currvalue), rest))
  }

  /** The rows up to the end of the text; `first` says whether a comma must come before the next. */
  function ReadRows(useRate: bool, useCurrvalue: bool, s: string, first: bool): Option<seq<Row>>
    decreases |s|
  {
    if s == [] then Some([])
    else
      match Expect(s, if first then "" else COMMA)
      case None => None
      case Some(s1) =>
        match ReadRow(useRate, useCurrvalue, s1)
        case None => None
        case Some((row, rest)) =>
          if |rest| >= |s| then None
          else
            match ReadRows(useRate, useCurrvalue, rest, false)
            case None => None
            case Some(rows) => Some([row] + rows)
  }

  /** The position after the last character `c`, or 0. */
  function AfterLast(s: string, c: char, n: nat): (k: nat)
    requires n <= |s|
    ensures k <= n
  {
    if n == 0 then 0 else if s[n - 1] == c then n else AfterLast(s, c, n - 1)
  }

  predicate EndsWith(s: string, t: string) {
    |t| <= |s| && s[|s| - |t|..] == t
  }

  /** Splits off the rows at the last V, which is that of VALUES, and reads the columns off the end
      of the header; what is left is the table, whatever its name. */
  function Decode(text: string): Option<Statement> {
    var split := AfterLast(text, 'V', |text|) + 6;
    if |text| < split then None
    else
      var head := text[..split];
      var useRate := EndsWith(head, ColumnList(true, false)) || EndsWith(head, ColumnList(true, true));
      var useCurrvalue := EndsWith(head, ColumnList(false, true)) || EndsWith(head, ColumnList(true, true));
      var columns := ColumnList(useRate, useCurrvalue);
      if !EndsWith(head, columns) || !(INSERT <= head) || |head| < |INSERT| + |columns| then None
      else
        match ReadRows(useRate, useCurrvalue, text[split..], true)
        case None => None
        case Some(rows) => Some(Statement(head[|INSERT|..|head| - |columns|], useRate, useCurrvalue, rows))
  }

  /** What the schema keeps of a value: the current value is printed with %u, 32 bits of it. */
  function RowOf(cfg: Config, v: C.Value): Row {
    Row(v.id, v.dtime, v.counter,
        if cfg.useRate then Some(v.rate) else None,
        if cfg.useCurrvalue then Some(Wrap32(v.currvalue)) else None)
  }

  function RowsOf(cfg: Config, values: seq<C.Value>, k: nat): (rows: seq<Row>)
    requires k <= |values|
    ensures |rows| == |values| - k && forall i :: 0 <= i < |rows| ==> rows[i] == RowOf(cfg, values[k + i])
    decreases |values| - k
  {
    if k == |values| then [] else [RowOf(cfg, values[k])] + RowsOf(cfg, values, k + 1)
  }

  lemma OptionalRoundTrip(present: bool, n: nat, rest: string)
    requires StartsPlain(rest)
    ensures ReadOptional(present, OptionalColumn(present, n, rest)) == Some((if present then Some(n) else None, rest))
    ensures StartsPlain(OptionalColumn(present, n, rest))
  {
    FieldRoundTrip(COMMA, n, rest);
  }

  lemma ColumnsRoundTrip(cfg: Config, v: C.Value, rest: string)
    ensures var r := RowOf(cfg, v);
            ReadColumns(cfg.useRate, cfg.useCurrvalue, ColumnsText(cfg, v, rest)) == Some((r.rate, r.currvalue, rest))
    ensures StartsPlain(ColumnsText(cfg, v, rest))
  {
    var s2 := CLOSE + rest;
    ExpectRoundTrip(CLOSE, rest);
    assert s2[0] == ')';
    OptionalRoundTrip(cfg.useCurrvalue, Wrap32(v.currvalue), s2);
    OptionalRoundTrip(cfg.useRate, v.rate, OptionalColumn(cfg.useCurrvalue, Wrap32(v.currvalue), s2));
  }

  lemma RowRoundTrip(cfg: Config, v: C.Value, rest: string)
    ensures ReadRow(cfg.useRate, cfg.useCurrvalue, RowText(cfg, v, rest)) == Some((RowOf(cfg, v), rest))
    ensures |RowText(cfg, v, rest)| > |rest|
  {
    var s4 := ColumnsText(cfg, v, rest);
    ColumnsRoundTrip(cfg, v, rest);
    var s3 := COMMA + (Dec(v.counter) + s4);
    FieldRoundTrip(COMMA, v.counter, s4);
    ExpectRoundTrip(CLOSE, s3);
    var s2 := CLOSE + s3;
    assert s2[0] == ')';
    var s1 := FROM + (Dec(v.dtime) + s2);
    FieldRoundTrip(FROM, v.dtime, s2);
    assert s1[0] == ',';
    FieldRoundTrip(OPEN, v.id, s1);
  }

  lemma ReadRowsStep(useRate: bool, useCurrvalue: bool, s: string, first: bool, s1: string, row: Row, rest: string,
                     rows: seq<Row>)
    requires s != [] && Expect(s, if first then "" else COMMA) == Some(s1) && |rest| < |s|
    requires ReadRow(useRate, useCurrvalue, s1) == Some((row, rest))
    requires ReadRows(useRate, useCurrvalue, rest, false) == Some(rows)
    ensures ReadRows(useRate, useCurrvalue, s, first) == Some([row] + rows)
  {
  }

  lemma FirstRowRoundTrip(cfg: Config, v: C.Value, rest: string, rows: seq<Row>)
    requires ReadRows(cfg.useRate, cfg.useCurrvalue, rest, false) == Some(rows)
    ensures ReadRows(cfg.useRate, cfg.useCurrvalue, RowText(cfg, v, rest), true) == Some([RowOf(cfg, v)] + rows)
  {
    var row := RowText(cfg, v, rest);
    RowRoundTrip(cfg, v, rest);
    ExpectRoundTrip("", row);
    assert "" + row == row;
    ReadRowsStep(cfg.useRate, cfg.useCurrvalue, row, true, row, RowOf(cfg, v), rest, rows);
  }

  lemma NextRowRoundTrip(cfg: Config, v: C.Value, rest: string, rows: seq<Row>)
    requires ReadRows(cfg.useRate, cfg.useCurrvalue, rest, false) == Some(rows)
    ensures ReadRows(cfg.useRate, cfg.useCurrvalue, COMMA + RowText(cfg, v, rest), false) == Some([RowOf(cfg, v)] + rows)
  {
    var row := RowText(cfg, v, rest);
    RowRoundTrip(cfg, v, rest);
    ExpectRoundTrip(COMMA, row);
    ReadRowsStep(cfg.useRate, cfg.useCurrvalue, COMMA + row, false, row, RowOf(cfg, v), rest, rows);
  }

  lemma SeparatedRoundTrip(cfg: Config, v: C.Value, rest: string, rows: seq<Row>, k: nat)
    requires ReadRows(cfg.useRate, cfg.useCurrvalue, rest, false) == Some(rows)
    ensures ReadRows(cfg.useRate, cfg.useCurrvalue, Separated(k, RowText(cfg, v, rest)), k == 0)
         == Some([RowOf(cfg, v)] + rows)
  {
    if k == 0 {
      FirstRowRoundTrip(cfg, v, rest, rows);
    } else {
      NextRowRoundTrip(cfg, v, rest, rows);
    }
  }

  lemma {:induction false} RowsRoundTrip(cfg: Config, rows: seq<C.Value>, k: nat)
    requires k <= |rows|
    ensures ReadRows(cfg.useRate, cfg.useCurrvalue, RowsText(cfg, rows, k), k == 0) == Some(RowsOf(cfg, rows, k))
    decreases |rows| - k
  {
    if k == |rows| {
    } else {
      RowsRoundTrip(cfg, rows, k + 1);
      SeparatedRoundTrip(cfg, rows[k], RowsText(cfg, rows, k + 1), RowsOf(cfg, rows, k + 1), k);
    }
  }

  // The header.

  lemma ColumnsWithoutV(cfg: Config, v: C.Value, rest: string)
    requires Without(rest, 'V')
    ensures Without(ColumnsText(cfg, v, rest), 'V')
  {
    assert Without(COMMA, 'V') && Without(CLOSE, 'V');
  }

  lemma FieldWithoutV(literal: string, n: nat, rest: string)
    requires Without(literal, 'V') && Without(rest, 'V')
    ensures Without(literal + (Dec(n) + rest), 'V')
  {
  }

  lemma RowWithoutV(cfg: Config, v: C.Value, rest: string)
    requires Without(rest, 'V')
    ensures Without(RowText(cfg, v, rest), 'V')
  {
    var columns := ColumnsText(cfg, v, rest);
    ColumnsWithoutV(cfg, v, rest);
    FieldWithoutV(COMMA, v.counter, columns);
    var counter := COMMA + (Dec(v.counter) + columns);
    assert Without(CLOSE, 'V') && Without(CLOSE + counter, 'V');
    FieldWithoutV(FROM, v.dtime, CLOSE + counter);
    FieldWithoutV(OPEN, v.id, FROM + (Dec(v.dtime) + (CLOSE + counter)));
  }

  lemma SeparatedWithoutV(k: nat, row: string)
    requires Without(row, 'V')
    ensures Without(Separated(k, row), 'V')
  {
    assert Without(COMMA, 'V');
  }

  lemma {:induction false} RowsWithoutV(cfg: Config, rows: seq<C.Value>, k: nat)
    requires k <= |rows|
    ensures Without(RowsText(cfg, rows, k), 'V')
    decreases |rows| - k
  {
    if k == |rows| {
    } else {
      RowsWithoutV(cfg, rows, k + 1);
      RowWithoutV(cfg, rows[k], RowsText(cfg, rows, k + 1));
      var row := RowText(cfg, rows[k], RowsText(cfg, rows, k + 1));
      SeparatedWithoutV(k, row);
      assert RowsText(cfg, rows, k) == Separated(k, row);
    }
  }

  lemma {:induction false} AfterLastIs(s: string, c: char, k: nat, n: nat)
    requires k < n <= |s| && s[k] == c && forall i :: k < i < n ==> s[i] != c
    ensures AfterLast(s, c, n) == k + 1
  {
    if n == k + 1 {
    } else {
      AfterLastIs(s, c, k, n - 1);
    }
  }

  lemma EndsWithAppended(s: string, t: string)
    ensures EndsWith(s + t, t) && (s + t)[..|s|] == s
  {
    assert (s + t)[|s|..] == t;
  }

  lemma EndsWithTrans(s: string, t: string, u: string)
    requires EndsWith(s, t) && EndsWith(t, u)
    ensures EndsWith(s, u)
  {
    assert s[|s| - |t|..][|t| - |u|..] == s[|s| - |u|..];
  }

  lemma ColumnsEndWithValues(useRate: bool, useCurrvalue: bool)
    ensures EndsWith(ColumnList(useRate, useCurrvalue), VALUES)
  {
    var x := if useCurrvalue then CURRVALUE else "";
    var y := if useRate then RATE else "";
    EndsWithAppended(x, VALUES);
    EndsWithAppended(y, x + VALUES);
    EndsWithTrans(y + (x + VALUES), x + VALUES, VALUES);
    EndsWithAppended(COLUMNS, y + (x + VALUES));
    EndsWithTrans(COLUMNS + (y + (x + VALUES)), y + (x + VALUES), VALUES);
  }

  lemma LastVOfValues(head: string)
    requires EndsWith(head, VALUES)
    ensures |head| >= 7 && AfterLast(head, 'V', |head|) == |head| - 6
  {
    forall i | |head| - 7 <= i < |head|
      ensures head[i] == VALUES[i - (|head| - |VALUES|)]
    {
      CharFromEnd(head, VALUES, |head| - i);
    }
    AfterLastIs(head, 'V', |head| - 7, |head|);
  }

  lemma {:induction false} AfterLastAppended(s: string, t: string, c: char, n: nat)
    requires n <= |t| && Without(t, c)
    ensures AfterLast(s + t, c, |s| + n) == AfterLast(s, c, |s|)
  {
    if n > 0 {
      AfterLastAppended(s, t, c, n - 1);
    } else {
      AfterLastPrefix(s, t, c, |s|);
    }
  }

  lemma {:induction false} AfterLastPrefix(s: string, t: string, c: char, n: nat)
    requires n <= |s|
    ensures AfterLast(s + t, c, n) == AfterLast(s, c, n)
  {
    if n == 0 {
    } else {
      AfterLastPrefix(s, t, c, n - 1);
    }
  }

  /** The four column lists are told apart by their ends. */
  lemma ColumnsDiffer(s: string, r1: bool, c1: bool, r2: bool, c2: bool)
    requires EndsWith(s, ColumnList(r1, c1)) && EndsWith(s, ColumnList(r2, c2))
    ensures r1 == r2 && c1 == c2
  {
    ColumnsTell(s, r1, c1);
    ColumnsTell(s, r2, c2);
  }

  /** The u of "currvalue", and the e of "rate" in front of that or of the end. */
  lemma ColumnsTell(s: string, r: bool, c: bool)
    requires EndsWith(s, ColumnList(r, c))
    ensures |s| >= 21 && (c <==> s[|s| - 11] == 'u') && (r <==> s[|s| - if c then 21 else 10] == 'e')
  {
    CharFromEnd(s, ColumnList(r, c), 10);
    CharFromEnd(s, ColumnList(r, c), 11);
    CharFromEnd(s, ColumnList(r, c), 21);
  }

  lemma CharFromEnd(s: string, t: string, k: nat)
    requires EndsWith(s, t) && 1 <= k <= |t|
    ensures s[|s| - k] == t[|t| - k]
  {
    assert s[|s| - |t|..][|t| - k] == t[|t| - k];
  }

  lemma OnlyItsColumns(head: string, useRate: bool, useCurrvalue: bool)
    requires EndsWith(head, ColumnList(useRate, useCurrvalue))
    ensures (EndsWith(head, ColumnList(true, false)) || EndsWith(head, ColumnList(true, true))) == useRate
    ensures (EndsWith(head, ColumnList(false, true)) || EndsWith(head, ColumnList(true, true))) == useCurrvalue
  {
    forall r, c | EndsWith(head, ColumnList(r, c))
      ensures r == useRate && c == useCurrvalue
    {
      ColumnsDiffer(head, r, c, useRate, useCurrvalue);
    }
  }

  lemma LastVInHead(head: string, body: string)
    requires EndsWith(head, VALUES) && Without(body, 'V')
    ensures AfterLast(head + body, 'V', |head + body|) == |head| - 6
  {
    LastVOfValues(head);
    AfterLastAppended(head, body, 'V', |body|);
    assert |head + body| == |head| + |body|;
  }

  lemma HeadParts(table: string, useRate: bool, useCurrvalue: bool)
    ensures var columns := ColumnList(useRate, useCurrvalue);
            var head := INSERT + (table + columns);
            EndsWith(head, columns) && EndsWith(head, VALUES)
  {
    var columns := ColumnList(useRate, useCurrvalue);
    EndsWithAppended(table, columns);
    EndsWithAppended(INSERT, table + columns);
    EndsWithTrans(INSERT + (table + columns), table + columns, columns);
    ColumnsEndWithValues(useRate, useCurrvalue);
    EndsWithTrans(INSERT + (table + columns), columns, VALUES);
  }

  lemma DecodeParts(table: string, useRate: bool, useCurrvalue: bool, body: string, rows: seq<Row>)
    requires Without(body, 'V') && ReadRows(useRate, useCurrvalue, body, true) == Some(rows)
    ensures Decode((INSERT + (table + ColumnList(useRate, useCurrvalue))) + body)
         == Some(Statement(table, useRate, useCurrvalue, rows))
  {
    var columns := ColumnList(useRate, useCurrvalue);
    var head := INSERT + (table + columns);
    HeadParts(table, useRate, useCurrvalue);
    LastVInHead(head, body);
    OnlyItsColumns(head, useRate, useCurrvalue);
    DecodeSplit(head, body, table, columns, useRate, useCurrvalue, rows);
  }

  lemma SplitParts(head: string, body: string, table: string, columns: string)
    requires head == INSERT + (table + columns)
    ensures (head + body)[..|head|] == head && (head + body)[|head|..] == body
    ensures INSERT <= head && |head| == |INSERT| + |table| + |columns|
    ensures head[|INSERT|..|head| - |columns|] == table
  {
  }

  lemma DecodeSplit(head: string, body: string, table: string, columns: string, useRate: bool, useCurrvalue: bool,
                    rows: seq<Row>)
    requires head == INSERT + (table + columns) && columns == ColumnList(useRate, useCurrvalue)
    requires AfterLast(head + body, 'V', |head + body|) == |head| - 6
    requires EndsWith(head, columns)
    requires (EndsWith(head, ColumnList(true, false)) || EndsWith(head, ColumnList(true, true))) == useRate
    requires (EndsWith(head, ColumnList(false, true)) || EndsWith(head, ColumnList(true, true))) == useCurrvalue
    requires ReadRows(useRate, useCurrvalue, body, true) == Some(rows)
    ensures Decode(head + body) == Some(Statement(table, useRate, useCurrvalue, rows))
  {
    SplitParts(head, body, table, columns);
  }

  /** The statement determines its table, its columns and exactly the kept rows, in order, whatever
      the table is called; it is null exactly when no row is kept. */
  lemma DecodeQuery(cfg: Config, insert: C.Insert)
    ensures var rows := Kept(cfg, insert.values, |insert.values|);
            && (Query(cfg, insert).None? <==> rows == [])
            && (rows != [] ==>
                  Decode(Query(cfg, insert).value)
                  == Some(Statement(insert.table, cfg.useRate, cfg.useCurrvalue, RowsOf(cfg, rows, 0))))
  {
    var rows := Kept(cfg, insert.values, |insert.values|);
    if rows != [] {
      RowsWithoutV(cfg, rows, 0);
      RowsRoundTrip(cfg, rows, 0);
      DecodeParts(insert.table, cfg.useRate, cfg.useCurrvalue, RowsText(cfg, rows, 0), RowsOf(cfg, rows, 0));
    }
  }

  /** The values kept are, in order, those with a rate, or all of them if zero is allowed. */
  lemma {:induction false} KeptAre(cfg: Config, values: seq<C.Value>, n: nat) returns (ix: seq<nat>)
    requires n <= |values|
    ensures Increasing(ix, n) && forall i :: 0 <= i < n ==> (i in ix <==> cfg.allowZero || values[i].rate != 0)
    ensures |Kept(cfg, values, n)| == |ix| && forall j :: 0 <= j < |ix| ==> Kept(cfg, values, n)[j] == values[ix[j]]
  {
    ix := [];
    if n == 0 {
    } else {
      ix := KeptAre(cfg, values, n - 1);
      var keep, before := cfg.allowZero || values[n - 1].rate != 0, Kept(cfg, values, n - 1);
      assert Kept(cfg, values, n) == before + if keep then [values[n - 1]] else [];
      SelectNext(ix, n - 1, keep);
      ix := ix + if keep then [n - 1] else [];
    }
  }

  lemma {:induction false} AllKept(cfg: Config, values: seq<C.Value>, n: nat)
    requires n <= |values| && cfg.allowZero
    ensures Kept(cfg, values, n) == values[..n]
  {
    if n == 0 {
    } else {
      AllKept(cfg, values, n - 1);
      assert values[..n] == values[..n - 1] + [values[n - 1]];
    }
  }

  /** The rows decoded, field by field. */
  lemma DecodedRows(cfg: Config, insert: C.Insert)
    requires Query(cfg, insert).Some?
    ensures var kept, statement := Kept(cfg, insert.values, |insert.values|), Decode(Query(cfg, insert).value);
            && statement.Some? && statement.value.table == insert.table && |statement.value.rows| == |kept|
            && forall j :: 0 <= j < |kept| ==>
                 statement.value.rows[j]
                 == Row(kept[j].id, kept[j].dtime, kept[j].counter, if cfg.useRate then Some(kept[j].rate) else None,
                        if cfg.useCurrvalue then Some(kept[j].currvalue % TWO32) else None)
  {
    DecodeQuery(cfg, insert);
  }

  lemma NullIfNoneKept(cfg: Config, insert: C.Insert)
    ensures Query(cfg, insert).None? <==> Kept(cfg, insert.values, |insert.values|) == []
  {
  }

  /** Without zero rows the statement has, in order, the rows of exactly the values with a rate; if zero
      is allowed, of all the values. It is null if that leaves no row. */
  lemma StatementHasRows(cfg: Config, insert: C.Insert) returns (ix: seq<nat>)
    ensures Increasing(ix, |insert.values|)
    ensures forall i :: 0 <= i < |insert.values| ==> (i in ix <==> cfg.allowZero || insert.values[i].rate != 0)
    ensures cfg.allowZero ==> |ix| == |insert.values| && forall i :: 0 <= i < |ix| ==> ix[i] == i
    ensures Query(cfg, insert).None? <==>
            insert.values == [] || (!cfg.allowZero && forall i :: 0 <= i < |insert.values| ==> insert.values[i].rate == 0)
    ensures Query(cfg, insert).Some? ==>
              var statement := Decode(Query(cfg, insert).value);
              && statement.Some? && statement.value.table == insert.table && |statement.value.rows| == |ix|
              && forall j :: 0 <= j < |ix| ==>
                   var v := insert.values[ix[j]];
                   statement.value.rows[j] == Row(v.id, v.dtime, v.counter, if cfg.useRate then Some(v.rate) else None,
                                                  if cfg.useCurrvalue then Some(v.currvalue % TWO32) else None)
  {
    var n := |insert.values|;
    ix := KeptAre(cfg, insert.values, n);
    if cfg.allowZero {
      AllKept(cfg, insert.values, n);
      AllPositions(ix, n);
    }
    NoneSelected(ix, insert.values, cfg.allowZero);
    NullIfNoneKept(cfg, insert);
    if Query(cfg, insert).Some? {
      DecodedRows(cfg, insert);
    }
  }

  lemma {:induction false} PositionsAtLeast(ix: seq<nat>, n: nat, j: nat)
    requires Increasing(ix, n) && j < |ix|
    ensures ix[j] >= j
  {
    if j == 0 {
    } else {
      PositionsAtLeast(ix, n, j - 1);
    }
  }

  lemma {:induction false} AllPositions(ix: seq<nat>, n: nat)
    requires Increasing(ix, n) && |ix| == n
    ensures forall j :: 0 <= j < n ==> ix[j] == j
  {
    if n == 0 {
    } else {
      PositionsAtLeast(ix, n, n - 1);
      AllPositions(ix[..n - 1], n - 1);
      assert forall j :: 0 <= j < n - 1 ==> ix[..n - 1][j] == ix[j];
    }
  }

  lemma NoneSelected(ix: seq<nat>, values: seq<C.Value>, all: bool)
    requires Increasing(ix, |values|)
    requires forall i :: 0 <= i < |values| ==> (i in ix <==> all || values[i].rate != 0)
    ensures ix == [] <==> values == [] || (!all && forall i :: 0 <= i < |values| ==> values[i].rate == 0)
  {
    if ix != [] {
      assert ix[0] in ix;
    } else if values != [] {
      assert 0 !in ix;
    }
  }

  /** A statement of one row, letter by letter. */
  lemma OneRowText(cfg: Config, table: string, v: C.Value)
    requires cfg.allowZero || v.rate != 0
    ensures var currvalue := if cfg.useCurrvalue then ", " + (Dec(v.currvalue % TWO32) + ")") else ")";
            var rate := if cfg.useRate then ", " + (Dec(v.rate) + currvalue) else currvalue;
            var columns := (if cfg.useRate then ", rate" else "")
                           + ((if cfg.useCurrvalue then ", currvalue" else "") + ") VALUES ");
            Query(cfg, C.Insert(table, [v]))
            == Some(("INSERT INTO " + (table + (" (id, dtime, counter" + columns)))
                    + ("(" + (Dec(v.id) + (", FROM_UNIXTIME(" + (Dec(v.dtime) + (")" + (", " + (Dec(v.counter) + rate))))))))
  {
    assert Kept(cfg, [v], 0) == [];
    assert Kept(cfg, [v], 1) == [v];
    assert RowsText(cfg, [v], 1) == "";
    assert CLOSE + "" == ")";
  }
}
