/** The database threads (src/database.c): building a statement by appends, and draining the queue
    with commits. What MySQL answers is arbitrary. */
module Database {
  import opened Words
  import opened Decimal
  import opened Sql
  import C = Clinsert
  import G = Clgstr

  // build_insert_query.

  lemma {:induction false} KeptGrows(cfg: Config, values: seq<C.Value>, i: nat, n: nat)
    requires i <= n <= |values|
    ensures Kept(cfg, values, i) <= Kept(cfg, values, n)
  {
    if i == n {
    } else {
      KeptGrows(cfg, values, i, n - 1);
    }
  }

  /** A value that passes the filter is the next row. */
  lemma NextKept(cfg: Config, values: seq<C.Value>, i: nat)
    requires i < |values| && Keeps(cfg, values[i])
    ensures var rows, k := Kept(cfg, values, |values|), |Kept(cfg, values, i)|;
            k < |rows| && rows[k] == values[i] && |Kept(cfg, values, i + 1)| == k + 1
  {
    KeptGrows(cfg, values, i + 1, |values|);
  }

  /** The string so far, followed by what is still to come, is the whole text. */
  ghost predicate Leads(gs: G.Clgstr, rest: string, whole: string)
    reads gs, gs.buffer
  {
    gs.Valid() && '\0' !in gs.Contents() && gs.Contents() + rest == whole
  }

  /** An append that writes the next part of the text. */
  method Emit(gs: G.Clgstr, part: string, ghost rest: string, ghost whole: string)
    requires Leads(gs, part + rest, whole) && '\0' !in part
    modifies gs, gs.buffer
    ensures Leads(gs, rest, whole) && gs.Terminated() && (gs.buffer == old(gs.buffer) || fresh(gs.buffer))
  {
    ghost var before := gs.Contents();
    gs.Append(part);
    assert (before + part) + rest == before + (part + rest);
  }

  /** A literal and then a number. */
  method EmitField(gs: G.Clgstr, literal: string, n: nat, ghost rest: string, ghost whole: string)
    requires Leads(gs, literal + (Dec(n) + rest), whole) && '\0' !in literal
    modifies gs, gs.buffer
    ensures Leads(gs, rest, whole) && gs.Terminated() && (gs.buffer == old(gs.buffer) || fresh(gs.buffer))
  {
    Emit(gs, literal, Dec(n) + rest, whole);
    Emit(gs, Dec(n), rest, whole);
  }

  method EmitColumn(gs: G.Clgstr, present: bool, n: nat, ghost rest: string, ghost whole: string)
    requires Leads(gs, OptionalColumn(present, n, rest), whole)
    modifies gs, gs.buffer
    ensures Leads(gs, rest, whole) && (gs.buffer == old(gs.buffer) || fresh(gs.buffer))
  {
    if present {
      EmitField(gs, ", ", n, rest, whole);
    }
  }

  /** The counter and the columns the configuration asks for. */
  method EmitCounts(gs: G.Clgstr, cfg: Config, v: C.Value, ghost rest: string, ghost whole: string)
    requires Leads(gs, COMMA + (Dec(v.counter) + ColumnsText(cfg, v, rest)), whole)
    modifies gs, gs.buffer
    ensures Leads(gs, rest, whole) && gs.Terminated() && (gs.buffer == old(gs.buffer) || fresh(gs.buffer))
  {
    ghost var end := CLOSE + rest;
    ghost var last := OptionalColumn(cfg.useCurrvalue, Wrap32(v.currvalue), end);
    EmitField(gs, ", ", v.counter, OptionalColumn(cfg.useRate, v.rate, last), whole);
    EmitColumn(gs, cfg.useRate, v.rate, last, whole);
    EmitColumn(gs, cfg.useCurrvalue, Wrap32(v.currvalue), end, whole);
    Emit(gs, ")", rest, whole);
  }

  /** One row of the statement. */
  method EmitRow(gs: G.Clgstr, cfg: Config, v: C.Value, ghost rest: string, ghost whole: string)
    requires Leads(gs, RowText(cfg, v, rest), whole)
    modifies gs, gs.buffer
    ensures Leads(gs, rest, whole) && gs.Terminated() && (gs.buffer == old(gs.buffer) || fresh(gs.buffer))
  {
    ghost var counts := COMMA + (Dec(v.counter) + ColumnsText(cfg, v, rest));
    EmitField(gs, "(", v.id, FROM + (Dec(v.dtime) + (CLOSE + counts)), whole);
    EmitField(gs, ", FROM_UNIXTIME(", v.dtime, CLOSE + counts, whole);
    Emit(gs, ")", counts, whole);
    EmitCounts(gs, cfg, v, rest, whole);
  }

  method EmitName(gs: G.Clgstr, present: bool, name: string, ghost rest: string, ghost whole: string)
    requires Leads(gs, (if present then name else "") + rest, whole) && '\0' !in name
    modifies gs, gs.buffer
    ensures Leads(gs, rest, whole) && (gs.buffer == old(gs.buffer) || fresh(gs.buffer))
  {
    if present {
      Emit(gs, name, rest, whole);
    } else {
      assert "" + rest == rest;
    }
  }

  /** The column list, which ends the header. */
  method EmitColumns(gs: G.Clgstr, cfg: Config, ghost rest: string, ghost whole: string)
    requires Leads(gs, ColumnList(cfg.useRate, cfg.useCurrvalue) + rest, whole)
    modifies gs, gs.buffer
    ensures Leads(gs, rest, whole) && gs.Terminated() && (gs.buffer == old(gs.buffer) || fresh(gs.buffer))
  {
    ghost var currvalue := (if cfg.useCurrvalue then CURRVALUE else "") + (VALUES + rest);
    ghost var rate := (if cfg.useRate then RATE else "") + currvalue;
    ColumnParts(cfg, rest);
    Emit(gs, " (id, dtime, counter", rate, whole);
    EmitName(gs, cfg.useRate, ", rate", currvalue, whole);
    EmitName(gs, cfg.useCurrvalue, ", currvalue", VALUES + rest, whole);
    Emit(gs, ") VALUES ", rest, whole);
  }

  lemma ColumnParts(cfg: Config, rest: string)
    ensures ColumnList(cfg.useRate, cfg.useCurrvalue) + rest
         == COLUMNS + ((if cfg.useRate then RATE else "") + ((if cfg.useCurrvalue then CURRVALUE else "") + (VALUES + rest)))
  {
  }

  method EmitHeader(gs: G.Clgstr, cfg: Config, table: string, ghost rest: string, ghost whole: string)
    requires gs.Valid() && gs.Contents() == "" && '\0' !in table
    requires whole == Header(cfg, table) + rest
    modifies gs, gs.buffer
    ensures Leads(gs, rest, whole) && gs.Terminated() && (gs.buffer == old(gs.buffer) || fresh(gs.buffer))
  {
    ghost var columns := ColumnList(cfg.useRate, cfg.useCurrvalue) + rest;
    assert whole == INSERT + (table + columns) == "" + whole;
    Emit(gs, "INSERT INTO ", table + columns, whole);
    Emit(gs, table, columns, whole);
    EmitColumns(gs, cfg, rest, whole);
  }

  /** The values to come, `k` rows being written: those of them that pass the filter are the rest. */
  ghost predicate Written(gs: G.Clgstr, cfg: Config, values: seq<C.Value>, i: nat, k: nat, whole: string)
    requires i <= |values|
    reads gs, gs.buffer
  {
    var kept := Kept(cfg, values, |values|);
    k == |Kept(cfg, values, i)| <= |kept| && Leads(gs, RowsText(cfg, kept, k), whole)
  }

  ghost predicate Writing(gs: G.Clgstr, cfg: Config, values: seq<C.Value>, i: nat, k: nat, whole: string)
    requires i <= |values|
    reads gs, gs.buffer
  {
    gs.Valid() && gs.Terminated() && Written(gs, cfg, values, i, k, whole)
  }

  method EmitSeparated(gs: G.Clgstr, cfg: Config, v: C.Value, rows: nat, ghost rest: string, ghost whole: string)
    requires Leads(gs, Separated(rows, RowText(cfg, v, rest)), whole)
    modifies gs, gs.buffer
    ensures Leads(gs, rest, whole) && gs.Terminated() && (gs.buffer == old(gs.buffer) || fresh(gs.buffer))
  {
    if rows > 0 {
      Emit(gs, ", ", RowText(cfg, v, rest), whole);
    }
    EmitRow(gs, cfg, v, rest, whole);
  }

  /** One value: a row, after a comma if it is not the first, or nothing. */
  method EmitValue(gs: G.Clgstr, cfg: Config, v: C.Value, rows: nat, ghost values: seq<C.Value>, ghost i: nat,
                   ghost whole: string)
    returns (rows': nat)
    requires i < |values| && v == values[i] && Writing(gs, cfg, values, i, rows, whole)
    modifies gs, gs.buffer
    ensures Writing(gs, cfg, values, i + 1, rows', whole)
    ensures gs.buffer == old(gs.buffer) || fresh(gs.buffer)
  {
    rows' := rows;
    if cfg.allowZero || v.rate != 0 {
      NextKept(cfg, values, i);
      EmitSeparated(gs, cfg, v, rows, RowsText(cfg, Kept(cfg, values, |values|), rows + 1), whole);
      rows' := rows + 1;
    }
  }

  /** The loop over the values. */
  method EmitValues(gs: G.Clgstr, cfg: Config, insert: C.Clinsert, ghost values: seq<C.Value>, ghost whole: string)
    returns (rows: nat)
    requires insert.Valid() && insert.Contents().values == values && Writing(gs, cfg, values, 0, 0, whole)
    modifies gs, gs.buffer
    ensures Writing(gs, cfg, values, |values|, rows, whole)
  {
    rows := 0;
    for i := 0 to insert.nvalues
      invariant (gs.buffer == old(gs.buffer) || fresh(gs.buffer)) && Writing(gs, cfg, values, i, rows, whole)
    {
      rows := EmitValue(gs, cfg, insert.values[i], rows, values, i, whole);
    }
  }

  method FinishedQuery(gs: G.Clgstr, cfg: Config, rows: nat, ghost insert: C.Insert) returns (query: Option<string>)
    requires Writing(gs, cfg, insert.values, |insert.values|, rows, QueryText(cfg, insert))
    ensures query == Query(cfg, insert)
  {
    query := None;
    if rows > 0 {
      assert gs.Contents() + "" == gs.Contents();
      var text := gs.String();
      query := Some(text);
    }
  }

  /** The appends write exactly the statement; null when every value was filtered out. */
  method BuildInsertQuery(insert: C.Clinsert, cfg: Config) returns (query: Option<string>)
    requires insert.Valid() && '\0' !in insert.table
    ensures query == Query(cfg, insert.Contents())
  {
    var gs := new G.Clgstr(64);
    EmitHeader(gs, cfg, insert.table, KeptText(cfg, insert.Contents()), QueryText(cfg, insert.Contents()));
    var rows := EmitValues(gs, cfg, insert, insert.Contents().values, QueryText(cfg, insert.Contents()));
    query := FinishedQuery(gs, cfg, rows, insert.Contents());
  }

  /** A row says what its value says, but for what the schema leaves out and what %u cuts off: the
      current value comes through exactly when it fits 32 bits. */
  lemma RowSaysItsValue(cfg: Config, values: seq<C.Value>, i: nat)
    requires cfg.useRate && cfg.useCurrvalue && i < |values|
    ensures var v := values[i];
            RowsOf(cfg, values, 0)[i] == Row(v.id, v.dtime, v.counter, Some(v.rate), Some(v.currvalue))
            <==> v.currvalue < TWO32
  {
    assert RowsOf(cfg, values, 0)[i] == RowOf(cfg, values[0 + i]);
  }

  /** Under one configuration equal statements come from inserts with the same table and the same
      kept rows. */
  lemma EqualQueriesEqualRows(cfg: Config, a: C.Insert, b: C.Insert)
    requires Query(cfg, a) == Query(cfg, b) != None
    ensures a.table == b.table
    ensures RowsOf(cfg, Kept(cfg, a.values, |a.values|), 0) == RowsOf(cfg, Kept(cfg, b.values, |b.values|), 0)
  {
    DecodeQuery(cfg, a);
    DecodeQuery(cfg, b);
  }

  // process_database_queue.

  const COMMIT_INTERVAL: nat := 100

  /** What one pass of the drain finds: the insert it pops, unless another thread was faster, and
      whether MySQL takes the statement. */
  datatype Turn = Turn(popped: Option<C.Clinsert>, taken: bool)

  /** The same as a value: the statement sent, if any, and its fate. */
  datatype Reply = Reply(query: Option<string>, taken: bool)

  /** A connection without autocommit: the statements it took, and how many of them are committed. */
  class Connection {
    var executed: seq<string>
    var committed: nat

    constructor ()
      ensures executed == [] && committed == 0
    {
      executed, committed := [], 0;
    }

    method Query(query: string, taken: bool) returns (result: int)
      modifies this`executed
      ensures taken ==> result == 0 && executed == old(executed) + [query]
      ensures !taken ==> result != 0 && executed == old(executed)
    {
      if taken {
        executed := executed + [query];
        result := 0;
      } else {
        result := 1;
      }
    }

    method Commit()
      modifies this`committed
      ensures committed == |executed|
    {
      committed := |executed|;
    }
  }

  /** The statements that succeed among the first `n`, in order. */
  function Successes(replies: seq<Reply>, n: nat): (s: seq<string>)
    requires n <= |replies|
    ensures |s| <= n
  {
    if n == 0 then []
    else
      var r := replies[n - 1];
      Successes(replies, n - 1) + if r.query.Some? && r.taken then [r.query.value] else []
  }

  /** These statements are those sent at these positions. */
  ghost predicate SentAt(statements: seq<string>, replies: seq<Reply>, ix: seq<nat>) {
    && Increasing(ix, |replies|) && |statements| == |ix|
    && forall j :: 0 <= j < |ix| ==> replies[ix[j]].query == Some(statements[j])
  }

  function Succeeds(replies: seq<Reply>): nat -> bool {
    (i: nat) => i < |replies| && replies[i].query.Some? && replies[i].taken
  }

  lemma SentNext(s: seq<string>, s': seq<string>, replies: seq<Reply>, ix: seq<nat>, n: nat) returns (ix': seq<nat>)
    requires n < |replies| && Selects(ix, n, Succeeds(replies)) && SentAt(s, replies, ix)
    requires s' == if Succeeds(replies)(n) then s + [replies[n].query.value] else s
    ensures Selects(ix', n + 1, Succeeds(replies)) && SentAt(s', replies, ix')
  {
    SelectsNext(ix, n, Succeeds(replies));
    ix' := if Succeeds(replies)(n) then ix + [n] else ix;
    assert ix + [] == ix;
  }

  /** They are those of the turns with a statement that MySQL takes. */
  lemma {:induction false} SuccessesAre(replies: seq<Reply>, n: nat) returns (ix: seq<nat>)
    requires n <= |replies|
    ensures Selects(ix, n, Succeeds(replies)) && SentAt(Successes(replies, n), replies, ix)
  {
    ix := [];
    if n == 0 {
    } else {
      ix := SuccessesAre(replies, n - 1);
      ix := SentNext(Successes(replies, n - 1), Successes(replies, n), replies, ix, n - 1);
    }
  }

  /** How many of `s` successful statements the loop leaves uncommitted at its head. The counter is a
      32-bit word: when it wraps, the 96 statements after the last multiple of 100 and the first 99
      of the new lap wait together. */
  function Uncommitted(s: nat): nat {
    var c := Wrap32(s);
    if s < TWO32 || c >= COMMIT_INTERVAL then c % COMMIT_INTERVAL else 96 + c
  }

  lemma UncommittedBound(s: nat)
    ensures Uncommitted(s) <= s
    ensures Uncommitted(s) < COMMIT_INTERVAL <==> s < TWO32 || Wrap32(s) < 4 || Wrap32(s) >= COMMIT_INTERVAL
  {
    assert s == (s / 0x1_0000_0000) * 0x1_0000_0000 + Wrap32(s);
  }

  /** One more success, and the commit that follows it when the counter reaches a multiple of 100. */
  lemma OneMoreSuccess(s: nat)
    ensures var c := Wrap32(s + 1);
            Uncommitted(s + 1) == if c > 0 && c % COMMIT_INTERVAL == 0 then 0 else Uncommitted(s) + 1
  {
    WrapAdd32(s, 1);
    var c := Wrap32(s);
    if c == 0xFFFF_FFFF {
      assert s + 1 >= TWO32 && c % 100 == 95;
    } else {
      assert Wrap32(s + 1) == c + 1;
      HundredNext(c);
    }
  }

  lemma HundredNext(c: nat)
    ensures (c + 1) % COMMIT_INTERVAL == if c % COMMIT_INTERVAL == 99 then 0 else c % COMMIT_INTERVAL + 1
  {
  }

  /** A pass without a success commits at most what a success has committed already. */
  lemma NoSuccess(s: nat)
    ensures Wrap32(s) > 0 && Wrap32(s) % COMMIT_INTERVAL == 0 ==> Uncommitted(s) == 0
  {
  }

  lemma CommitIsDue(s: nat, s': nat)
    requires s' - s in {0, 1}
    ensures var c := Wrap32(s');
            Uncommitted(s') == if c > 0 && c % COMMIT_INTERVAL == 0 then 0 else Uncommitted(s) + s' - s
  {
    if s' == s {
      NoSuccess(s);
    } else {
      OneMoreSuccess(s);
    }
  }

  /** What a turn amounts to: a pop that found nothing or an insert without rows sends no statement. */
  ghost predicate Says(turn: Turn, cfg: Config, reply: Reply)
    reads if turn.popped.Some? then {turn.popped.value, turn.popped.value.values} else {}
  {
    reply.taken == turn.taken && if turn.popped.Some? then SaysInsert(turn.popped.value, cfg, reply) else reply.query == None
  }

  ghost predicate SaysInsert(insert: C.Clinsert, cfg: Config, reply: Reply)
    reads insert, insert.values
  {
    insert.Valid() && '\0' !in insert.table && reply.query == Query(cfg, insert.Contents())
  }

  /** The state of the drain at the loop head after `n` turns, `done` statements into the connection. */
  ghost predicate AtHead(conn: Connection, before: seq<string>, replies: seq<Reply>, n: nat, counter: u32)
    requires n <= |replies|
    reads conn
  {
    var s := Successes(replies, n);
    && conn.executed == before + s
    && conn.committed == |conn.executed| - Uncommitted(|s|)
    && counter == Wrap32(|s|)
  }

  lemma FirstHead(conn: Connection, replies: seq<Reply>)
    requires conn.committed == |conn.executed|
    ensures AtHead(conn, conn.executed, replies, 0, 0)
  {
    assert conn.executed + [] == conn.executed;
  }

  /** One insert: its statement is sent unless empty, and counted if taken. */
  method Execute(conn: Connection, cfg: Config, insert: C.Clinsert, taken: bool, queryCounter: u32)
    returns (counter: u32)
    requires insert.Valid() && '\0' !in insert.table
    modifies conn`executed
    ensures var query := Query(cfg, insert.Contents());
            if query.Some? && taken
            then counter == Wrap32(queryCounter + 1) && conn.executed == old(conn.executed) + [query.value]
            else counter == queryCounter && conn.executed == old(conn.executed)
  {
    counter := queryCounter;
    var query := BuildInsertQuery(insert, cfg);
    match query {
      case Some(text) =>
        var result := conn.Query(text, taken);
        if result == 0 {
          counter := Wrap32(counter + 1);
        }
      case None =>
    }
  }

  /** A turn up to the commit. */
  method SendTurn(conn: Connection, cfg: Config, turn: Turn, queryCounter: u32,
                  ghost before: seq<string>, ghost replies: seq<Reply>, ghost n: nat)
    returns (counter: u32)
    requires n < |replies| && Says(turn, cfg, replies[n])
    requires conn.executed == before + Successes(replies, n) && queryCounter == Wrap32(|Successes(replies, n)|)
    modifies conn`executed
    ensures conn.executed == before + Successes(replies, n + 1) && counter == Wrap32(|Successes(replies, n + 1)|)
    ensures |Successes(replies, n + 1)| - |Successes(replies, n)| in {0, 1}
  {
    counter := queryCounter;
    match turn.popped {
      case Some(insert) => counter := Execute(conn, cfg, insert, turn.taken, queryCounter);
      case None =>
    }
    WrapAdd32(|Successes(replies, n)|, 1);
  }

  /** One pass of the loop, with the commit at its end. */
  method DrainTurn(conn: Connection, cfg: Config, turn: Turn, queryCounter: u32,
                   ghost before: seq<string>, ghost replies: seq<Reply>, ghost n: nat)
    returns (counter: u32)
    requires n < |replies| && Says(turn, cfg, replies[n]) && AtHead(conn, before, replies, n, queryCounter)
    modifies conn
    ensures AtHead(conn, before, replies, n + 1, counter)
  {
    counter := SendTurn(conn, cfg, turn, queryCounter, before, replies, n);
    CommitIsDue(|Successes(replies, n)|, |Successes(replies, n + 1)|);
    if counter > 0 && counter % COMMIT_INTERVAL == 0 {
      conn.Commit();
    }
  }

  /** The successes executed in order and counted, and all committed unless the counter has come to zero. */
  ghost predicate Drained(conn: Connection, before: seq<string>, replies: seq<Reply>, counter: u32)
    reads conn
  {
    var s := Successes(replies, |replies|);
    && conn.executed == before + s
    && counter == Wrap32(|s|)
    && conn.committed == |conn.executed| - if counter > 0 then 0 else Uncommitted(|s|)
  }

  /** The drain executes the successes in order and counts them; the statements it leaves uncommitted
      at a loop head and on return are as stated, for every pattern of failures and empty statements. */
  method ProcessDatabaseQueue(conn: Connection, cfg: Config, turns: seq<Turn>, ghost replies: seq<Reply>)
    returns (queryCounter: u32)
    requires |replies| == |turns| && forall i :: 0 <= i < |turns| ==> Says(turns[i], cfg, replies[i])
    requires conn.committed == |conn.executed|
    modifies conn
    ensures Drained(conn, old(conn.executed), replies, queryCounter)
  {
    ghost var before := conn.executed;
    queryCounter := 0;
    FirstHead(conn, replies);
    for i := 0 to |turns|
      invariant AtHead(conn, before, replies, i, queryCounter)
    {
      assert Says(turns[i], cfg, replies[i]);
      queryCounter := DrainTurn(conn, cfg, turns[i], queryCounter, before, replies, i);
    }
    LastCommit(conn, queryCounter, before, replies);
  }

  /** The commit after the loop. */
  method LastCommit(conn: Connection, queryCounter: u32, ghost before: seq<string>, ghost replies: seq<Reply>)
    requires AtHead(conn, before, replies, |replies|, queryCounter)
    modifies conn`committed
    ensures Drained(conn, before, replies, queryCounter)
  {
    if queryCounter > 0 {
      conn.Commit();
    }
  }

  /** With fewer than 2^32 successes: fewer than 100 uncommitted at every loop head, none on return,
      and the count returned is the number of successes. */
  lemma DrainKeepsPromises(replies: seq<Reply>, n: nat)
    requires n <= |replies| && |Successes(replies, |replies|)| < TWO32
    ensures Uncommitted(|Successes(replies, n)|) < COMMIT_INTERVAL
    ensures var s := |Successes(replies, |replies|)|; Wrap32(s) == s && (Wrap32(s) == 0 ==> Uncommitted(s) == 0)
  {
    SuccessesGrow(replies, n, |replies|);
  }

  lemma {:induction false} SuccessesGrow(replies: seq<Reply>, i: nat, n: nat)
    requires i <= n <= |replies|
    ensures |Successes(replies, i)| <= |Successes(replies, n)|
  {
    if i == n {
    } else {
      SuccessesGrow(replies, i, n - 1);
    }
  }

  /** On return nothing is left uncommitted exactly when the successes do not wrap the counter to zero;
      when they do, 96 statements wait. */
  lemma ReturnCommitsExactly(s: nat)
    ensures var left := if Wrap32(s) > 0 then 0 else Uncommitted(s);
            (left == 0 <==> s == 0 || Wrap32(s) != 0) && (left != 0 ==> left == 96)
  {
  }

  lemma {:induction false} AllSucceed(replies: seq<Reply>, n: nat)
    requires n <= |replies| && forall i :: 0 <= i < |replies| ==> replies[i].query.Some? && replies[i].taken
    ensures |Successes(replies, n)| == n
  {
    if n == 0 {
    } else {
      AllSucceed(replies, n - 1);
    }
  }

  /** A drain long enough breaks both promises: 100 statements uncommitted at a loop head four successes
      after the counter wraps, and 96 on return if it ends as the counter wraps. */
  lemma PromisesCanBreak(query: string)
    ensures var wrapped, later := seq(TWO32, i => Reply(Some(query), true)), seq(TWO32 + 4, i => Reply(Some(query), true));
            && Uncommitted(|Successes(later, |later|)|) == COMMIT_INTERVAL
            && Wrap32(|Successes(wrapped, |wrapped|)|) == 0 && Uncommitted(|Successes(wrapped, |wrapped|)|) == 96
  {
    var wrapped := seq(TWO32, i => Reply(Some(query), true));
    var later := seq(TWO32 + 4, i => Reply(Some(query), true));
    AllSucceed(wrapped, |wrapped|);
    AllSucceed(later, |later|);
  }
}
