/** Target files as they are written, and that reading one gives back what was written
    (the documented form of test/example-targets.cfg, read by src/rtgtargets.c). */
module Document {
  import opened Words
  import opened Decimal
  import opened Scan
  import opened Targets
  import opened NewStyle
  import OldStyle

  /** What may stand between the items: white space, a comment up to the end of its line, and words
      that mean nothing there, such as those of a description. A `gap` is the white space after a word. */
  datatype Filler = Space(space: string) | Comment(text: string) | Noise(word: string, gap: string)

  /** `word` is the keyword as it is spelled, `sep` the white space between it and its value, `gap` that
      after the semicolon. */
  datatype RowItem =
    | Bits(word: string, sep: string, bits: u32, gap: string)
    | Table(word: string, sep: string, table: string, gap: string)
    | Id(word: string, sep: string, id: u32, gap: string)
    | Speed(word: string, sep: string, limit: u64, gap: string)
    | RowFiller(f: Filler)

  /** In a block, `open` is the white space before the brace and `brace` that after it. */
  datatype HostItem =
    | Community(word: string, sep: string, community: string, gap: string)
    | Snmpver(word: string, sep: string, version: nat, gap: string)
    | TargetBlock(word: string, sep: string, oid: string, open: string, brace: string, rows: seq<RowItem>, gap: string)
    | HostFiller(f: Filler)

  datatype TopItem =
    | HostBlock(word: string, sep: string, name: string, open: string, brace: string, items: seq<HostItem>, gap: string)
    | TopFiller(f: Filler)

  const ROW_KEYWORDS := {"bits", "table", "id", "speed", "}"}
  const HOST_KEYWORDS := {"community", "snmpver", "target", "}"}
  const TOP_KEYWORDS := {"host"}

  function RowKeyword(item: RowItem): string {
    match item
    case Bits(_, _, _, _) => "bits"
    case Table(_, _, _, _) => "table"
    case Id(_, _, _, _) => "id"
    case Speed(_, _, _, _) => "speed"
    case RowFiller(_) => ""
  }

  function HostKeyword(item: HostItem): string {
    match item
    case Community(_, _, _, _) => "community"
    case Snmpver(_, _, _, _) => "snmpver"
    case TargetBlock(_, _, _, _, _, _, _) => "target"
    case HostFiller(_) => ""
  }

  // What can be written.

  /** A keyword in capitals or lower case, and the white space after it. */
  ghost predicate IsKeyword(word: string, sep: string, keyword: string) {
    Spells(word, keyword) && IsGap(sep)
  }

  /** A value: no white space and no semicolon, and short enough for the buffer with one after it. */
  ghost predicate IsValue(s: string) {
    NoSpace(s) && Without(s, ';') && |s| < 128
  }

  ghost predicate IsName(s: string, max: nat) {
    s != [] && NoSpace(s) && |s| <= max
  }

  /** White space, and some of it. */
  ghost predicate IsGap(s: string) {
    s != [] && AllSpace(s)
  }

  ghost predicate ValidFiller(f: Filler, keywords: set<string>) {
    match f
    case Space(space) => AllSpace(space)
    case Comment(text) => Without(text, '\n')
    case Noise(word, gap) => IsName(word, 512) && !IsComment(Token(word)) && Token(word) !in keywords && IsGap(gap)
  }

  ghost predicate ValidRowItem(item: RowItem) {
    match item
    case RowFiller(f) => ValidFiller(f, ROW_KEYWORDS)
    case _ =>
      IsKeyword(item.word, item.sep, RowKeyword(item)) && IsGap(item.gap) && (item.Table? ==> IsValue(item.table))
  }

  ghost predicate ValidHostItem(item: HostItem) {
    match item
    case Community(word, sep, community, gap) => IsKeyword(word, sep, "community") && IsGap(gap) && IsValue(community)
    case Snmpver(word, sep, version, gap) => IsKeyword(word, sep, "snmpver") && IsGap(gap) && version < 0x8000_0000
    case TargetBlock(word, sep, oid, open, brace, rows, gap) =>
      && IsKeyword(word, sep, "target") && IsGap(open) && IsGap(brace) && IsGap(gap)
      && IsValue(oid) && oid != "" && forall i :: 0 <= i < |rows| ==> ValidRowItem(rows[i])
    case HostFiller(f) => ValidFiller(f, HOST_KEYWORDS)
  }

  ghost predicate ValidTopItem(item: TopItem) {
    match item
    case HostBlock(word, sep, name, open, brace, items, gap) =>
      && IsKeyword(word, sep, "host") && IsGap(open) && IsGap(brace) && AllSpace(gap)
      && IsName(name, 512) && forall i :: 0 <= i < |items| ==> ValidHostItem(items[i])
    case TopFiller(f) => ValidFiller(f, TOP_KEYWORDS)
  }

  /** A file may end right at its last brace; any other is followed by white space. */
  ghost predicate ValidDocument(document: seq<TopItem>) {
    && (forall i :: 0 <= i < |document| ==> ValidTopItem(document[i]))
    && forall i :: 0 <= i < |document| - 1 && document[i].HostBlock? ==> document[i].gap != []
  }

  // How it is written, in front of the rest of the file.

  function FillerText(f: Filler, rest: string): string {
    match f
    case Space(space) => space + rest
    case Comment(text) => "#" + (text + ("\n" + rest))
    case Noise(word, gap) => word + (gap + rest)
  }

  function NumberText(word: string, sep: string, n: nat, rest: string): string {
    word + (sep + (Dec(n) + (";" + rest)))
  }

  function ValueText(word: string, sep: string, value: string, rest: string): string {
    word + (sep + (value + (";" + rest)))
  }

  function BlockText(word: string, sep: string, name: string, open: string, brace: string, rest: string): string {
    word + (sep + (name + (open + ("{" + (brace + rest)))))
  }

  function RowItemText(item: RowItem, rest: string): string {
    match item
    case Bits(word, sep, bits, gap) => NumberText(word, sep, bits, gap + rest)
    case Table(word, sep, table, gap) => ValueText(word, sep, table, gap + rest)
    case Id(word, sep, id, gap) => NumberText(word, sep, id, gap + rest)
    case Speed(word, sep, limit, gap) => NumberText(word, sep, limit, gap + rest)
    case RowFiller(f) => FillerText(f, rest)
  }

  /** The items from position `k` on, and the closing brace. */
  function RowText(items: seq<RowItem>, k: nat, rest: string): string
    requires k <= |items|
    decreases |items| - k
  {
    if k == |items| then "};" + rest else RowItemText(items[k], RowText(items, k + 1, rest))
  }

  function HostItemText(item: HostItem, rest: string): string {
    match item
    case Community(word, sep, community, gap) => ValueText(word, sep, community, gap + rest)
    case Snmpver(word, sep, version, gap) => NumberText(word, sep, version, gap + rest)
    case TargetBlock(word, sep, oid, open, brace, rows, gap) =>
      BlockText(word, sep, oid, open, brace, RowText(rows, 0, gap + rest))
    case HostFiller(f) => FillerText(f, rest)
  }

  function HostText(items: seq<HostItem>, k: nat, rest: string): string
    requires k <= |items|
    decreases |items| - k
  {
    if k == |items| then "};" + rest else HostItemText(items[k], HostText(items, k + 1, rest))
  }

  function TopItemText(item: TopItem, rest: string): string {
    match item
    case HostBlock(word, sep, name, open, brace, items, gap) =>
      BlockText(word, sep, name, open, brace, HostText(items, 0, gap + rest))
    case TopFiller(f) => FillerText(f, rest)
  }

  function Text(document: seq<TopItem>, k: nat): string
    requires k <= |document|
    decreases |document| - k
  {
    if k == |document| then "" else TopItemText(document[k], Text(document, k + 1))
  }

  // What it says.

  function WithRowItem(row: Row, item: RowItem, interval: Interval): Row {
    match item
    case Bits(_, _, bits, _) => row.(bits := bits)
    case Table(_, _, table, _) => row.(table := Some(table))
    case Id(_, _, id, _) => row.(id := id)
    case Speed(_, _, limit, _) => row.(speed := SpeedOf(row.bits, limit, interval))
    case RowFiller(_) => row
  }

  /** The row written by the first `n` items. */
  function WrittenRow(oid: string, items: seq<RowItem>, n: nat, interval: Interval): Row
    requires n <= |items|
  {
    if n == 0 then NewRow(oid) else WithRowItem(WrittenRow(oid, items, n - 1, interval), items[n - 1], interval)
  }

  function WithHostItem(host: Host, item: HostItem, interval: Interval): Host {
    match item
    case Community(_, _, community, _) => host.(community := Some(community))
    case Snmpver(_, _, version, _) => host.(snmpver := version)
    case TargetBlock(_, _, oid, _, _, rows, _) => Joined(host, WrittenRow(oid, rows, |rows|, interval))
    case HostFiller(_) => host
  }

  function WrittenHost(name: string, items: seq<HostItem>, n: nat, interval: Interval): Host
    requires n <= |items|
  {
    if n == 0 then NewHost(name) else WithHostItem(WrittenHost(name, items, n - 1, interval), items[n - 1], interval)
  }

  function Written(document: seq<TopItem>, n: nat, interval: Interval): seq<Host>
    requires n <= |document|
  {
    if n == 0 then []
    else
      Written(document, n - 1, interval)
      + match document[n - 1]
        case HostBlock(_, _, name, _, _, items, _) => [WrittenHost(name, items, |items|, interval)]
        case TopFiller(_) => []
  }

  /** Item `k` is the last of its kind among the first `n`. */
  predicate IsLastItem(items: seq<RowItem>, n: nat, k: nat) {
    k < n <= |items| && forall j :: k < j < n ==> RowKeyword(items[j]) != RowKeyword(items[k])
  }

  predicate HasNo(items: seq<RowItem>, n: nat, keyword: string)
    requires n <= |items|
  {
    forall j :: 0 <= j < n ==> RowKeyword(items[j]) != keyword
  }

  /** What is said last holds. A limit is the speed of a gauge; for a counter the speed is the limit
      divided by the interval, rounded down, and the width that counts is the one said by then. */
  lemma {:induction false} LastItemHolds(oid: string, items: seq<RowItem>, n: nat, interval: Interval, k: nat)
    requires IsLastItem(items, n, k)
    ensures var row := WrittenRow(oid, items, n, interval);
            match items[k]
            case Bits(_, _, bits, _) => row.bits == bits
            case Table(_, _, table, _) => row.table == Some(table)
            case Id(_, _, id, _) => row.id == id
            case Speed(_, _, limit, _) =>
              if WrittenRow(oid, items, k, interval).bits == 0 then row.speed == limit
              else row.speed * interval <= limit < (row.speed + 1) * interval
            case RowFiller(_) => true
    decreases n
  {
    if n == k + 1 {
      assert forall limit: nat :: (limit / interval) * interval <= limit < (limit / interval + 1) * interval;
    } else {
      LastItemHolds(oid, items, n - 1, interval, k);
    }
  }

  /** What is not said is as the row was created. */
  lemma {:induction false} UnsaidIsDefault(oid: string, items: seq<RowItem>, n: nat, interval: Interval)
    requires n <= |items|
    ensures var row := WrittenRow(oid, items, n, interval);
            && row.oid == oid
            && (HasNo(items, n, "bits") ==> row.bits == 0) && (HasNo(items, n, "table") ==> row.table == None)
            && (HasNo(items, n, "id") ==> row.id == 0) && (HasNo(items, n, "speed") ==> row.speed == 0)
  {
    if n == 0 {
    } else {
      UnsaidIsDefault(oid, items, n - 1, interval);
    }
  }

  /** A row in the documented form, bits before speed, is written as it says, whatever fills the
      places between and in whatever order the rest comes. */
  lemma DocumentedRow(oid: string, items: seq<RowItem>, interval: Interval, b: nat, t: nat, i: nat, s: nat)
    requires b < |items| && t < |items| && i < |items| && s < |items| && b < s
    requires items[b].Bits? && items[t].Table? && items[i].Id? && items[s].Speed?
    requires forall k :: 0 <= k < |items| && k != b && k != t && k != i && k != s ==> items[k].RowFiller?
    ensures var row := WrittenRow(oid, items, |items|, interval);
            && row == Row(oid, Some(items[t].table), items[i].id, items[b].bits, row.speed)
            && if items[b].bits == 0 then row.speed == items[s].limit
               else row.speed * interval <= items[s].limit < (row.speed + 1) * interval
  {
    UnsaidIsDefault(oid, items, |items|, interval);
    LastItemHolds(oid, items, |items|, interval, b);
    LastItemHolds(oid, items, |items|, interval, t);
    LastItemHolds(oid, items, |items|, interval, i);
    LastItemHolds(oid, items, |items|, interval, s);
    LastItemHolds(oid, items, s, interval, b);
  }

  /** The same for a host: the last community and the last version hold. */
  lemma {:induction false} LastHostItemHolds(name: string, items: seq<HostItem>, n: nat, interval: Interval, k: nat)
    requires k < n <= |items| && forall j :: k < j < n ==> HostKeyword(items[j]) != HostKeyword(items[k])
    ensures var host := WrittenHost(name, items, n, interval);
            match items[k]
            case Community(_, _, community, _) => host.community == Some(community)
            case Snmpver(_, _, version, _) => host.snmpver == version
            case _ => true
    decreases n
  {
    if n == k + 1 {
    } else {
      LastHostItemHolds(name, items, n - 1, interval, k);
    }
  }

  lemma {:induction false} UnsaidHostDefault(name: string, items: seq<HostItem>, n: nat, interval: Interval)
    requires n <= |items|
    ensures var host := WrittenHost(name, items, n, interval);
            && host.name == name
            && ((forall j :: 0 <= j < n ==> !items[j].Community?) ==> host.community == None)
            && ((forall j :: 0 <= j < n ==> !items[j].Snmpver?) ==> host.snmpver == 0)
  {
    if n == 0 {
    } else {
      UnsaidHostDefault(name, items, n - 1, interval);
    }
  }

  /** The rows of the target blocks among the first `n` items. */
  function RowsWritten(items: seq<HostItem>, n: nat, interval: Interval): seq<Row>
    requires n <= |items|
  {
    if n == 0 then []
    else
      RowsWritten(items, n - 1, interval)
      + match items[n - 1]
        case TargetBlock(_, _, oid, _, _, rows, _) => [WrittenRow(oid, rows, |rows|, interval)]
        case _ => []
  }

  /** The rows of a host are those written at these positions. */
  ghost predicate RowsAt(rows: seq<Target>, written: seq<Row>, ix: seq<nat>) {
    && Increasing(ix, |written|) && |rows| == |ix|
    && forall i :: 0 <= i < |ix| ==> rows[i] == Target(written[ix[i]], NO_CACHE)
  }

  /** The row at position `b` shares its OID, or its table and its id, with one kept before it. */
  ghost predicate Repeats(written: seq<Row>, ix: seq<nat>, b: nat)
    requires Increasing(ix, |written|) && b < |written|
  {
    exists i :: 0 <= i < |ix| && ix[i] < b
      && (written[ix[i]].oid == written[b].oid
          || (written[ix[i]].table == written[b].table && written[ix[i]].id == written[b].id))
  }

  /** Exactly the rows that repeat none kept before them are kept. */
  ghost predicate KeptAt(written: seq<Row>, ix: seq<nat>) {
    Increasing(ix, |written|) && forall b :: 0 <= b < |written| ==> (b in ix <==> !Repeats(written, ix, b))
  }

  /** More rows make no difference to those before. */
  lemma RepeatsAsBefore(before: seq<Row>, row: Row, ix: seq<nat>, ix': seq<nat>, b: nat)
    requires Increasing(ix, |before|) && b < |before| && (ix' == ix || ix' == ix + [|before|])
    ensures Increasing(ix', |before| + 1) && (b in ix' <==> b in ix)
    ensures Repeats(before + [row], ix', b) <==> Repeats(before, ix, b)
  {
    var written := before + [row];
    assert forall i :: 0 <= i < |ix| ==> written[ix'[i]] == before[ix[i]];
    if Repeats(written, ix', b) {
      var i :| 0 <= i < |ix'| && ix'[i] < b
        && (written[ix'[i]].oid == written[b].oid
            || (written[ix'[i]].table == written[b].table && written[ix'[i]].id == written[b].id));
      assert ix[i] < b;
    }
  }

  lemma RowDropped(before: seq<Row>, row: Row, rows: seq<Target>, ix: seq<nat>)
    requires RowsAt(rows, before, ix) && KeptAt(before, ix) && IsDuplicate(rows, row)
    ensures RowsAt(rows, before + [row], ix) && KeptAt(before + [row], ix)
  {
    var written := before + [row];
    forall b | 0 <= b < |before|
      ensures b in ix <==> !Repeats(written, ix, b)
    {
      RepeatsAsBefore(before, row, ix, ix, b);
    }
    var i :| 0 <= i < |rows| && Clash(rows[i].row, row);
    assert written[ix[i]] == rows[i].row && written[|before|] == row;
    assert Repeats(written, ix, |before|);
  }

  lemma RowJoins(before: seq<Row>, row: Row, rows: seq<Target>, ix: seq<nat>)
    requires RowsAt(rows, before, ix) && KeptAt(before, ix) && !IsDuplicate(rows, row)
    ensures var ix' := ix + [|before|];
            RowsAt(rows + [Target(row, NO_CACHE)], before + [row], ix') && KeptAt(before + [row], ix')
  {
    var written, ix' := before + [row], ix + [|before|];
    forall b | 0 <= b < |before|
      ensures b in ix' <==> !Repeats(written, ix', b)
    {
      RepeatsAsBefore(before, row, ix, ix', b);
    }
    assert ix'[|ix|] == |before| && |before| in ix';
    forall i | 0 <= i < |ix|
      ensures written[ix'[i]] == rows[i].row
    {
    }
    assert !Repeats(written, ix', |before|);
  }

  lemma RowKeptOrNot(before: seq<Row>, row: Row, host: Host, ix: seq<nat>) returns (ix': seq<nat>)
    requires RowsAt(host.rows, before, ix) && KeptAt(before, ix)
    ensures RowsAt(Joined(host, row).rows, before + [row], ix') && KeptAt(before + [row], ix')
  {
    if IsDuplicate(host.rows, row) {
      RowDropped(before, row, host.rows, ix);
      ix' := ix;
    } else {
      RowJoins(before, row, host.rows, ix);
      ix' := ix + [|before|];
    }
  }

  /** The row of a target block joins what was written, in the host and in the list. */
  lemma BlockAdds(name: string, items: seq<HostItem>, n: nat, interval: Interval)
    requires n < |items|
    ensures var host, host' := WrittenHost(name, items, n, interval), WrittenHost(name, items, n + 1, interval);
            var before, written := RowsWritten(items, n, interval), RowsWritten(items, n + 1, interval);
            match items[n]
            case TargetBlock(_, _, oid, _, _, rows, _) =>
              var row := WrittenRow(oid, rows, |rows|, interval);
              host'.rows == Joined(host, row).rows && written == before + [row]
            case _ => host'.rows == host.rows && written == before
  {
  }

  /** Of the target blocks of a host, those rows are kept, in order, that do not share OID or table and id
      with one kept before. */
  lemma {:induction false} KeptRows(name: string, items: seq<HostItem>, n: nat, interval: Interval) returns (ix: seq<nat>)
    requires n <= |items|
    ensures var rows, written := WrittenHost(name, items, n, interval).rows, RowsWritten(items, n, interval);
            RowsAt(rows, written, ix) && KeptAt(written, ix)
  {
    if n == 0 {
      ix := [];
    } else {
      ix := KeptRows(name, items, n - 1, interval);
      BlockAdds(name, items, n - 1, interval);
      match items[n - 1] {
        case TargetBlock(_, _, oid, _, _, rows, _) =>
          ix := RowKeptOrNot(RowsWritten(items, n - 1, interval), WrittenRow(oid, rows, |rows|, interval),
                             WrittenHost(name, items, n - 1, interval), ix);
        case _ =>
      }
    }
  }

  /** Pairwise distinct OIDs, and pairwise distinct pairs of table and id. */
  ghost predicate NoneShared(rows: seq<Row>) {
    forall i, j :: 0 <= i < j < |rows| ==>
      rows[i].oid != rows[j].oid && (rows[i].table != rows[j].table || rows[i].id != rows[j].id)
  }

  /** A host whose target blocks differ in OID, and in table or id, keeps all their rows, in order. */
  lemma {:induction false} NothingSuppressed(name: string, items: seq<HostItem>, n: nat, interval: Interval)
    requires n <= |items|
    requires NoneShared(RowsWritten(items, n, interval))
    ensures var host, rows := WrittenHost(name, items, n, interval), RowsWritten(items, n, interval);
            |host.rows| == |rows| && forall i :: 0 <= i < |rows| ==> host.rows[i] == Target(rows[i], NO_CACHE)
  {
    if n == 0 {
    } else {
      var before, rows := RowsWritten(items, n - 1, interval), RowsWritten(items, n, interval);
      assert before == rows[..|before|];
      NothingSuppressed(name, items, n - 1, interval);
      if items[n - 1].TargetBlock? {
        var host, row := WrittenHost(name, items, n - 1, interval), rows[|before|];
        forall i | 0 <= i < |host.rows|
          ensures !Clash(host.rows[i].row, row)
        {
          assert host.rows[i].row == before[i] == rows[i];
        }
      }
    }
  }

  // Reading it back.

  lemma GapEndsWord(gap: string, rest: string)
    requires IsGap(gap)
    ensures EndsWord(gap + rest)
  {
    assert (gap + rest)[0] == gap[0];
  }

  /** White space and comments make no difference to any reader. */
  lemma FillerToken(f: Filler, rest: string, keywords: set<string>)
    requires ValidFiller(f, keywords)
    ensures NextToken(FillerText(f, rest)) == if f.Noise? then Some((Token(f.word), f.gap + rest)) else NextToken(rest)
  {
    match f {
      case Space(space) => TokenSkipsSpace(space, rest);
      case Comment(text) => CommentSkipped(text, rest);
      case Noise(word, gap) =>
        GapEndsWord(gap, rest);
        TokenRoundTrip(word, gap + rest);
    }
  }

  predicate IsPlain(keyword: string) {
    keyword != [] && |keyword| <= 512 && forall i :: 0 <= i < |keyword| ==> 'a' <= keyword[i] <= 'z'
  }

  /** A keyword is read as itself, however it is spelled. */
  lemma KeywordToken(keyword: string, word: string, sep: string, rest: string)
    requires IsPlain(keyword) && IsKeyword(word, sep, keyword)
    ensures NextToken(word + (sep + rest)) == Some((keyword, sep + rest))
  {
    TokenIs(word, keyword);
    GapEndsWord(sep, rest);
    TokenRoundTrip(word, sep + rest);
  }

  /** The semicolon left behind by a number means nothing. */
  lemma SemicolonToken(rest: string)
    requires EndsWord(rest)
    ensures NextToken(";" + rest) == Some(("", rest))
  {
    TokenIs("", "");
    assert "" + ";" == ";";
    TokenRoundTrip(";", rest);
  }

  lemma CloseToken(rest: string)
    requires EndsWord(rest)
    ensures NextToken("};" + rest) == Some(("}", rest))
  {
    assert "}" + ";" == "};";
    TokenIs("}", "}");
    TokenRoundTrip("};", rest);
  }

  /** A value comes with its semicolon, which goes. */
  lemma ValueRoundTrip(sep: string, value: string, rest: string, env: Env)
    requires IsGap(sep) && IsValue(value) && EndsWord(rest)
    ensures Value(sep + (value + (";" + rest)), env) == (value, rest)
  {
    var word := value + ";";
    assert value + (";" + rest) == word + rest;
    WordRoundTrip(sep, word, rest, 128);
    BeforeIs(value, ';', []);
    assert word == value + [';'] + [];
  }

  lemma OidRoundTrip(sep: string, oid: string, rest: string, env: Env)
    requires IsGap(sep) && IsValue(oid) && oid != "" && EndsWord(rest)
    ensures Value(sep + (oid + rest), env) == (oid, rest)
  {
    WordRoundTrip(sep, oid, rest, 128);
    BeforeIs(oid, ';', []);
  }

  lemma BraceToken(open: string, brace: string, rest: string)
    requires IsGap(open) && IsGap(brace)
    ensures NextToken(open + ("{" + (brace + rest))) == Some(("{", brace + rest))
  {
    TokenSkipsSpace(open, "{" + (brace + rest));
    TokenIs("{", "{");
    GapEndsWord(brace, rest);
    TokenRoundTrip("{", brace + rest);
  }

  // Rows.

  lemma RowSkips(gap: string, rest: string, row: Row, env: Env)
    requires AllSpace(gap)
    ensures RowFrom(gap + rest, row, env) == RowFrom(rest, row, env)
  {
    TokenSkipsSpace(gap, rest);
  }

  lemma SameTokenSameRow(s: string, t: string, row: Row, env: Env)
    requires NextToken(s) == NextToken(t)
    ensures RowFrom(s, row, env) == RowFrom(t, row, env)
  {
  }

  lemma RowTakes(s: string, token: string, s1: string, s2: string, row: Row, row': Row, env: Env)
    requires NextToken(s) == Some((token, s1)) && token != "}" && RowStep(token, s1, row, env) == (row', s2)
    ensures RowFrom(s, row, env) == RowFrom(s2, row', env)
  {
  }

  /** A token the row reader does not know. */
  lemma RowIgnores(s: string, token: string, rest: string, row: Row, env: Env)
    requires NextToken(s) == Some((token, rest)) && token !in ROW_KEYWORDS
    ensures RowFrom(s, row, env) == RowFrom(rest, row, env)
  {
    RowTakes(s, token, rest, rest, row, row, env);
  }

  lemma RowIgnoresSemicolon(rest: string, row: Row, env: Env)
    requires EndsWord(rest)
    ensures RowFrom(";" + rest, row, env) == RowFrom(rest, row, env)
  {
    SemicolonToken(rest);
    RowIgnores(";" + rest, "", rest, row, env);
  }

  lemma RowIgnoresBrace(open: string, brace: string, rest: string, row: Row, env: Env)
    requires IsGap(open) && IsGap(brace)
    ensures RowFrom(open + ("{" + (brace + rest)), row, env) == RowFrom(rest, row, env)
  {
    BraceToken(open, brace, rest);
    RowIgnores(open + ("{" + (brace + rest)), "{", brace + rest, row, env);
    RowSkips(brace, rest, row, env);
  }

  lemma RowNumber(keyword: string, word: string, sep: string, n: nat, rest: string, row: Row, row': Row, env: Env)
    requires IsKeyword(word, sep, keyword) && EndsWord(rest) && keyword in {"bits", "id", "speed"}
    requires RowStep(keyword, sep + (Dec(n) + (";" + rest)), row, env) == (row', ";" + rest)
    ensures RowFrom(NumberText(word, sep, n, rest), row, env) == RowFrom(rest, row', env)
  {
    var s := sep + (Dec(n) + (";" + rest));
    KeywordToken(keyword, word, sep, Dec(n) + (";" + rest));
    RowTakes(word + s, keyword, s, ";" + rest, row, row', env);
    RowIgnoresSemicolon(rest, row', env);
  }

  lemma RowTable(word: string, sep: string, table: string, rest: string, row: Row, env: Env)
    requires IsKeyword(word, sep, "table") && IsValue(table) && EndsWord(rest)
    ensures RowFrom(ValueText(word, sep, table, rest), row, env) == RowFrom(rest, row.(table := Some(table)), env)
  {
    var s := sep + (table + (";" + rest));
    KeywordToken("table", word, sep, table + (";" + rest));
    ValueRoundTrip(sep, table, rest, env);
    RowTakes(word + s, "table", s, rest, row, row.(table := Some(table)), env);
  }

  lemma RowFillerIgnored(f: Filler, rest: string, row: Row, env: Env)
    requires ValidFiller(f, ROW_KEYWORDS)
    ensures RowFrom(FillerText(f, rest), row, env) == RowFrom(rest, row, env)
  {
    FillerToken(f, rest, ROW_KEYWORDS);
    match f {
      case Noise(word, gap) =>
        RowIgnores(FillerText(f, rest), Token(word), gap + rest, row, env);
        RowSkips(gap, rest, row, env);
      case _ => SameTokenSameRow(FillerText(f, rest), rest, row, env);
    }
  }

  /** An item up to its last semicolon. */
  lemma RowItemTaken(item: RowItem, rest: string, row: Row, env: Env)
    requires ValidRowItem(item) && !item.RowFiller?
    ensures RowFrom(RowItemText(item, rest), row, env)
         == RowFrom(item.gap + rest, WithRowItem(row, item, env.interval), env)
  {
    var row', after := WithRowItem(row, item, env.interval), item.gap + rest;
    GapEndsWord(item.gap, rest);
    match item {
      case Bits(word, sep, bits, _) =>
        IntRoundTrip(sep, bits, ";" + after);
        RowNumber("bits", word, sep, bits, after, row, row', env);
      case Table(word, sep, table, _) => RowTable(word, sep, table, after, row, env);
      case Id(word, sep, id, _) =>
        IntRoundTrip(sep, id, ";" + after);
        RowNumber("id", word, sep, id, after, row, row', env);
      case Speed(word, sep, limit, _) =>
        IntRoundTrip(sep, limit, ";" + after);
        RowNumber("speed", word, sep, limit, after, row, row', env);
    }
  }

  lemma RowItemRoundTrip(item: RowItem, rest: string, row: Row, env: Env)
    requires ValidRowItem(item)
    ensures RowFrom(RowItemText(item, rest), row, env) == RowFrom(rest, WithRowItem(row, item, env.interval), env)
  {
    if item.RowFiller? {
      RowFillerIgnored(item.f, rest, row, env);
    } else {
      RowItemTaken(item, rest, row, env);
      RowSkips(item.gap, rest, WithRowItem(row, item, env.interval), env);
    }
  }

  lemma RowCloses(rest: string, row: Row, env: Env)
    requires EndsWord(rest)
    ensures RowFrom("};" + rest, row, env) == (row, rest)
  {
    CloseToken(rest);
  }

  lemma {:induction false} RowRoundTrip(oid: string, items: seq<RowItem>, k: nat, rest: string, env: Env)
    requires k <= |items| && (forall i :: 0 <= i < |items| ==> ValidRowItem(items[i])) && EndsWord(rest)
    ensures RowFrom(RowText(items, k, rest), WrittenRow(oid, items, k, env.interval), env)
         == (WrittenRow(oid, items, |items|, env.interval), rest)
    decreases |items| - k
  {
    var row := WrittenRow(oid, items, k, env.interval);
    if k == |items| {
      RowCloses(rest, row, env);
    } else {
      RowItemRoundTrip(items[k], RowText(items, k + 1, rest), row, env);
      RowRoundTrip(oid, items, k + 1, rest, env);
    }
  }

  // Hosts.

  lemma HostSkips(gap: string, rest: string, host: Host, env: Env)
    requires AllSpace(gap)
    ensures HostFrom(gap + rest, host, env) == HostFrom(rest, host, env)
  {
    TokenSkipsSpace(gap, rest);
  }

  lemma SameTokenSameHost(s: string, t: string, host: Host, env: Env)
    requires NextToken(s) == NextToken(t)
    ensures HostFrom(s, host, env) == HostFrom(t, host, env)
  {
  }

  lemma HostTakes(s: string, token: string, s1: string, s2: string, host: Host, host': Host, env: Env)
    requires NextToken(s) == Some((token, s1)) && token != "}" && HostStep(token, s1, host, env) == (host', s2)
    ensures HostFrom(s, host, env) == HostFrom(s2, host', env)
  {
  }

  lemma HostIgnores(s: string, token: string, rest: string, host: Host, env: Env)
    requires NextToken(s) == Some((token, rest)) && token !in HOST_KEYWORDS
    ensures HostFrom(s, host, env) == HostFrom(rest, host, env)
  {
    HostTakes(s, token, rest, rest, host, host, env);
  }

  lemma HostIgnoresSemicolon(rest: string, host: Host, env: Env)
    requires EndsWord(rest)
    ensures HostFrom(";" + rest, host, env) == HostFrom(rest, host, env)
  {
    SemicolonToken(rest);
    HostIgnores(";" + rest, "", rest, host, env);
  }

  lemma HostIgnoresBrace(open: string, brace: string, rest: string, host: Host, env: Env)
    requires IsGap(open) && IsGap(brace)
    ensures HostFrom(open + ("{" + (brace + rest)), host, env) == HostFrom(rest, host, env)
  {
    BraceToken(open, brace, rest);
    HostIgnores(open + ("{" + (brace + rest)), "{", brace + rest, host, env);
    HostSkips(brace, rest, host, env);
  }

  lemma HostCommunity(word: string, sep: string, community: string, rest: string, host: Host, env: Env)
    requires IsKeyword(word, sep, "community") && IsValue(community) && EndsWord(rest)
    ensures HostFrom(ValueText(word, sep, community, rest), host, env)
         == HostFrom(rest, host.(community := Some(community)), env)
  {
    var s := sep + (community + (";" + rest));
    KeywordToken("community", word, sep, community + (";" + rest));
    ValueRoundTrip(sep, community, rest, env);
    HostTakes(word + s, "community", s, rest, host, host.(community := Some(community)), env);
  }

  lemma HostVersion(word: string, sep: string, version: nat, rest: string, host: Host, env: Env)
    requires IsKeyword(word, sep, "snmpver") && version < 0x8000_0000 && EndsWord(rest)
    ensures HostFrom(NumberText(word, sep, version, rest), host, env)
         == HostFrom(rest, host.(snmpver := version), env)
  {
    var s := sep + (Dec(version) + (";" + rest));
    var host' := host.(snmpver := version);
    KeywordToken("snmpver", word, sep, Dec(version) + (";" + rest));
    IntRoundTrip(sep, version, ";" + rest);
    SmallInt(version);
    HostTakes(word + s, "snmpver", s, ";" + rest, host, host', env);
    HostIgnoresSemicolon(rest, host', env);
  }

  /** A target block: the row starts after the brace, which its reader ignores. */
  lemma HostTarget(word: string, sep: string, oid: string, open: string, brace: string, rows: seq<RowItem>, rest: string,
                   host: Host, env: Env)
    requires IsKeyword(word, sep, "target") && IsGap(open) && IsGap(brace) && EndsWord(rest)
    requires IsValue(oid) && oid != "" && forall i :: 0 <= i < |rows| ==> ValidRowItem(rows[i])
    ensures HostFrom(BlockText(word, sep, oid, open, brace, RowText(rows, 0, rest)), host, env)
         == HostFrom(rest, Joined(host, WrittenRow(oid, rows, |rows|, env.interval)), env)
  {
    var body := RowText(rows, 0, rest);
    var block := open + ("{" + (brace + body));
    KeywordToken("target", word, sep, oid + block);
    GapEndsWord(open, "{" + (brace + body));
    OidRoundTrip(sep, oid, block, env);
    RowIgnoresBrace(open, brace, body, NewRow(oid), env);
    RowRoundTrip(oid, rows, 0, rest, env);
    HostTakes(word + (sep + (oid + block)), "target", sep + (oid + block), rest, host,
              Joined(host, WrittenRow(oid, rows, |rows|, env.interval)), env);
  }

  lemma HostFillerIgnored(f: Filler, rest: string, host: Host, env: Env)
    requires ValidFiller(f, HOST_KEYWORDS)
    ensures HostFrom(FillerText(f, rest), host, env) == HostFrom(rest, host, env)
  {
    FillerToken(f, rest, HOST_KEYWORDS);
    match f {
      case Noise(word, gap) =>
        HostIgnores(FillerText(f, rest), Token(word), gap + rest, host, env);
        HostSkips(gap, rest, host, env);
      case _ => SameTokenSameHost(FillerText(f, rest), rest, host, env);
    }
  }

  lemma HostItemTaken(item: HostItem, rest: string, host: Host, env: Env)
    requires ValidHostItem(item) && !item.HostFiller?
    ensures HostFrom(HostItemText(item, rest), host, env)
         == HostFrom(item.gap + rest, WithHostItem(host, item, env.interval), env)
  {
    var after := item.gap + rest;
    GapEndsWord(item.gap, rest);
    match item {
      case Community(word, sep, community, _) => HostCommunity(word, sep, community, after, host, env);
      case Snmpver(word, sep, version, _) => HostVersion(word, sep, version, after, host, env);
      case TargetBlock(word, sep, oid, open, brace, rows, _) => HostTarget(word, sep, oid, open, brace, rows, after, host, env);
    }
  }

  lemma HostItemRoundTrip(item: HostItem, rest: string, host: Host, env: Env)
    requires ValidHostItem(item)
    ensures HostFrom(HostItemText(item, rest), host, env) == HostFrom(rest, WithHostItem(host, item, env.interval), env)
  {
    if item.HostFiller? {
      HostFillerIgnored(item.f, rest, host, env);
    } else {
      HostItemTaken(item, rest, host, env);
      HostSkips(item.gap, rest, WithHostItem(host, item, env.interval), env);
    }
  }

  lemma HostCloses(rest: string, host: Host, env: Env)
    requires EndsWord(rest)
    ensures HostFrom("};" + rest, host, env) == (host, rest)
  {
    CloseToken(rest);
  }

  lemma {:induction false} HostRoundTrip(name: string, items: seq<HostItem>, k: nat, rest: string, env: Env)
    requires k <= |items| && (forall i :: 0 <= i < |items| ==> ValidHostItem(items[i])) && EndsWord(rest)
    ensures HostFrom(HostText(items, k, rest), WrittenHost(name, items, k, env.interval), env)
         == (WrittenHost(name, items, |items|, env.interval), rest)
    decreases |items| - k
  {
    var host := WrittenHost(name, items, k, env.interval);
    if k == |items| {
      HostCloses(rest, host, env);
    } else {
      HostItemRoundTrip(items[k], HostText(items, k + 1, rest), host, env);
      HostRoundTrip(name, items, k + 1, rest, env);
    }
  }

  // The whole file.

  lemma HostsSkip(gap: string, rest: string, hosts: seq<Host>, env: Env)
    requires AllSpace(gap)
    ensures HostsFrom(gap + rest, hosts, env) == HostsFrom(rest, hosts, env)
  {
    TokenSkipsSpace(gap, rest);
  }

  lemma SameTokenSameHosts(s: string, t: string, hosts: seq<Host>, env: Env)
    requires NextToken(s) == NextToken(t)
    ensures HostsFrom(s, hosts, env) == HostsFrom(t, hosts, env)
  {
  }

  lemma TopFillerIgnored(f: Filler, rest: string, hosts: seq<Host>, env: Env)
    requires ValidFiller(f, TOP_KEYWORDS)
    ensures HostsFrom(FillerText(f, rest), hosts, env) == HostsFrom(rest, hosts, env)
  {
    FillerToken(f, rest, TOP_KEYWORDS);
    match f {
      case Noise(word, gap) => HostsSkip(gap, rest, hosts, env);
      case _ => SameTokenSameHosts(FillerText(f, rest), rest, hosts, env);
    }
  }

  lemma HostBlockRoundTrip(word: string, sep: string, name: string, open: string, brace: string, items: seq<HostItem>,
                           rest: string, hosts: seq<Host>, env: Env)
    requires IsKeyword(word, sep, "host") && IsGap(open) && IsGap(brace) && EndsWord(rest)
    requires IsName(name, 512) && forall i :: 0 <= i < |items| ==> ValidHostItem(items[i])
    ensures HostsFrom(BlockText(word, sep, name, open, brace, HostText(items, 0, rest)), hosts, env)
         == HostsFrom(rest, hosts + [WrittenHost(name, items, |items|, env.interval)], env)
  {
    var body := HostText(items, 0, rest);
    var block := open + ("{" + (brace + body));
    KeywordToken("host", word, sep, name + block);
    GapEndsWord(open, "{" + (brace + body));
    WordRoundTrip(sep, name, block, 512);
    HostIgnoresBrace(open, brace, body, NewHost(name), env);
    HostRoundTrip(name, items, 0, rest, env);
  }

  lemma TopItemRoundTrip(document: seq<TopItem>, k: nat, rest: string, env: Env)
    requires k < |document| && ValidTopItem(document[k])
    requires document[k].HostBlock? ==> EndsWord(document[k].gap + rest)
    ensures HostsFrom(TopItemText(document[k], rest), Written(document, k, env.interval), env)
         == HostsFrom(rest, Written(document, k + 1, env.interval), env)
  {
    var hosts := Written(document, k, env.interval);
    match document[k] {
      case HostBlock(word, sep, name, open, brace, items, gap) =>
        HostBlockRoundTrip(word, sep, name, open, brace, items, gap + rest, hosts, env);
        HostsSkip(gap, rest, Written(document, k + 1, env.interval), env);
      case TopFiller(f) =>
        TopFillerIgnored(f, rest, hosts, env);
        assert hosts + [] == hosts;
    }
  }

  lemma TextStep(document: seq<TopItem>, k: nat, env: Env)
    requires k < |document| && ValidDocument(document)
    ensures HostsFrom(Text(document, k), Written(document, k, env.interval), env)
         == HostsFrom(Text(document, k + 1), Written(document, k + 1, env.interval), env)
  {
    var rest := Text(document, k + 1);
    if document[k].HostBlock? {
      if document[k].gap != [] {
        GapEndsWord(document[k].gap, rest);
      } else {
        assert k == |document| - 1 && [] + rest == [];
      }
    }
    TopItemRoundTrip(document, k, rest, env);
  }

  lemma TextEnds(document: seq<TopItem>, hosts: seq<Host>, env: Env)
    ensures HostsFrom(Text(document, |document|), hosts, env) == hosts
  {
  }

  /** What reading makes of the text from position `k` on, with the hosts before it read. */
  function Reading(document: seq<TopItem>, env: Env): nat -> seq<Host> {
    (k: nat) => if k <= |document| then HostsFrom(Text(document, k), Written(document, k, env.interval), env) else []
  }

  lemma {:induction false} Unchanging<T>(f: nat -> T, n: nat)
    requires forall k :: 0 <= k < n ==> f(k) == f(k + 1)
    ensures f(0) == f(n)
  {
    if n == 0 {
    } else {
      Unchanging(f, n - 1);
    }
  }

  lemma ReadingStep(document: seq<TopItem>, env: Env, k: nat)
    requires k < |document| && ValidDocument(document)
    ensures Reading(document, env)(k) == Reading(document, env)(k + 1)
  {
    TextStep(document, k, env);
  }

  lemma ReadingEnds(document: seq<TopItem>, env: Env)
    ensures Reading(document, env)(0) == HostsFrom(Text(document, 0), [], env)
    ensures Reading(document, env)(|document|) == Written(document, |document|, env.interval)
  {
    TextEnds(document, Written(document, |document|, env.interval), env);
  }

  lemma ReadingStays(document: seq<TopItem>, env: Env)
    requires ValidDocument(document)
    ensures Reading(document, env)(0) == Reading(document, env)(|document|)
  {
    var f := Reading(document, env);
    forall k | 0 <= k < |document|
      ensures f(k) == f(k + 1)
    {
      ReadingStep(document, env, k);
    }
    Unchanging(f, |document|);
  }

  /** Reading a file gives back what was written: the hosts, each with its rows less the duplicates. */
  lemma ReadsWhatWasWritten(document: seq<TopItem>, env: Env)
    requires ValidDocument(document)
    ensures HostsFrom(Text(document, 0), [], env) == Written(document, |document|, env.interval)
  {
    ReadingStays(document, env);
    ReadingEnds(document, env);
  }

  lemma {:induction false} BlocksAreHosts(document: seq<TopItem>, n: nat, k: nat, interval: Interval)
    requires k < n <= |document| && document[k].HostBlock?
    ensures Written(document, n, interval) != []
    decreases n
  {
    if n == k + 1 {
    } else {
      BlocksAreHosts(document, n - 1, k, interval);
    }
  }

  /** A document with a host is never taken for one in the old style. */
  lemma ParsedAsWritten(document: seq<TopItem>, k: nat, env: Env, speed: u64)
    requires ValidDocument(document) && k < |document| && document[k].HostBlock?
    ensures OldStyle.Parsed(Some(Text(document, 0)), env, speed) == Written(document, |document|, env.interval)
  {
    ReadsWhatWasWritten(document, env);
    BlocksAreHosts(document, |document|, k, env.interval);
  }
}
