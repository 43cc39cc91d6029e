/** Old-style target files as they are written (test/oldstyle-targets.cfg), and that reading one gives
    back what was written. */
module OldDocument {
  import opened Words
  import opened Decimal
  import opened Scan
  import opened Targets
  import opened OldStyle
  import NewStyle

  /** A line of the table, with anything after the id that does not continue the number (nothing, say, or
      a tab and a description), a comment line, or an empty line. */
  datatype Item =
    | Entry(host: string, oid: string, bits: u32, community: string, table: string, id: u32, tail: string)
    | Remark(text: string)
    | Blank

  ghost predicate IsField(s: string) {
    s != [] && Without(s, '\t') && Without(s, '#') && Without(s, '\n')
  }

  ghost predicate ValidItem(item: Item) {
    match item
    case Entry(host, oid, bits, community, table, id, tail) =>
      && IsField(host) && IsField(oid) && IsField(community) && IsField(table)
      && bits < 0x8000_0000 && id < 0x8000_0000 && StartsPlain(tail) && Without(tail, '\n')
    case Remark(text) => Without(text, '\n')
    case Blank => true
  }

  /** A field and the tab after it. */
  function Tabbed(field: string, rest: string): string {
    field + ("\t" + rest)
  }

  /** The fields up to the id in front of the rest of their line. */
  function EntryText(e: Item, rest: string): string
    requires e.Entry?
  {
    Tabbed(e.host, Tabbed(e.oid, Tabbed(Dec(e.bits), Tabbed(e.community, Tabbed(e.table, Dec(e.id) + rest)))))
  }

  function LineText(item: Item): string {
    match item
    case Entry(_, _, _, _, _, _, tail) => EntryText(item, tail)
    case Remark(text) => "#" + text
    case Blank => ""
  }

  /** The line break after line `k`; the file may end without one. */
  function Break(document: seq<Item>, k: nat, end: string): string {
    if k == |document| - 1 then end else "\n"
  }

  /** The text from line `k` on. */
  function Text(document: seq<Item>, k: nat, end: string): string
    requires k <= |document|
    decreases |document| - k
  {
    if k == |document| then "" else LineText(document[k]) + (Break(document, k, end) + Text(document, k + 1, end))
  }

  function Said(item: Item, speed: u64): Option<Line> {
    match item
    case Entry(host, oid, bits, community, table, id, _) =>
      Some(Line(host, Row(oid, Some(table), id, bits, speed), community))
    case _ => None
  }

  /** The lines written from position `k` on. */
  function WrittenLines(document: seq<Item>, k: nat, speed: u64): seq<Line>
    requires k <= |document|
    decreases |document| - k
  {
    if k == |document| then [] else Listed(Said(document[k], speed)) + WrittenLines(document, k + 1, speed)
  }

  lemma FieldRoundTrip(field: string, rest: string)
    requires field != [] && Without(field, '\t')
    ensures Fields(Tabbed(field, rest)) == [field] + Fields(rest)
  {
    var s := Tabbed(field, rest);
    assert SkipTabs(s) == s by {
      assert s[0] == field[0];
    }
    assert s[|field|] == '\t';
    assert IndexOf(s, '\t', 0) == |field|;
    assert NextField(s) == Some((field, "\t" + rest));
    assert ("\t" + rest)[1..] == rest;
    assert NextField("\t" + rest) == NextField(rest);
  }

  lemma BeforeKeeps(a: string, b: string, c: char)
    requires Without(a, c)
    ensures Before(a + b, c) == a + Before(b, c)
  {
    var n := IndexOf(b, c, 0);
    forall i | 0 <= i < |a| + n
      ensures (a + b)[i] != c
    {
    }
    if n < |b| {
      assert (a + b)[|a| + n] == c;
    }
    assert IndexOf(a + b, c, 0) == |a| + n;
  }

  /** A comment can only cut the line after a field without the comment sign. */
  lemma BeforeKeepsField(field: string, rest: string)
    requires Without(field, '#')
    ensures Before(Tabbed(field, rest), '#') == Tabbed(field, Before(rest, '#'))
  {
    BeforeKeeps(field, "\t" + rest, '#');
    BeforeKeeps("\t", rest, '#');
  }

  lemma DigitsArePlain(n: nat)
    ensures Without(Dec(n), '\t') && Without(Dec(n), '#') && Without(Dec(n), '\n')
  {
  }

  lemma BeforeKeepsEntry(e: Item, rest: string)
    requires e.Entry? && ValidItem(e)
    ensures Before(EntryText(e, rest), '#') == EntryText(e, Before(rest, '#'))
  {
    var s6 := Dec(e.id) + rest;
    var s5 := Tabbed(e.table, s6);
    var s4 := Tabbed(e.community, s5);
    var s3 := Tabbed(Dec(e.bits), s4);
    var s2 := Tabbed(e.oid, s3);
    DigitsArePlain(e.id);
    DigitsArePlain(e.bits);
    BeforeKeeps(Dec(e.id), rest, '#');
    BeforeKeepsField(e.table, s6);
    BeforeKeepsField(e.community, s5);
    BeforeKeepsField(Dec(e.bits), s4);
    BeforeKeepsField(e.oid, s3);
    BeforeKeepsField(e.host, s2);
  }

  lemma ThreeInFront(a: string, b: string, c: string, others: seq<string>, f: seq<string>)
    requires f == [a] + ([b] + ([c] + others))
    ensures |f| >= 3 && f[0] == a && f[1] == b && f[2] == c && f[3..] == others
  {
  }

  lemma ThreeFields(a: string, b: string, c: string, rest: string)
    requires a != [] && b != [] && c != [] && Without(a, '\t') && Without(b, '\t') && Without(c, '\t')
    ensures var f := Fields(Tabbed(a, Tabbed(b, Tabbed(c, rest))));
            |f| >= 3 && f[0] == a && f[1] == b && f[2] == c && f[3..] == Fields(rest)
  {
    var last := Tabbed(c, rest);
    var middle := Tabbed(b, last);
    FieldRoundTrip(c, rest);
    FieldRoundTrip(b, last);
    FieldRoundTrip(a, middle);
    ThreeInFront(a, b, c, Fields(rest), Fields(Tabbed(a, middle)));
  }

  /** The last field goes on up to a tab or the end. */
  lemma LastField(field: string, rest: string)
    requires field != [] && Without(field, '\t')
    ensures Fields(field + rest) != [] && Fields(field + rest)[0] == field + Before(rest, '\t')
  {
    var s := field + rest;
    assert SkipTabs(s) == s by {
      assert s[0] == field[0];
    }
    BeforeKeeps(field, rest, '\t');
  }

  lemma LastFields(a: string, b: string, c: string, rest: string)
    requires a != [] && b != [] && c != [] && Without(a, '\t') && Without(b, '\t') && Without(c, '\t')
    ensures var f := Fields(Tabbed(a, Tabbed(b, c + rest)));
            |f| >= 3 && f[0] == a && f[1] == b && f[2] == c + Before(rest, '\t')
  {
    LastField(c, rest);
    FieldRoundTrip(b, c + rest);
    FieldRoundTrip(a, Tabbed(b, c + rest));
  }

  lemma EntryFields(e: Item, rest: string)
    requires e.Entry? && ValidItem(e)
    ensures AreFieldsOf(Fields(EntryText(e, rest)), e, Before(rest, '\t'))
  {
    DigitsArePlain(e.id);
    DigitsArePlain(e.bits);
    var second := Tabbed(e.community, Tabbed(e.table, Dec(e.id) + rest));
    LastFields(e.community, e.table, Dec(e.id), rest);
    ThreeFields(e.host, e.oid, Dec(e.bits), second);
    LaterFields(Fields(EntryText(e, rest)), Fields(second));
  }

  lemma LaterFields(f: seq<string>, g: seq<string>)
    requires |f| >= 3 && f[3..] == g && |g| >= 3
    ensures |f| >= 6 && f[3] == g[0] && f[4] == g[1] && f[5] == g[2]
  {
  }

  lemma AtoiRoundTrip(n: nat, rest: string)
    requires n < 0x8000_0000 && StartsPlain(rest)
    ensures Atoi(Dec(n) + rest) == n
  {
    IntRoundTrip("", n, rest);
    assert "" + (Dec(n) + rest) == Dec(n) + rest;
    SmallInt(n);
  }

  lemma LineOfFields(text: string, f: seq<string>, speed: u64)
    requires f == Fields(Before(text, '#')) && |f| >= 6
    ensures LineOf(text, speed)
         == Some(Line(f[0], Row(f[1], Some(f[4]), Wrap32(Atoi(f[5])), Wrap32(Atoi(f[2])), speed), f[3]))
  {
  }

  ghost predicate AreFieldsOf(f: seq<string>, e: Item, after: string)
    requires e.Entry?
  {
    && |f| >= 6
    && f[0] == e.host && f[1] == e.oid && f[2] == Dec(e.bits)
    && f[3] == e.community && f[4] == e.table && f[5] == Dec(e.id) + after
  }

  lemma FieldsSay(text: string, f: seq<string>, e: Item, after: string, speed: u64)
    requires f == Fields(Before(text, '#')) && e.Entry? && ValidItem(e) && AreFieldsOf(f, e, after) && StartsPlain(after)
    ensures LineOf(text, speed) == Said(e, speed)
  {
    assert Atoi(f[2]) == e.bits by {
      AtoiRoundTrip(e.bits, "");
      assert Dec(e.bits) + "" == Dec(e.bits);
    }
    assert Atoi(f[5]) == e.id by {
      AtoiRoundTrip(e.id, after);
    }
    assert Wrap32(e.bits) == e.bits && Wrap32(e.id) == e.id;
    LineOfFields(text, f, speed);
  }

  lemma EntryRoundTrip(e: Item, rest: string, speed: u64)
    requires e.Entry? && ValidItem(e) && StartsPlain(rest)
    ensures LineOf(EntryText(e, rest), speed) == Said(e, speed)
  {
    var shown := Before(rest, '#');
    BeforeKeepsEntry(e, rest);
    EntryFields(e, shown);
    FieldsSay(EntryText(e, rest), Fields(EntryText(e, shown)), e, Before(shown, '\t'), speed);
  }

  lemma RemarkSaysNothing(text: string, speed: u64)
    ensures LineOf("#" + text, speed) == None
  {
    assert ("#" + text)[0] == '#';
    assert Before("#" + text, '#') == "";
  }

  lemma BlankSaysNothing(speed: u64)
    ensures LineOf("\n", speed) == None
  {
    assert "\n" + [] == "\n";
    BeforeKeeps("\n", [], '#');
    assert Fields("\n") == ["\n"] by {
      assert NextField("\n") == Some(("\n", ""));
    }
  }

  lemma EntryWithNewline(e: Item, rest: string)
    requires e.Entry?
    ensures EntryText(e, rest) + "\n" == EntryText(e, rest + "\n")
  {
    var s6 := Dec(e.id) + rest;
    var s5 := Tabbed(e.table, s6);
    var s4 := Tabbed(e.community, s5);
    var s3 := Tabbed(Dec(e.bits), s4);
    var s2 := Tabbed(e.oid, s3);
    assert s6 + "\n" == Dec(e.id) + (rest + "\n");
    TabbedEnd(e.table, s6);
    TabbedEnd(e.community, s5);
    TabbedEnd(Dec(e.bits), s4);
    TabbedEnd(e.oid, s3);
    TabbedEnd(e.host, s2);
  }

  lemma TabbedEnd(field: string, rest: string)
    ensures Tabbed(field, rest) + "\n" == Tabbed(field, rest + "\n")
  {
  }

  lemma LineRoundTrip(item: Item, speed: u64)
    requires ValidItem(item)
    ensures LineOf(LineText(item) + "\n", speed) == Said(item, speed)
  {
    match item {
      case Entry(_, _, _, _, _, _, tail) =>
        EntryWithNewline(item, tail);
        EntryRoundTrip(item, tail + "\n", speed);
      case Remark(text) =>
        assert ("#" + text) + "\n" == "#" + (text + "\n");
        RemarkSaysNothing(text + "\n", speed);
      case Blank =>
        assert "" + "\n" == "\n";
        BlankSaysNothing(speed);
    }
  }

  lemma TabbedWithoutNewline(field: string, rest: string)
    requires Without(field, '\n') && Without(rest, '\n')
    ensures Without(Tabbed(field, rest), '\n')
  {
  }

  lemma EntryWithoutNewline(e: Item)
    requires e.Entry? && ValidItem(e)
    ensures Without(EntryText(e, e.tail), '\n')
  {
    var s6 := Dec(e.id) + e.tail;
    var s5 := Tabbed(e.table, s6);
    var s4 := Tabbed(e.community, s5);
    var s3 := Tabbed(Dec(e.bits), s4);
    var s2 := Tabbed(e.oid, s3);
    DigitsArePlain(e.id);
    DigitsArePlain(e.bits);
    TabbedWithoutNewline(e.table, s6);
    TabbedWithoutNewline(e.community, s5);
    TabbedWithoutNewline(Dec(e.bits), s4);
    TabbedWithoutNewline(e.oid, s3);
    TabbedWithoutNewline(e.host, s2);
  }

  lemma LineWithoutNewline(item: Item)
    requires ValidItem(item)
    ensures Without(LineText(item), '\n')
  {
    if item.Entry? {
      EntryWithoutNewline(item);
    }
  }

  lemma {:induction false} LineEndIs(line: string, rest: string, k: nat)
    requires Without(line, '\n') && k <= |line| < 255
    ensures LineEnd(line + ("\n" + rest), k) == |line| + 1
    decreases |line| - k
  {
    var s := line + ("\n" + rest);
    if k == |line| {
      assert s[k] == '\n';
    } else {
      assert s[k] == line[k];
      LineEndIs(line, rest, k + 1);
    }
  }

  // Lines of any length: the buffer of the reader cuts a long one into pieces, each read as a line.

  /** What is found in a line with the break after it. */
  function Pieces(line: string, nl: string, speed: u64): seq<Line>
    decreases |line|
  {
    if |line| >= 255 then Listed(LineOf(line[..255], speed)) + Pieces(line[255..], nl, speed)
    else if line + nl == "" then []
    else Listed(LineOf(line + nl, speed))
  }

  lemma {:induction false} LineEndAtBuffer(line: string, rest: string, k: nat)
    requires Without(line, '\n') && k <= 255 <= |line|
    ensures LineEnd(line + rest, k) == 255
    decreases 255 - k
  {
    if k == 255 {
    } else {
      assert (line + rest)[k] == line[k];
      LineEndAtBuffer(line, rest, k + 1);
    }
  }

  lemma {:induction false} LineEndAtEnd(line: string, k: nat)
    requires Without(line, '\n') && k <= |line| < 255
    ensures LineEnd(line, k) == |line|
    decreases |line| - k
  {
    if k == |line| {
    } else {
      LineEndAtEnd(line, k + 1);
    }
  }

  lemma ShortLine(line: string, nl: string, rest: string, speed: u64)
    requires Without(line, '\n') && |line| < 255 && (nl == "\n" || (nl == "" && rest == ""))
    ensures Lines(line + (nl + rest), speed) == Pieces(line, nl, speed) + Lines(rest, speed)
  {
    var s := line + (nl + rest);
    if nl == "\n" {
      LineEndIs(line, rest, 0);
      assert s[..|line| + 1] == line + nl && s[|line| + 1..] == rest;
    } else {
      assert s == line == line + nl;
      LineEndAtEnd(line, 0);
      if line != "" {
        assert s[..|line|] == s && s[|line|..] == "";
      }
    }
  }

  lemma LongLine(line: string, after: string, speed: u64)
    requires Without(line, '\n') && |line| >= 255
    ensures Lines(line + after, speed) == Listed(LineOf(line[..255], speed)) + Lines(line[255..] + after, speed)
  {
    var s := line + after;
    LineEndAtBuffer(line, after, 0);
    assert s[..255] == line[..255] && s[255..] == line[255..] + after;
  }

  lemma {:induction false} FirstLine(line: string, nl: string, rest: string, speed: u64)
    requires Without(line, '\n') && (nl == "\n" || (nl == "" && rest == ""))
    ensures Lines(line + (nl + rest), speed) == Pieces(line, nl, speed) + Lines(rest, speed)
    decreases |line|
  {
    if |line| < 255 {
      ShortLine(line, nl, rest, speed);
    } else {
      LongLine(line, nl + rest, speed);
      FirstLine(line[255..], nl, rest, speed);
      var first, pieces, others := Listed(LineOf(line[..255], speed)), Pieces(line[255..], nl, speed), Lines(rest, speed);
      assert first + (pieces + others) == (first + pieces) + others;
    }
  }

  /** What is found in the lines from `k` on. */
  function Found(document: seq<Item>, k: nat, end: string, speed: u64): seq<Line>
    requires k <= |document|
    decreases |document| - k
  {
    if k == |document| then []
    else Pieces(LineText(document[k]), Break(document, k, end), speed) + Found(document, k + 1, end, speed)
  }

  /** The lines found in a file are the pieces of those written. */
  lemma {:induction false} LinesRoundTrip(document: seq<Item>, k: nat, end: string, speed: u64)
    requires k <= |document| && end in {"", "\n"} && forall i :: 0 <= i < |document| ==> ValidItem(document[i])
    ensures Lines(Text(document, k, end), speed) == Found(document, k, end, speed)
    decreases |document| - k
  {
    if k == |document| {
    } else {
      LineWithoutNewline(document[k]);
      FirstLine(LineText(document[k]), Break(document, k, end), Text(document, k + 1, end), speed);
      LinesRoundTrip(document, k + 1, end, speed);
    }
  }

  /** A line that fits the buffer is found as it was written. */
  lemma ShortLineIsSaid(item: Item, nl: string, speed: u64)
    requires ValidItem(item) && |LineText(item)| < 255 && nl in {"", "\n"}
    ensures Pieces(LineText(item), nl, speed) == Listed(Said(item, speed))
  {
    if nl == "\n" {
      LineRoundTrip(item, speed);
    } else {
      assert LineText(item) + nl == LineText(item);
      match item {
        case Entry(_, _, _, _, _, _, tail) => EntryRoundTrip(item, tail, speed);
        case Remark(text) => RemarkSaysNothing(text, speed);
        case Blank =>
      }
    }
  }

  /** A longer one need not be: a comment that runs on past the buffer has its tail read as a target. */
  lemma LongCommentIsRead(padding: string, e: Item, speed: u64)
    requires |padding| == 254 && Without(padding, '\n') && e.Entry? && ValidItem(e) && |LineText(e)| < 255
    ensures var comment := Remark(padding + LineText(e));
            && ValidItem(comment) && Said(comment, speed) == None
            && Pieces(LineText(comment), "\n", speed) == [Said(e, speed).value]
  {
    var line := "#" + (padding + LineText(e));
    LineWithoutNewline(e);
    assert line[..255] == "#" + padding && line[255..] == LineText(e);
    RemarkSaysNothing(padding, speed);
    ShortLineIsSaid(e, "\n", speed);
  }

  lemma {:induction false} FoundIsWritten(document: seq<Item>, k: nat, end: string, speed: u64)
    requires k <= |document| && end in {"", "\n"}
    requires forall i :: 0 <= i < |document| ==> ValidItem(document[i]) && |LineText(document[i])| < 255
    ensures Found(document, k, end, speed) == WrittenLines(document, k, speed)
    decreases |document| - k
  {
    if k == |document| {
    } else {
      ShortLineIsSaid(document[k], Break(document, k, end), speed);
      FoundIsWritten(document, k + 1, end, speed);
    }
  }

  /** Reading a file whose lines fit the buffer gives back what was written, grouped by host. */
  lemma ReadsWhatWasWritten(document: seq<Item>, end: string, speed: u64)
    requires end in {"", "\n"}
    requires forall i :: 0 <= i < |document| ==> ValidItem(document[i]) && |LineText(document[i])| < 255
    ensures var lines := Lines(Text(document, 0, end), speed);
            lines == WrittenLines(document, 0, speed) && IsGathering(Gathered(lines, |lines|), lines, |lines|)
  {
    LinesRoundTrip(document, 0, end, speed);
    FoundIsWritten(document, 0, end, speed);
    var lines := Lines(Text(document, 0, end), speed);
    GatheredIsGathering(lines, |lines|);
  }

  /** And so it is parsed, unless one of its words is "host". */
  lemma ParsedAsWritten(document: seq<Item>, end: string, env: NewStyle.Env, speed: u64)
    requires end in {"", "\n"}
    requires forall i :: 0 <= i < |document| ==> ValidItem(document[i]) && |LineText(document[i])| < 255
    requires "host" !in Tokens(Text(document, 0, end))
    ensures var lines := WrittenLines(document, 0, speed);
            && IsGathering(Parsed(Some(Text(document, 0, end)), env, speed), lines, |lines|)
            && CountTargets(Parsed(Some(Text(document, 0, end)), env, speed)) == |lines|
  {
    ReadsWhatWasWritten(document, end, speed);
    OldStyleWithoutHost(Text(document, 0, end), env, speed);
    var lines := WrittenLines(document, 0, speed);
    EveryLineCounts(lines, |lines|);
  }
}
