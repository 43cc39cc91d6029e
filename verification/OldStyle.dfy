/** The tab-separated reader of target files (read_old_style_targets of src/rtgtargets.c), and the
    choice between the two readers (rtgtargets_parse). */
module OldStyle {
  import opened Words
  import opened Decimal
  import opened Scan
  import opened Targets
  import NewStyle

  /** fgets with a buffer of 256: up to and including a newline, at most 255 characters. */
  function LineEnd(s: string, k: nat): (n: nat)
    requires k <= |s| && k <= 255
    ensures k <= n <= |s| && n <= 255
    ensures k < |s| && k < 255 ==> k < n
    decreases |s| - k
  {
    if k == 255 || k == |s| then k else if s[k] == '\n' then k + 1 else LineEnd(s, k + 1)
  }

  function SkipTabs(s: string): (t: string)
    ensures |t| <= |s| && (t == [] || t[0] != '\t')
  {
    if s != [] && s[0] == '\t' then SkipTabs(s[1..]) else s
  }

  /** strtok: the next field, and where to go on. */
  function NextField(s: string): (r: Option<(string, string)>)
    ensures r.Some? ==> |r.value.1| < |s|
  {
    var t := SkipTabs(s);
    if t == [] then None
    else
      var n := IndexOf(t, '\t', 0);
      Some((t[..n], t[n..]))
  }

  function Fields(s: string): seq<string>
    decreases |s|
  {
    match NextField(s)
    case None => []
    case Some((field, rest)) => [field] + Fields(rest)
  }

  function Atoi(s: string): int {
    match ScanInt(s).0
    case None => 0
    case Some(n) => ToInt(n)
  }

  /** What a valid line says. */
  /** A field is its number up to the next other character, negative with a minus, and zero without a digit. */
  lemma FieldNumbers(space: string, n: nat, rest: string)
    requires AllSpace(space) && n < 0x8000_0000 && StartsPlain(rest)
    ensures Atoi(space + (Dec(n) + rest)) == n && Atoi(space + ("-" + (Dec(n) + rest))) == 0 - n
    ensures !IsSpace(FirstOr(rest, '?')) && FirstOr(rest, '?') !in {'-', '+'} ==> Atoi(space + ("" + rest)) == 0
  {
    IntRoundTrip(space, n, rest);
    SignedRoundTrip(space, n, rest);
    SmallInt(n);
    IntKeepsLowBits(0 - n);
    if !IsSpace(FirstOr(rest, '?')) && FirstOr(rest, '?') !in {'-', '+'} {
      NoNumber(space, "", rest);
    }
  }

  datatype Line = Line(host: string, row: Row, community: string)

  /** A line is valid if six fields come before any comment; `speed` is the constant the original
      computes for all old-style rows, by a conversion that C leaves undefined. */
  function LineOf(text: string, speed: u64): Option<Line> {
    var f := Fields(Before(text, '#'));
    if |f| >= 6
    then Some(Line(f[0], Row(f[1], Some(f[4]), Wrap32(Atoi(f[5])), Wrap32(Atoi(f[2])), speed), f[3]))
    else None
  }

  /** The valid lines of a file, in order. */
  function Lines(s: string, speed: u64): seq<Line>
    decreases |s|
  {
    if s == [] then []
    else
      var n := LineEnd(s, 0);
      Listed(LineOf(s[..n], speed)) + Lines(s[n..], speed)
  }

  // Grouping lines by host.

  /** The first host of this name at or after `k`; the length if there is none. */
  function FindName(hosts: seq<Host>, name: string, k: nat): (i: nat)
    requires k <= |hosts|
    ensures k <= i <= |hosts| && (i < |hosts| ==> hosts[i].name == name)
    ensures forall j :: k <= j < i ==> hosts[j].name != name
    decreases |hosts| - k
  {
    if k == |hosts| || hosts[k].name == name then k else FindName(hosts, name, k + 1)
  }

  function WithRow(host: Host, row: Row): Host {
    host.(rows := host.rows + [Target(row, NO_CACHE)])
  }

  function FirstHost(line: Line): Host {
    Host(line.host, Some(line.community), 2, [])
  }

  /** The hosts with one for the line: known, or opened as the last. */
  function WithHostOf(hosts: seq<Host>, line: Line): (r: seq<Host>)
    ensures FindName(hosts, line.host, 0) < |r|
  {
    if FindName(hosts, line.host, 0) < |hosts| then hosts else hosts + [FirstHost(line)]
  }

  /** A line adds its row to the first host of its name. */
  function WithLine(hosts: seq<Host>, line: Line): seq<Host> {
    var k, ready := FindName(hosts, line.host, 0), WithHostOf(hosts, line);
    ready[k := WithRow(ready[k], line.row)]
  }

  function Gathered(lines: seq<Line>, n: nat): seq<Host>
    requires n <= |lines|
  {
    if n == 0 then [] else WithLine(Gathered(lines, n - 1), lines[n - 1])
  }

  // What the gathering amounts to, said without running it.

  function FirstNames(lines: seq<Line>, n: nat): seq<string>
    requires n <= |lines|
  {
    if n == 0 then []
    else
      var before, name := FirstNames(lines, n - 1), lines[n - 1].host;
      if name in before then before else before + [name]
  }

  /** The community on the first line that names the host. */
  function FirstCommunity(lines: seq<Line>, name: string, n: nat): Option<string>
    requires n <= |lines|
  {
    if n == 0 then None
    else
      match FirstCommunity(lines, name, n - 1)
      case Some(c) => Some(c)
      case None => if lines[n - 1].host == name then Some(lines[n - 1].community) else None
  }

  /** The rows of exactly the lines that name the host, in file order. */
  function RowsNaming(lines: seq<Line>, name: string, n: nat): seq<Target>
    requires n <= |lines|
  {
    if n == 0 then []
    else
      RowsNaming(lines, name, n - 1)
      + if lines[n - 1].host == name then [Target(lines[n - 1].row, NO_CACHE)] else []
  }

  function HostOf(lines: seq<Line>, name: string, n: nat): Host
    requires n <= |lines|
  {
    Host(name, FirstCommunity(lines, name, n), 2, RowsNaming(lines, name, n))
  }

  ghost predicate DistinctNames(hosts: seq<Host>) {
    forall i, j :: 0 <= i < j < |hosts| ==> hosts[i].name != hosts[j].name
  }

  ghost predicate IsGathering(hosts: seq<Host>, lines: seq<Line>, n: nat)
    requires n <= |lines|
  {
    var names := FirstNames(lines, n);
    DistinctNames(hosts) && |hosts| == |names| && forall i :: 0 <= i < |names| ==> hosts[i] == HostOf(lines, names[i], n)
  }

  lemma {:induction false} UnnamedSoFar(lines: seq<Line>, name: string, n: nat)
    requires n <= |lines| && name !in FirstNames(lines, n)
    ensures FirstCommunity(lines, name, n) == None && RowsNaming(lines, name, n) == []
  {
    if n == 0 {
    } else {
      UnnamedSoFar(lines, name, n - 1);
    }
  }

  lemma {:induction false} NamedHaveCommunity(lines: seq<Line>, name: string, n: nat)
    requires n <= |lines| && name in FirstNames(lines, n)
    ensures FirstCommunity(lines, name, n).Some?
  {
    if name !in FirstNames(lines, n - 1) {
    } else {
      NamedHaveCommunity(lines, name, n - 1);
    }
  }

  lemma GatherKnown(hosts: seq<Host>, lines: seq<Line>, n: nat, k: nat)
    requires n < |lines| && IsGathering(hosts, lines, n) && k < |hosts| && hosts[k].name == lines[n].host
    ensures IsGathering(hosts[k := WithRow(hosts[k], lines[n].row)], lines, n + 1)
  {
    var names := FirstNames(lines, n);
    assert hosts[k] == HostOf(lines, names[k], n);
    assert names[k] == lines[n].host;
    assert FirstNames(lines, n + 1) == names;
    NamedHaveCommunity(lines, names[k], n);
    forall i | 0 <= i < |names| && i != k
      ensures HostOf(lines, names[i], n + 1) == HostOf(lines, names[i], n)
    {
      assert hosts[i] == HostOf(lines, names[i], n);
    }
  }

  lemma GatherNew(hosts: seq<Host>, lines: seq<Line>, n: nat)
    requires n < |lines| && IsGathering(hosts, lines, n)
    requires forall i :: 0 <= i < |hosts| ==> hosts[i].name != lines[n].host
    ensures IsGathering(hosts + [WithRow(FirstHost(lines[n]), lines[n].row)], lines, n + 1)
  {
    var names := FirstNames(lines, n);
    forall i | 0 <= i < |names|
      ensures names[i] != lines[n].host && HostOf(lines, names[i], n + 1) == HostOf(lines, names[i], n)
    {
      assert hosts[i] == HostOf(lines, names[i], n);
    }
    UnnamedSoFar(lines, lines[n].host, n);
    assert FirstNames(lines, n + 1) == names + [lines[n].host];
  }

  lemma NewLast(hosts: seq<Host>, line: Line)
    requires FindName(hosts, line.host, 0) == |hosts|
    ensures WithLine(hosts, line) == hosts + [WithRow(FirstHost(line), line.row)]
  {
    var r := WithLine(hosts, line);
    assert |r| == |hosts| + 1 && r[..|hosts|] == hosts && r[|hosts|] == WithRow(FirstHost(line), line.row);
    assert r == r[..|hosts|] + [r[|hosts|]];
  }

  /** Hosts come out with pairwise distinct names in order of first mention, each with the community of
      its first line, version 2, and the rows of exactly the lines naming it, in file order. */
  lemma {:induction false} GatheredIsGathering(lines: seq<Line>, n: nat)
    requires n <= |lines|
    ensures IsGathering(Gathered(lines, n), lines, n)
  {
    if n == 0 {
    } else {
      GatheredIsGathering(lines, n - 1);
      var before := Gathered(lines, n - 1);
      var k := FindName(before, lines[n - 1].host, 0);
      if k < |before| {
        GatherKnown(before, lines, n - 1, k);
      } else {
        GatherNew(before, lines, n - 1);
        NewLast(before, lines[n - 1]);
      }
    }
  }

  lemma {:induction false} CountPrefix(a: seq<Host>, b: seq<Host>)
    requires |a| == |b| && forall i :: 0 <= i < |a| ==> |a[i].rows| == |b[i].rows|
    ensures CountTargets(a) == CountTargets(b)
  {
    if a == [] {
    } else {
      CountPrefix(a[..|a| - 1], b[..|b| - 1]);
    }
  }

  lemma {:induction false} OneMoreRow(hosts: seq<Host>, k: nat, row: Row)
    requires k < |hosts|
    ensures CountTargets(hosts[k := WithRow(hosts[k], row)]) == CountTargets(hosts) + 1
  {
    var more, last := hosts[k := WithRow(hosts[k], row)], |hosts| - 1;
    if k == last {
      assert more[..last] == hosts[..last];
    } else {
      assert more[..last] == hosts[..last][k := WithRow(hosts[k], row)];
      OneMoreRow(hosts[..last], k, row);
    }
  }

  /** The targets counted are the valid lines. */
  lemma {:induction false} EveryLineCounts(lines: seq<Line>, n: nat)
    requires n <= |lines|
    ensures CountTargets(Gathered(lines, n)) == n
  {
    if n == 0 {
    } else {
      EveryLineCounts(lines, n - 1);
      var before, line := Gathered(lines, n - 1), lines[n - 1];
      var k := FindName(before, line.host, 0);
      if k < |before| {
        OneMoreRow(before, k, line.row);
      } else {
        var one := WithRow(FirstHost(line), line.row);
        NewLast(before, line);
        assert (before + [one])[..|before|] == before;
      }
    }
  }

  lemma {:induction false} PrefixGathered(lines: seq<Line>, more: seq<Line>, n: nat)
    requires n <= |lines|
    ensures Gathered(lines + more, n) == Gathered(lines, n)
  {
    if n == 0 {
    } else {
      PrefixGathered(lines, more, n - 1);
    }
  }

  lemma LineGathered(lines: seq<Line>, line: Line)
    ensures DistinctNames(Gathered(lines, |lines|))
    ensures Gathered(lines + [line], |lines + [line]|) == WithLine(Gathered(lines, |lines|), line)
  {
    GatheredIsGathering(lines, |lines|);
    PrefixGathered(lines, [line], |lines|);
  }

  // The reader.

  /** The fields of a line, as repeated calls of strtok find them. */
  method Split(line: string) returns (tokens: seq<string>)
    ensures tokens == Fields(line)
  {
    tokens := [];
    var rest := line;
    while true
      invariant tokens + Fields(rest) == Fields(line)
      decreases |rest|
    {
      match NextField(rest) {
        case None =>
          return;
        case Some((field, s)) =>
          assert tokens + ([field] + Fields(s)) == (tokens + [field]) + Fields(s);
          tokens, rest := tokens + [field], s;
      }
    }
  }

  method ParseLine(text: string, speed: u64) returns (line: Option<Line>)
    ensures line == LineOf(text, speed)
    ensures var f := Fields(Before(text, '#'));
            && (line.Some? <==> |f| >= 6)
            && (line.Some? ==>
                  line.value == Line(f[0], Row(f[1], Some(f[4]), Atoi(f[5]) % TWO32, Atoi(f[2]) % TWO32, speed), f[3]))
  {
    var tokens := Split(Before(text, '#'));
    line := None;
    if |tokens| >= 6 {
      var bits, id := Atoi(tokens[2]), Atoi(tokens[5]);
      line := Some(Line(tokens[0], Row(tokens[1], Some(tokens[4]), Wrap32(id), Wrap32(bits), speed), tokens[3]));
    }
  }

  ghost function RowLists(hosts: seq<QueryHost>): (lists: seq<seq<QueryRow>>)
    reads hosts
    ensures |lists| == |hosts| && forall i :: 0 <= i < |hosts| ==> lists[i] == hosts[i].rows
  {
    if hosts == [] then [] else RowLists(hosts[..|hosts| - 1]) + [hosts[|hosts| - 1].rows]
  }

  ghost predicate Apart(lists: seq<seq<QueryRow>>) {
    && (forall i, r, s :: 0 <= i < |lists| && 0 <= r < s < |lists[i]| ==> lists[i][r] != lists[i][s])
    && (forall i, j, r, s :: 0 <= i < j < |lists| && 0 <= r < |lists[i]| && 0 <= s < |lists[j]| ==> lists[i][r] != lists[j][s])
  }

  lemma SeparateLists(hosts: seq<QueryHost>)
    requires Separate(hosts)
    ensures Apart(RowLists(hosts))
  {
  }

  /** A row no host has yet may join any host. */
  lemma StillSeparate(hosts: seq<QueryHost>, before: seq<seq<QueryRow>>, k: nat, row: QueryRow)
    requires |before| == |hosts| && k < |hosts| && Apart(before)
    requires forall i, j :: 0 <= i < j < |hosts| ==> hosts[i] != hosts[j]
    requires forall i :: 0 <= i < |before| ==> row !in before[i]
    requires forall i :: 0 <= i < |hosts| ==> hosts[i].rows == before[i] + if i == k then [row] else []
    ensures Separate(hosts)
  {
  }

  /** A new row for a host of the set. */
  method AddRow(targets: RtgTargets, host: QueryHost, row: QueryRow, ghost k: nat, ghost tree: seq<Host>,
                ghost owned: set<object>)
    requires Built(targets, tree, owned) && targets !in owned && k < |tree| && targets.hosts[k] == host
    requires row !in owned && row.State() == Target(row.row, NO_CACHE)
    modifies host`rows, targets`ntargets
    ensures Built(targets, tree[k := WithRow(tree[k], row.row)], owned + {row})
    ensures targets.hosts == old(targets.hosts)
  {
    OneMoreRow(tree, k, row.row);
    ghost var before := RowLists(targets.hosts);
    SeparateLists(targets.hosts);
    host.PushRow(row);
    targets.ntargets := targets.ntargets + 1;
    StillSeparate(targets.hosts, before, k, row);
  }

  /** The current host if the name still fits, else the first of that name, else null. Hosts have
      distinct names, so the shortcut finds what a full search would. */
  method KnownHost(targets: RtgTargets, current: QueryHost?, name: string, ghost c: nat, ghost tree: seq<Host>)
    returns (host: QueryHost?, ghost k: nat)
    requires |targets.hosts| == |tree| && DistinctNames(tree)
    requires forall i :: 0 <= i < |tree| ==> targets.hosts[i].host == tree[i].name
    requires current != null ==> c < |tree| && targets.hosts[c] == current
    ensures k == FindName(tree, name, 0)
    ensures if k < |tree| then host == targets.hosts[k] else host == null
  {
    host, k := current, c;
    if host != null && host.host != name {
      host := null;
    }
    if host == null {
      host, k := targets.FindHost(name);
    }
  }

  method OpenHost(targets: RtgTargets, line: Line, ghost tree: seq<Host>, ghost owned: set<object>)
    returns (host: QueryHost, ghost owned': set<object>)
    requires Built(targets, tree, owned) && targets !in owned
    modifies targets`hosts, targets`ntargets
    ensures owned <= owned' && fresh(owned' - owned) && Built(targets, tree + [FirstHost(line)], owned')
    ensures targets.hosts == old(targets.hosts) + [host]
  {
    host := new QueryHost(line.host);
    host.community := Some(line.community);
    host.snmpver := 2;
    owned' := targets.AddHost(host, tree, FirstHost(line), owned);
  }

  /** The host of a line, known or new. */
  method HostFor(targets: RtgTargets, current: QueryHost?, line: Line, ghost c: nat, ghost tree: seq<Host>,
                 ghost owned: set<object>)
    returns (host: QueryHost, ghost k: nat, ghost tree': seq<Host>, ghost owned': set<object>)
    requires Built(targets, tree, owned) && targets !in owned && DistinctNames(tree)
    requires current != null ==> c < |tree| && targets.hosts[c] == current
    modifies targets`hosts, targets`ntargets
    ensures owned <= owned' && fresh(owned' - owned) && Built(targets, tree', owned')
    ensures k == FindName(tree, line.host, 0) < |tree'| && targets.hosts[k] == host
    ensures tree' == WithHostOf(tree, line)
  {
    var known;
    known, k := KnownHost(targets, current, line.host, c, tree);
    tree', owned' := tree, owned;
    if known == null {
      host, owned' := OpenHost(targets, line, tree, owned);
      tree' := tree + [FirstHost(line)];
    } else {
      host := known;
    }
  }

  /** One valid line. */
  method AddLine(targets: RtgTargets, current: QueryHost?, line: Line, ghost c: nat, ghost tree: seq<Host>,
                 ghost owned: set<object>)
    returns (host: QueryHost, ghost k: nat, ghost tree': seq<Host>, ghost owned': set<object>)
    requires Built(targets, tree, owned) && targets !in owned && DistinctNames(tree)
    requires current != null ==> c < |tree| && targets.hosts[c] == current
    modifies targets`hosts, targets`ntargets, owned
    ensures owned <= owned' && fresh(owned' - owned) && Built(targets, tree', owned')
    ensures tree' == WithLine(tree, line) && k < |tree'| && targets.hosts[k] == host
  {
    host, k, tree', owned' := HostFor(targets, current, line, c, tree, owned);
    var row := new QueryRow(line.row);
    AddRow(targets, host, row, k, tree', owned');
    tree', owned' := tree'[k := WithRow(tree'[k], line.row)], owned' + {row};
  }

  /** The lines seen so far and those to come are those of the file. */
  lemma NextLine(lines: seq<Line>, rest: string, speed: u64)
    requires rest != []
    ensures var n := LineEnd(rest, 0);
            lines + Lines(rest, speed) == (lines + Listed(LineOf(rest[..n], speed))) + Lines(rest[n..], speed)
  {
  }

  /** The loop body: a valid line goes to its host, any other is passed over. */
  method TakeLine(targets: RtgTargets, line: Option<Line>, current: QueryHost?,
                  ghost c: nat, ghost lines: seq<Line>, ghost tree: seq<Host>, ghost owned: set<object>)
    returns (host: QueryHost?, ghost k: nat, ghost lines': seq<Line>, ghost tree': seq<Host>, ghost owned': set<object>)
    requires Built(targets, tree, owned) && targets !in owned && tree == Gathered(lines, |lines|)
    requires current != null ==> c < |tree| && targets.hosts[c] == current
    modifies targets`hosts, targets`ntargets, owned
    ensures owned <= owned' && fresh(owned' - owned) && Built(targets, tree', owned')
    ensures lines' == lines + Listed(line) && tree' == Gathered(lines', |lines'|)
    ensures host != null ==> k < |tree'| && targets.hosts[k] == host
  {
    host, k, lines', tree', owned' := current, c, lines, tree, owned;
    match line {
      case None =>
      case Some(l) =>
        LineGathered(lines, l);
        lines' := lines + [l];
        host, k, tree', owned' := AddLine(targets, current, l, c, tree, owned);
    }
  }

  /** The loop over the lines of the file. */
  method ReadLines(text: string, targets: RtgTargets, speed: u64) returns (ghost tree: seq<Host>,
                   ghost owned: set<object>)
    requires Built(targets, [], {})
    modifies targets`hosts, targets`ntargets
    ensures fresh(owned) && Built(targets, tree, owned)
    ensures var lines := Lines(text, speed); tree == Gathered(lines, |lines|)
  {
    tree, owned := [], {};
    var rest := text;
    var currentHost: QueryHost? := null;
    ghost var c: nat, lines: seq<Line> := 0, [];
    while rest != []
      invariant fresh(owned) && targets !in owned && Built(targets, tree, owned)
      invariant currentHost != null ==> c < |tree| && targets.hosts[c] == currentHost
      invariant tree == Gathered(lines, |lines|) && lines + Lines(rest, speed) == Lines(text, speed)
      decreases |rest|
    {
      var n := LineEnd(rest, 0);
      NextLine(lines, rest, speed);
      var line := ParseLine(rest[..n], speed);
      currentHost, c, lines, tree, owned := TakeLine(targets, line, currentHost, c, lines, tree, owned);
      rest := rest[n..];
    }
    assert lines + [] == lines;
  }

  method ReadOldStyleTargets(file: Option<string>, speed: u64)
    returns (targets: RtgTargets, ghost tree: seq<Host>, ghost owned: set<object>)
    ensures fresh(targets) && fresh(owned) && targets.nextHost == 0 && Built(targets, tree, owned)
    ensures tree == match file
                    case None => []
                    case Some(text) => var lines := Lines(text, speed); Gathered(lines, |lines|)
  {
    targets := new RtgTargets();
    tree, owned := [], {};
    match file {
      case None =>
      case Some(text) => tree, owned := ReadLines(text, targets, speed);
    }
  }

  /** A file in which the new-style reader finds no host is read in the old style. */
  function Parsed(file: Option<string>, env: NewStyle.Env, speed: u64): seq<Host> {
    match file
    case None => []
    case Some(text) =>
      var hosts := NewStyle.HostsFrom(text, [], env);
      if hosts != [] then hosts
      else
        var lines := Lines(text, speed);
        Gathered(lines, |lines|)
  }

  /** Exactly a file without the token "host" is read in the old style. */
  lemma OldStyleWithoutHost(text: string, env: NewStyle.Env, speed: u64)
    ensures var lines := Lines(text, speed);
            Parsed(Some(text), env, speed)
            == if "host" in Tokens(text) then NewStyle.HostsFrom(text, [], env) else Gathered(lines, |lines|)
  {
    NewStyle.HostsAreNamed(text, [], env);
  }

  method Parse(file: Option<string>, env: NewStyle.Env, speed: u64)
    returns (targets: RtgTargets, ghost tree: seq<Host>, ghost owned: set<object>)
    ensures fresh(targets) && fresh(owned) && targets.nextHost == 0 && Built(targets, tree, owned)
    ensures tree == Parsed(file, env, speed)
  {
    targets, tree, owned := NewStyle.ReadNewStyleTargets(file, env);
    if |targets.hosts| == 0 {
      targets, tree, owned := ReadOldStyleTargets(file, speed);
    }
  }
}
