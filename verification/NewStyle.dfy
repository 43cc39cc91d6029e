/** The nested keyword reader of target files (read_new_style_targets, read_host and read_row of
    src/rtgtargets.c). */
module NewStyle {
  import opened Words
  import opened Scan
  import opened Targets

  type Interval = n: nat | 0 < n < 0x1_0000_0000 witness 1

  /** What a reader depends on besides the file: the configured interval, and what uninitialised
      variables happen to hold when a conversion finds nothing: `junkWord` at the end of the file,
      `junkLimit` for a speed without a number, with so much of the file left. */
  datatype Env = Env(interval: Interval, junkWord: string, junkLimit: nat -> u64)

  function NewRow(oid: string): Row {
    Row(oid, None, 0, 0, 0)
  }

  /** A gauge's limit is its speed; a counter's is spread over the interval. */
  function SpeedOf(bits: u32, limit: u64, interval: Interval): u64 {
    if bits == 0 then limit else limit / interval
  }

  /** " %128s" and strclean. */
  function Value(s: string, env: Env): (r: (string, string))
    ensures |r.1| <= |s|
  {
    match Word(s, 128)
    case None => (Before(env.junkWord, ';'), "")
    case Some((word, rest)) => (Before(word, ';'), rest)
  }

  function Unsigned(previous: u32, n: Option<int>): u32 {
    match n
    case None => previous
    case Some(v) => Wrap32(ToUnsigned(v))
  }

  function Limit(n: Option<int>, rest: string, env: Env): u64 {
    match n
    case None => env.junkLimit(|rest|)
    case Some(v) => ToUnsigned(v)
  }

  /** What one token does to a row, with what it consumes; unknown ones do nothing. */
  function RowStep(token: string, s: string, row: Row, env: Env): (r: (Row, string))
    ensures |r.1| <= |s|
  {
    if token == "bits" then
      var (n, rest) := ScanInt(s); (row.(bits := Unsigned(row.bits, n)), rest)
    else if token == "table" then
      var (name, rest) := Value(s, env); (row.(table := Some(name)), rest)
    else if token == "id" then
      var (n, rest) := ScanInt(s); (row.(id := Unsigned(row.id, n)), rest)
    else if token == "speed" then
      var (n, rest) := ScanInt(s); (row.(speed := SpeedOf(row.bits, Limit(n, rest, env), env.interval)), rest)
    else (row, s)
  }

  /** The row that the text completes, up to the closing brace, and the text after it. */
  function RowFrom(s: string, row: Row, env: Env): (r: (Row, string))
    ensures |r.1| <= |s|
    decreases |s|
  {
    match NextToken(s)
    case None => (row, "")
    case Some((token, rest)) =>
      if token == "}" then (row, rest)
      else
        var (row', rest') := RowStep(token, rest, row, env);
        RowFrom(rest', row', env)
  }

  /** Same OID, or same table and id. */
  predicate Clash(a: Row, b: Row) {
    a.oid == b.oid || (a.table == b.table && a.id == b.id)
  }

  predicate IsDuplicate(rows: seq<Target>, row: Row) {
    exists i :: 0 <= i < |rows| && Clash(rows[i].row, row)
  }

  /** A row joins its host unless it duplicates one that has. */
  function Joined(host: Host, row: Row): Host {
    if IsDuplicate(host.rows, row) then host else host.(rows := host.rows + [Target(row, NO_CACHE)])
  }

  function HostStep(token: string, s: string, host: Host, env: Env): (r: (Host, string))
    ensures |r.1| <= |s|
  {
    if token == "community" then
      var (name, rest) := Value(s, env); (host.(community := Some(name)), rest)
    else if token == "snmpver" then
      var (n, rest) := ScanInt(s); (host.(snmpver := if n.Some? then ToInt(n.value) else host.snmpver), rest)
    else if token == "target" then
      var (oid, rest) := Value(s, env);
      var (row, rest') := RowFrom(rest, NewRow(oid), env);
      (Joined(host, row), rest')
    else (host, s)
  }

  function HostFrom(s: string, host: Host, env: Env): (r: (Host, string))
    ensures |r.1| <= |s|
    decreases |s|
  {
    match NextToken(s)
    case None => (host, "")
    case Some((token, rest)) =>
      if token == "}" then (host, rest)
      else
        var (host', rest') := HostStep(token, rest, host, env);
        HostFrom(rest', host', env)
  }

  function NewHost(name: string): Host {
    Host(name, None, 0, [])
  }

  /** The name after "host"; at the end of the file the buffer still holds "host". */
  function HostName(s: string): (r: (string, string))
    ensures |r.1| <= |s|
  {
    match Word(s, 512)
    case None => ("host", "")
    case Some((word, rest)) => (word, rest)
  }

  function HostsFrom(s: string, hosts: seq<Host>, env: Env): seq<Host>
    decreases |s|
  {
    match NextToken(s)
    case None => hosts
    case Some((token, rest)) =>
      if token == "host" then
        var (name, rest') := HostName(rest);
        var (host, rest'') := HostFrom(rest', NewHost(name), env);
        HostsFrom(rest'', hosts + [host], env)
      else HostsFrom(rest, hosts, env)
  }

  // Which files have hosts.

  lemma {:induction false} HostsGrow(s: string, hosts: seq<Host>, env: Env)
    ensures |HostsFrom(s, hosts, env)| >= |hosts|
    decreases |s|
  {
    match NextToken(s) {
      case None =>
      case Some((token, rest)) =>
        if token == "host" {
          var (name, rest') := HostName(rest);
          var (host, rest'') := HostFrom(rest', NewHost(name), env);
          HostsGrow(rest'', hosts + [host], env);
        } else {
          HostsGrow(rest, hosts, env);
        }
    }
  }

  /** A text has hosts exactly if one of its tokens is "host", wherever it stands. */
  lemma {:induction false} HostsAreNamed(s: string, hosts: seq<Host>, env: Env)
    ensures if "host" in Tokens(s) then |HostsFrom(s, hosts, env)| > |hosts| else HostsFrom(s, hosts, env) == hosts
    decreases |s|
  {
    match NextToken(s) {
      case None =>
      case Some((token, rest)) =>
        if token == "host" {
          var (name, rest') := HostName(rest);
          var (host, rest'') := HostFrom(rest', NewHost(name), env);
          HostsGrow(rest'', hosts + [host], env);
        } else {
          HostsAreNamed(rest, hosts, env);
        }
    }
  }

  // What holds of every file.

  /** A target joins its host, as the last, unless it shares its OID with a target the host has, or its
      table and its id; then it is dropped. */
  lemma TargetJoins(s: string, host: Host, env: Env)
    ensures var (oid, rest) := Value(s, env);
            var (row, rest') := RowFrom(rest, NewRow(oid), env);
            var (host', rest'') := HostStep("target", s, host, env);
            && rest'' == rest'
            && if exists i :: 0 <= i < |host.rows|
                    && (host.rows[i].row.oid == row.oid
                        || (host.rows[i].row.table == row.table && host.rows[i].row.id == row.id))
               then host' == host
               else host' == host.(rows := host.rows + [Target(row, NO_CACHE)])
  {
  }

  /** A value fills the buffer of 128 characters at most; the rest of a longer word is read as another. */
  lemma LongValueIsCut(space: string, w: string, rest: string, env: Env)
    requires AllSpace(space) && NoSpace(w) && |w| == 128 && Without(w, ';')
    ensures Value(space + (w + rest), env) == (w, rest)
  {
    WordRoundTrip(space, w, rest, 128);
    BeforeIs(w, ';', []);
  }

  /** Numbers out of range: an unsigned field keeps the low bits, unless the number does not fit 64 bits;
      a version keeps its low bits as a signed int. */
  lemma NumbersAreCut(s: string, row: Row, host: Host, env: Env)
    requires ScanInt(s).0.Some?
    ensures var n := ScanInt(s).0.value;
            var word := if -0x1_0000_0000_0000_0000 < n < 0x1_0000_0000_0000_0000 then n % TWO64 else TWO64 - 1;
            && RowStep("bits", s, row, env) == (row.(bits := word % TWO32), ScanInt(s).1)
            && RowStep("id", s, row, env) == (row.(id := word % TWO32), ScanInt(s).1)
            && (row.bits == 0 ==> RowStep("speed", s, row, env) == (row.(speed := word), ScanInt(s).1))
            && var host' := HostStep("snmpver", s, host, env).0;
               && host' == host.(snmpver := host'.snmpver) && -0x8000_0000 <= host'.snmpver < 0x8000_0000
               && (-0x8000_0000_0000_0000 <= n <= 0x7FFF_FFFF_FFFF_FFFF ==> (host'.snmpver - n) % TWO32 == 0)
  {
    UnsignedKeepsLowBits(ScanInt(s).0.value);
    IntKeepsLowBits(ScanInt(s).0.value);
  }

  /** At the end of the file a value is what the buffer holds, and a host the word that opened it. */
  lemma EndOfFile(space: string, env: Env)
    requires AllSpace(space)
    ensures Value(space, env) == (Before(env.junkWord, ';'), "") && HostName(space) == ("host", "")
  {
    SkipsSpace(space, "");
    assert space + "" == space;
  }

  /** A keyword without a number behind it leaves the field as it is. */
  lemma NoNumberNoChange(s: string, row: Row, host: Host, env: Env)
    requires ScanInt(s).0 == None
    ensures RowStep("bits", s, row, env).0 == row && RowStep("id", s, row, env).0 == row
    ensures row.bits == 0 ==> RowStep("speed", s, row, env).0 == row.(speed := env.junkLimit(|ScanInt(s).1|))
    ensures HostStep("snmpver", s, host, env).0 == host
  {
  }

  /** No two rows have the same OID, or the same table and id. */
  ghost predicate NoDuplicates(rows: seq<Target>) {
    forall i, j :: 0 <= i < j < |rows| ==>
      && rows[i].row.oid != rows[j].row.oid
      && (rows[i].row.table != rows[j].row.table || rows[i].row.id != rows[j].row.id)
  }

  lemma HostStepKeepsDistinct(token: string, s: string, host: Host, env: Env)
    requires NoDuplicates(host.rows)
    ensures NoDuplicates(HostStep(token, s, host, env).0.rows)
  {
  }

  lemma {:induction false} HostFromKeepsDistinct(s: string, host: Host, env: Env)
    requires NoDuplicates(host.rows)
    ensures NoDuplicates(HostFrom(s, host, env).0.rows)
    decreases |s|
  {
    match NextToken(s) {
      case None =>
      case Some((token, rest)) =>
        if token != "}" {
          HostStepKeepsDistinct(token, rest, host, env);
          var (host', rest') := HostStep(token, rest, host, env);
          HostFromKeepsDistinct(rest', host', env);
        }
    }
  }

  ghost predicate AllDistinct(hosts: seq<Host>) {
    forall h :: 0 <= h < |hosts| ==> NoDuplicates(hosts[h].rows)
  }

  /** Whatever the file says, no host has two rows with the same OID or the same table and id. */
  lemma {:induction false} HostsHaveNoDuplicates(s: string, hosts: seq<Host>, env: Env)
    requires AllDistinct(hosts)
    ensures AllDistinct(HostsFrom(s, hosts, env))
    decreases |s|
  {
    match NextToken(s) {
      case None =>
      case Some((token, rest)) =>
        if token == "host" {
          var (name, rest') := HostName(rest);
          var (host, rest'') := HostFrom(rest', NewHost(name), env);
          HostFromKeepsDistinct(rest', NewHost(name), env);
          HostsHaveNoDuplicates(rest'', hosts + [host], env);
        } else {
          HostsHaveNoDuplicates(rest, hosts, env);
        }
    }
  }

  // The readers.

  method ReadValue(stream: Stream, env: Env) returns (value: string)
    modifies stream
    ensures (value, stream.rest) == Value(old(stream.rest), env)
  {
    var word := stream.ReadWord(128);
    match word {
      case None => value := Before(env.junkWord, ';');
      case Some(w) => value := Before(w, ';');
    }
  }

  method ReadUnsigned(stream: Stream, previous: u32) returns (value: u32)
    modifies stream
    ensures var (n, rest) := ScanInt(old(stream.rest)); value == Unsigned(previous, n) && stream.rest == rest
  {
    var n := stream.ReadInt();
    value := Unsigned(previous, n);
  }

  /** The body of the loop over the tokens of a row, for a token that is neither comment nor brace. */
  method ReadRowItem(stream: Stream, token: string, row: Row, env: Env) returns (row': Row)
    modifies stream
    ensures (row', stream.rest) == RowStep(token, old(stream.rest), row, env)
  {
    row' := row;
    if token == "bits" {
      var bits := ReadUnsigned(stream, row.bits);
      row' := row.(bits := bits);
    } else if token == "table" {
      var name := ReadValue(stream, env);
      row' := row.(table := Some(name));
    } else if token == "id" {
      var id := ReadUnsigned(stream, row.id);
      row' := row.(id := id);
    } else if token == "speed" {
      var n := stream.ReadInt();
      var maxCounterDiff := Limit(n, stream.rest, env);
      row' := row.(speed := if row.bits == 0 then maxCounterDiff else maxCounterDiff / env.interval);
    }
  }

  method ReadRow(stream: Stream, oid: string, env: Env) returns (row: QueryRow)
    modifies stream
    ensures fresh(row)
    ensures var (read, rest) := RowFrom(old(stream.rest), NewRow(oid), env);
            row.State() == Target(read, NO_CACHE) && stream.rest == rest
  {
    ghost var text := stream.rest;
    var read := NewRow(oid);
    while true
      invariant RowFrom(stream.rest, read, env) == RowFrom(text, NewRow(oid), env)
      decreases |stream.rest|
    {
      var word := stream.ReadWord(512);
      if word.None? {
        break;
      }
      var token := Token(word.value);
      if IsComment(token) {
        stream.SkipToNewline();
        continue;
      }
      if token == "}" {
        break;
      }
      read := ReadRowItem(stream, token, read, env);
    }
    row := new QueryRow(read);
  }

  method CheckForDuplicate(host: QueryHost, row: QueryRow, ghost h: Host) returns (duplicate: bool)
    requires Holds(host, h)
    ensures duplicate <==>
            exists i :: 0 <= i < |h.rows|
              && (h.rows[i].row.oid == row.row.oid
                  || (h.rows[i].row.table == row.row.table && h.rows[i].row.id == row.row.id))
  {
    for i := 0 to |host.rows|
      invariant forall j :: 0 <= j < i ==>
                  && h.rows[j].row.oid != row.row.oid
                  && (h.rows[j].row.table != row.row.table || h.rows[j].row.id != row.row.id)
    {
      var itRow := host.rows[i];
      assert itRow.State() == h.rows[i];
      if itRow.row.oid == row.row.oid {
        return true;
      }
      if itRow.row.table == row.row.table && itRow.row.id == row.row.id {
        return true;
      }
    }
    return false;
  }

  /** A target block: its row joins the host unless it is a duplicate. */
  method ReadTarget(stream: Stream, host: QueryHost, env: Env, ghost h: Host) returns (ghost h': Host)
    requires Holds(host, h)
    modifies stream, host`rows
    ensures Holds(host, h') && (h', stream.rest) == HostStep("target", old(stream.rest), h, env)
    ensures forall r :: r in host.rows ==> r in old(host.rows) || fresh(r)
  {
    var oid := ReadValue(stream, env);
    var row := ReadRow(stream, oid, env);
    h' := Joined(h, row.row);
    var duplicate := CheckForDuplicate(host, row, h);
    if !duplicate {
      host.PushRow(row);
    }
  }

  method ReadHostItem(stream: Stream, token: string, host: QueryHost, env: Env, ghost h: Host) returns (ghost h': Host)
    requires Holds(host, h)
    modifies stream, host
    ensures Holds(host, h') && (h', stream.rest) == HostStep(token, old(stream.rest), h, env)
    ensures forall r :: r in host.rows ==> r in old(host.rows) || fresh(r)
  {
    h' := h;
    if token == "community" {
      var name := ReadValue(stream, env);
      host.community := Some(name);
      h' := h.(community := Some(name));
    } else if token == "snmpver" {
      var n := stream.ReadInt();
      if n.Some? {
        host.snmpver := ToInt(n.value);
        h' := h.(snmpver := ToInt(n.value));
      }
    } else if token == "target" {
      h' := ReadTarget(stream, host, env, h);
    }
  }

  method ReadHost(stream: Stream, name: string, env: Env) returns (host: QueryHost, ghost h: Host)
    modifies stream
    ensures fresh(host) && forall r :: r in host.rows ==> fresh(r)
    ensures Holds(host, h) && (h, stream.rest) == HostFrom(old(stream.rest), NewHost(name), env)
  {
    ghost var text := stream.rest;
    host := new QueryHost(name);
    h := NewHost(name);
    while true
      invariant fresh(host) && forall r :: r in host.rows ==> fresh(r)
      invariant Holds(host, h) && HostFrom(stream.rest, h, env) == HostFrom(text, NewHost(name), env)
      decreases |stream.rest|
    {
      var word := stream.ReadWord(512);
      if word.None? {
        break;
      }
      var token := Token(word.value);
      if IsComment(token) {
        stream.SkipToNewline();
        continue;
      }
      if token == "}" {
        break;
      }
      h := ReadHostItem(stream, token, host, env, h);
    }
  }

  /** The hosts read so far, apart from the set and the file. */
  ghost predicate BuiltFrom(stream: Stream, targets: RtgTargets, tree: seq<Host>, owned: set<object>)
    reads targets, owned
  {
    targets !in owned && stream !in owned && Built(targets, tree, owned)
  }

  /** A "host" token: the name and the block after it. */
  method ReadHostBlock(stream: Stream, targets: RtgTargets, env: Env, ghost tree: seq<Host>, ghost owned: set<object>)
    returns (ghost h: Host, ghost owned': set<object>)
    requires BuiltFrom(stream, targets, tree, owned)
    modifies stream, targets`hosts, targets`ntargets
    ensures owned <= owned' && fresh(owned' - owned)
    ensures BuiltFrom(stream, targets, tree + [h], owned')
    ensures var (name, rest) := HostName(old(stream.rest)); (h, stream.rest) == HostFrom(rest, NewHost(name), env)
  {
    var word := stream.ReadWord(512);
    var hostName := if word.Some? then word.value else "host";
    var host;
    host, h := ReadHost(stream, hostName, env);
    owned' := targets.AddHost(host, tree, h, owned);
  }

  /** The loop over the tokens outside any block. */
  method ReadHosts(stream: Stream, targets: RtgTargets, env: Env) returns (ghost tree: seq<Host>,
                   ghost owned: set<object>)
    requires Built(targets, [], {})
    modifies stream, targets`hosts, targets`ntargets
    ensures fresh(owned) && Built(targets, tree, owned)
    ensures tree == HostsFrom(old(stream.rest), [], env)
  {
    ghost var text := stream.rest;
    tree, owned := [], {};
    while true
      invariant fresh(owned) && BuiltFrom(stream, targets, tree, owned)
      invariant HostsFrom(stream.rest, tree, env) == HostsFrom(text, [], env)
      decreases |stream.rest|
    {
      var word := stream.ReadWord(512);
      if word.None? {
        break;
      }
      var token := Token(word.value);
      if IsComment(token) {
        stream.SkipToNewline();
        continue;
      }
      if token == "host" {
        ghost var h;
        h, owned := ReadHostBlock(stream, targets, env, tree, owned);
        tree := tree + [h];
      }
    }
  }

  /** The tree that the text spells out, every object in it new. A file that cannot be opened gives
      an empty set. */
  method ReadNewStyleTargets(file: Option<string>, env: Env)
    returns (targets: RtgTargets, ghost tree: seq<Host>, ghost owned: set<object>)
    ensures fresh(targets) && fresh(owned) && targets.nextHost == 0
    ensures Built(targets, tree, owned)
    ensures tree == match file case None => [] case Some(text) => HostsFrom(text, [], env)
  {
    targets := new RtgTargets();
    tree, owned := [], {};
    match file {
      case None =>
      case Some(text) =>
        var stream := new Stream(text);
        tree, owned := ReadHosts(stream, targets, env);
    }
  }
}
