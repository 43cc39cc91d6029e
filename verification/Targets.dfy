/** Target sets (src/rtgtargets.c): the shared cursor, lookups, and the cache copy of a reload. */
module Targets {
  import opened Words

  /** What a targets file says about one row. `table` is null until the file names one. */
  datatype Row = Row(oid: string, table: Option<string>, id: u32, bits: u32, speed: u64)

  /** What the last successful poll of a row left behind; time 0 stands for "never polled". */
  datatype Cache = Cache(time: nat, counter: u64)

  const NO_CACHE := Cache(0, 0)

  datatype Target = Target(row: Row, cache: Cache)

  datatype Host = Host(name: string, community: Option<string>, snmpver: int, rows: seq<Target>)

  class QueryRow {
    const row: Row
    var cachedTime: nat
    var cachedCounter: u64

    ghost function State(): Target
      reads this
    {
      Target(row, Cache(cachedTime, cachedCounter))
    }

    constructor (row: Row)
      ensures this.row == row && State() == Target(row, NO_CACHE)
    {
      this.row := row;
      cachedTime, cachedCounter := 0, 0;
    }
  }

  class QueryHost {
    const host: string
    var community: Option<string>
    var snmpver: int
    var rows: seq<QueryRow>

    ghost function State(): Host
      reads this, rows
    {
      Host(host, community, snmpver, States(rows))
    }

    constructor (host: string)
      ensures this.host == host && community == None && snmpver == 0 && rows == []
    {
      this.host := host;
      community, snmpver, rows := None, 0, [];
    }

    method PushRow(row: QueryRow)
      modifies this`rows
      ensures rows == old(rows) + [row]
    {
      rows := rows + [row];
    }
  }

  ghost function States(rows: seq<QueryRow>): (s: seq<Target>)
    reads rows
    ensures |s| == |rows|
  {
    seq(|rows|, i requires 0 <= i < |rows| reads rows => rows[i].State())
  }

  ghost function AllRows(hosts: seq<QueryHost>): set<QueryRow>
    reads hosts
  {
    set i, j | 0 <= i < |hosts| && 0 <= j < |hosts[i].rows| :: hosts[i].rows[j]
  }

  ghost function Tree(hosts: seq<QueryHost>): (t: seq<Host>)
    reads hosts, AllRows(hosts)
    ensures |t| == |hosts|
  {
    seq(|hosts|, i requires 0 <= i < |hosts| reads hosts, AllRows(hosts) => hosts[i].State())
  }

  /** No two places of the set hold the same object. */
  ghost predicate Separate(hosts: seq<QueryHost>)
    reads hosts
  {
    && (forall i, j :: 0 <= i < j < |hosts| ==> hosts[i] != hosts[j])
    && (forall i, r, s :: 0 <= i < |hosts| && 0 <= r < s < |hosts[i].rows| ==> hosts[i].rows[r] != hosts[i].rows[s])
    && (forall i, j, r, s :: 0 <= i < j < |hosts| && 0 <= r < |hosts[i].rows| && 0 <= s < |hosts[j].rows| ==>
          hosts[i].rows[r] != hosts[j].rows[s])
  }

  function CountTargets(tree: seq<Host>): nat {
    if tree == [] then 0 else CountTargets(tree[..|tree| - 1]) + |tree[|tree| - 1].rows|
  }

  /** What a host object holds; its rows are separate objects. */
  ghost predicate Holds(host: QueryHost, h: Host)
    reads host, host.rows
  {
    && host.host == h.name && host.community == h.community && host.snmpver == h.snmpver
    && |host.rows| == |h.rows|
    && (forall i :: 0 <= i < |host.rows| ==> host.rows[i].State() == h.rows[i])
    && (forall i, j :: 0 <= i < j < |host.rows| ==> host.rows[i] != host.rows[j])
  }

  /** A target set that holds this tree, in separate objects all within `owned`, and counts its rows. */
  ghost predicate Built(targets: RtgTargets, tree: seq<Host>, owned: set<object>)
    reads targets, owned
  {
    && |targets.hosts| == |tree|
    && (forall i :: 0 <= i < |tree| ==>
          targets.hosts[i] in owned && forall r :: r in targets.hosts[i].rows ==> r in owned)
    && (forall i :: 0 <= i < |tree| ==> Holds(targets.hosts[i], tree[i]))
    && Separate(targets.hosts)
    && targets.ntargets == CountTargets(tree)
  }

  /** A host none of whose objects is used yet joins a separate list. */
  lemma SeparateGrows(hosts: seq<QueryHost>, host: QueryHost, owned: set<object>)
    requires Separate(hosts) && host !in owned
    requires forall i :: 0 <= i < |hosts| ==> hosts[i] in owned && forall r :: r in hosts[i].rows ==> r in owned
    requires forall r :: r in host.rows ==> r !in owned
    requires forall i, j :: 0 <= i < j < |host.rows| ==> host.rows[i] != host.rows[j]
    ensures Separate(hosts + [host])
  {
    var all := hosts + [host];
    forall i, j | 0 <= i < j < |all|
      ensures all[i] != all[j]
    {
      assert hosts[i] in owned;
    }
    forall i, j, r, s | 0 <= i < j < |all| && 0 <= r < |all[i].rows| && 0 <= s < |all[j].rows|
      ensures all[i].rows[r] != all[j].rows[s]
    {
      assert hosts[i].rows[r] in hosts[i].rows;
      if j == |hosts| {
        assert host.rows[s] in host.rows;
      }
    }
  }

  class RtgTargets {
    var hosts: seq<QueryHost>
    var ntargets: nat
    var nextHost: nat

    constructor ()
      ensures hosts == [] && ntargets == 0 && nextHost == 0
    {
      hosts, ntargets, nextHost := [], 0, 0;
    }

    method PushHost(host: QueryHost)
      modifies this`hosts, this`ntargets
      ensures hosts == old(hosts) + [host] && ntargets == old(ntargets) + |host.rows|
    {
      hosts := hosts + [host];
      ntargets := ntargets + |host.rows|;
    }

    /** Pushing a new host puts its subtree last. */
    method AddHost(host: QueryHost, ghost tree: seq<Host>, ghost h: Host, ghost owned: set<object>)
      returns (ghost owned': set<object>)
      requires Built(this, tree, owned) && this !in owned && Holds(host, h)
      requires host !in owned && forall r :: r in host.rows ==> r !in owned
      modifies this`hosts, this`ntargets
      ensures owned' == owned + {host} + set r | r in host.rows
      ensures Built(this, tree + [h], owned') && hosts == old(hosts) + [host]
    {
      SeparateGrows(hosts, host, owned);
      PushHost(host);
      owned' := owned + {host} + set r | r in host.rows;
      assert (tree + [h])[..|tree|] == tree;
    }

    /** Hands out the host at the cursor, or null once every host has been handed out. */
    method Next() returns (host: QueryHost?)
      modifies this`nextHost
      ensures old(nextHost) < |hosts| ==> host == hosts[old(nextHost)] && nextHost == old(nextHost) + 1
      ensures old(nextHost) >= |hosts| ==> host == null && nextHost == old(nextHost)
    {
      host := null;
      if nextHost < |hosts| {
        host := hosts[nextHost];
        nextHost := nextHost + 1;
      }
    }

    method ResetNext()
      modifies this`nextHost
      ensures nextHost == 0
    {
      nextHost := 0;
    }

    method FindHost(name: string) returns (host: QueryHost?, ghost i: nat)
      ensures host == null <==> forall j :: 0 <= j < |hosts| ==> hosts[j].host != name
      ensures i <= |hosts| && forall j :: 0 <= j < i ==> hosts[j].host != name
      ensures if i == |hosts| then host == null else host == hosts[i] && host.host == name
    {
      host := null;
      var k := 0;
      while k < |hosts|
        invariant 0 <= k <= |hosts| && forall j :: 0 <= j < k ==> hosts[j].host != name
      {
        if hosts[k].host == name {
          return hosts[k], k;
        }
        k := k + 1;
      }
      i := k;
    }
  }

  /** The host loop of a poller that is alone in its round, after the reset: all hosts, in order. */
  method HandOutAll(targets: RtgTargets) returns (handed: seq<QueryHost>)
    modifies targets`nextHost
    ensures handed == targets.hosts && targets.nextHost == |targets.hosts|
  {
    targets.ResetNext();
    handed := [];
    var host := targets.Next();
    while host != null
      invariant host == null ==> handed == targets.hosts && targets.nextHost == |targets.hosts|
      invariant host != null ==>
                  && 0 < targets.nextHost <= |targets.hosts| && host == targets.hosts[targets.nextHost - 1]
                  && handed == targets.hosts[..targets.nextHost - 1]
      decreases |targets.hosts| - targets.nextHost, host != null
    {
      handed := handed + [host];
      host := targets.Next();
    }
  }

  method FindRow(host: QueryHost, oid: string) returns (row: QueryRow?, ghost i: nat)
    ensures row == null <==> forall j :: 0 <= j < |host.rows| ==> host.rows[j].row.oid != oid
    ensures i <= |host.rows| && forall j :: 0 <= j < i ==> host.rows[j].row.oid != oid
    ensures if i == |host.rows| then row == null else row == host.rows[i] && row.row.oid == oid
  {
    row := null;
    var k := 0;
    while k < |host.rows|
      invariant 0 <= k <= |host.rows| && forall j :: 0 <= j < k ==> host.rows[j].row.oid != oid
    {
      if host.rows[k].row.oid == oid {
        return host.rows[k], k;
      }
      k := k + 1;
    }
    i := k;
  }

  // The pointwise meaning of copying caches.

  datatype Entry = Entry(host: string, oid: string, cache: Cache)

  function RowEntries(name: string, rows: seq<Target>): seq<Entry> {
    seq(|rows|, i requires 0 <= i < |rows| => Entry(name, rows[i].row.oid, rows[i].cache))
  }

  function Entries(tree: seq<Host>): seq<Entry> {
    if tree == [] then []
    else Entries(tree[..|tree| - 1]) + RowEntries(tree[|tree| - 1].name, tree[|tree| - 1].rows)
  }

  /** The cache of the last entry for this host name and OID. */
  function LastCache(entries: seq<Entry>, host: string, oid: string): Option<Cache> {
    if entries == [] then None
    else
      var e := entries[|entries| - 1];
      if e.host == host && e.oid == oid then Some(e.cache) else LastCache(entries[..|entries| - 1], host, oid)
  }

  /** The row a lookup by host name and then OID finds: first row of the first host. */
  predicate IsFirst(tree: seq<Host>, h: nat, r: nat)
    requires h < |tree| && r < |tree[h].rows|
  {
    && (forall j :: 0 <= j < h ==> tree[j].name != tree[h].name)
    && (forall j :: 0 <= j < r ==> tree[h].rows[j].row.oid != tree[h].rows[r].row.oid)
  }

  function CopiedRow(dest: seq<Host>, entries: seq<Entry>, h: nat, r: nat): Target
    requires h < |dest| && r < |dest[h].rows|
  {
    var target := dest[h].rows[r];
    var found := LastCache(entries, dest[h].name, target.row.oid);
    if IsFirst(dest, h, r) && found.Some? then Target(target.row, found.value) else target
  }

  function CopiedRows(dest: seq<Host>, entries: seq<Entry>, h: nat): seq<Target>
    requires h < |dest|
  {
    seq(|dest[h].rows|, r requires 0 <= r < |dest[h].rows| => CopiedRow(dest, entries, h, r))
  }

  function Copied(dest: seq<Host>, entries: seq<Entry>): seq<Host> {
    seq(|dest|, h requires 0 <= h < |dest| => dest[h].(rows := CopiedRows(dest, entries, h)))
  }

  ghost predicate DuplicateFree(tree: seq<Host>) {
    && (forall i, j :: 0 <= i < j < |tree| ==> tree[i].name != tree[j].name)
    && (forall h, i, j :: 0 <= h < |tree| && 0 <= i < j < |tree[h].rows| ==>
          tree[h].rows[i].row.oid != tree[h].rows[j].row.oid)
  }

  /** Same hosts and rows; only the caches may differ. */
  ghost predicate SameShape(a: seq<Host>, b: seq<Host>) {
    && |a| == |b|
    && forall h :: 0 <= h < |a| ==>
         && a[h] == b[h].(rows := a[h].rows)
         && |a[h].rows| == |b[h].rows|
         && forall r :: 0 <= r < |a[h].rows| ==> a[h].rows[r].row == b[h].rows[r].row
  }

  /** What LastCache returns is the cache of an entry that no later entry for the same row follows. */
  lemma {:induction false} LastCacheIsLast(entries: seq<Entry>, host: string, oid: string, k: nat)
    requires k < |entries| && entries[k].host == host && entries[k].oid == oid
    requires forall j :: k < j < |entries| ==> entries[j].host != host || entries[j].oid != oid
    ensures LastCache(entries, host, oid) == Some(entries[k].cache)
  {
    if k == |entries| - 1 {
    } else {
      LastCacheIsLast(entries[..|entries| - 1], host, oid, k);
    }
  }

  lemma {:induction false} LastCacheAbsent(entries: seq<Entry>, host: string, oid: string)
    requires forall j :: 0 <= j < |entries| ==> entries[j].host != host || entries[j].oid != oid
    ensures LastCache(entries, host, oid) == None
  {
    if entries == [] {
    } else {
      LastCacheAbsent(entries[..|entries| - 1], host, oid);
    }
  }

  /** Every entry comes from a row of the tree. */
  lemma {:induction false} EntryOrigin(tree: seq<Host>, k: nat) returns (h: nat, r: nat)
    requires k < |Entries(tree)|
    ensures h < |tree| && r < |tree[h].rows|
    ensures Entries(tree)[k] == Entry(tree[h].name, tree[h].rows[r].row.oid, tree[h].rows[r].cache)
  {
    var last := |tree| - 1;
    var before := Entries(tree[..last]);
    if k < |before| {
      h, r := EntryOrigin(tree[..last], k);
    } else {
      h, r := last, k - |before|;
    }
  }

  /** No later row has the same host name and OID. */
  ghost predicate IsLast(tree: seq<Host>, h: nat, r: nat)
    requires h < |tree| && r < |tree[h].rows|
  {
    forall i, j :: 0 <= i < |tree| && 0 <= j < |tree[i].rows| && (h < i || (h == i && r < j)) ==>
      tree[i].name != tree[h].name || tree[i].rows[j].row.oid != tree[h].rows[r].row.oid
  }

  lemma {:induction false} LastRowIsFound(tree: seq<Host>, h: nat, r: nat)
    requires h < |tree| && r < |tree[h].rows| && IsLast(tree, h, r)
    ensures LastCache(Entries(tree), tree[h].name, tree[h].rows[r].row.oid) == Some(tree[h].rows[r].cache)
  {
    var last := |tree| - 1;
    var before := Entries(tree[..last]);
    var own := RowEntries(tree[last].name, tree[last].rows);
    if h == last {
      LastCacheIsLast(Entries(tree), tree[h].name, tree[h].rows[r].row.oid, |before| + r);
    } else {
      LastRowIsFound(tree[..last], h, r);
      SkipOthers(before, own, tree[h].name, tree[h].rows[r].row.oid);
    }
  }

  lemma {:induction false} SkipOthers(a: seq<Entry>, b: seq<Entry>, host: string, oid: string)
    requires forall j :: 0 <= j < |b| ==> b[j].host != host || b[j].oid != oid
    ensures LastCache(a + b, host, oid) == LastCache(a, host, oid)
  {
    if b == [] {
      assert a + b == a;
    } else {
      assert (a + b)[..|a + b| - 1] == a + b[..|b| - 1];
      SkipOthers(a, b[..|b| - 1], host, oid);
    }
  }

  /** A reload of an unchanged, duplicate-free targets file loses no cache entry. */
  lemma CopyReproduces(dest: seq<Host>, src: seq<Host>)
    requires SameShape(dest, src) && DuplicateFree(src)
    ensures Copied(dest, Entries(src)) == src
  {
    forall h | 0 <= h < |src|
      ensures Copied(dest, Entries(src))[h] == src[h]
    {
      forall r | 0 <= r < |src[h].rows|
        ensures CopiedRow(dest, Entries(src), h, r) == src[h].rows[r]
      {
        LastRowIsFound(src, h, r);
      }
      assert CopiedRows(dest, Entries(src), h) == src[h].rows;
    }
  }

  /** Which rows keep their cache, whatever else the reload adds, drops or reorders and whatever other
      rows repeat: of the last source row with its host name and OID, the cache arrives exactly at the
      destination row that a lookup finds (or that has that very cache already). */
  lemma SurvivorKeepsCache(dest: seq<Host>, src: seq<Host>, h: nat, r: nat, h': nat, r': nat)
    requires h < |src| && r < |src[h].rows| && h' < |dest| && r' < |dest[h'].rows|
    requires src[h].name == dest[h'].name && src[h].rows[r].row.oid == dest[h'].rows[r'].row.oid
    requires IsLast(src, h, r)
    ensures Copied(dest, Entries(src))[h'].rows[r'] == Target(dest[h'].rows[r'].row, src[h].rows[r].cache)
       <==> IsFirst(dest, h', r') || dest[h'].rows[r'].cache == src[h].rows[r].cache
  {
    LastRowIsFound(src, h, r);
  }

  /** A host named twice: the pair of host name and OID "b" is unique on both sides, yet the row loses
      its cache, because the lookup stops at the first host of that name. */
  lemma RepeatedHostLosesCache(cache: Cache)
    requires cache != NO_CACHE
    ensures var a, b := Row("a", Some("t"), 1, 32, 1), Row("b", Some("t"), 2, 32, 1);
            var dest := [Host("x", None, 2, [Target(a, NO_CACHE)]), Host("x", None, 2, [Target(b, NO_CACHE)])];
            var src := [Host("x", None, 2, [Target(a, cache)]), Host("x", None, 2, [Target(b, cache)])];
            IsLast(src, 1, 0) && Copied(dest, Entries(src))[1].rows[0] == Target(b, NO_CACHE)
  {
    var a, b := Row("a", Some("t"), 1, 32, 1), Row("b", Some("t"), 2, 32, 1);
    var dest := [Host("x", None, 2, [Target(a, NO_CACHE)]), Host("x", None, 2, [Target(b, NO_CACHE)])];
    var src := [Host("x", None, 2, [Target(a, cache)]), Host("x", None, 2, [Target(b, cache)])];
    SurvivorKeepsCache(dest, src, 1, 0, 1, 0);
    assert dest[0].name == dest[1].name;
  }

  /** A row that no source row matches is left as it was. */
  lemma UnmatchedRowUnchanged(dest: seq<Host>, src: seq<Host>, h: nat, r: nat)
    requires h < |dest| && r < |dest[h].rows|
    requires forall i, j :: 0 <= i < |src| && 0 <= j < |src[i].rows| ==>
               src[i].name != dest[h].name || src[i].rows[j].row.oid != dest[h].rows[r].row.oid
    ensures Copied(dest, Entries(src))[h].rows[r] == dest[h].rows[r]
  {
    forall k | 0 <= k < |Entries(src)|
      ensures Entries(src)[k].host != dest[h].name || Entries(src)[k].oid != dest[h].rows[r].row.oid
    {
      var i, j := EntryOrigin(src, k);
    }
    LastCacheAbsent(Entries(src), dest[h].name, dest[h].rows[r].row.oid);
  }

  // The loops of rtgtargets_copy_cache.

  /** Every destination row is what the entries processed so far make of it. */
  ghost predicate CacheCopied(dest: seq<QueryHost>, before: seq<Host>, entries: seq<Entry>)
    reads dest, AllRows(dest)
  {
    && |before| == |dest|
    && (forall h :: 0 <= h < |dest| ==> before[h].name == dest[h].host && |before[h].rows| == |dest[h].rows|)
    && (forall h, r :: 0 <= h < |dest| && 0 <= r < |dest[h].rows| ==>
          dest[h].rows[r].State() == CopiedRow(before, entries, h, r))
  }

  lemma OneMoreEntry(entries: seq<Entry>, e: Entry, host: string, oid: string)
    ensures LastCache(entries + [e], host, oid)
         == if e.host == host && e.oid == oid then Some(e.cache) else LastCache(entries, host, oid)
  {
    assert (entries + [e])[..|entries|] == entries;
  }

  /** One source row: the row it finds, if any, takes its cache, and no other row changes. */
  method CopyRow(ghost dest: seq<QueryHost>, destH: QueryHost, ghost h: nat, srcR: QueryRow,
                 ghost before: seq<Host>, ghost entries: seq<Entry>)
    requires Separate(dest) && h < |dest| && dest[h] == destH && srcR !in AllRows(dest)
    requires CacheCopied(dest, before, entries)
    requires forall j :: 0 <= j < h ==> dest[j].host != destH.host
    modifies AllRows(dest)
    ensures CacheCopied(dest, before, entries + [Entry(destH.host, srcR.row.oid, srcR.State().cache)])
  {
    var destR, i := FindRow(destH, srcR.row.oid);
    ghost var e := Entry(destH.host, srcR.row.oid, srcR.State().cache);
    forall h', r' | 0 <= h' < |dest| && 0 <= r' < |dest[h'].rows|
      ensures CopiedRow(before, entries + [e], h', r') ==
              if h' == h && destR != null && r' == i then Target(before[h'].rows[r'].row, e.cache)
              else CopiedRow(before, entries, h', r')
    {
      OneMoreEntry(entries, e, before[h'].name, before[h'].rows[r'].row.oid);
      assert forall r | 0 <= r < |dest[h'].rows| :: dest[h'].rows[r].State() == CopiedRow(before, entries, h', r);
      if h' == h {
        assert forall r | 0 <= r < |destH.rows| :: before[h].rows[r].row.oid == destH.rows[r].row.oid;
      } else if h < h' {
        assert before[h].name == dest[h].host;
      }
    }
    if destR != null {
      assert destR in AllRows(dest);
      destR.cachedTime := srcR.cachedTime;
      destR.cachedCounter := srcR.cachedCounter;
    }
  }

  lemma OneMoreOwn(entries: seq<Entry>, host: string, rows: seq<Target>, ri: nat)
    requires ri < |rows|
    ensures var own := RowEntries(host, rows);
            entries + own[..ri + 1] == (entries + own[..ri]) + [Entry(host, rows[ri].row.oid, rows[ri].cache)]
  {
    var own := RowEntries(host, rows);
    assert own[..ri + 1] == own[..ri] + [own[ri]];
  }

  method CopyHost(ghost dest: seq<QueryHost>, destH: QueryHost, ghost h: nat, srcH: QueryHost,
                  ghost rows: seq<Target>, ghost before: seq<Host>, ghost entries: seq<Entry>)
    requires Separate(dest) && h < |dest| && dest[h] == destH && destH.host == srcH.host && States(srcH.rows) == rows
    requires forall r :: r in srcH.rows ==> r !in AllRows(dest)
    requires CacheCopied(dest, before, entries)
    requires forall j :: 0 <= j < h ==> dest[j].host != destH.host
    modifies AllRows(dest)
    ensures CacheCopied(dest, before, entries + RowEntries(srcH.host, rows))
  {
    ghost var own := RowEntries(srcH.host, rows);
    assert entries + own[..0] == entries;
    for ri := 0 to |srcH.rows|
      invariant States(srcH.rows) == rows
      invariant CacheCopied(dest, before, entries + own[..ri])
    {
      assert srcH.rows[ri].State() == rows[ri];
      OneMoreOwn(entries, srcH.host, rows, ri);
      CopyRow(dest, destH, h, srcH.rows[ri], before, entries + own[..ri]);
    }
    assert own[..|own|] == own;
  }

  lemma NothingCopied(dest: seq<QueryHost>)
    ensures CacheCopied(dest, Tree(dest), [])
  {
  }

  lemma HostNotFound(dest: seq<QueryHost>, before: seq<Host>, entries: seq<Entry>, name: string, rows: seq<Target>)
    requires CacheCopied(dest, before, entries)
    requires forall h :: 0 <= h < |dest| ==> dest[h].host != name
    ensures CacheCopied(dest, before, entries + RowEntries(name, rows))
  {
    var own := RowEntries(name, rows);
    forall h, r | 0 <= h < |dest| && 0 <= r < |dest[h].rows|
      ensures CopiedRow(before, entries + own, h, r) == CopiedRow(before, entries, h, r)
    {
      SkipOthers(entries, own, before[h].name, before[h].rows[r].row.oid);
    }
  }

  ghost predicate HostsKept(dest: seq<QueryHost>, before: seq<Host>)
    reads dest
  {
    && |before| == |dest|
    && forall h :: 0 <= h < |dest| ==>
         before[h].(rows := []) == Host(dest[h].host, dest[h].community, dest[h].snmpver, [])
  }

  lemma AllCopied(dest: seq<QueryHost>, before: seq<Host>, entries: seq<Entry>)
    requires CacheCopied(dest, before, entries) && HostsKept(dest, before)
    ensures Tree(dest) == Copied(before, entries)
  {
    forall h | 0 <= h < |dest|
      ensures dest[h].State() == Copied(before, entries)[h]
    {
      assert before[h].(rows := []) == Host(dest[h].host, dest[h].community, dest[h].snmpver, []);
      assert States(dest[h].rows) == CopiedRows(before, entries, h);
    }
  }

  /** The destination after the first `hi` source hosts. */
  ghost predicate CopiedUpTo(dest: seq<QueryHost>, before: seq<Host>, source: seq<Host>, hi: nat)
    requires hi <= |source|
    reads dest, AllRows(dest)
  {
    HostsKept(dest, before) && CacheCopied(dest, before, Entries(source[..hi]))
  }

  lemma EntriesStep(source: seq<Host>, hi: nat)
    requires hi < |source|
    ensures Entries(source[..hi + 1]) == Entries(source[..hi]) + RowEntries(source[hi].name, source[hi].rows)
  {
    assert source[..hi + 1][..hi] == source[..hi];
  }

  lemma RowsApart(dest: seq<QueryHost>, src: seq<QueryHost>, hi: nat)
    requires AllRows(dest) !! AllRows(src) && hi < |src|
    ensures forall r :: r in src[hi].rows ==> r !in AllRows(dest)
  {
    forall r | r in src[hi].rows
      ensures r !in AllRows(dest)
    {
      assert r in AllRows(src);
    }
  }

  /** One pass of the outer loop: all the rows of source host `hi`. */
  method CopySourceHost(dest: RtgTargets, src: RtgTargets, hi: nat, ghost before: seq<Host>, ghost source: seq<Host>)
    requires Separate(dest.hosts) && AllRows(dest.hosts) !! AllRows(src.hosts)
    requires hi < |source| && Tree(src.hosts) == source
    requires CopiedUpTo(dest.hosts, before, source, hi)
    modifies AllRows(dest.hosts)
    ensures CopiedUpTo(dest.hosts, before, source, hi + 1)
  {
    var srcH := src.hosts[hi];
    assert srcH.State() == Tree(src.hosts)[hi];
    ghost var rows := source[hi].rows;
    var destH, h := dest.FindHost(srcH.host);
    ghost var entries := Entries(source[..hi]);
    EntriesStep(source, hi);
    if destH != null {
      RowsApart(dest.hosts, src.hosts, hi);
      CopyHost(dest.hosts, destH, h, srcH, rows, before, entries);
    } else {
      HostNotFound(dest.hosts, before, entries, srcH.host, rows);
    }
  }

  /** The outer loop. */
  method CopySourceHosts(dest: RtgTargets, src: RtgTargets, ghost before: seq<Host>, ghost source: seq<Host>)
    requires Separate(dest.hosts) && AllRows(dest.hosts) !! AllRows(src.hosts)
    requires Tree(src.hosts) == source && CopiedUpTo(dest.hosts, before, source, 0)
    modifies AllRows(dest.hosts)
    ensures CopiedUpTo(dest.hosts, before, source, |source|)
  {
    for hi := 0 to |src.hosts|
      invariant Tree(src.hosts) == source && CopiedUpTo(dest.hosts, before, source, hi)
    {
      CopySourceHost(dest, src, hi, before, source);
    }
  }

  lemma NothingCopiedYet(dest: seq<QueryHost>, source: seq<Host>)
    ensures CopiedUpTo(dest, Tree(dest), source, 0)
  {
    NothingCopied(dest);
  }

  lemma EverythingCopied(dest: seq<QueryHost>, before: seq<Host>, source: seq<Host>)
    requires CopiedUpTo(dest, before, source, |source|)
    ensures Tree(dest) == Copied(before, Entries(source))
  {
    assert source[..|source|] == source;
    AllCopied(dest, before, Entries(source));
  }

  /** Every destination row ends as its pointwise meaning says. */
  method CopyCache(dest: RtgTargets, src: RtgTargets)
    requires Separate(dest.hosts) && AllRows(dest.hosts) !! AllRows(src.hosts)
    modifies AllRows(dest.hosts)
    ensures Tree(dest.hosts) == Copied(old(Tree(dest.hosts)), Entries(old(Tree(src.hosts))))
  {
    ghost var before, source := Tree(dest.hosts), Tree(src.hosts);
    NothingCopiedYet(dest.hosts, source);
    CopySourceHosts(dest, src, before, source);
    EverythingCopied(dest.hosts, before, source);
  }
}
