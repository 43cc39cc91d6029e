/** Reading the targets again while the daemon runs (the loop in main of src/main.c), and what the
    readers guarantee to the poller. */
module Reload {
  import opened Words
  import opened Targets
  import C = Clinsert
  import NewStyle
  import OldStyle
  import Poller

  lemma BuiltTree(targets: RtgTargets, tree: seq<Host>, owned: set<object>)
    requires Built(targets, tree, owned)
    ensures Tree(targets.hosts) == tree
  {
    forall i | 0 <= i < |tree|
      ensures targets.hosts[i].State() == tree[i]
    {
      assert Holds(targets.hosts[i], tree[i]);
      assert States(targets.hosts[i].rows) == tree[i].rows;
    }
  }

  lemma OnlyOwnedRows(targets: RtgTargets, tree: seq<Host>, owned: set<object>)
    requires Built(targets, tree, owned)
    ensures forall r :: r in AllRows(targets.hosts) ==> r in owned
  {
  }

  method ParseTargets(file: Option<string>, env: NewStyle.Env, speed: u64) returns (targets: RtgTargets)
    ensures fresh(targets) && Separate(targets.hosts) && fresh(AllRows(targets.hosts))
    ensures Tree(targets.hosts) == OldStyle.Parsed(file, env, speed)
  {
    ghost var tree, owned;
    targets, tree, owned := OldStyle.Parse(file, env, speed);
    BuiltTree(targets, tree, owned);
    OnlyOwnedRows(targets, tree, owned);
  }

  /** The new targets start with what the old ones have cached. */
  method ReadTargets(file: Option<string>, oldTargets: RtgTargets?, env: NewStyle.Env, speed: u64)
    returns (targets: RtgTargets)
    ensures Tree(targets.hosts)
         == if oldTargets == null then OldStyle.Parsed(file, env, speed)
            else Copied(OldStyle.Parsed(file, env, speed), Entries(old(Tree(oldTargets.hosts))))
  {
    targets := ParseTargets(file, env, speed);
    if oldTargets != null {
      CopyCache(targets, oldTargets);
    }
  }

  /** The same rows, whatever their caches are by now. */
  ghost predicate SameRows(rows: seq<Target>, read: seq<Target>) {
    |rows| == |read| && forall i :: 0 <= i < |rows| ==> rows[i].row == read[i].row
  }

  /** No insert built from a host of a new-style file ever repeats an id, in any round. */
  lemma NoIdTwice(text: string, env: NewStyle.Env, h: nat, rows: seq<Target>, answers: seq<Poller.Answer>,
                  maxErrors: nat, k: nat)
    requires var hosts := NewStyle.HostsFrom(text, [], env); h < |hosts| && SameRows(rows, hosts[h].rows)
    requires Poller.AllPollable(rows, answers) && k < |Poller.PollRows(rows, answers, maxErrors).inserts|
    ensures var vs := Poller.PollRows(rows, answers, maxErrors).inserts[k].values;
            forall i, j :: 0 <= i < j < |vs| ==> vs[i].id != vs[j].id
  {
    NewStyle.HostsHaveNoDuplicates(text, [], env);
    var read := NewStyle.HostsFrom(text, [], env)[h].rows;
    forall i, j | 0 <= i < j < |rows|
      ensures rows[i].row.table != rows[j].row.table || rows[i].row.id != rows[j].row.id
    {
      assert rows[i].row == read[i].row && rows[j].row == read[j].row;
    }
    Poller.NoInsertRepeatsAnId(rows, answers, maxErrors, k);
  }

  /** Reading an unchanged new-style file again loses no cache entry, provided its hosts have distinct
      names: the tree comes back as it was left, caches included. */
  lemma UnchangedFileKeepsCaches(text: string, env: NewStyle.Env, now: seq<Host>)
    requires var read := NewStyle.HostsFrom(text, [], env);
             SameShape(read, now) && forall i, j :: 0 <= i < j < |read| ==> read[i].name != read[j].name
    ensures Copied(NewStyle.HostsFrom(text, [], env), Entries(now)) == now
  {
    var read := NewStyle.HostsFrom(text, [], env);
    NewStyle.HostsHaveNoDuplicates(text, [], env);
    forall h, i, j | 0 <= h < |now| && 0 <= i < j < |now[h].rows|
      ensures now[h].rows[i].row.oid != now[h].rows[j].row.oid
    {
      assert read[h].rows[i].row.oid != read[h].rows[j].row.oid;
    }
    CopyReproduces(read, now);
  }
}
