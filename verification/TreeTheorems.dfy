/** What the two recursive listings return: exactly the unexcluded nodes, each once, in one and the same order. */
module TreeTheorems {
  import opened Text
  import opened TreeWalk

  // ---------- Exactly the unexcluded nodes ----------

  ghost predicate HasDirectory(site: Site, dir: string, name: Name) {
    dir in site.listing && exists d :: d in site.listing[dir] && d.name == name && d.kind.Directory?
  }

  /** `names` leads from `dir` down to the entry `e`, through directories, and none of the names is excluded. */
  ghost predicate NodeAt(site: Site, dir: string, names: seq<Name>, e: Entry) {
    && names != [] && e.name == names[|names| - 1]
    && (forall k :: 0 <= k < |names| ==> !Excluded(names[k], site.patterns))
    && (forall k :: 0 <= k < |names| - 1 ==> HasDirectory(site, PathTo(dir, names[..k]), names[k]))
    && PathTo(dir, names[..|names| - 1]) in site.listing && e in site.listing[PathTo(dir, names[..|names| - 1])]
  }

  lemma {:induction false} InSomeEntry(site: Site, dir: string, entries: seq<Entry>, x: Listed)
    requires dir in site.listing
    ensures x in BelowEntries(site, dir, entries) <==> exists e :: e in entries && x in BelowEntry(site, dir, e)
  {
    if entries != [] {
      var n := |entries| - 1;
      InSomeEntry(site, dir, entries[..n], x);
      assert entries == entries[..n] + [entries[n]];
      if x in BelowEntry(site, dir, entries[n]) {
        assert entries[n] in entries;
      } else if x in BelowEntries(site, dir, entries) {
        var e :| e in entries[..n] && x in BelowEntry(site, dir, e);
        assert e in entries;
      }
    }
  }

  /** A node one step down is a node here, behind the name of that step. */
  lemma NodeOneUp(site: Site, dir: string, d: Entry, names: seq<Name>, e: Entry)
    requires dir in site.listing && d in site.listing[dir] && d.kind.Directory? && !Excluded(d.name, site.patterns)
    requires NodeAt(site, Join(dir, d.name), names, e)
    ensures NodeAt(site, dir, [d.name] + names, e)
    ensures PathTo(dir, [d.name] + names) == PathTo(Join(dir, d.name), names)
  {
    var all := [d.name] + names;
    assert all[1..] == names;
    forall k | 0 <= k < |all| - 1
      ensures HasDirectory(site, PathTo(dir, all[..k]), all[k])
    {
      if k > 0 {
        assert all[..k][1..] == names[..k - 1];
        assert HasDirectory(site, PathTo(Join(dir, d.name), names[..k - 1]), names[k - 1]);
      }
    }
    assert all[..|all| - 1][1..] == names[..|names| - 1];
  }

  lemma NodeOneDown(site: Site, dir: string, names: seq<Name>, e: Entry) returns (d: Entry)
    requires NodeAt(site, dir, names, e) && |names| > 1
    ensures dir in site.listing && d in site.listing[dir] && d.name == names[0] && d.kind.Directory?
    ensures NodeAt(site, Join(dir, d.name), names[1..], e)
  {
    assert names[..0] == [] && HasDirectory(site, PathTo(dir, names[..0]), names[0]);
    d :| d in site.listing[dir] && d.name == names[0] && d.kind.Directory?;
    var rest := names[1..];
    forall k | 0 <= k < |rest| - 1
      ensures HasDirectory(site, PathTo(Join(dir, d.name), rest[..k]), rest[k])
    {
      assert names[..k + 1][1..] == rest[..k];
      assert HasDirectory(site, PathTo(dir, names[..k + 1]), names[k + 1]);
    }
    assert names[..|names| - 1] == [names[0]] + rest[..|rest| - 1];
    assert names[..|names| - 1][1..] == rest[..|rest| - 1];
  }

  lemma {:induction false} BelowIsANode(site: Site, dir: string, x: Listed) returns (names: seq<Name>, e: Entry)
    requires x in Below(site, dir)
    ensures NodeAt(site, dir, names, e) && x == Listed(Relative(site.base, PathTo(dir, names)), e)
    decreases Longest(site.listing.Keys) - |dir|
  {
    InSomeEntry(site, dir, site.listing[dir], x);
    var d :| d in site.listing[dir] && x in BelowEntry(site, dir, d);
    if x == ListedAt(site, dir, d) {
      names, e := [d.name], d;
      assert names[..0] == [];
    } else {
      names, e := BelowIsANode(site, Join(dir, d.name), x);
      NodeOneUp(site, dir, d, names, e);
      names := [d.name] + names;
    }
  }

  lemma {:induction false} NodeIsBelow(site: Site, dir: string, names: seq<Name>, e: Entry)
    requires NodeAt(site, dir, names, e)
    ensures Listed(Relative(site.base, PathTo(dir, names)), e) in Below(site, dir)
    decreases |names|
  {
    var x := Listed(Relative(site.base, PathTo(dir, names)), e);
    if |names| == 1 {
      assert names[..0] == [] && names == [e.name];
      assert PathTo(dir, names) == Join(dir, e.name);
      assert x in BelowEntry(site, dir, e);
    } else {
      var d := NodeOneDown(site, dir, names, e);
      NodeIsBelow(site, Join(dir, d.name), names[1..], e);
      assert x in BelowEntry(site, dir, d);
    }
    InSomeEntry(site, dir, site.listing[dir], x);
  }

  // ---------- When a walk fails ----------

  /** `names` leads from `dir` down through unexcluded directories. */
  ghost predicate Descends(site: Site, dir: string, names: seq<Name>) {
    forall k :: 0 <= k < |names| ==> !Excluded(names[k], site.patterns) && HasDirectory(site, PathTo(dir, names[..k]), names[k])
  }

  lemma {:induction false} ReadableReaches(site: Site, dir: string, names: seq<Name>)
    requires Readable(site, dir) && Descends(site, dir, names)
    ensures PathTo(dir, names) in site.listing
    decreases |names|
  {
    if names != [] {
      assert names[..0] == [] && HasDirectory(site, PathTo(dir, names[..0]), names[0]);
      var d :| d in site.listing[dir] && d.name == names[0] && d.kind.Directory?;
      var j :| 0 <= j < |site.listing[dir]| && site.listing[dir][j] == d;
      assert ReadableEntry(site, dir, site.listing[dir][j]);
      forall k | 0 <= k < |names[1..]|
        ensures HasDirectory(site, PathTo(Join(dir, d.name), names[1..][..k]), names[1..][k])
      {
        assert names[..k + 1][1..] == names[1..][..k];
        assert HasDirectory(site, PathTo(dir, names[..k + 1]), names[k + 1]);
      }
      ReadableReaches(site, Join(dir, d.name), names[1..]);
    }
  }

  lemma {:induction false} UnreadablePath(site: Site, dir: string) returns (names: seq<Name>)
    requires !Readable(site, dir)
    ensures Descends(site, dir, names) && PathTo(dir, names) !in site.listing
    decreases Longest(site.listing.Keys) - |dir|
  {
    names := [];
    if dir in site.listing {
      var j :| 0 <= j < |site.listing[dir]| && !ReadableEntry(site, dir, site.listing[dir][j]);
      var d := site.listing[dir][j];
      var rest := UnreadablePath(site, Join(dir, d.name));
      DescendsOneUp(site, dir, d, rest);
      names := [d.name] + rest;
    }
  }

  lemma DescendsOneUp(site: Site, dir: string, d: Entry, rest: seq<Name>)
    requires dir in site.listing && d in site.listing[dir] && d.kind.Directory? && !Excluded(d.name, site.patterns)
    requires Descends(site, Join(dir, d.name), rest)
    ensures Descends(site, dir, [d.name] + rest)
    ensures PathTo(dir, [d.name] + rest) == PathTo(Join(dir, d.name), rest)
  {
    var names := [d.name] + rest;
    assert names[1..] == rest;
    forall k | 0 <= k < |names|
      ensures HasDirectory(site, PathTo(dir, names[..k]), names[k])
    {
      if k > 0 {
        assert names[..k][1..] == rest[..k - 1];
        assert HasDirectory(site, PathTo(Join(dir, d.name), rest[..k - 1]), rest[k - 1]);
      }
    }
  }

  /** A listing succeeds exactly when every directory reached through unexcluded directories can be listed. */
  lemma ReadableIffAllReached(site: Site)
    ensures Readable(site, site.base) <==>
            forall names: seq<Name> :: Descends(site, site.base, names) ==> PathTo(site.base, names) in site.listing
  {
    if Readable(site, site.base) {
      forall names: seq<Name> | Descends(site, site.base, names)
        ensures PathTo(site.base, names) in site.listing
      {
        ReadableReaches(site, site.base, names);
      }
    } else {
      var names := UnreadablePath(site, site.base);
    }
  }

  // ---------- Each of them once ----------

  /** No directory lists one name twice. */
  ghost predicate DistinctNames(site: Site) {
    forall dir :: dir in site.listing ==> NoRepeats(site.listing[dir])
  }

  ghost predicate NoRepeats(entries: seq<Entry>) {
    forall i, j :: 0 <= i < j < |entries| ==> entries[i].name != entries[j].name
  }

  lemma PathsCompose(dir: string, above: seq<Name>, names: seq<Name>)
    ensures PathTo(dir, above + names) == PathTo(PathTo(dir, above), names)
    decreases above
  {
    if above == [] {
      assert above + names == names;
    } else {
      assert (above + names)[1..] == above[1..] + names;
      PathsCompose(Join(dir, above[0]), above[1..], names);
    }
  }

  /** The parts of a listed path are the names on the way to it. */
  lemma PartsBelow(site: Site, above: seq<Name>, x: Listed)
    requires x in Below(site, PathTo(site.base, above))
    ensures |Parts(x.relative, '/')| > |above| && above <= Parts(x.relative, '/')
  {
    var names, e := BelowIsANode(site, PathTo(site.base, above), x);
    PathsCompose(site.base, above, names);
    RelativePathIsTheNames(site.base, above + names);
    PartsOfJoined(above + names);
  }

  lemma PartsBelowEntry(site: Site, above: seq<Name>, d: Entry, x: Listed)
    requires PathTo(site.base, above) in site.listing && x in BelowEntry(site, PathTo(site.base, above), d)
    ensures |Parts(x.relative, '/')| > |above| && Parts(x.relative, '/')[|above|] == d.name
    ensures d.kind.Directory? && x in Below(site, Join(PathTo(site.base, above), d.name)) ==> |Parts(x.relative, '/')| > |above| + 1
    ensures x == ListedAt(site, PathTo(site.base, above), d) ==> Parts(x.relative, '/') == above + [d.name]
  {
    PathThen(site.base, above, d.name);
    if d.kind.Directory? && x in Below(site, Join(PathTo(site.base, above), d.name)) {
      PartsBelow(site, above + [d.name], x);
    }
    RelativePathIsTheNames(site.base, above + [d.name]);
    PartsOfJoined(above + [d.name]);
  }

  lemma {:induction false} OnceBelow(site: Site, above: seq<Name>, x: Listed)
    requires DistinctNames(site)
    ensures Below(site, PathTo(site.base, above))[x] <= 1
    decreases Longest(site.listing.Keys) - |PathTo(site.base, above)|, 1, 0
  {
    var dir := PathTo(site.base, above);
    if dir in site.listing {
      OnceBelowEntries(site, above, site.listing[dir], x);
    }
  }

  lemma {:induction false} OnceBelowEntries(site: Site, above: seq<Name>, entries: seq<Entry>, x: Listed)
    requires DistinctNames(site) && PathTo(site.base, above) in site.listing && NoRepeats(entries)
    ensures BelowEntries(site, PathTo(site.base, above), entries)[x] <= 1
    decreases Longest(site.listing.Keys) - |PathTo(site.base, above)|, 0, |entries|
  {
    if entries != [] {
      var first, d := entries[..|entries| - 1], entries[|entries| - 1];
      OnceBelowEntries(site, above, first, x);
      PathThen(site.base, above, d.name);
      OnceBelow(site, above + [d.name], x);
      OnceInEntry(site, above, d, x);
      if x in BelowEntry(site, PathTo(site.base, above), d) && x in BelowEntries(site, PathTo(site.base, above), first) {
        SameNameElsewhere(site, above, d, first, x);
      }
    }
  }

  lemma OnceInEntry(site: Site, above: seq<Name>, d: Entry, x: Listed)
    requires PathTo(site.base, above) in site.listing && Below(site, Join(PathTo(site.base, above), d.name))[x] <= 1
    ensures BelowEntry(site, PathTo(site.base, above), d)[x] <= 1
  {
    if x in BelowEntry(site, PathTo(site.base, above), d) {
      PartsBelowEntry(site, above, d, x);
    }
  }

  lemma SameNameElsewhere(site: Site, above: seq<Name>, d: Entry, entries: seq<Entry>, x: Listed)
    requires PathTo(site.base, above) in site.listing
    requires x in BelowEntry(site, PathTo(site.base, above), d) && x in BelowEntries(site, PathTo(site.base, above), entries)
    ensures exists k :: 0 <= k < |entries| && entries[k].name == d.name
  {
    PartsBelowEntry(site, above, d, x);
    InSomeEntry(site, PathTo(site.base, above), entries, x);
    var other :| other in entries && x in BelowEntry(site, PathTo(site.base, above), other);
    PartsBelowEntry(site, above, other, x);
    var k :| 0 <= k < |entries| && entries[k] == other;
    assert entries[k].name == d.name;
  }

  lemma OnePathOneNode(site: Site, x: Listed, y: Listed)
    requires DistinctNames(site)
    requires x in Below(site, site.base) && y in Below(site, site.base) && x.relative == y.relative
    ensures x == y
  {
    var names, e := BelowIsANode(site, site.base, x);
    var others, f := BelowIsANode(site, site.base, y);
    RelativePathIsTheNames(site.base, names);
    RelativePathIsTheNames(site.base, others);
    PartsOfJoined(names);
    PartsOfJoined(others);
    assert NoRepeats(site.listing[PathTo(site.base, names[..|names| - 1])]);
  }

  // ---------- Whatever order the servers list in ----------

  /** Two views of one remote tree: each directory lists the same entries, in any order. */
  ghost predicate SameRemote(s: Site, t: Site) {
    && s.base == t.base && s.patterns == t.patterns && s.listing.Keys == t.listing.Keys
    && forall dir :: dir in s.listing ==> multiset(s.listing[dir]) == multiset(t.listing[dir])
  }

  lemma {:induction false} SameBelow(s: Site, t: Site, dir: string)
    requires SameRemote(s, t)
    ensures Below(s, dir) == Below(t, dir) && (Readable(s, dir) <==> Readable(t, dir))
    decreases Longest(s.listing.Keys) - |dir|
  {
    if dir in s.listing {
      var entries, others := s.listing[dir], t.listing[dir];
      forall e: Entry
        ensures BelowEntry(s, dir, e) == BelowEntry(t, dir, e) && (ReadableEntry(s, dir, e) <==> ReadableEntry(t, dir, e))
      {
        SameBelow(s, t, Join(dir, e.name));
      }
      SameEntries(s, t, dir, entries, others);
      SameElements(entries, others);
      if Readable(s, dir) { ReadableElsewhere(s, t, dir, entries, others); }
      if Readable(t, dir) { ReadableElsewhere(t, s, dir, others, entries); }
    }
  }

  lemma ReadableElsewhere(s: Site, t: Site, dir: string, entries: seq<Entry>, others: seq<Entry>)
    requires dir in s.listing && dir in t.listing && ReadableEntries(s, dir, entries)
    requires forall e :: e in others ==> e in entries && (ReadableEntry(s, dir, e) ==> ReadableEntry(t, dir, e))
    ensures ReadableEntries(t, dir, others)
  {
  }

  lemma SameElements(entries: seq<Entry>, others: seq<Entry>)
    requires multiset(entries) == multiset(others)
    ensures forall e :: e in entries <==> e in others
  {
    forall e
      ensures e in entries <==> e in others
    {
      assert e in entries <==> e in multiset(entries);
      assert e in others <==> e in multiset(others);
    }
  }

  lemma {:induction false} SameEntries(s: Site, t: Site, dir: string, entries: seq<Entry>, others: seq<Entry>)
    requires dir in s.listing && dir in t.listing && multiset(entries) == multiset(others)
    requires forall e :: BelowEntry(s, dir, e) == BelowEntry(t, dir, e)
    ensures BelowEntries(s, dir, entries) == BelowEntries(t, dir, others)
    decreases |entries|
  {
    SameElements(entries, others);
    if entries == [] {
      assert |multiset(others)| == |others|;
    } else {
      var n := |entries| - 1;
      var e := entries[n];
      assert e in others;
      var k :| 0 <= k < |others| && others[k] == e;
      var rest := others[..k] + others[k + 1..];
      assert others == others[..k] + [e] + others[k + 1..];
      assert entries == entries[..n] + [e];
      assert multiset(entries[..n]) == multiset(entries) - multiset{e} by {
        assert multiset(entries) == multiset(entries[..n]) + multiset{e};
      }
      assert multiset(rest) == multiset(others) - multiset{e} by {
        assert multiset(others) == multiset(others[..k]) + multiset{e} + multiset(others[k + 1..]);
      }
      SameEntries(s, t, dir, entries[..n], rest);
      TakeOut(t, dir, others, k);
    }
  }

  lemma BelowAppend(site: Site, dir: string, entries: seq<Entry>, e: Entry)
    requires dir in site.listing
    ensures BelowEntries(site, dir, entries + [e]) == BelowEntries(site, dir, entries) + BelowEntry(site, dir, e)
  {
    assert (entries + [e])[..|entries|] == entries;
  }

  lemma {:induction false} TakeOut(site: Site, dir: string, entries: seq<Entry>, k: nat)
    requires dir in site.listing && k < |entries|
    ensures BelowEntries(site, dir, entries) ==
            BelowEntries(site, dir, entries[..k] + entries[k + 1..]) + BelowEntry(site, dir, entries[k])
    decreases |entries|
  {
    var n := |entries| - 1;
    var first, last := entries[..n], entries[n];
    assert entries == first + [last];
    if k == n {
      BelowAppend(site, dir, first, last);
      assert entries[..k] + entries[k + 1..] == first;
    } else {
      TakeOut(site, dir, first, k);
      var rest := first[..k] + first[k + 1..];
      TakenBeforeLast(entries, k);
      TakenThenAppended(site, dir, first, rest, first[k], last);
    }
  }

  lemma TakenBeforeLast<T>(s: seq<T>, k: nat)
    requires k < |s| - 1
    ensures var first := s[..|s| - 1]; s[..k] + s[k + 1..] == first[..k] + first[k + 1..] + [s[|s| - 1]]
  {
    var n := |s| - 1;
    assert s[k + 1..] == s[..n][k + 1..] + [s[n]];
    Regrouped(s[..k], s[..n][k + 1..], [s[n]]);
  }

  lemma TakenThenAppended(site: Site, dir: string, first: seq<Entry>, rest: seq<Entry>, taken: Entry, last: Entry)
    requires dir in site.listing
    requires BelowEntries(site, dir, first) == BelowEntries(site, dir, rest) + BelowEntry(site, dir, taken)
    ensures BelowEntries(site, dir, first + [last]) == BelowEntries(site, dir, rest + [last]) + BelowEntry(site, dir, taken)
  {
    BelowAppend(site, dir, first, last);
    BelowAppend(site, dir, rest, last);
    SwapLast(BelowEntries(site, dir, rest), BelowEntry(site, dir, taken), BelowEntry(site, dir, last));
  }

  lemma SwapLast(a: multiset<Listed>, b: multiset<Listed>, c: multiset<Listed>)
    ensures a + b + c == a + c + b
  {
  }

  // ---------- The final sort ----------

  /** Directories first, then by relative path. */
  predicate Precedes(a: Listed, b: Listed) {
    if a.entry.kind.Directory? == b.entry.kind.Directory? then LexLess(a.relative, b.relative) else a.entry.kind.Directory?
  }

  ghost predicate Sorted(s: seq<Listed>) {
    forall i, j :: 0 <= i < j < |s| ==> !Precedes(s[j], s[i])
  }

  /** The listing command's result: the walk's results, sorted. */
  ghost predicate IsListing(site: Site, s: seq<Listed>) {
    multiset(s) == Below(site, site.base) && Sorted(s)
  }

  ghost predicate PathsTell(m: multiset<Listed>) {
    forall x, y {:trigger x.relative, y.relative} :: x in m && y in m && x.relative == y.relative ==> x == y
  }

  /** Results whose paths tell them apart can be sorted in only one way. */
  lemma {:induction false} SortedOneWay(a: seq<Listed>, b: seq<Listed>)
    requires Sorted(a) && Sorted(b) && multiset(a) == multiset(b) && PathsTell(multiset(a))
    ensures a == b
  {
    if a == [] {
      assert |multiset(b)| == |b|;
    } else {
      SameFirst(a, b);
      SameRest(a, b);
      SortedOneWay(a[1..], b[1..]);
      assert a == [a[0]] + a[1..] && b == [b[0]] + b[1..];
    }
  }

  lemma SameFirst(a: seq<Listed>, b: seq<Listed>)
    requires Sorted(a) && Sorted(b) && multiset(a) == multiset(b) && PathsTell(multiset(a)) && a != []
    ensures b != [] && a[0] == b[0]
  {
    assert a[0] in multiset(a);
    FirstIsLeast(b, a[0]);
    assert b[0] in multiset(b);
    FirstIsLeast(a, b[0]);
    LexTotal(a[0].relative, b[0].relative);
  }

  lemma SameRest(a: seq<Listed>, b: seq<Listed>)
    requires Sorted(a) && Sorted(b) && a != [] && b != [] && a[0] == b[0]
    requires multiset(a) == multiset(b) && PathsTell(multiset(a))
    ensures Sorted(a[1..]) && Sorted(b[1..]) && multiset(a[1..]) == multiset(b[1..]) && PathsTell(multiset(a[1..]))
  {
    RestOf(a);
    RestOf(b);
    assert forall x :: x in multiset(a[1..]) ==> x in multiset(a);
  }

  lemma RestOf(s: seq<Listed>)
    requires Sorted(s) && s != []
    ensures Sorted(s[1..]) && multiset(s[1..]) == multiset(s) - multiset{s[0]}
  {
    assert s == [s[0]] + s[1..];
    assert multiset(s) == multiset{s[0]} + multiset(s[1..]);
  }

  lemma FirstIsLeast(s: seq<Listed>, x: Listed)
    requires Sorted(s) && x in multiset(s)
    ensures s != [] && !Precedes(x, s[0])
  {
    assert x in s;
    var k :| 0 <= k < |s| && s[k] == x;
    LexIrreflexive(x.relative);
  }

  // ---------- The listing command ----------

  /** No directory stands behind anything else, and among directories, as among the rest, no later path is smaller. */
  ghost predicate DirectoriesFirst(s: seq<Listed>) {
    && (forall i, j :: 0 <= i < j < |s| && s[j].entry.kind.Directory? ==> s[i].entry.kind.Directory?)
    && (forall i, j :: 0 <= i < j < |s| && s[i].entry.kind.Directory? == s[j].entry.kind.Directory? ==>
          !LexLess(s[j].relative, s[i].relative))
  }

  lemma SortedIsDirectoriesFirst(s: seq<Listed>)
    ensures Sorted(s) <==> DirectoriesFirst(s)
  {
    if DirectoriesFirst(s) {
      forall i, j | 0 <= i < j < |s|
        ensures !Precedes(s[j], s[i])
      {
      }
    }
    if Sorted(s) {
      forall i, j | 0 <= i < j < |s|
        ensures s[j].entry.kind.Directory? ==> s[i].entry.kind.Directory?
        ensures s[i].entry.kind.Directory? == s[j].entry.kind.Directory? ==> !LexLess(s[j].relative, s[i].relative)
      {
        assert !Precedes(s[j], s[i]);
      }
    }
  }

  /** The list holds exactly the nodes with no excluded name on their path, each under its names joined by slashes. */
  lemma ListingIsExact(site: Site, s: seq<Listed>, x: Listed)
    requires IsListing(site, s)
    ensures x in s <==> exists names: seq<Name>, e: Entry :: NodeAt(site, site.base, names, e) && x == Listed(Joined(names), e)
  {
    assert x in s <==> x in multiset(s);
    if x in s {
      var names, e := BelowIsANode(site, site.base, x);
      RelativePathIsTheNames(site.base, names);
    }
    if names: seq<Name>, e: Entry :| NodeAt(site, site.base, names, e) && x == Listed(Joined(names), e) {
      NodeIsBelow(site, site.base, names, e);
      RelativePathIsTheNames(site.base, names);
    }
  }

  lemma ListedOnce(site: Site, s: seq<Listed>, i: nat, j: nat)
    requires DistinctNames(site) && IsListing(site, s) && i < j < |s|
    ensures s[i].relative != s[j].relative
  {
    assert s[i] in multiset(s) && s[j] in multiset(s);
    OnceBelow(site, [], s[i]);
    NoneTwice(s, i, j);
    if s[i].relative == s[j].relative {
      OnePathOneNode(site, s[i], s[j]);
    }
  }

  lemma NoneTwice(s: seq<Listed>, i: nat, j: nat)
    requires i < j < |s| && multiset(s)[s[i]] <= 1
    ensures s[i] != s[j]
  {
    assert s == s[..j] + [s[j]] + s[j + 1..];
    assert s[i] in multiset(s[..j]) by { assert s[..j][i] == s[i]; }
    assert multiset(s) == multiset(s[..j]) + multiset{s[j]} + multiset(s[j + 1..]);
  }

  /** The recursive and the explicit-stack walk end in the same list, or both fail. */
  lemma ListingsAgree(sftp: Site, ftp: Site, a: seq<Listed>, b: seq<Listed>)
    requires SameRemote(sftp, ftp) && DistinctNames(sftp)
    requires IsListing(sftp, a) && IsListing(ftp, b)
    ensures a == b
  {
    SameBelow(sftp, ftp, sftp.base);
    assert PathsTell(multiset(a)) by {
      forall x, y | x in multiset(a) && y in multiset(a) && x.relative == y.relative
        ensures x == y
      {
        OnePathOneNode(sftp, x, y);
      }
    }
    SortedOneWay(a, b);
  }

  function Insert(x: Listed, s: seq<Listed>): (r: seq<Listed>)
    requires Sorted(s)
    ensures Sorted(r) && multiset(r) == multiset(s) + multiset{x}
  {
    if s == [] then [x]
    else if Precedes(s[0], x) then
      var r := Insert(x, s[1..]);
      assert s == [s[0]] + s[1..];
      SortedCons(s[0], x, s[1..], r);
      [s[0]] + r
    else
      SortedFront(x, s);
      [x] + s
  }

  lemma SortedCons(first: Listed, x: Listed, rest: seq<Listed>, r: seq<Listed>)
    requires Precedes(first, x) && Sorted([first] + rest) && Sorted(r) && multiset(r) == multiset(rest) + multiset{x}
    ensures Sorted([first] + r)
  {
    forall k | 0 <= k < |r|
      ensures !Precedes(r[k], first)
    {
      assert r[k] in multiset(r);
      assert r[k] == x || r[k] in multiset(rest);
      if r[k] == x {
        if first.entry.kind.Directory? == x.entry.kind.Directory? { LexAsymmetric(first.relative, x.relative); }
      } else {
        assert r[k] in rest;
        var i :| 0 <= i < |rest| && rest[i] == r[k];
        assert ([first] + rest)[0] == first && ([first] + rest)[i + 1] == r[k];
      }
    }
  }

  lemma SortedFront(x: Listed, s: seq<Listed>)
    requires s != [] && Sorted(s) && !Precedes(s[0], x)
    ensures Sorted([x] + s)
  {
    forall k | 0 <= k < |s|
      ensures !Precedes(s[k], x)
    {
      LexTotal(s[0].relative, s[k].relative);
      LexTotal(s[0].relative, x.relative);
      if Precedes(s[k], x) && k > 0 {
        assert !Precedes(s[k], s[0]);
        if LexLess(s[0].relative, s[k].relative) && LexLess(s[k].relative, x.relative) {
          LexTransitive(s[0].relative, s[k].relative, x.relative);
        }
      }
    }
  }

  method SortListed(found: seq<Listed>) returns (s: seq<Listed>)
    ensures Sorted(s) && multiset(s) == multiset(found)
  {
    s := [];
    for k := 0 to |found|
      invariant Sorted(s) && multiset(s) == multiset(found[..k])
    {
      assert found[..k + 1] == found[..k] + [found[k]];
      s := Insert(found[k], s);
    }
    assert found[..|found|] == found;
  }

  method ListSftp(site: Site) returns (ok: bool, s: seq<Listed>)
    ensures ok <==> Readable(site, site.base)
    ensures ok ==> IsListing(site, s) && DirectoriesFirst(s)
  {
    s := [];
    ok, s := WalkSftp(site, site.base, []);
    if ok {
      s := SortListed(s);
      SortedIsDirectoriesFirst(s);
    }
  }

  method ListFtp(site: Site) returns (ok: bool, s: seq<Listed>)
    ensures ok <==> Readable(site, site.base)
    ensures ok ==> IsListing(site, s) && DirectoriesFirst(s)
  {
    ok, s := WalkFtp(site);
    if ok {
      s := SortListed(s);
      SortedIsDirectoriesFirst(s);
    }
  }
}
