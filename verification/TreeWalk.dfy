/**
 * The two recursive listings of a remote directory: the SFTP walk recurses into
 * each directory where it is found, the FTP walk keeps a stack of paths. Both
 * name directories by path strings and filter excluded names.
 */
module TreeWalk {
  import opened Wrappers
  import opened Text

  datatype Kind = Directory | File | Symlink

  datatype Entry = Entry(name: Name, size: nat, modified: Option<string>, kind: Kind)

  datatype Listed = Listed(relative: string, entry: Entry)

  /** A walk's input: the start path, the exclude patterns, and what listing each path returns (absent: it fails). */
  datatype Site = Site(base: string, patterns: seq<string>, listing: map<string, seq<Entry>>)

  // ---------- Exclude patterns ----------

  /** `*.ext` excludes by extension, anything else by the whole name. */
  predicate Matches(name: string, pattern: string) {
    if "*." <= pattern
    then |name| >= |pattern| - 1 && name[|name| - (|pattern| - 1)..] == pattern[1..]
    else name == pattern
  }

  predicate Excluded(name: string, patterns: seq<string>) {
    exists k :: 0 <= k < |patterns| && Matches(name, patterns[k])
  }

  ghost predicate EndsIn(name: string, ending: string) {
    exists stem :: name == stem + ending
  }

  /** What a pattern means: `*.ext` any stem with `.ext` behind it, anything else itself. */
  ghost predicate Means(pattern: string, name: string) {
    if "*." <= pattern then EndsIn(name, pattern[1..]) else name == pattern
  }

  lemma PatternsMatch(name: string, pattern: string)
    ensures Matches(name, pattern) <==> Means(pattern, name)
  {
    if "*." <= pattern {
      if Matches(name, pattern) {
        assert name == name[..|name| - (|pattern| - 1)] + pattern[1..];
      }
      if stem :| name == stem + pattern[1..] {
        assert name[|stem|..] == pattern[1..];
      }
    }
  }

  method MatchesExclude(name: string, patterns: seq<string>) returns (excluded: bool)
    ensures excluded <==> Excluded(name, patterns)
    ensures excluded <==> exists k :: 0 <= k < |patterns| && Means(patterns[k], name)
  {
    forall k | 0 <= k < |patterns|
      ensures Matches(name, patterns[k]) <==> Means(patterns[k], name)
    {
      PatternsMatch(name, patterns[k]);
    }
    for k := 0 to |patterns|
      invariant forall j :: 0 <= j < k ==> !Matches(name, patterns[j])
    {
      var pattern := patterns[k];
      if "*." <= pattern {
        var extension := pattern[1..];
        if |extension| <= |name| && name[|name| - |extension|..] == extension {
          return true;
        }
      } else if name == pattern {
        return true;
      }
    }
    return false;
  }

  // ---------- Paths ----------

  function Join(dir: string, name: Name): (path: string)
    ensures |path| > |dir|
  {
    if dir == "/" then "/" + name else dir + "/" + name
  }

  function TrimSlashes(s: string): string {
    if s != [] && s[0] == '/' then TrimSlashes(s[1..]) else s
  }

  /** The path less the start directory and leading separators. */
  function Relative(base: string, path: string): string {
    TrimSlashes(if base <= path then path[|base|..] else path)
  }

  /** The path strings the walks build on the way down. */
  function PathTo(dir: string, names: seq<Name>): string
    decreases names
  {
    if names == [] then dir else PathTo(Join(dir, names[0]), names[1..])
  }

  lemma {:induction false} PathIsBaseAndNames(dir: string, names: seq<Name>)
    requires names != []
    ensures PathTo(dir, names) == (if dir == "/" then "/" else dir + "/") + Joined(names)
    decreases names
  {
    if |names| > 1 {
      PathIsBaseAndNames(Join(dir, names[0]), names[1..]);
      assert Join(dir, names[0]) != "/";
    }
  }

  /** Whatever the start path looks like, the relative path is the names joined. */
  lemma RelativePathIsTheNames(base: string, names: seq<Name>)
    requires names != []
    ensures Relative(base, PathTo(base, names)) == Joined(names)
  {
    PathIsBaseAndNames(base, names);
    var path := PathTo(base, names);
    assert Joined(names) != [] && Joined(names)[0] == names[0][0] != '/';
    if base == "/" {
      assert path[|base|..] == Joined(names);
    } else {
      assert path == base + ("/" + Joined(names));
      assert base <= path && path[|base|..] == "/" + Joined(names);
      assert ("/" + Joined(names))[1..] == Joined(names);
      assert TrimSlashes(Joined(names)) == Joined(names);
    }
  }

  lemma {:induction false} PathThen(dir: string, names: seq<Name>, last: Name)
    ensures PathTo(dir, names + [last]) == Join(PathTo(dir, names), last)
    decreases names
  {
    if names == [] {
      assert PathTo(Join(dir, last), [last][1..]) == Join(dir, last);
    } else {
      assert (names + [last])[1..] == names[1..] + [last];
      PathThen(Join(dir, names[0]), names[1..], last);
    }
  }

  // ---------- What a walk should find ----------

  ghost function Longest(paths: set<string>): (n: nat)
    ensures forall p :: p in paths ==> |p| <= n
  {
    if paths == {} then 0 else
      var p :| p in paths;
      var n := Longest(paths - {p});
      if |p| > n then |p| else n
  }

  /** Everything below `dir`, excluded names and what is below them left out. */
  ghost function Below(site: Site, dir: string): multiset<Listed>
    decreases Longest(site.listing.Keys) - |dir|, 2, 0
  {
    if dir in site.listing then BelowEntries(site, dir, site.listing[dir]) else multiset{}
  }

  ghost function BelowEntries(site: Site, dir: string, entries: seq<Entry>): multiset<Listed>
    requires dir in site.listing
    decreases Longest(site.listing.Keys) - |dir|, 1, |entries|
  {
    if entries == [] then multiset{}
    else BelowEntries(site, dir, entries[..|entries| - 1]) + BelowEntry(site, dir, entries[|entries| - 1])
  }

  ghost function BelowEntry(site: Site, dir: string, e: Entry): multiset<Listed>
    requires dir in site.listing
    decreases Longest(site.listing.Keys) - |dir|, 0, 0
  {
    if Excluded(e.name, site.patterns) then multiset{}
    else multiset{ListedAt(site, dir, e)} + if e.kind.Directory? then Below(site, Join(dir, e.name)) else multiset{}
  }

  function ListedAt(site: Site, dir: string, e: Entry): Listed {
    Listed(Relative(site.base, Join(dir, e.name)), e)
  }

  /** Every directory met on the way can be listed. */
  ghost predicate Readable(site: Site, dir: string)
    decreases Longest(site.listing.Keys) - |dir|, 2, 0
  {
    dir in site.listing && ReadableEntries(site, dir, site.listing[dir])
  }

  ghost predicate ReadableEntries(site: Site, dir: string, entries: seq<Entry>)
    requires dir in site.listing
    decreases Longest(site.listing.Keys) - |dir|, 1, |entries|
  {
    forall k :: 0 <= k < |entries| ==> ReadableEntry(site, dir, entries[k])
  }

  ghost predicate ReadableEntry(site: Site, dir: string, e: Entry)
    requires dir in site.listing
    decreases Longest(site.listing.Keys) - |dir|, 0, 0
  {
    e.kind.Directory? && !Excluded(e.name, site.patterns) ==> Readable(site, Join(dir, e.name))
  }

  lemma NextEntry(site: Site, dir: string, entries: seq<Entry>, k: nat)
    requires dir in site.listing && k < |entries|
    ensures BelowEntries(site, dir, entries[..k + 1]) == BelowEntries(site, dir, entries[..k]) + BelowEntry(site, dir, entries[k])
    ensures ReadableEntries(site, dir, entries[..k + 1]) <==> ReadableEntries(site, dir, entries[..k]) && ReadableEntry(site, dir, entries[k])
  {
    assert entries[..k + 1] == entries[..k] + [entries[k]];
    assert entries[..k + 1][..k] == entries[..k];
  }

  lemma Regroup(
    done: multiset<Listed>, left: multiset<Listed>, before: multiset<Listed>, seen: multiset<Listed>,
    own: multiset<Listed>, sub: multiset<Listed>)
    requires done + left == before + seen
    ensures (done + own) + (left + sub) == before + (seen + (own + sub))
    ensures done + own + sub + left == before + (seen + (own + sub))
  {
    assert (done + own) + (left + sub) == (done + left) + (own + sub);
    assert done + own + sub + left == (done + left) + (own + sub);
    assert (before + seen) + (own + sub) == before + (seen + (own + sub));
  }

  // ---------- The recursive walk ----------

  method WalkSftp(site: Site, current: string, found: seq<Listed>) returns (ok: bool, results: seq<Listed>)
    ensures ok <==> Readable(site, current)
    ensures ok ==> multiset(results) == multiset(found) + Below(site, current)
    decreases Longest(site.listing.Keys) - |current|
  {
    results := found;
    if current !in site.listing {
      return false, results;
    }
    var entries := site.listing[current];
    for k := 0 to |entries|
      invariant ReadableEntries(site, current, entries[..k])
      invariant multiset(results) == multiset(found) + BelowEntries(site, current, entries[..k])
    {
      var entry := entries[k];
      NextEntry(site, current, entries, k);
      var excluded := MatchesExclude(entry.name, site.patterns);
      if excluded {
        continue;
      }
      var fullPath := Join(current, entry.name);
      ghost var own, sub := multiset{ListedAt(site, current, entry)}, if entry.kind.Directory? then Below(site, fullPath) else multiset{};
      Regroup(multiset(results), multiset{}, multiset(found), BelowEntries(site, current, entries[..k]), own, sub);
      results := results + [Listed(Relative(site.base, fullPath), entry)];
      if entry.kind.Directory? {
        ok, results := WalkSftp(site, fullPath, results);
        if !ok {
          return false, results;
        }
      }
    }
    assert entries[..|entries|] == entries;
    return true, results;
  }

  // ---------- The explicit-stack walk ----------

  ghost function BelowAll(site: Site, dirs: seq<string>): multiset<Listed> {
    if dirs == [] then multiset{} else BelowAll(site, dirs[..|dirs| - 1]) + Below(site, dirs[|dirs| - 1])
  }

  ghost predicate ReadableAll(site: Site, dirs: seq<string>) {
    forall k :: 0 <= k < |dirs| ==> Readable(site, dirs[k])
  }

  lemma Pushed(site: Site, dirs: seq<string>, dir: string)
    ensures ReadableAll(site, dirs + [dir]) <==> ReadableAll(site, dirs) && Readable(site, dir)
    ensures BelowAll(site, dirs + [dir]) == BelowAll(site, dirs) + Below(site, dir)
  {
    var all := dirs + [dir];
    assert all[..|dirs|] == dirs && all[|dirs|] == dir;
    assert forall k :: 0 <= k < |dirs| ==> all[k] == dirs[k];
  }

  /** The loop ends because directories on the stack and unvisited nodes below them run out. */
  method WalkFtp(site: Site) returns (ok: bool, results: seq<Listed>)
    ensures ok <==> Readable(site, site.base)
    ensures ok ==> multiset(results) == Below(site, site.base)
  {
    results := [];
    var dirsToVisit := [site.base];
    Pushed(site, [], site.base);
    assert [] + [site.base] == dirsToVisit;
    while dirsToVisit != []
      invariant Readable(site, site.base) <==> ReadableAll(site, dirsToVisit)
      invariant multiset(results) + BelowAll(site, dirsToVisit) == Below(site, site.base)
      decreases |dirsToVisit| + |BelowAll(site, dirsToVisit)|
    {
      var dir := dirsToVisit[|dirsToVisit| - 1];
      var rest := dirsToVisit[..|dirsToVisit| - 1];
      assert dirsToVisit == rest + [dir];
      Pushed(site, rest, dir);
      if dir !in site.listing {
        return false, results;
      }
      var more, pushed := VisitFtp(site, dir, rest);
      Conserved(multiset(results), multiset(more), BelowAll(site, pushed), BelowAll(site, rest) + Below(site, dir));
      results := results + more;
      dirsToVisit := pushed;
    }
    return true, results;
  }

  lemma Conserved(done: multiset<Listed>, more: multiset<Listed>, left: multiset<Listed>, before: multiset<Listed>)
    requires more + left == before
    ensures done + more + left == done + before
    ensures |left| == |before| - |more|
  {
    assert |more + left| == |more| + |left|;
  }

  /** What has been kept and pushed accounts for the entries seen so far of a directory. */
  ghost predicate Accounted(site: Site, dir: string, rest: seq<string>, seen: seq<Entry>, results: seq<Listed>, dirs: seq<string>)
    requires dir in site.listing
  {
    && (ReadableAll(site, dirs) <==> ReadableAll(site, rest) && ReadableEntries(site, dir, seen))
    && multiset(results) + BelowAll(site, dirs) == BelowAll(site, rest) + BelowEntries(site, dir, seen)
    && |dirs| <= |rest| + |results|
  }

  lemma AccountNext(
    site: Site, dir: string, rest: seq<string>, entries: seq<Entry>, k: nat, results: seq<Listed>, dirs: seq<string>)
    requires dir in site.listing && k < |entries| && Accounted(site, dir, rest, entries[..k], results, dirs)
    ensures var e := entries[k]; var results' := results + [ListedAt(site, dir, e)]; var seen := entries[..k + 1];
            if Excluded(e.name, site.patterns) then Accounted(site, dir, rest, seen, results, dirs)
            else if e.kind.Directory? then Accounted(site, dir, rest, seen, results', dirs + [Join(dir, e.name)])
            else Accounted(site, dir, rest, seen, results', dirs)
  {
    var e := entries[k];
    var path := Join(dir, e.name);
    NextEntry(site, dir, entries, k);
    if !Excluded(e.name, site.patterns) {
      var own, sub := multiset{ListedAt(site, dir, e)}, if e.kind.Directory? then Below(site, path) else multiset{};
      Regroup(multiset(results), BelowAll(site, dirs), BelowAll(site, rest), BelowEntries(site, dir, entries[..k]), own, sub);
      assert multiset(results + [ListedAt(site, dir, e)]) == multiset(results) + own;
      if e.kind.Directory? { Pushed(site, dirs, path); } else { assert BelowAll(site, dirs) + sub == BelowAll(site, dirs); }
    }
  }

  /** The body of the loop: one directory listed, its entries kept, its directories pushed. */
  method VisitFtp(site: Site, dir: string, rest: seq<string>) returns (results: seq<Listed>, dirsToVisit: seq<string>)
    requires dir in site.listing
    ensures Accounted(site, dir, rest, site.listing[dir], results, dirsToVisit)
  {
    results, dirsToVisit := [], rest;
    var entries := site.listing[dir];
    for k := 0 to |entries|
      invariant Accounted(site, dir, rest, entries[..k], results, dirsToVisit)
    {
      var entry := entries[k];
      AccountNext(site, dir, rest, entries, k, results, dirsToVisit);
      var excluded := MatchesExclude(entry.name, site.patterns);
      if excluded {
        continue;
      }
      var fullPath := Join(dir, entry.name);
      results := results + [Listed(Relative(site.base, fullPath), entry)];
      if entry.kind.Directory? {
        dirsToVisit := dirsToVisit + [fullPath];
      }
    }
    assert entries[..|entries|] == entries;
  }
}
