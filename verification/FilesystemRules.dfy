/**
 What the filesystem source promises, told by the tree and the patterns alone: which files are archived, which
 directories are reported, when there is nothing to back up, and that no file is archived twice.
 */
module FilesystemRules {
  import opened Wrappers
  import opened FilesystemWalk
  import Globs
  import Order

  // ---- The tree ----

  /** The node is at the end of the path: each name on it is that of an entry of the directory before. */
  ghost predicate StandsAt(node: Node, path: Path, target: Node)
    decreases |path|
  {
    if path == [] then node == target
    else node.Dir? && exists e: Entry :: e in node.entries && e.name == path[0] && StandsAt(e.node, path[1..], target)
  }

  /** No directory holds two entries of the same name. */
  ghost predicate IsTree(node: Node)
    decreases node
  {
    node.Dir? ==> AreTrees(node.entries)
  }

  ghost predicate AreTrees(entries: seq<Entry>)
    decreases entries
  {
    entries != [] ==>
      && IsTree(entries[0].node) && AreTrees(entries[1..])
      && forall e: Entry :: e in entries[1..] ==> e.name != entries[0].name
  }

  lemma {:induction false} NamedIs(entries: seq<Entry>, e: Entry)
    requires AreTrees(entries)
    ensures e in entries <==> Named(entries, e.name) == Some(e.node)
    ensures e in entries ==> IsTree(e.node)
  {
    if entries != [] {
      NamedIs(entries[1..], e);
      assert e in entries <==> e == entries[0] || e in entries[1..];
      assert entries[0] == Entry(entries[0].name, entries[0].node);
      if entries[0].name == e.name {
        assert e !in entries[1..];
      }
    }
  }

  /** A path leads to at most one node, and looking it up finds that node. */
  lemma {:induction false} LookupFinds(node: Node, path: Path, target: Node)
    requires IsTree(node)
    ensures Lookup(node, path) == Some(target) <==> StandsAt(node, path, target)
    decreases |path|
  {
    if path != [] && node.Dir? {
      forall e: Entry | e in node.entries && e.name == path[0]
        ensures Named(node.entries, path[0]) == Some(e.node) && IsTree(e.node)
      {
        NamedIs(node.entries, e);
      }
      var found := Named(node.entries, path[0]);
      if found.Some? {
        assert Entry(path[0], found.value) in node.entries;
        LookupFinds(found.value, path[1..], target);
      }
    }
  }

  /** A path below the configured one as the patterns see it: its names with a slash between them. */
  lemma {:induction false} PosixIs(path: Path, name: string)
    ensures Posix([name]) == name
    ensures path != [] ==> Posix(path + [name]) == Posix(path) + "/" + name
  {
    if path != [] {
      PosixBelow(path, [name]);
    }
  }

  // ---- What is walked ----

  /** Every directory on the way, the first one included, can be listed. */
  ghost predicate IsOpenWay(node: Node, way: Path, target: Node)
    decreases |way|
  {
    if way == [] then node == target
    else
      node.Dir? && node.listable
      && exists e: Entry :: e in node.entries && e.name == way[0] && IsOpenWay(e.node, way[1..], target)
  }

  lemma {:induction false} ReachedEverywhere(node: Node, path: Path, full: Path, target: Node)
    requires path <= full
    ensures Reached(node, path, full, Everywhere(), target) <==> IsOpenWay(node, full[|path|..], target)
    decreases |full| - |path|
  {
    if full != path {
      var way := full[|path|..];
      assert way[0] == full[|path|];
      forall e: Entry | e.name == full[|path|]
        ensures path + [e.name] <= full
        ensures Reached(e.node, path + [e.name], full, Everywhere(), target) <==> IsOpenWay(e.node, way[1..], target)
      {
        assert path + [e.name] == full[..|path| + 1];
        assert full[|path| + 1..] == way[1..];
        ReachedEverywhere(e.node, path + [e.name], full, target);
      }
    }
  }

  /** A root to walk from: a configured one, or the configured path itself if there are none. */
  predicate IsRoot(subdirs: seq<Path>, root: Path) {
    root in subdirs || (subdirs == [] && root == [])
  }

  lemma RootsAre(subdirs: seq<Path>)
    ensures forall root :: root in Roots(subdirs) <==> IsRoot(subdirs, root)
  {
  }

  /** Below a root and open from there. */
  ghost predicate IsOpen(base: Node, subdirs: seq<Path>, path: Path, target: Node) {
    exists root :: IsRoot(subdirs, root) && root < path && IsOpenFrom(base, root, path, target)
  }

  ghost predicate IsOpenFrom(base: Node, root: Path, path: Path, target: Node)
    requires root <= path
  {
    Lookup(base, root).Some? && IsOpenWay(Lookup(base, root).value, path[|root|..], target)
  }

  lemma OpenMeans(base: Node, subdirs: seq<Path>, path: Path, readable: bool)
    ensures IsOpen(base, subdirs, path, File(readable)) <==>
      exists root :: root in Roots(subdirs) && FileBelow(base, root, path, Everywhere(), readable)
  {
    RootsAre(subdirs);
    forall root | root < path
      ensures IsOpenFrom(base, root, path, File(readable)) <==> FileBelow(base, root, path, Everywhere(), readable)
    {
      if Lookup(base, root).Some? {
        ReachedEverywhere(Lookup(base, root).value, root, path, File(readable));
      }
    }
    if IsOpen(base, subdirs, path, File(readable)) {
      var root :| IsRoot(subdirs, root) && root < path && IsOpenFrom(base, root, path, File(readable));
      assert root in Roots(subdirs) && FileBelow(base, root, path, Everywhere(), readable);
    }
    if root :| root in Roots(subdirs) && FileBelow(base, root, path, Everywhere(), readable) {
      assert IsRoot(subdirs, root) && IsOpenFrom(base, root, path, File(readable));
    }
  }

  ghost predicate NoPatternMatches(ex: Excludes, path: Path) {
    forall pattern :: pattern in ex.patterns ==> !Globs.Fnmatch(Posix(path), pattern, ex.charset)
  }

  /**
   Archived is each readable file that no pattern matches and whose directories can all be listed from a root on;
   where it cannot be read, it is reported.
   */
  lemma ArchivedByPatterns(base: Node, subdirs: seq<Path>, ex: Excludes, path: Path)
    requires Outcome(Some(base), subdirs, ex).Component?
    ensures path in Outcome(Some(base), subdirs, ex).archived <==>
      NoPatternMatches(ex, path) && IsOpen(base, subdirs, path, File(true))
    ensures FileNotReadable(path) in Outcome(Some(base), subdirs, ex).skipped <==>
      NoPatternMatches(ex, path) && IsOpen(base, subdirs, path, File(false))
  {
    ArchivedExactly(base, subdirs, ex, path);
    OpenMeans(base, subdirs, path, true);
    OpenMeans(base, subdirs, path, false);
  }

  /** There is nothing to back up exactly if the path is walked from and is no directory that can be listed. */
  lemma NotReadableExactly(base: Node, subdirs: seq<Path>, ex: Excludes)
    ensures Outcome(None, subdirs, ex) == PathNotFound
    ensures Outcome(Some(base), subdirs, ex) != PathNotFound
    ensures Outcome(Some(base), subdirs, ex) == PathNotReadable <==>
      IsRoot(subdirs, []) && !(base.Dir? && base.listable)
  {
    var roots := Roots(subdirs);
    RootsAre(subdirs);
    UnlistedExactly(base, roots, Unpruned(ex), []);
    if IsRoot(subdirs, []) && !(base.Dir? && base.listable) {
      assert Reached(base, [], [], Unpruned(ex), base);
      assert UnlistedBelow(base, [], [], Unpruned(ex));
    }
    if root :| root in roots && UnlistedBelow(base, root, [], Unpruned(ex)) {
      assert root == [] && Lookup(base, root) == Some(base);
    }
  }

  // ---- Directories that are left out ----

  /** A pattern for all that lies below it leaves out the directory. */
  ghost predicate IsLeftOut(ex: Excludes, dir: Path) {
    exists stem :: stem + "/*" in ex.patterns && Globs.Fnmatch(Posix(dir), stem, ex.charset)
  }

  lemma PrunedIsLeftOut(ex: Excludes, dir: Path)
    ensures Pruned(ex, dir) <==> IsLeftOut(ex, dir)
  {
    if Pruned(ex, dir) {
      var pattern :| pattern in ex.patterns && EndsInSlashStar(pattern)
        && Globs.Fnmatch(Posix(dir), pattern[..|pattern| - 2], ex.charset);
      assert pattern == pattern[..|pattern| - 2] + "/*";
    }
    if stem :| stem + "/*" in ex.patterns && Globs.Fnmatch(Posix(dir), stem, ex.charset) {
      var pattern := stem + "/*";
      assert pattern[|pattern| - 2..] == "/*" && pattern[..|pattern| - 2] == stem;
    }
  }

  /** None of the directories after the first `from` names of the path is left out. */
  ghost predicate NoneLeftOut(ex: Excludes, path: Path, from: nat) {
    forall k :: from < k <= |path| ==> !IsLeftOut(ex, path[..k])
  }

  lemma OneMoreLeftOut(ex: Excludes, path: Path, from: nat)
    requires from < |path|
    ensures NoneLeftOut(ex, path, from) <==> !IsLeftOut(ex, path[..from + 1]) && NoneLeftOut(ex, path, from + 1)
  {
    if !IsLeftOut(ex, path[..from + 1]) && NoneLeftOut(ex, path, from + 1) {
      forall k | from < k <= |path| ensures !IsLeftOut(ex, path[..k]) {
        assert k == from + 1 || from + 1 < k;
      }
    }
  }

  lemma {:induction false} ReachedUnpruned(node: Node, path: Path, full: Path, ex: Excludes, target: Node)
    requires path <= full && (target.Dir? || path == full)
    ensures Reached(node, path, full, Unpruned(ex), target) <==>
      IsOpenWay(node, full[|path|..], target) && NoneLeftOut(ex, full, |path|)
    decreases |full| - |path|
  {
    if full != path {
      var way, next := full[|path|..], full[..|path| + 1];
      assert way[0] == full[|path|];
      PrunedIsLeftOut(ex, next);
      OneMoreLeftOut(ex, full, |path|);
      forall e: Entry | e.name == full[|path|]
        ensures path + [e.name] == next && next <= full
        ensures Reached(e.node, next, full, Unpruned(ex), target) <==>
          IsOpenWay(e.node, way[1..], target) && NoneLeftOut(ex, full, |path| + 1)
      {
        assert path + [e.name] == next && full[|path| + 1..] == way[1..];
        ReachedUnpruned(e.node, next, full, ex, target);
      }
      forall e: Entry | e.name == full[|path|] && IsOpenWay(e.node, way[1..], target) ensures e.node.Dir? {
        assert way[1..] == [] ==> e.node == target;
      }
    }
  }

  /** The place cannot be listed, though all that leads there from the root can, and nothing on the way is left out. */
  ghost predicate IsShut(base: Node, root: Path, dir: Path, ex: Excludes)
    requires root <= dir
  {
    NoneLeftOut(ex, dir, |root|)
    && exists x: Node :: IsOpenFrom(base, root, dir, x) && !(x.Dir? && x.listable) && (x.Dir? || dir == root)
  }

  lemma ShutMeans(base: Node, root: Path, dir: Path, ex: Excludes)
    requires root <= dir
    ensures IsShut(base, root, dir, ex) <==> UnlistedBelow(base, root, dir, Unpruned(ex))
  {
    if Lookup(base, root).Some? {
      forall x: Node | x.Dir? || dir == root
        ensures Reached(Lookup(base, root).value, root, dir, Unpruned(ex), x) <==>
          IsOpenFrom(base, root, dir, x) && NoneLeftOut(ex, dir, |root|)
      {
        ReachedUnpruned(Lookup(base, root).value, root, dir, ex, x);
      }
    }
  }

  /**
   Reported is each directory below a root that cannot be listed, and a root that is none - unless it is a
   `lost+found`, or a pattern leaves it or a directory above it out.
   */
  lemma DirsReportedByPatterns(base: Node, subdirs: seq<Path>, ex: Excludes, dir: Path)
    requires Outcome(Some(base), subdirs, ex).Component?
    ensures DirNotReadable(dir) in Outcome(Some(base), subdirs, ex).skipped <==>
      && dir != [] && dir[|dir| - 1] != "lost+found"
      && exists root :: IsRoot(subdirs, root) && root <= dir && IsShut(base, root, dir, ex)
  {
    DirsReportedExactly(base, subdirs, ex, dir);
    RootsAre(subdirs);
    forall root | root <= dir ensures IsShut(base, root, dir, ex) <==> UnlistedBelow(base, root, dir, Unpruned(ex)) {
      ShutMeans(base, root, dir, ex);
    }
    if exists root :: IsRoot(subdirs, root) && root <= dir && IsShut(base, root, dir, ex) {
      var root :| IsRoot(subdirs, root) && root <= dir && IsShut(base, root, dir, ex);
      assert root in Roots(subdirs) && UnlistedBelow(base, root, dir, Unpruned(ex));
    }
    if root :| root in Roots(subdirs) && UnlistedBelow(base, root, dir, Unpruned(ex)) {
      assert IsRoot(subdirs, root) && root <= dir && IsShut(base, root, dir, ex);
    }
  }

  // ---- No file is archived twice ----

  /** No two of these files stand at one path. */
  ghost predicate OnePerPath(items: seq<Item>) {
    forall i, j :: 0 <= i < j < |items| ==> items[i].path != items[j].path
  }

  /** No two of these events are about a file at one path. */
  ghost predicate SeenOnce(events: seq<Event>) {
    forall i, j :: 0 <= i < j < |events| && events[i].Seen? && events[j].Seen? ==>
      events[i].item.path != events[j].item.path
  }

  lemma SeenOnceOfBoth(a: seq<Event>, b: seq<Event>)
    requires SeenOnce(a) && SeenOnce(b)
    requires forall x, y :: x in a && y in b && x.Seen? && y.Seen? ==> x.item.path != y.item.path
    ensures SeenOnce(a + b)
  {
  }

  lemma {:induction false} FilesSeenOnce(entries: seq<Entry>, path: Path)
    requires AreTrees(entries)
    ensures SeenOnce(FilesIn(entries, path))
    ensures forall ev :: ev in FilesIn(entries, path) ==>
      ev.Seen? && exists e: Entry :: e in entries && ev.item.path == path + [e.name]
  {
    if entries != [] {
      FilesSeenOnce(entries[1..], path);
      assert forall e: Entry :: e in entries <==> e == entries[0] || e in entries[1..];
      forall x, y | x in FileEvent(entries[0], path) && y in FilesIn(entries[1..], path)
        ensures x.item.path != y.item.path
      {
        var e :| e in entries[1..] && y.item.path == path + [e.name];
        assert (path + [e.name])[|path|] == e.name && (path + [entries[0].name])[|path|] == entries[0].name;
      }
      SeenOnceOfBoth(FileEvent(entries[0], path), FilesIn(entries[1..], path));
    }
  }

  /** What a walk of a directory sees lies below it. */
  lemma SeenBelow(node: Node, path: Path, enter: Enter)
    ensures forall ev :: ev in Events(node, path, enter) && ev.Seen? ==> path < ev.item.path
  {
    forall ev | ev in Events(node, path, enter) && ev.Seen? ensures path < ev.item.path {
      EventsHold(node, path, enter, ev);
    }
  }

  /** The events below one of the entries. */
  ghost predicate IsWithin(entries: seq<Entry>, path: Path, ev: Event) {
    ev.Seen? ==> exists e: Entry :: e in entries && path + [e.name] < ev.item.path
  }

  lemma {:induction false} EventsSeenOnce(node: Node, path: Path, enter: Enter)
    requires IsTree(node)
    ensures SeenOnce(Events(node, path, enter))
    decreases node
  {
    if Listable(node) {
      var files, deeper := FilesIn(node.entries, path), Deeper(node.entries, path, enter);
      FilesSeenOnce(node.entries, path);
      DeeperSeenOnce(node.entries, path, enter);
      forall x, y | x in files && y in deeper && x.Seen? && y.Seen? ensures x.item.path != y.item.path {
        assert IsWithin(node.entries, path, y);
      }
      SeenOnceOfBoth(files, deeper);
    }
  }

  lemma {:induction false} DeeperSeenOnce(entries: seq<Entry>, path: Path, enter: Enter)
    requires AreTrees(entries)
    ensures SeenOnce(Deeper(entries, path, enter))
    ensures forall ev :: ev in Deeper(entries, path, enter) ==> IsWithin(entries, path, ev)
    decreases entries
  {
    if entries != [] {
      var e, rest := entries[0], Deeper(entries[1..], path, enter);
      var here := if e.node.Dir? && enter(path + [e.name]) then Events(e.node, path + [e.name], enter) else [];
      DeeperSeenOnce(entries[1..], path, enter);
      EventsSeenOnce(e.node, path + [e.name], enter);
      SeenBelow(e.node, path + [e.name], enter);
      forall x, y | x in here && y in rest && x.Seen? && y.Seen? ensures x.item.path != y.item.path {
        assert IsWithin(entries[1..], path, y);
        var d :| d in entries[1..] && path + [d.name] < y.item.path;
        assert y.item.path[|path|] == (path + [d.name])[|path|] == d.name;
        assert x.item.path[|path|] == (path + [e.name])[|path|] == e.name;
      }
      SeenOnceOfBoth(here, rest);
      assert Deeper(entries, path, enter) == here + rest;
      forall ev | ev in here + rest ensures IsWithin(entries, path, ev) {
        if ev in rest {
          assert IsWithin(entries[1..], path, ev);
        } else if ev.Seen? {
          assert e in entries && path + [e.name] < ev.item.path;
        }
      }
    }
  }

  /** No root lies below another. */
  ghost predicate AreApart(roots: seq<Path>) {
    forall i, j :: 0 <= i < j < |roots| ==> !(roots[i] <= roots[j]) && !(roots[j] <= roots[i])
  }

  lemma {:induction false} LookupIsTree(node: Node, path: Path)
    requires IsTree(node)
    ensures Lookup(node, path).Some? ==> IsTree(Lookup(node, path).value)
    decreases |path|
  {
    if path != [] && node.Dir? {
      var found := Named(node.entries, path[0]);
      if found.Some? {
        NamedIs(node.entries, Entry(path[0], found.value));
        LookupIsTree(found.value, path[1..]);
      }
    }
  }

  lemma FromRootSeenOnce(base: Node, root: Path, enter: Enter)
    requires IsTree(base)
    ensures SeenOnce(TraceFrom(base, root, enter))
    ensures forall ev :: ev in TraceFrom(base, root, enter) && ev.Seen? ==> root <= ev.item.path
  {
    if Lookup(base, root).Some? {
      LookupIsTree(base, root);
      EventsSeenOnce(Lookup(base, root).value, root, enter);
      SeenBelow(Lookup(base, root).value, root, enter);
    }
  }

  /** A file below one of these roots. */
  ghost predicate IsUnder(roots: seq<Path>, ev: Event) {
    ev.Seen? ==> exists root :: root in roots && root <= ev.item.path
  }

  /** The first root's events and those of the others. */
  lemma ApartFromRest(roots: seq<Path>, x: Event, y: Event)
    requires roots != [] && AreApart(roots) && x.Seen? && y.Seen? && roots[0] <= x.item.path && IsUnder(roots[1..], y)
    ensures x.item.path != y.item.path
  {
    var root :| root in roots[1..] && root <= y.item.path;
    var j :| 0 <= j < |roots[1..]| && roots[1..][j] == root;
    assert roots[j + 1] == root;
    NotBoth(roots[0], root, x.item.path);
  }

  lemma NotBoth(a: Path, b: Path, path: Path)
    requires !(a <= b) && !(b <= a)
    ensures !(a <= path && b <= path)
  {
  }

  lemma {:induction false} TraceSeenOnce(base: Node, roots: seq<Path>, enter: Enter)
    requires IsTree(base) && AreApart(roots)
    ensures SeenOnce(Trace(base, roots, enter))
    ensures forall ev :: ev in Trace(base, roots, enter) ==> IsUnder(roots, ev)
  {
    if roots != [] {
      var here, rest := TraceFrom(base, roots[0], enter), Trace(base, roots[1..], enter);
      assert Trace(base, roots, enter) == here + rest;
      TraceSeenOnce(base, roots[1..], enter);
      FromRootSeenOnce(base, roots[0], enter);
      forall x, y | x in here && y in rest && x.Seen? && y.Seen? ensures x.item.path != y.item.path {
        ApartFromRest(roots, x, y);
      }
      SeenOnceOfBoth(here, rest);
      forall ev | ev in here + rest ensures IsUnder(roots, ev) {
        assert roots[0] in roots && forall root :: root in roots[1..] ==> root in roots;
        assert ev in rest ==> IsUnder(roots[1..], ev);
      }
    }
  }

  lemma {:induction false} KeptOnce(events: seq<Event>, ex: Excludes)
    requires SeenOnce(events)
    ensures OnePerPath(Kept(events, ex))
  {
    if events != [] {
      KeptOnce(events[1..], ex);
      forall item | item in Kept(events[1..], ex)
        ensures events[0].Seen? ==> item.path != events[0].item.path
      {
        InKept(events[1..], ex, item);
        var j :| 0 <= j < |events[1..]| && events[1..][j] == Seen(item);
        assert events[j + 1] == Seen(item);
      }
      var first, rest := KeptOf(events[0], ex), Kept(events[1..], ex);
      assert Kept(events, ex) == first + rest;
      assert forall i :: 0 <= i < |rest| ==> rest[i] in rest;
    }
  }

  lemma SortedOnce(items: seq<Item>)
    requires OnePerPath(items)
    ensures OnePerPath(SortedByName(items))
  {
    var sorted := SortedByName(items);
    Order.DistinctByMultiset(items, sorted);
    forall i, j | 0 <= i < j < |sorted| ensures sorted[i].path != sorted[j].path {
      SameMembers(items, sorted[i]);
      SameMembers(items, sorted[j]);
    }
  }

  lemma {:induction false} ArchivedOnce(items: seq<Item>)
    requires OnePerPath(items)
    ensures Order.Distinct(Archived(items))
  {
    if items != [] {
      ArchivedOnce(items[1..]);
      InArchived(items[1..], items[0].path);
    }
  }

  /** Where no root lies below another, no file is archived twice, and the count is that of the files. */
  lemma EachFileOnce(base: Node, subdirs: seq<Path>, ex: Excludes)
    requires IsTree(base) && AreApart(subdirs) && Outcome(Some(base), subdirs, ex).Component?
    ensures Order.Distinct(Outcome(Some(base), subdirs, ex).archived)
    ensures Outcome(Some(base), subdirs, ex).fileCount == |Outcome(Some(base), subdirs, ex).archived|
  {
    var trace := Trace(base, Roots(subdirs), Unpruned(ex));
    TraceSeenOnce(base, Roots(subdirs), Unpruned(ex));
    KeptOnce(trace, ex);
    SortedOnce(Kept(trace, ex));
    ArchivedOnce(SortedByName(Kept(trace, ex)));
  }
}
