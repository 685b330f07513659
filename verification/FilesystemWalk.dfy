/**
 The filesystem source: which files of a tree go into the archive, and what is reported as skipped. A
 directory that a `<dir>` + slash + star exclude matches is never entered.
 */
module FilesystemWalk {
  import opened Sequences
  import opened Wrappers
  import Globs
  import Order

  // ---- The tree ----

  datatype Node =
    | File(readable: bool)
    | Other  // neither a directory nor a regular file
    | Dir(listable: bool, entries: seq<Entry>)

  datatype Entry = Entry(name: string, node: Node)

  /** A path relative to the configured one; `[]` is the configured path itself. */
  type Path = seq<string>

  function Posix(path: Path): string {
    if path == [] then "."
    else if |path| == 1 then path[0]
    else path[0] + "/" + Posix(path[1..])
  }

  predicate Listable(node: Node) {
    node.Dir? && node.listable
  }

  function Named(entries: seq<Entry>, name: string): (r: Option<Node>)
    ensures r.Some? ==> Entry(name, r.value) in entries
  {
    if entries == [] then None
    else if entries[0].name == name then Some(entries[0].node)
    else Named(entries[1..], name)
  }

  /** What stands at a path below `node`, if anything does. */
  function Lookup(node: Node, path: Path): Option<Node>
    decreases |path|
  {
    if path == [] then Some(node)
    else if !node.Dir? then None
    else
      var next :- Named(node.entries, path[0]);
      Lookup(next, path[1..])
  }

  // ---- Excludes ----

  datatype Excludes = Excludes(patterns: seq<string>, charset: Globs.Charset)

  predicate Excluded(ex: Excludes, path: Path) {
    exists pat :: pat in ex.patterns && Globs.Fnmatch(Posix(path), pat, ex.charset)
  }

  predicate EndsInSlashStar(pat: string) {
    |pat| >= 2 && pat[|pat| - 2..] == Globs.SLASH_STAR
  }

  /** `_pruned` */
  predicate Pruned(ex: Excludes, path: Path) {
    exists pat :: pat in ex.patterns && EndsInSlashStar(pat) && Globs.Fnmatch(Posix(path), pat[..|pat| - 2], ex.charset)
  }

  // ---- What a walk comes across ----

  datatype Item = Item(path: Path, readable: bool)

  datatype Event = Seen(item: Item) | Unlisted(dir: Path)

  type Enter = Path -> bool

  function FilesIn(entries: seq<Entry>, path: Path): seq<Event> {
    if entries == [] then []
    else FileEvent(entries[0], path) + FilesIn(entries[1..], path)
  }

  function FileEvent(e: Entry, path: Path): seq<Event> {
    if e.node.File? then [Seen(Item(path + [e.name], e.node.readable))] else []
  }

  /** `os.walk` from the top: the files of a directory first, then its subdirectories that are entered, in order. */
  function Events(node: Node, path: Path, enter: Enter): seq<Event>
    decreases node
  {
    if Listable(node) then FilesIn(node.entries, path) + Deeper(node.entries, path, enter)
    else [Unlisted(path)]
  }

  function Deeper(entries: seq<Entry>, path: Path, enter: Enter): seq<Event>
    decreases entries
  {
    if entries == [] then []
    else
      var e := entries[0];
      (if e.node.Dir? && enter(path + [e.name]) then Events(e.node, path + [e.name], enter) else [])
      + Deeper(entries[1..], path, enter)
  }

  /** The walks from several roots, one after the other; a root that does not exist is passed over. */
  function Trace(base: Node, roots: seq<Path>, enter: Enter): seq<Event> {
    if roots == [] then []
    else
      (match Lookup(base, roots[0])
       case None => []
       case Some(node) => Events(node, roots[0], enter)) + Trace(base, roots[1..], enter)
  }

  function Unpruned(ex: Excludes): Enter {
    path => !Pruned(ex, path)
  }

  function Everywhere(): Enter {
    path => true
  }

  // ---- What is made of it ----

  datatype Report = DirNotReadable(path: Path) | FileNotReadable(path: Path)

  /** The files that no exclude matches. */
  function Kept(events: seq<Event>, ex: Excludes): seq<Item> {
    if events == [] then [] else KeptOf(events[0], ex) + Kept(events[1..], ex)
  }

  function KeptOf(event: Event, ex: Excludes): seq<Item> {
    match event
    case Seen(item) => if !Excluded(ex, item.path) then [item] else []
    case Unlisted(_) => []
  }

  /** The directories that could not be listed, but for `lost+found`. */
  function Skipped(events: seq<Event>): seq<Report> {
    if events == [] then [] else ReportOf(events[0]) + Skipped(events[1..])
  }

  function ReportOf(event: Event): seq<Report> {
    match event
    case Seen(_) => []
    case Unlisted(dir) => if dir != [] && dir[|dir| - 1] != "lost+found" then [DirNotReadable(dir)] else []
  }

  predicate ByName(a: Item, b: Item) {
    Order.Less(Posix(b.path), Posix(a.path))
  }

  /** `members.sort` by name */
  function SortedByName(items: seq<Item>): (r: seq<Item>)
    ensures multiset(r) == multiset(items)
  {
    Order.Descending(items, ByName)
  }

  function Opened(item: Item): seq<Path> {
    if item.readable then [item.path] else []
  }

  function NotOpened(item: Item): seq<Report> {
    if item.readable then [] else [FileNotReadable(item.path)]
  }

  function Archived(items: seq<Item>): seq<Path> {
    if items == [] then []
    else Opened(items[0]) + Archived(items[1..])
  }

  function Unopened(items: seq<Item>): seq<Report> {
    if items == [] then []
    else NotOpened(items[0]) + Unopened(items[1..])
  }

  datatype Produced =
    | PathNotFound
    | PathNotReadable
    | Component(archived: seq<Path>, fileCount: nat, skipped: seq<Report>)

  function Roots(subdirs: seq<Path>): seq<Path> {
    if subdirs == [] then [[]] else subdirs
  }

  function Outcome(base: Option<Node>, subdirs: seq<Path>, ex: Excludes): Produced {
    if base.None? then PathNotFound
    else
      var trace := Trace(base.value, Roots(subdirs), Unpruned(ex));
      if Unlisted([]) in trace then PathNotReadable
      else
        var members := SortedByName(Kept(trace, ex));
        Component(Archived(members), |Archived(members)|, Skipped(trace) + Unopened(members))
  }

  // ---- The source's own loops ----

  lemma {:induction false} FilesInConcat(a: seq<Entry>, b: seq<Entry>, path: Path)
    ensures FilesIn(a + b, path) == FilesIn(a, path) + FilesIn(b, path)
  {
    if a == [] {
      assert a + b == b;
    } else {
      HeadAndTail(a, b);
      FilesInConcat(a[1..], b, path);
      Grouped(FileEvent(a[0], path), FilesIn(a[1..], path), FilesIn(b, path));
    }
  }

  lemma {:induction false} DeeperConcat(a: seq<Entry>, b: seq<Entry>, path: Path, enter: Enter)
    ensures Deeper(a + b, path, enter) == Deeper(a, path, enter) + Deeper(b, path, enter)
  {
    if a == [] {
      assert a + b == b;
    } else {
      HeadAndTail(a, b);
      DeeperConcat(a[1..], b, path, enter);
    }
  }

  lemma {:induction false} KeptConcat(a: seq<Event>, b: seq<Event>, ex: Excludes)
    ensures Kept(a + b, ex) == Kept(a, ex) + Kept(b, ex)
  {
    if a == [] {
      assert a + b == b;
    } else {
      HeadAndTail(a, b);
      KeptConcat(a[1..], b, ex);
      Grouped(KeptOf(a[0], ex), Kept(a[1..], ex), Kept(b, ex));
    }
  }

  lemma {:induction false} SkippedConcat(a: seq<Event>, b: seq<Event>)
    ensures Skipped(a + b) == Skipped(a) + Skipped(b)
  {
    if a == [] {
      assert a + b == b;
    } else {
      HeadAndTail(a, b);
      SkippedConcat(a[1..], b);
      Grouped(ReportOf(a[0]), Skipped(a[1..]), Skipped(b));
    }
  }

  /** What `_collect` has gathered so far: the list it builds and the list it was handed. */
  datatype Gathered = Gathered(members: seq<Item>, skipped: seq<Report>)

  function After(g: Gathered, events: seq<Event>, ex: Excludes): Gathered {
    Gathered(g.members + Kept(events, ex), g.skipped + Skipped(events))
  }

  lemma AfterConcat(g: Gathered, a: seq<Event>, b: seq<Event>, ex: Excludes)
    ensures After(After(g, a, ex), b, ex) == After(g, a + b, ex)
  {
    KeptConcat(a, b, ex);
    SkippedConcat(a, b);
    Grouped(g.members, Kept(a, ex), Kept(b, ex));
    Grouped(g.skipped, Skipped(a), Skipped(b));
  }

  lemma OneReport(path: Path)
    requires path != []
    ensures Skipped([Unlisted(path)]) == if path[|path| - 1] == "lost+found" then [] else [DirNotReadable(path)]
  {
    var events := [Unlisted(path)];
    assert events[1..] == [] && Skipped([]) == [];
  }

  lemma NothingKept(path: Path, ex: Excludes)
    ensures Kept([Unlisted(path)], ex) == []
  {
    var events := [Unlisted(path)];
    assert events[1..] == [] && Kept([], ex) == [];
  }

  lemma SmallerNode(node: Node, e: Entry)
    requires node.Dir? && e in node.entries
    ensures node decreases to e.node
  {
    var i :| 0 <= i < |node.entries| && node.entries[i] == e;
    assert node.entries decreases to node.entries[i];
  }

  /** `_unreadable_dir`: None for the exception it raises. */
  method UnreadableDir(path: Path, skipped: seq<Report>) returns (r: Option<seq<Report>>)
    ensures r == if path == [] then None else Some(skipped + Skipped([Unlisted(path)]))
  {
    if path == [] {
      return None;
    }
    OneReport(path);
    if path[|path| - 1] == "lost+found" {
      assert skipped + [] == skipped;
      return Some(skipped);
    }
    return Some(skipped + [DirNotReadable(path)]);
  }

  /**
   The entries of one directory as `os.walk` hands them over: the directories entered, and all that is no
   directory.
   */
  method Listed(entries: seq<Entry>, path: Path, ex: Excludes) returns (dirs: seq<Entry>, others: seq<Entry>)
    ensures forall d :: d in dirs ==> d in entries
    ensures Deeper(dirs, path, Unpruned(ex)) == Deeper(entries, path, Unpruned(ex))
    ensures forall d :: d in dirs ==> d.node.Dir? && Unpruned(ex)(path + [d.name])
    ensures FilesIn(others, path) == FilesIn(entries, path)
  {
    dirs, others := [], [];
    var i := 0;
    while i < |entries|
      invariant i <= |entries|
      invariant forall d :: d in dirs ==> d in entries
      invariant forall d :: d in dirs ==> d.node.Dir? && Unpruned(ex)(path + [d.name])
      invariant Deeper(dirs, path, Unpruned(ex)) == Deeper(entries[..i], path, Unpruned(ex))
      invariant FilesIn(others, path) == FilesIn(entries[..i], path)
    {
      var e := entries[i];
      TakeOneMore(entries, i);
      DeeperConcat(entries[..i], [e], path, Unpruned(ex));
      FilesInConcat(entries[..i], [e], path);
      if e.node.Dir? {
        if !Pruned(ex, path + [e.name]) {
          DeeperConcat(dirs, [e], path, Unpruned(ex));
          dirs := dirs + [e];
        }
      } else {
        FilesInConcat(others, [e], path);
        others := others + [e];
      }
      i := i + 1;
    }
    assert entries[..i] == entries;
  }

  /** The inner loop of `_collect` over the files of one directory. */
  method AddFiles(others: seq<Entry>, path: Path, ex: Excludes, members: seq<Item>) returns (r: seq<Item>)
    ensures r == members + Kept(FilesIn(others, path), ex)
  {
    r := members;
    var i := 0;
    while i < |others|
      invariant i <= |others|
      invariant r == members + Kept(FilesIn(others[..i], path), ex)
    {
      var e := others[i];
      TakeOneMore(others, i);
      FilesInConcat(others[..i], [e], path);
      KeptConcat(FilesIn(others[..i], path), FilesIn([e], path), ex);
      if e.node.File? && !Excluded(ex, path + [e.name]) {
        r := r + [Item(path + [e.name], e.node.readable)];
      }
      i := i + 1;
    }
    assert others[..i] == others;
  }

  lemma {:induction false} NoBaseBelow(node: Node, path: Path, enter: Enter)
    requires path != []
    ensures Unlisted([]) !in Events(node, path, enter)
    decreases node, 1
  {
    if Listable(node) {
      NoBaseInFiles(node.entries, path);
      NoBaseDeeper(node.entries, path, enter);
    }
  }

  lemma {:induction false} NoBaseInFiles(entries: seq<Entry>, path: Path)
    ensures Unlisted([]) !in FilesIn(entries, path)
  {
    if entries != [] {
      NoBaseInFiles(entries[1..], path);
    }
  }

  lemma {:induction false} NoBaseDeeper(entries: seq<Entry>, path: Path, enter: Enter)
    ensures Unlisted([]) !in Deeper(entries, path, enter)
    decreases entries, 0
  {
    if entries != [] {
      NoBaseBelow(entries[0].node, path + [entries[0].name], enter);
      NoBaseDeeper(entries[1..], path, enter);
    }
  }

  /**
   `os.walk` together with the body of its loop, from one directory on; None if the configured path cannot be
   listed.
   */
  method Visit(node: Node, path: Path, ex: Excludes, g: Gathered) returns (r: Option<Gathered>)
    ensures r == if path == [] && !Listable(node) then None else Some(After(g, Events(node, path, Unpruned(ex)), ex))
    decreases node
  {
    if !Listable(node) {
      var skipped := UnreadableDir(path, g.skipped);
      NothingKept(path, ex);
      assert g.members + [] == g.members;
      return if skipped.None? then None else Some(g.(skipped := skipped.value));
    }
    var dirs, others := Listed(node.entries, path, ex);
    var members := AddFiles(others, path, ex, g.members);
    r := Some(g.(members := members));
    ghost var files, enter := FilesIn(node.entries, path), Unpruned(ex);
    FilesAreNoReports(node.entries, path);
    assert files + Deeper(dirs[..0], path, enter) == files && g.skipped + [] == g.skipped;
    var i := 0;
    while i < |dirs|
      invariant i <= |dirs|
      invariant r == Some(After(g, files + Deeper(dirs[..i], path, enter), ex))
    {
      OneMoreDir(g, files, dirs, i, path, enter, ex);
      SmallerNode(node, dirs[i]);
      r := Visit(dirs[i].node, path + [dirs[i].name], ex, r.value);
      i := i + 1;
    }
    assert dirs[..i] == dirs;
  }

  lemma OneMoreDir(g: Gathered, files: seq<Event>, dirs: seq<Entry>, i: nat, path: Path, enter: Enter, ex: Excludes)
    requires i < |dirs| && dirs[i].node.Dir? && enter(path + [dirs[i].name])
    ensures After(After(g, files + Deeper(dirs[..i], path, enter), ex),
                  Events(dirs[i].node, path + [dirs[i].name], enter), ex)
         == After(g, files + Deeper(dirs[..i + 1], path, enter), ex)
  {
    var d := dirs[i];
    var before, here := Deeper(dirs[..i], path, enter), Events(d.node, path + [d.name], enter);
    TakeOneMore(dirs, i);
    DeeperConcat(dirs[..i], [d], path, enter);
    assert Deeper([d], path, enter) == here;
    AfterConcat(g, files + before, here, ex);
    assert files + (before + here) == (files + before) + here;
  }

  lemma {:induction false} FilesAreNoReports(entries: seq<Entry>, path: Path)
    ensures Skipped(FilesIn(entries, path)) == []
  {
    if entries != [] {
      FilesAreNoReports(entries[1..], path);
      var rest := FilesIn(entries[1..], path);
      assert FilesIn(entries, path) == rest || (FilesIn(entries, path)[0].Seen? && FilesIn(entries, path)[1..] == rest);
    }
  }

  lemma {:induction false} TraceConcat(base: Node, a: seq<Path>, b: seq<Path>, enter: Enter)
    ensures Trace(base, a + b, enter) == Trace(base, a, enter) + Trace(base, b, enter)
  {
    if a == [] {
      assert a + b == b;
    } else {
      HeadAndTail(a, b);
      TraceConcat(base, a[1..], b, enter);
    }
  }

  function TraceFrom(base: Node, root: Path, enter: Enter): seq<Event> {
    match Lookup(base, root)
    case None => []
    case Some(node) => Events(node, root, enter)
  }

  lemma OneMoreRoot(base: Node, roots: seq<Path>, i: nat, enter: Enter)
    requires i < |roots|
    ensures Trace(base, roots[..i + 1], enter) == Trace(base, roots[..i], enter) + TraceFrom(base, roots[i], enter)
  {
    TakeOneMore(roots, i);
    TraceConcat(base, roots[..i], [roots[i]], enter);
    assert Trace(base, [roots[i]], enter) == TraceFrom(base, roots[i], enter) + Trace(base, [], enter);
  }

  lemma BaseUnlisted(node: Node, path: Path, enter: Enter)
    ensures Unlisted([]) in Events(node, path, enter) <==> path == [] && !Listable(node)
  {
    if path != [] {
      NoBaseBelow(node, path, enter);
    } else if Listable(node) {
      NoBaseInFiles(node.entries, path);
      NoBaseDeeper(node.entries, path, enter);
    }
  }

  /** `_collect`: None for the exception an unreadable configured path raises. */
  method Collect(base: Node, subdirs: seq<Path>, ex: Excludes) returns (r: Option<Gathered>)
    ensures r.None? <==> Unlisted([]) in Trace(base, Roots(subdirs), Unpruned(ex))
    ensures r.Some? ==> r.value == Gathered(SortedByName(Kept(Trace(base, Roots(subdirs), Unpruned(ex)), ex)),
                                            Skipped(Trace(base, Roots(subdirs), Unpruned(ex))))
  {
    var roots := Roots(subdirs);
    var g := Gathered([], []);
    ghost var enter := Unpruned(ex);
    var i := 0;
    while i < |roots|
      invariant i <= |roots|
      invariant Unlisted([]) !in Trace(base, roots[..i], enter)
      invariant g == After(Gathered([], []), Trace(base, roots[..i], enter), ex)
    {
      OneMoreRoot(base, roots, i, enter);
      OneMoreTrace(base, roots, i, enter);
      AfterConcat(Gathered([], []), Trace(base, roots[..i], enter), TraceFrom(base, roots[i], enter), ex);
      var next := VisitRoot(base, roots[i], ex, g);
      if next.None? {
        return None;
      }
      g := next.value;
      i := i + 1;
    }
    assert roots[..i] == roots;
    AfterNothing(Trace(base, roots, enter), ex);
    return Some(g.(members := SortedByName(g.members)));
  }

  /** One root's turn: one that does not exist is passed over. */
  method VisitRoot(base: Node, root: Path, ex: Excludes, g: Gathered) returns (r: Option<Gathered>)
    ensures r.None? <==> Unlisted([]) in TraceFrom(base, root, Unpruned(ex))
    ensures r.Some? ==> r.value == After(g, TraceFrom(base, root, Unpruned(ex)), ex)
  {
    var node := Lookup(base, root);
    if node.None? {
      assert g.members + [] == g.members && g.skipped + [] == g.skipped;
      return Some(g);
    }
    BaseUnlisted(node.value, root, Unpruned(ex));
    r := Visit(node.value, root, ex, g);
  }

  lemma AfterNothing(events: seq<Event>, ex: Excludes)
    ensures After(Gathered([], []), events, ex) == Gathered(Kept(events, ex), Skipped(events))
  {
  }

  lemma OneMoreTrace(base: Node, roots: seq<Path>, i: nat, enter: Enter)
    requires i < |roots|
    ensures Unlisted([]) in TraceFrom(base, roots[i], enter) ==> Unlisted([]) in Trace(base, roots, enter)
  {
    assert roots == roots[..i] + [roots[i]] + roots[i + 1..];
    TraceConcat(base, roots[..i] + [roots[i]], roots[i + 1..], enter);
    TraceConcat(base, roots[..i], [roots[i]], enter);
    assert Trace(base, [roots[i]], enter) == TraceFrom(base, roots[i], enter) + Trace(base, [], enter);
  }

  lemma {:induction false} ArchivedConcat(a: seq<Item>, b: seq<Item>)
    ensures Archived(a + b) == Archived(a) + Archived(b)
  {
    if a == [] {
      assert a + b == b;
    } else {
      HeadAndTail(a, b);
      ArchivedConcat(a[1..], b);
      Grouped(Opened(a[0]), Archived(a[1..]), Archived(b));
    }
  }

  lemma {:induction false} UnopenedConcat(a: seq<Item>, b: seq<Item>)
    ensures Unopened(a + b) == Unopened(a) + Unopened(b)
  {
    if a == [] {
      assert a + b == b;
    } else {
      HeadAndTail(a, b);
      UnopenedConcat(a[1..], b);
      Grouped(NotOpened(a[0]), Unopened(a[1..]), Unopened(b));
    }
  }

  lemma OneMoreItem(items: seq<Item>, i: nat)
    requires i < |items|
    ensures Archived(items[..i + 1]) == Archived(items[..i]) + Opened(items[i])
    ensures Unopened(items[..i + 1]) == Unopened(items[..i]) + NotOpened(items[i])
  {
    TakeOneMore(items, i);
    ArchivedConcat(items[..i], [items[i]]);
    UnopenedConcat(items[..i], [items[i]]);
    assert [items[i]][1..] == [];
    assert Archived([items[i]]) == Opened(items[i]) + [] == Opened(items[i]);
    assert Unopened([items[i]]) == NotOpened(items[i]) + [] == NotOpened(items[i]);
  }

  /** `_write_deterministic_targz`: the members of the archive in order, and how many there are. */
  method WriteTarGz(members: seq<Item>, skipped: seq<Report>)
    returns (archived: seq<Path>, written: nat, skipped': seq<Report>)
    ensures archived == Archived(members) && written == |archived| && skipped' == skipped + Unopened(members)
  {
    archived, written, skipped' := [], 0, skipped;
    var i := 0;
    while i < |members|
      invariant i <= |members| && written == |archived|
      invariant archived == Archived(members[..i]) && skipped' == skipped + Unopened(members[..i])
    {
      OneMoreItem(members, i);
      if members[i].readable {
        archived := archived + [members[i].path];
        written := written + 1;
      } else {
        skipped' := skipped' + [FileNotReadable(members[i].path)];
      }
      i := i + 1;
    }
    assert members[..i] == members;
  }

  /** `produce` */
  method Produce(base: Option<Node>, subdirs: seq<Path>, ex: Excludes) returns (r: Produced)
    ensures r == Outcome(base, subdirs, ex)
  {
    if base.None? {
      return PathNotFound;
    }
    var collected := Collect(base.value, subdirs, ex);
    if collected.None? {
      return PathNotReadable;
    }
    var archived, written, skipped := WriteTarGz(collected.value.members, collected.value.skipped);
    return Component(archived, written, skipped);
  }

  // ---- Pruning agrees with filtering ----

  lemma {:induction false} PosixBelow(path: Path, rest: Path)
    requires path != [] && rest != []
    ensures Posix(path + rest) == Posix(path) + "/" + Posix(rest)
  {
    if |path| == 1 {
      assert (path + rest)[1..] == rest;
    } else {
      assert (path + rest)[1..] == path[1..] + rest;
      PosixBelow(path[1..], rest);
      assert (path[0] + "/") + (Posix(path[1..]) + "/" + Posix(rest))
        == path[0] + "/" + Posix(path[1..]) + "/" + Posix(rest);
    }
  }

  /** Everything below a pruned directory is excluded anyway. */
  lemma PrunedMeansExcluded(ex: Excludes, path: Path, rest: Path)
    requires path != [] && rest != [] && Pruned(ex, path)
    ensures Excluded(ex, path + rest)
  {
    var pat :| pat in ex.patterns && EndsInSlashStar(pat) && Globs.Fnmatch(Posix(path), pat[..|pat| - 2], ex.charset);
    var stem := pat[..|pat| - 2];
    assert pat == stem + Globs.SLASH_STAR;
    Globs.MatchExtends(Posix(path), stem, Posix(rest), ex.charset);
    PosixBelow(path, rest);
  }

  /** `target` stands at `full`, and every directory on the way from `path` is listed and entered. */
  ghost predicate Reached(node: Node, path: Path, full: Path, enter: Enter, target: Node)
    requires path <= full
    decreases |full| - |path|
  {
    if full == path then node == target
    else
      Listable(node) && exists e :: e in node.entries && e.name == full[|path|] && Steps(e, path, full, enter, target)
  }

  ghost predicate Steps(e: Entry, path: Path, full: Path, enter: Enter, target: Node)
    requires path + [e.name] <= full
    decreases |full| - |path|, 0
  {
    (e.node.Dir? ==> enter(path + [e.name])) && Reached(e.node, path + [e.name], full, enter, target)
  }

  /** What an event says about the tree. */
  ghost predicate Holds(ev: Event, node: Node, path: Path, enter: Enter) {
    match ev
    case Seen(item) => path < item.path && Reached(node, path, item.path, enter, File(item.readable))
    case Unlisted(dir) =>
      path <= dir && exists x :: Reached(node, path, dir, enter, x) && !Listable(x) && (x.Dir? || dir == path)
  }

  ghost predicate HoldsFor(e: Entry, ev: Event, path: Path, enter: Enter) {
    || (e.node.File? && ev == Seen(Item(path + [e.name], e.node.readable)))
    || (e.node.Dir? && enter(path + [e.name]) && ev in Events(e.node, path + [e.name], enter))
  }

  lemma {:induction false} EventOfEntry(entries: seq<Entry>, path: Path, enter: Enter, ev: Event)
    ensures ev in FilesIn(entries, path) + Deeper(entries, path, enter) <==>
      exists e :: e in entries && HoldsFor(e, ev, path, enter)
  {
    if entries != [] {
      EventOfEntry(entries[1..], path, enter, ev);
      assert forall e :: e in entries <==> e == entries[0] || e in entries[1..];
      assert ev in FilesIn(entries, path) + Deeper(entries, path, enter)
        <==>
          HoldsFor(entries[0], ev, path, enter)
            || ev in FilesIn(entries[1..], path) + Deeper(entries[1..], path, enter);
    }
  }

  lemma {:induction false} EventsHold(node: Node, path: Path, enter: Enter, ev: Event)
    ensures ev in Events(node, path, enter) ==> Holds(ev, node, path, enter)
    decreases node
  {
    if ev in Events(node, path, enter) {
      if Listable(node) {
        EventOfEntry(node.entries, path, enter, ev);
        var e :| e in node.entries && HoldsFor(e, ev, path, enter);
        SmallerNode(node, e);
        EventsHold(e.node, path + [e.name], enter, ev);
        EntryHolds(node, e, path, enter, ev);
      } else {
        assert Reached(node, path, path, enter, node);
      }
    }
  }

  lemma EntryHolds(node: Node, e: Entry, path: Path, enter: Enter, ev: Event)
    requires Listable(node) && e in node.entries && HoldsFor(e, ev, path, enter)
    requires ev in Events(e.node, path + [e.name], enter) ==> Holds(ev, e.node, path + [e.name], enter)
    ensures Holds(ev, node, path, enter)
  {
    var full := if ev.Seen? then ev.item.path else ev.dir;
    assert path + [e.name] <= full && full[|path|] == (path + [e.name])[|path|] == e.name;
    forall x | Reached(e.node, path + [e.name], full, enter, x) ensures Reached(node, path, full, enter, x) {
      assert Steps(e, path, full, enter, x);
    }
  }

  /** Where an event is about. */
  function Place(ev: Event): Path {
    if ev.Seen? then ev.item.path else ev.dir
  }

  /** What stands where the event is about. */
  predicate Fits(ev: Event, x: Node) {
    match ev
    case Seen(item) => x == File(item.readable)
    case Unlisted(_) => x.Dir? && !x.listable
  }

  lemma HoldsInside(e: Entry, path: Path, enter: Enter, ev: Event, x: Node)
    requires path + [e.name] <= Place(ev) && Steps(e, path, Place(ev), enter, x) && Fits(ev, x)
    ensures if e.node.Dir? then enter(path + [e.name]) && Holds(ev, e.node, path + [e.name], enter)
            else e.node.File? && ev == Seen(Item(path + [e.name], e.node.readable))
  {
  }

  lemma FirstStep(node: Node, path: Path, full: Path, enter: Enter, x: Node) returns (e: Entry)
    requires path < full && Reached(node, path, full, enter, x)
    ensures Listable(node) && e in node.entries && path + [e.name] <= full && Steps(e, path, full, enter, x)
  {
    e :| e in node.entries && e.name == full[|path|] && Steps(e, path, full, enter, x);
    assert path + [e.name] == full[..|path| + 1];
  }

  lemma {:induction false} HoldingEvents(node: Node, path: Path, enter: Enter, ev: Event)
    requires Holds(ev, node, path, enter)
    ensures ev in Events(node, path, enter)
    decreases node
  {
    if Place(ev) != path {
      var x :| Reached(node, path, Place(ev), enter, x) && Fits(ev, x);
      var e := FirstStep(node, path, Place(ev), enter, x);
      HoldsInside(e, path, enter, ev, x);
      if e.node.Dir? {
        SmallerNode(node, e);
        HoldingEvents(e.node, path + [e.name], enter, ev);
      }
      assert HoldsFor(e, ev, path, enter);
      EventOfEntry(node.entries, path, enter, ev);
    }
  }

  /**
   What `os.walk` comes across, exactly: the files and the unlistable directories with only listed and entered
   ones above.
   */
  lemma EventsExactly(node: Node, path: Path, enter: Enter, ev: Event)
    ensures ev in Events(node, path, enter) <==> Holds(ev, node, path, enter)
  {
    EventsHold(node, path, enter, ev);
    if Holds(ev, node, path, enter) {
      HoldingEvents(node, path, enter, ev);
    }
  }

  lemma {:induction false} KeptNone(events: seq<Event>, ex: Excludes)
    requires forall ev :: ev in events && ev.Seen? ==> Excluded(ex, ev.item.path)
    ensures Kept(events, ex) == []
  {
    if events != [] {
      assert events[0] in events;
      KeptNone(events[1..], ex);
    }
  }

  /** No file below a pruned directory would be kept anyway. */
  lemma NothingKeptBelow(node: Node, path: Path, enter: Enter, ex: Excludes)
    requires path != [] && Pruned(ex, path) && node.Dir?
    ensures Kept(Events(node, path, enter), ex) == []
  {
    forall ev | ev in Events(node, path, enter) && ev.Seen? ensures Excluded(ex, ev.item.path) {
      EventsHold(node, path, enter, ev);
      var rest := ev.item.path[|path|..];
      assert ev.item.path == path + rest;
      PrunedMeansExcluded(ex, path, rest);
    }
    KeptNone(Events(node, path, enter), ex);
  }

  lemma {:induction false} PruningKeepsNode(node: Node, path: Path, ex: Excludes)
    ensures Kept(Events(node, path, Unpruned(ex)), ex) == Kept(Events(node, path, Everywhere()), ex)
    decreases node
  {
    if Listable(node) {
      PruningKeepsEntries(node.entries, path, ex);
      KeptConcat(FilesIn(node.entries, path), Deeper(node.entries, path, Unpruned(ex)), ex);
      KeptConcat(FilesIn(node.entries, path), Deeper(node.entries, path, Everywhere()), ex);
    }
  }

  lemma KeptHead(entries: seq<Entry>, path: Path, enter: Enter, ex: Excludes)
    requires entries != []
    ensures var e := entries[0];
      Kept(Deeper(entries, path, enter), ex)
      == (if e.node.Dir? && enter(path + [e.name]) then Kept(Events(e.node, path + [e.name], enter), ex) else [])
         + Kept(Deeper(entries[1..], path, enter), ex)
  {
    var e, rest := entries[0], Deeper(entries[1..], path, enter);
    if e.node.Dir? && enter(path + [e.name]) {
      KeptConcat(Events(e.node, path + [e.name], enter), rest, ex);
    } else {
      assert [] + rest == rest;
    }
  }

  lemma {:induction false} PruningKeepsEntries(entries: seq<Entry>, path: Path, ex: Excludes)
    ensures Kept(Deeper(entries, path, Unpruned(ex)), ex) == Kept(Deeper(entries, path, Everywhere()), ex)
    decreases entries
  {
    if entries != [] {
      var e, below := entries[0], path + [entries[0].name];
      PruningKeepsEntries(entries[1..], path, ex);
      KeptHead(entries, path, Unpruned(ex), ex);
      KeptHead(entries, path, Everywhere(), ex);
      if e.node.Dir? {
        PruningKeepsNode(e.node, below, ex);
        if Pruned(ex, below) {
          NothingKeptBelow(e.node, below, Everywhere(), ex);
        }
      }
    }
  }

  /** Not entering pruned directories gives the same files, in the same order, as filtering the full walk. */
  lemma {:induction false} PruningIsFiltering(base: Node, roots: seq<Path>, ex: Excludes)
    ensures Kept(Trace(base, roots, Unpruned(ex)), ex) == Kept(Trace(base, roots, Everywhere()), ex)
  {
    if roots != [] {
      PruningIsFiltering(base, roots[1..], ex);
      KeptConcat(TraceFrom(base, roots[0], Unpruned(ex)), Trace(base, roots[1..], Unpruned(ex)), ex);
      KeptConcat(TraceFrom(base, roots[0], Everywhere()), Trace(base, roots[1..], Everywhere()), ex);
      var root := Lookup(base, roots[0]);
      if root.Some? {
        PruningKeepsNode(root.value, roots[0], ex);
      }
    }
  }

  // ---- What the archive holds ----

  lemma {:induction false} InTrace(base: Node, roots: seq<Path>, enter: Enter, ev: Event)
    ensures ev in Trace(base, roots, enter) <==> exists root :: root in roots && ev in TraceFrom(base, root, enter)
  {
    if roots != [] {
      InTrace(base, roots[1..], enter, ev);
      assert forall root :: root in roots <==> root == roots[0] || root in roots[1..];
      assert Trace(base, roots, enter) == TraceFrom(base, roots[0], enter) + Trace(base, roots[1..], enter);
    }
  }

  lemma {:induction false} InKept(events: seq<Event>, ex: Excludes, item: Item)
    ensures item in Kept(events, ex) <==> Seen(item) in events && !Excluded(ex, item.path)
  {
    if events != [] {
      InKept(events[1..], ex, item);
    }
  }

  lemma {:induction false} InSkipped(events: seq<Event>, dir: Path)
    ensures DirNotReadable(dir) in Skipped(events) <==>
      Unlisted(dir) in events && dir != [] && dir[|dir| - 1] != "lost+found"
  {
    if events != [] {
      InSkipped(events[1..], dir);
    }
  }

  lemma {:induction false} InArchived(items: seq<Item>, path: Path)
    ensures path in Archived(items) <==> Item(path, true) in items
    ensures FileNotReadable(path) in Unopened(items) <==> Item(path, false) in items
    ensures DirNotReadable(path) !in Unopened(items)
  {
    if items != [] {
      InArchived(items[1..], path);
    }
  }

  lemma {:induction false} OnlyDirsSkipped(events: seq<Event>, path: Path)
    ensures FileNotReadable(path) !in Skipped(events)
  {
    if events != [] {
      OnlyDirsSkipped(events[1..], path);
    }
  }

  /** The file stands at `full` below `root`, and every directory from the root down to it is listed and entered. */
  ghost predicate FileBelow(base: Node, root: Path, full: Path, enter: Enter, readable: bool) {
    root < full && Lookup(base, root).Some? && Reached(Lookup(base, root).value, root, full, enter, File(readable))
  }

  /** A directory that cannot be listed, or a root that is none, with only listed and entered directories above. */
  ghost predicate UnlistedBelow(base: Node, root: Path, dir: Path, enter: Enter) {
    && root <= dir && Lookup(base, root).Some?
    && exists x :: Reached(Lookup(base, root).value, root, dir, enter, x) && !Listable(x) && (x.Dir? || dir == root)
  }

  lemma SeenExactly(base: Node, roots: seq<Path>, enter: Enter, item: Item)
    ensures Seen(item) in Trace(base, roots, enter)
       <==> exists root :: root in roots && FileBelow(base, root, item.path, enter, item.readable)
  {
    InTrace(base, roots, enter, Seen(item));
    forall root | root in roots
      ensures Seen(item) in TraceFrom(base, root, enter) <==> FileBelow(base, root, item.path, enter, item.readable)
    {
      if Lookup(base, root).Some? {
        EventsExactly(Lookup(base, root).value, root, enter, Seen(item));
      }
    }
  }

  lemma UnlistedExactly(base: Node, roots: seq<Path>, enter: Enter, dir: Path)
    ensures Unlisted(dir) in Trace(base, roots, enter) <==>
      exists root :: root in roots && UnlistedBelow(base, root, dir, enter)
  {
    InTrace(base, roots, enter, Unlisted(dir));
    forall root | root in roots
      ensures Unlisted(dir) in TraceFrom(base, root, enter) <==> UnlistedBelow(base, root, dir, enter)
    {
      if Lookup(base, root).Some? {
        EventsExactly(Lookup(base, root).value, root, enter, Unlisted(dir));
      }
    }
  }

  lemma SameMembers(items: seq<Item>, item: Item)
    ensures item in SortedByName(items) <==> item in items
  {
    Order.SameElements(items, SortedByName(items), item);
  }

  /** Files are kept, readable or not, exactly if no exclude matches them and the full walk comes across them. */
  lemma KeptExactly(base: Node, roots: seq<Path>, ex: Excludes, item: Item)
    ensures item in SortedByName(Kept(Trace(base, roots, Unpruned(ex)), ex))
       <==> !Excluded(ex, item.path)
            && exists root :: root in roots && FileBelow(base, root, item.path, Everywhere(), item.readable)
  {
    PruningIsFiltering(base, roots, ex);
    SameMembers(Kept(Trace(base, roots, Unpruned(ex)), ex), item);
    InKept(Trace(base, roots, Everywhere()), ex, item);
    SeenExactly(base, roots, Everywhere(), item);
  }

  /**
   The archive holds exactly the readable files that no exclude matches and that listable directories lead
   to; the unreadable ones among those are reported. Pruning plays no part in either.
   */
  lemma ArchivedExactly(base: Node, subdirs: seq<Path>, ex: Excludes, path: Path)
    requires Outcome(Some(base), subdirs, ex).Component?
    ensures path in Outcome(Some(base), subdirs, ex).archived
       <==> !Excluded(ex, path)
            && exists root :: root in Roots(subdirs) && FileBelow(base, root, path, Everywhere(), true)
    ensures FileNotReadable(path) in Outcome(Some(base), subdirs, ex).skipped
       <==> !Excluded(ex, path)
            && exists root :: root in Roots(subdirs) && FileBelow(base, root, path, Everywhere(), false)
  {
    var trace := Trace(base, Roots(subdirs), Unpruned(ex));
    var members := SortedByName(Kept(trace, ex));
    InArchived(members, path);
    OnlyDirsSkipped(trace, path);
    KeptExactly(base, Roots(subdirs), ex, Item(path, true));
    KeptExactly(base, Roots(subdirs), ex, Item(path, false));
  }

  /**
   Directories reported: those that could not be listed, but for pruned ones and what lies below those, and
   `lost+found`.
   */
  lemma DirsReportedExactly(base: Node, subdirs: seq<Path>, ex: Excludes, dir: Path)
    requires Outcome(Some(base), subdirs, ex).Component?
    ensures DirNotReadable(dir) in Outcome(Some(base), subdirs, ex).skipped
       <==> dir != [] && dir[|dir| - 1] != "lost+found"
            && exists root :: root in Roots(subdirs) && UnlistedBelow(base, root, dir, Unpruned(ex))
  {
    var trace := Trace(base, Roots(subdirs), Unpruned(ex));
    InArchived(SortedByName(Kept(trace, ex)), dir);
    InSkipped(trace, dir);
    UnlistedExactly(base, Roots(subdirs), Unpruned(ex), dir);
  }

  lemma {:induction false} ArchivedInOrder(items: seq<Item>)
    requires Order.IsDescending(items, ByName)
    ensures forall i, j :: 0 <= i < j < |Archived(items)| ==>
      !Order.Less(Posix(Archived(items)[j]), Posix(Archived(items)[i]))
  {
    if items != [] {
      ArchivedInOrder(items[1..]);
      forall p | p in Archived(items[1..]) ensures !Order.Less(Posix(p), Posix(items[0].path)) {
        InArchived(items[1..], p);
        var k :| 0 <= k < |items[1..]| && items[1..][k] == Item(p, true);
        assert !ByName(items[0], items[k + 1]);
      }
    }
  }

  lemma ByNameIsStrictOrder()
    ensures Order.StrictOrder(ByName)
  {
    Order.LessIsStrictTotal();
  }

  /** The members stand in the archive in the order of their names, whatever order the directories are listed in. */
  lemma ArchiveIsSorted(base: Node, subdirs: seq<Path>, ex: Excludes, i: nat, j: nat)
    requires Outcome(Some(base), subdirs, ex).Component? && i < j < |Outcome(Some(base), subdirs, ex).archived|
    ensures var archived := Outcome(Some(base), subdirs, ex).archived; !Order.Less(Posix(archived[j]),
      Posix(archived[i]))
  {
    var kept := Kept(Trace(base, Roots(subdirs), Unpruned(ex)), ex);
    ByNameIsStrictOrder();
    Order.DescendingIsDescending(kept, ByName);
    ArchivedInOrder(SortedByName(kept));
  }

  // ---- Every file is accounted for ----

  /** Every directory from `root` down to (not including) the one `to` names down the path can be listed. */
  ghost predicate ListedDownTo(base: Node, root: Path, full: Path, to: nat)
    requires to <= |full|
  {
    forall k :: |root| <= k < to ==> ListableAt(base, full[..k])
  }

  ghost predicate ListableAt(base: Node, path: Path) {
    Lookup(base, path).Some? && Listable(Lookup(base, path).value)
  }

  lemma {:induction false} LookupConcat(node: Node, a: Path, b: Path)
    requires Lookup(node, a + b).Some?
    ensures Lookup(node, a).Some? && Lookup(node, a + b) == Lookup(Lookup(node, a).value, b)
    decreases |a|
  {
    if a == [] {
      assert a + b == b;
    } else {
      HeadAndTail(a, b);
      LookupConcat(Named(node.entries, a[0]).value, a[1..], b);
    }
  }

  /** A path that can be looked up is reached, if the directories on the way are listed and entered. */
  lemma {:induction false} LookupIsReached(base: Node, path: Path, full: Path, enter: Enter)
    requires path <= full && Lookup(base, full).Some? && ListedDownTo(base, path, full, |full|)
    requires forall k :: |path| < k < |full| ==> enter(full[..k])
    requires path < full && Lookup(base, full).value.Dir? ==> enter(full)
    ensures Lookup(base, path).Some? && Reached(Lookup(base, path).value, path, full, enter, Lookup(base, full).value)
    decreases |full| - |path|
  {
    if path != full {
      var next := path + [full[|path|]];
      assert next == full[..|path| + 1] && full == next + full[|path| + 1..] && full[..|path|] == path;
      LookupConcat(base, next, full[|path| + 1..]);
      LookupConcat(base, path, [full[|path|]]);
      LookupIsReached(base, next, full, enter);
      var node := Lookup(base, path).value;
      var e := Entry(full[|path|], Named(node.entries, full[|path|]).value);
      assert ListableAt(base, full[..|path|]);
      assert Lookup(base, next).value == e.node;
      assert Steps(e, path, full, enter, Lookup(base, full).value);
    }
  }

  /** The first place from `root` down to `full` that is no listable directory. */
  ghost predicate FirstUnlisted(base: Node, root: Path, full: Path, k: nat) {
    |root| <= k <= |full| && ListedDownTo(base, root, full, k) && !ListableAt(base, full[..k])
  }

  lemma {:induction false} FindFirstUnlisted(base: Node, root: Path, full: Path, from: nat) returns (k: nat)
    requires root <= full && |root| <= from <= |full| && ListedDownTo(base, root, full, from) && !ListableAt(base, full)
    ensures FirstUnlisted(base, root, full, k)
    decreases |full| - from
  {
    k := from;
    if ListableAt(base, full[..from]) {
      assert full[..|full|] == full;
      k := FindFirstUnlisted(base, root, full, from + 1);
    }
  }

  ghost predicate PrunedAbove(ex: Excludes, root: Path, full: Path, to: nat) {
    exists j :: |root| < j <= to && j < |full| && Pruned(ex, full[..j])
  }

  /** Without a pruned directory above it, the first place that cannot be listed is reached. */
  lemma FirstUnlistedIsReached(base: Node, root: Path, full: Path, k: nat, ex: Excludes)
    requires root <= full && Lookup(base, full).Some? && Lookup(base, full).value.File?
    requires FirstUnlisted(base, root, full, k) && !PrunedAbove(ex, root, full, k)
    ensures Lookup(base, root).Some? && Lookup(base, full[..k]).Some? && root <= full[..k]
    ensures Reached(Lookup(base, root).value, root, full[..k], Unpruned(ex), Lookup(base, full[..k]).value)
  {
    var dir := full[..k];
    assert full == dir + full[k..];
    LookupConcat(base, dir, full[k..]);
    forall j | |root| < j < |dir| ensures Unpruned(ex)(dir[..j]) {
      assert dir[..j] == full[..j];
    }
    forall j | |root| <= j < |dir| ensures ListableAt(base, dir[..j]) {
      assert dir[..j] == full[..j];
    }
    LookupIsReached(base, root, dir, Unpruned(ex));
  }

  /** Above a file stand only directories. */
  lemma AboveAFile(base: Node, full: Path, k: nat)
    requires k < |full| && Lookup(base, full).Some?
    ensures Lookup(base, full[..k]).Some? && Lookup(base, full[..k]).value.Dir?
  {
    assert full == full[..k] + full[k..];
    LookupConcat(base, full[..k], full[k..]);
  }

  /** What became of a file below a root. */
  ghost predicate Accounted(ex: Excludes, base: Node, root: Path, full: Path, readable: bool, r: Produced)
    requires r.Component?
  {
    || Excluded(ex, full)
    || (readable && full in r.archived)
    || (!readable && FileNotReadable(full) in r.skipped)
    || exists k :: 0 <= k <= |full| && FirstUnlisted(base, root, full, k) && ReportedOrLost(full[..k], r)
  }

  ghost predicate ReportedOrLost(dir: Path, r: Produced)
    requires r.Component?
  {
    DirNotReadable(dir) in r.skipped || (dir != [] && dir[|dir| - 1] == "lost+found")
  }

  /**
   No file goes missing silently: it is excluded, archived, reported as unreadable, or the first unreadable
   place on the way to it (for a root that is no directory, the root) is reported or is a `lost+found`.
   */
  lemma EveryFileAccounted(base: Node, subdirs: seq<Path>, ex: Excludes, root: Path, full: Path)
    requires Outcome(Some(base), subdirs, ex).Component?
    requires root in Roots(subdirs) && root <= full && Lookup(base, full).Some? && Lookup(base, full).value.File?
    ensures Accounted(ex, base, root, full, Lookup(base, full).value.readable, Outcome(Some(base), subdirs, ex))
  {
    var k := FindFirstUnlisted(base, root, full, |root|);
    if PrunedAbove(ex, root, full, k) {
      var j :| |root| < j <= k && j < |full| && Pruned(ex, full[..j]);
      PrunedMeansExcluded(ex, full[..j], full[j..]);
      assert full == full[..j] + full[j..];
    } else {
      FirstUnlistedIsReached(base, root, full, k, ex);
      UnprunedFileAccounted(base, subdirs, ex, root, full, k);
    }
  }

  lemma UnprunedFileAccounted(base: Node, subdirs: seq<Path>, ex: Excludes, root: Path, full: Path, k: nat)
    requires Outcome(Some(base), subdirs, ex).Component? && root in Roots(subdirs) && root <= full
    requires Lookup(base, full).Some? && Lookup(base, full).value.File? && FirstUnlisted(base, root, full, k)
    requires Lookup(base, root).Some? && Lookup(base, full[..k]).Some? && root <= full[..k]
    requires Reached(Lookup(base, root).value, root, full[..k], Unpruned(ex), Lookup(base, full[..k]).value)
    ensures Accounted(ex, base, root, full, Lookup(base, full).value.readable, Outcome(Some(base), subdirs, ex))
  {
    var dir, r := full[..k], Outcome(Some(base), subdirs, ex);
    if k < |full| || root == full {
      assert k < |full| ==> Lookup(base, dir).value.Dir? by {
        if k < |full| {
          AboveAFile(base, full, k);
        }
      }
      assert UnlistedBelow(base, root, dir, Unpruned(ex));
      UnlistedExactly(base, Roots(subdirs), Unpruned(ex), dir);
      DirsReportedExactly(base, subdirs, ex, dir);
      assert ReportedOrLost(dir, r);
    } else {
      assert dir == full;
      var readable := Lookup(base, full).value.readable;
      assert FileBelow(base, root, full, Unpruned(ex), readable);
      SeenExactly(base, Roots(subdirs), Unpruned(ex), Item(full, readable));
      InKept(Trace(base, Roots(subdirs), Unpruned(ex)), ex, Item(full, readable));
      var kept := Kept(Trace(base, Roots(subdirs), Unpruned(ex)), ex);
      SameMembers(kept, Item(full, readable));
      InArchived(SortedByName(kept), full);
    }
  }
}
