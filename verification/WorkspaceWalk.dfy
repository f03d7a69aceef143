/**
  The bounded walk that collects workspace files for mentions. The listing is an arbitrary function,
  so folders may contain each other; the walk still ends, because it descends three levels only.
*/
module WorkspaceWalk {
  import opened Options
  import opened StableSorting

  datatype Entry = File(name: string, path: string) | Folder(name: string, path: string)

  /** What a folder lists, or nothing if it cannot be listed. */
  type Listing = string -> Option<seq<Entry>>

  const MAX_FILES: nat := 400
  const MAX_DEPTH: nat := 3
  const SKIPPED: set<string> := {"node_modules", ".git", "dist", "dist-app", ".runtime", "__pycache__"}

  datatype Item = Item(path: string, depth: nat)

  function Entries(list: Listing, path: string): seq<Entry> {
    match list(path) { case Some(es) => es case None => [] }
  }

  function FilesAmong(es: seq<Entry>): seq<string> {
    if es == [] then []
    else FilesAmong(es[..|es|-1]) + if es[|es|-1].File? then [es[|es|-1].path] else []
  }

  predicate Descends(e: Entry, depth: nat) { e.Folder? && depth + 1 <= MAX_DEPTH && e.name !in SKIPPED }

  function FoldersAmong(es: seq<Entry>, depth: nat): seq<Item> {
    if es == [] then []
    else
      var last := es[|es|-1];
      FoldersAmong(es[..|es|-1], depth) + if Descends(last, depth) then [Item(last.path, depth + 1)] else []
  }

  function Children(list: Listing, i: Item): seq<Item> { FoldersAmong(Entries(list, i.path), i.depth) }

  // --- why it ends -------------------------------------------------------------------------

  function CountAt(q: seq<Item>, d: nat): nat {
    if q == [] then 0 else (if q[0].depth == d then 1 else 0) + CountAt(q[1..], d)
  }

  lemma {:induction false} CountSplit(a: seq<Item>, b: seq<Item>, d: nat)
    ensures CountAt(a + b, d) == CountAt(a, d) + CountAt(b, d)
  {
    if a == [] {
      assert a + b == b;
    } else {
      CountSplit(a[1..], b, d);
      assert (a + b)[1..] == a[1..] + b;
    }
  }

  lemma {:induction false} ChildrenAreDeeper(es: seq<Entry>, depth: nat, d: nat)
    ensures forall i <- FoldersAmong(es, depth) :: i.depth == depth + 1 <= MAX_DEPTH
    ensures d != depth + 1 ==> CountAt(FoldersAmong(es, depth), d) == 0
    ensures depth >= MAX_DEPTH ==> FoldersAmong(es, depth) == []
  {
    if es != [] {
      var n := |es| - 1;
      ChildrenAreDeeper(es[..n], depth, d);
      CountSplit(FoldersAmong(es[..n], depth), if Descends(es[n], depth) then [Item(es[n].path, depth + 1)] else [], d);
    }
  }

  predicate Shallow(q: seq<Item>) { forall i <- q :: i.depth <= MAX_DEPTH }

  /** Replacing the first folder by its children: deeper ones may grow in number, its own level shrinks. */
  lemma {:induction false} QueueShrinks(list: Listing, q: seq<Item>, d: nat)
    requires q != [] && Shallow(q)
    ensures var next := q[1..] + Children(list, q[0]);
      && Shallow(next)
      && (d < q[0].depth ==> CountAt(next, d) == CountAt(q, d))
      && (d == q[0].depth ==> CountAt(next, d) < CountAt(q, d))
  {
    ChildrenAreDeeper(Entries(list, q[0].path), q[0].depth, d);
    CountSplit(q[1..], Children(list, q[0]), d);
  }

  lemma {:induction false} QueueShrinksAtAll(list: Listing, q: seq<Item>)
    requires q != [] && Shallow(q)
    ensures var next := q[1..] + Children(list, q[0]);
      Shallow(next)
      && forall d: nat | d <= q[0].depth :: if d < q[0].depth then CountAt(next, d) == CountAt(q, d) else CountAt(next, d) < CountAt(q, d)
  {
    QueueShrinks(list, q, 0);
    forall d: nat | d <= q[0].depth
      ensures var next := q[1..] + Children(list, q[0]);
        if d < q[0].depth then CountAt(next, d) == CountAt(q, d) else CountAt(next, d) < CountAt(q, d)
    {
      QueueShrinks(list, q, d);
    }
  }

  /** The folders in the order an unlimited walk visits them. */
  ghost function Visit(list: Listing, q: seq<Item>): seq<Item>
    requires Shallow(q)
    decreases CountAt(q, 0), CountAt(q, 1), CountAt(q, 2), CountAt(q, 3)
  {
    if q == [] then []
    else
      QueueShrinksAtAll(list, q);
      [q[0]] + Visit(list, q[1..] + Children(list, q[0]))
  }

  function FilesIn(list: Listing, folders: seq<Item>): seq<string> {
    if folders == [] then [] else FilesAmong(Entries(list, folders[0].path)) + FilesIn(list, folders[1..])
  }

  ghost function AllFiles(list: Listing): seq<string> { FilesIn(list, Visit(list, [Item("", 0)])) }

  lemma {:induction false} FilesPrefix(es: seq<Entry>, i: nat)
    requires i <= |es|
    ensures |FilesAmong(es[..i])| <= |FilesAmong(es)| && FilesAmong(es)[..|FilesAmong(es[..i])|] == FilesAmong(es[..i])
    decreases |es| - i
  {
    if i < |es| {
      FilesPrefix(es, i + 1);
      assert es[..i+1][..i] == es[..i];
    } else {
      assert es[..i] == es;
    }
  }

  lemma {:induction false} Unfolds(list: Listing, q: seq<Item>)
    requires Shallow(q) && q != []
    ensures Shallow(q[1..] + Children(list, q[0]))
    ensures FilesIn(list, Visit(list, q))
            == FilesAmong(Entries(list, q[0].path)) + FilesIn(list, Visit(list, q[1..] + Children(list, q[0])))
  {
    QueueShrinksAtAll(list, q);
    assert Visit(list, q)[1..] == Visit(list, q[1..] + Children(list, q[0]));
  }

  /** One folder's entries; stops as soon as the cap is reached. */
  method AddEntries(entries: seq<Entry>, depth: nat, files: seq<string>, queue: seq<Item>)
    returns (files': seq<string>, queue': seq<Item>, full: bool)
    requires |files| < MAX_FILES
    ensures files' == Take(files + FilesAmong(entries), MAX_FILES)
    ensures full <==> |files'| == MAX_FILES
    ensures !full ==> files' == files + FilesAmong(entries) && queue' == queue + FoldersAmong(entries, depth)
  {
    files', queue', full := files, queue, false;
    for i := 0 to |entries|
      invariant |files'| < MAX_FILES && !full
      invariant files' == files + FilesAmong(entries[..i])
      invariant queue' == queue + FoldersAmong(entries[..i], depth)
    {
      var entry := entries[i];
      assert entries[..i+1][..i] == entries[..i];
      if entry.File? {
        files' := files' + [entry.path];
        if |files'| >= MAX_FILES {
          FilesPrefix(entries, i + 1);
          assert files' == files + FilesAmong(entries[..i+1]);
          full := true;
          return;
        }
      } else if depth + 1 <= MAX_DEPTH && entry.name !in SKIPPED {
        queue' := queue' + [Item(entry.path, depth + 1)];
      }
    }
    assert entries[..|entries|] == entries;
  }

  /** Lists one folder; one that cannot be listed counts as empty. */
  method ListFolder(list: Listing, folder: Item, files: seq<string>, queue: seq<Item>)
    returns (files': seq<string>, queue': seq<Item>, full: bool)
    requires |files| < MAX_FILES
    ensures files' == Take(files + FilesAmong(Entries(list, folder.path)), MAX_FILES)
    ensures full <==> |files'| == MAX_FILES
    ensures !full ==> files' == files + FilesAmong(Entries(list, folder.path)) && queue' == queue + Children(list, folder)
  {
    var listed := list(folder.path);
    if listed.None? {
      assert files + [] == files && queue + [] == queue;
      return files, queue, false;
    }
    files', queue', full := AddEntries(listed.value, folder.depth, files, queue);
  }

  lemma {:induction false} TakeEnough<T>(a: seq<T>, b: seq<T>, n: nat)
    requires |Take(a, n)| == n
    ensures Take(a + b, n) == Take(a, n)
  {}

  /**
    The walk returns exactly the first 400 files of the unlimited one, for every listing, cyclic ones
    included.
  */
  method BuildMentionIndex(list: Listing) returns (files: seq<string>)
    ensures files == Take(AllFiles(list), MAX_FILES)
  {
    files := [];
    var queue := [Item("", 0)];
    while |queue| > 0
      invariant Shallow(queue) && |files| < MAX_FILES
      invariant AllFiles(list) == files + FilesIn(list, Visit(list, queue))
      decreases CountAt(queue, 0), CountAt(queue, 1), CountAt(queue, 2), CountAt(queue, 3)
    {
      var folder := queue[0];
      QueueShrinksAtAll(list, queue);
      Unfolds(list, queue);
      ghost var found := files + FilesAmong(Entries(list, folder.path));
      ghost var rest := FilesIn(list, Visit(list, queue[1..] + Children(list, folder)));
      assert AllFiles(list) == found + rest;
      var full: bool;
      files, queue, full := ListFolder(list, folder, files, queue[1..]);
      if full {
        TakeEnough(found, rest, MAX_FILES);
        break;
      }
    }
  }

  // --- what an unlimited walk finds --------------------------------------------------------

  function Kids(list: Listing, items: seq<Item>): seq<Item> {
    if items == [] then [] else Children(list, items[0]) + Kids(list, items[1..])
  }

  /** The folders at depth `d`, in order. */
  function Level(list: Listing, d: nat): seq<Item> {
    if d == 0 then [Item("", 0)] else Kids(list, Level(list, d - 1))
  }

  lemma {:induction false} KidsAreShallow(list: Listing, items: seq<Item>, d: nat)
    requires d <= MAX_DEPTH && forall i <- items :: i.depth == d
    ensures Shallow(Kids(list, items)) && (forall i <- Kids(list, items) :: i.depth == d + 1)
    ensures d == MAX_DEPTH ==> Kids(list, items) == []
  {
    if items != [] {
      ChildrenAreDeeper(Entries(list, items[0].path), items[0].depth, 0);
      KidsAreShallow(list, items[1..], d);
    }
  }

  lemma {:induction false} FirstOfLevel(level: seq<Item>, rest: seq<Item>, kids: seq<Item>, more: seq<Item>)
    requires level != [] && Shallow(level) && Shallow(rest) && Shallow(kids + more)
    ensures Shallow(level[1..]) && Shallow(level + rest) && Shallow(rest + kids) && Shallow(more)
    ensures Shallow(rest + (kids + more))
    ensures (level + rest)[1..] + kids == level[1..] + (rest + kids)
    ensures rest + (kids + more) == (rest + kids) + more
    ensures forall v: seq<Item> :: [level[0]] + (level[1..] + v) == level + v
  {
    assert forall v: seq<Item> :: [level[0]] + (level[1..] + v) == level + v by {
      assert [level[0]] + level[1..] == level;
    }
    assert forall i <- more :: i in kids + more;
    assert forall i <- kids :: i in kids + more;
  }

  /** A whole level is visited before what it adds to the queue. */
  lemma {:induction false} VisitPassesLevel(list: Listing, level: seq<Item>, rest: seq<Item>)
    requires Shallow(level) && Shallow(rest) && Shallow(Kids(list, level))
    ensures Shallow(level + rest) && Shallow(rest + Kids(list, level))
    ensures Visit(list, level + rest) == level + Visit(list, rest + Kids(list, level))
    decreases |level|
  {
    if level == [] {
      assert level + rest == rest && rest + Kids(list, level) == rest;
    } else {
      var kids, more := Children(list, level[0]), Kids(list, level[1..]);
      FirstOfLevel(level, rest, kids, more);
      VisitPassesLevel(list, level[1..], rest + kids);
    }
  }

  lemma {:induction false} LevelsAreShallow(list: Listing, d: nat)
    requires d <= MAX_DEPTH
    ensures Shallow(Level(list, d)) && forall i <- Level(list, d) :: i.depth == d
  {
    if d > 0 {
      LevelsAreShallow(list, d - 1);
      KidsAreShallow(list, Level(list, d - 1), d - 1);
    }
  }

  function Flatten<T>(ss: seq<seq<T>>): seq<T> {
    if ss == [] then [] else ss[0] + Flatten(ss[1..])
  }

  lemma {:induction false} FlattenIff<T>(ss: seq<seq<T>>, x: T)
    ensures x in Flatten(ss) <==> exists k | 0 <= k < |ss| :: x in ss[k]
  {
    if ss != [] {
      FlattenIff(ss[1..], x);
      if k: nat :| k < |ss| && x in ss[k] { assert k > 0 ==> ss[1..][k-1] == ss[k]; }
    }
  }

  lemma {:induction false} FlattenStep<T>(ss: seq<seq<T>>, d: nat)
    requires d < |ss|
    ensures Flatten(ss[d..]) == ss[d] + Flatten(ss[d+1..])
  {
    assert ss[d..][1..] == ss[d+1..];
  }

  /** The folders of all four levels. */
  function Levels(list: Listing): (ss: seq<seq<Item>>)
    ensures |ss| == MAX_DEPTH + 1 && forall d {:trigger ss[d]} | 0 <= d <= MAX_DEPTH :: ss[d] == Level(list, d)
  {
    seq(MAX_DEPTH + 1, d requires 0 <= d => Level(list, d))
  }

  lemma {:induction false} VisitFromLevel(list: Listing, d: nat)
    requires d <= MAX_DEPTH && Shallow(Level(list, d))
    ensures Visit(list, Level(list, d)) == Flatten(Levels(list)[d..])
    decreases MAX_DEPTH - d
  {
    LevelsAreShallow(list, d);
    KidsAreShallow(list, Level(list, d), d);
    AfterLevel(list, Level(list, d));
    FlattenStep(Levels(list), d);
    if d < MAX_DEPTH {
      VisitFromLevel(list, d + 1);
    } else {
      assert Levels(list)[d+1..] == [];
    }
  }

  lemma {:induction false} AfterLevel(list: Listing, level: seq<Item>)
    requires Shallow(level) && Shallow(Kids(list, level))
    ensures Visit(list, level) == level + Visit(list, Kids(list, level))
  {
    VisitPassesLevel(list, level, []);
    assert level + [] == level && [] + Kids(list, level) == Kids(list, level);
  }

  /** Breadth first: all folders of one depth before the next, down to depth three. */
  lemma {:induction false} VisitIsLevelOrder(list: Listing)
    ensures Visit(list, [Item("", 0)]) == Flatten(Levels(list))
  {
    LevelsAreShallow(list, 0);
    VisitFromLevel(list, 0);
    assert Levels(list)[0..] == Levels(list);
  }

  // --- which files these are ---------------------------------------------------------------

  function End(trail: seq<Entry>): string { if trail == [] then "" else trail[|trail|-1].path }

  /** Folders from the root down, each listed by the one before it and none of them skipped. */
  predicate Trail(list: Listing, trail: seq<Entry>) {
    trail != [] ==>
      var last, before := trail[|trail|-1], trail[..|trail|-1];
      Trail(list, before) && last in Entries(list, End(before)) && last.Folder? && last.name !in SKIPPED
  }

  lemma {:induction false} FolderAmongIff(es: seq<Entry>, depth: nat, i: Item)
    ensures i in FoldersAmong(es, depth)
            <==> i.depth == depth + 1 <= MAX_DEPTH && exists e <- es :: e.Folder? && e.name !in SKIPPED && e.path == i.path
  {
    if es != [] {
      FolderAmongIff(es[..|es|-1], depth, i);
      assert es == es[..|es|-1] + [es[|es|-1]];
    }
  }

  lemma {:induction false} FileAmongIff(es: seq<Entry>, f: string)
    ensures f in FilesAmong(es) <==> exists e <- es :: e.File? && e.path == f
  {
    if es != [] {
      FileAmongIff(es[..|es|-1], f);
      assert es == es[..|es|-1] + [es[|es|-1]];
    }
  }

  lemma {:induction false} KidOf(list: Listing, items: seq<Item>, i: Item) returns (parent: Item)
    requires i in Kids(list, items)
    ensures parent in items && i in Children(list, parent)
  {
    if i in Children(list, items[0]) { parent := items[0]; } else { parent := KidOf(list, items[1..], i); }
  }

  lemma {:induction false} HasKid(list: Listing, items: seq<Item>, parent: Item, i: Item)
    requires parent in items && i in Children(list, parent)
    ensures i in Kids(list, items)
  {
    if parent != items[0] { HasKid(list, items[1..], parent, i); }
  }

  lemma {:induction false} TrailTo(list: Listing, d: nat, i: Item) returns (trail: seq<Entry>)
    requires d <= MAX_DEPTH && i in Level(list, d)
    ensures Trail(list, trail) && |trail| == d && End(trail) == i.path && i.depth == d
  {
    if d == 0 {
      trail := [];
    } else {
      var parent := KidOf(list, Level(list, d - 1), i);
      var before := TrailTo(list, d - 1, parent);
      FolderAmongIff(Entries(list, parent.path), parent.depth, i);
      var e :| e in Entries(list, parent.path) && e.Folder? && e.name !in SKIPPED && e.path == i.path;
      trail := before + [e];
      assert trail[..d-1] == before;
    }
  }

  lemma {:induction false} AtItsLevel(list: Listing, trail: seq<Entry>)
    requires Trail(list, trail) && |trail| <= MAX_DEPTH
    ensures Item(End(trail), |trail|) in Level(list, |trail|)
  {
    if trail != [] {
      var n := |trail| - 1;
      AtItsLevel(list, trail[..n]);
      var parent := Item(End(trail[..n]), n);
      FolderAmongIff(Entries(list, parent.path), n, Item(End(trail), n + 1));
      HasKid(list, Level(list, n), parent, Item(End(trail), n + 1));
    }
  }

  lemma {:induction false} FileInIff(list: Listing, folders: seq<Item>, f: string)
    ensures f in FilesIn(list, folders) <==> exists i <- folders :: f in FilesAmong(Entries(list, i.path))
  {
    if folders != [] {
      FileInIff(list, folders[1..], f);
      assert folders == [folders[0]] + folders[1..];
    }
  }

  ghost predicate Reachable(list: Listing, f: string) {
    exists trail, e :: Trail(list, trail) && |trail| <= MAX_DEPTH && IsFileIn(list, trail, e, f)
  }

  predicate IsFileIn(list: Listing, trail: seq<Entry>, e: Entry, f: string) {
    e in Entries(list, End(trail)) && e.File? && e.path == f
  }

  lemma {:induction false} FoundIsReachable(list: Listing, f: string, i: Item)
    requires i in Flatten(Levels(list)) && f in FilesAmong(Entries(list, i.path))
    ensures Reachable(list, f)
  {
    FlattenIff(Levels(list), i);
    var d :| 0 <= d < |Levels(list)| && i in Levels(list)[d];
    var trail := TrailTo(list, d, i);
    FileAmongIff(Entries(list, i.path), f);
    var e :| e in Entries(list, i.path) && e.File? && e.path == f;
    assert IsFileIn(list, trail, e, f);
  }

  lemma {:induction false} ReachableIsFound(list: Listing, f: string, trail: seq<Entry>, e: Entry)
    requires Trail(list, trail) && |trail| <= MAX_DEPTH && IsFileIn(list, trail, e, f)
    ensures f in FilesIn(list, Flatten(Levels(list)))
  {
    AtItsLevel(list, trail);
    FileAmongIff(Entries(list, End(trail)), f);
    FlattenIff(Levels(list), Item(End(trail), |trail|));
    assert Levels(list)[|trail|] == Level(list, |trail|);
    FileInIff(list, Flatten(Levels(list)), f);
  }

  /** The files found are exactly those in folders at most three levels down, none of them skipped. */
  lemma {:induction false} FoundIff(list: Listing, f: string)
    ensures f in AllFiles(list) <==> Reachable(list, f)
  {
    VisitIsLevelOrder(list);
    FileInIff(list, Flatten(Levels(list)), f);
    if f in AllFiles(list) {
      var i :| i in Flatten(Levels(list)) && f in FilesAmong(Entries(list, i.path));
      FoundIsReachable(list, f, i);
    }
    if Reachable(list, f) {
      var trail, e :| Trail(list, trail) && |trail| <= MAX_DEPTH && IsFileIn(list, trail, e, f);
      ReachableIsFound(list, f, trail, e);
    }
  }
}
