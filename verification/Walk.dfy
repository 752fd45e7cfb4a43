/** Listing a folder before it is sent: the stack-driven walk of `walk_tree`
    against the recursive listing, and what that listing contains. */
module Walk {
  import opened Basics
  import opened Disk
  import Names

  const MAX_ENTRIES := 1000000

  /** What is on the sender's disk. `Lost`: an entry that vanished before it
      could be looked at. The entries of a folder are in file name order. */
  datatype Source = Folder(readable: bool, entries: seq<Entry>) | Plain(content: Bytes) | Link | Lost
  datatype Entry = Entry(name: string, node: Source)

  datatype Found = Found(path: Path, content: Bytes)

  /** Directories and files below a folder, as paths of names. */
  datatype Listing = Listing(dirs: seq<Path>, files: seq<Found>) {
    function Then(l: Listing): Listing { Listing(dirs + l.dirs, files + l.files) }

    function Count(): nat { |dirs| + |files| }
  }

  /** `TreePlan` */
  datatype Plan = Plan(dirs: seq<string>, files: seq<(string, Bytes)>, bytes: nat)

  const NOTHING := Listing([], [])

  /** The node at a path of names below `n`, not following links. */
  function At(n: Source, p: Path): Option<Source>
    decreases p
  {
    if p == [] then Some(n)
    else if !n.Folder? then None
    else
      var k := IndexOf(n.entries, p[0]);
      if k == |n.entries| then None else At(n.entries[k].node, p[1..])
  }

  function IndexOf(es: seq<Entry>, name: string, k: nat := 0): (r: nat)
    requires k <= |es|
    ensures k <= r <= |es|
    ensures r < |es| ==> es[r].name == name
    ensures forall i :: k <= i < r ==> es[i].name != name
    decreases |es| - k
  {
    if k == |es| || es[k].name == name then k else IndexOf(es, name, k + 1)
  }

  /** The names in every folder are distinct and not empty. */
  ghost predicate Tidy(n: Source) {
    n.Folder? ==>
      && (forall i :: 0 <= i < |n.entries| ==> n.entries[i].name != "" && Tidy(n.entries[i].node))
      && (forall i, j :: 0 <= i < j < |n.entries| ==> n.entries[i].name != n.entries[j].name)
  }

  /** Every folder below can be read and nothing vanished. */
  predicate Readable(n: Source) {
    match n
    case Folder(readable, entries) => readable && forall i :: 0 <= i < |entries| ==> Readable(entries[i].node)
    case Lost => false
    case _ => true
  }

  /* ---- the recursive listing ---- */

  /** The entries of `n` itself, up to the k-th. */
  function Own(n: Source, path: Path, k: nat): Listing
    requires n.Folder? && k <= |n.entries|
  {
    if k == 0 then NOTHING
    else
      var l, e := Own(n, path, k - 1), n.entries[k - 1];
      match e.node
      case Folder(_, _) => l.(dirs := l.dirs + [path + [e.name]])
      case Plain(content) => l.(files := l.files + [Found(path + [e.name], content)])
      case _ => l
  }

  /** Everything below the subfolders among the first k entries of `n`, the last subfolder first. */
  function Deep(n: Source, path: Path, k: nat): Listing
    requires n.Folder? && k <= |n.entries|
    decreases n, 0, k
  {
    if k == 0 then NOTHING
    else
      var e := n.entries[k - 1];
      if e.node.Folder? then List(e.node, path + [e.name]).Then(Deep(n, path, k - 1)) else Deep(n, path, k - 1)
  }

  /** The folder's own entries, then what is below its subfolders. */
  function List(n: Source, path: Path): Listing
    requires n.Folder?
    decreases n, 1
  {
    Own(n, path, |n.entries|).Then(Deep(n, path, |n.entries|))
  }

  /* ---- the walk ---- */

  function Weight(n: Source): nat
    decreases n, if n.Folder? then |n.entries| + 1 else 0
  {
    if n.Folder? then 1 + EntriesWeight(n, |n.entries|) else 0
  }

  function EntriesWeight(n: Source, k: nat): nat
    requires n.Folder? && k <= |n.entries|
    decreases n, k
  {
    if k == 0 then 0 else EntriesWeight(n, k - 1) + Weight(n.entries[k - 1].node)
  }

  /** A folder still to be read, and its relative path as text. */
  datatype Pending = Pending(dir: Source, prefix: string)

  function StackWeight(ps: seq<Pending>): nat {
    if ps == [] then 0 else StackWeight(ps[..|ps| - 1]) + Weight(ps[|ps| - 1].dir)
  }

  predicate StackReadable(ps: seq<Pending>) { forall i :: 0 <= i < |ps| ==> Readable(ps[i].dir) }

  /** A path as the walk writes it; the folder itself is the empty text. */
  function Text(p: Path): string { if p == [] then "" else Names.Join(p) }

  function Texts(ps: seq<Path>): seq<string> { seq(|ps|, i requires 0 <= i < |ps| => Text(ps[i])) }

  function FileTexts(fs: seq<Found>): seq<(string, Bytes)> {
    seq(|fs|, i requires 0 <= i < |fs| => (Text(fs[i].path), fs[i].content))
  }

  function TotalBytes(fs: seq<Found>): nat {
    if fs == [] then 0 else TotalBytes(fs[..|fs| - 1]) + |fs[|fs| - 1].content|
  }

  function Render(l: Listing): Plan { Plan(Texts(l.dirs), FileTexts(l.files), TotalBytes(l.files)) }

  /** The stack holds folders; every prefix is the text of its path, and only
      the folder itself has none. */
  ghost predicate StackOk(ps: seq<Pending>, paths: seq<Path>) {
    && |ps| == |paths|
    && forall i :: 0 <= i < |ps| ==> PendingOk(ps[i], paths[i])
  }

  ghost predicate PendingOk(p: Pending, path: Path) {
    p.dir.Folder? && Tidy(p.dir) && p.prefix == Text(path) && (p.prefix == "" ==> path == [])
  }

  /** What is listed when the stack is worked off from its top. */
  ghost function ListStack(ps: seq<Pending>, paths: seq<Path>): Listing
    requires StackOk(ps, paths)
  {
    if ps == [] then NOTHING
    else List(ps[|ps| - 1].dir, paths[|ps| - 1]).Then(ListStack(ps[..|ps| - 1], paths[..|ps| - 1]))
  }

  lemma RenderDir(l: Listing, p: Path)
    ensures Render(l.(dirs := l.dirs + [p])) == Render(l).(dirs := Render(l).dirs + [Text(p)])
  {
    assert Texts(l.dirs + [p]) == Texts(l.dirs) + [Text(p)];
  }

  lemma RenderFile(l: Listing, f: Found)
    ensures Render(l.(files := l.files + [f]))
         == Render(l).(files := Render(l).files + [(Text(f.path), f.content)], bytes := Render(l).bytes + |f.content|)
  {
    assert FileTexts(l.files + [f]) == FileTexts(l.files) + [(Text(f.path), f.content)];
    assert (l.files + [f])[..|l.files|] == l.files;
  }

  lemma TextBelow(path: Path, name: string)
    requires name != ""
    ensures path + [name] != [] && Text(path + [name]) == (if path == [] then name else Text(path) + "/" + name)
    ensures Text(path + [name]) != ""
  {
    var p := path + [name];
    assert p[..|p| - 1] == path && p[|p| - 1] == name;
    if path == [] { assert p == [name]; }
  }

  lemma ThenAssoc(a: Listing, b: Listing, c: Listing)
    ensures a.Then(b).Then(c) == a.Then(b.Then(c)) && NOTHING.Then(a) == a == a.Then(NOTHING)
  {
  }

  /** The top of the stack. */
  lemma StackTop(ps: seq<Pending>, paths: seq<Path>)
    requires StackOk(ps, paths) && ps != []
    ensures var n := |ps| - 1;
            && |paths| == |ps| && PendingOk(ps[n], paths[n]) && StackOk(ps[..n], paths[..n])
            && ListStack(ps, paths) == List(ps[n].dir, paths[n]).Then(ListStack(ps[..n], paths[..n]))
            && StackWeight(ps) == StackWeight(ps[..n]) + Weight(ps[n].dir)
            && (StackReadable(ps) <==> StackReadable(ps[..n]) && Readable(ps[n].dir))
  {
    hide PendingOk, List, Weight, Readable, StackReadable;
    var n := |ps| - 1;
    ReadableTop(ps);
  }

  lemma ReadableTop(ps: seq<Pending>)
    requires ps != []
    ensures StackReadable(ps) <==> StackReadable(ps[..|ps| - 1]) && Readable(ps[|ps| - 1].dir)
  {
    hide Readable;
    var n := |ps| - 1;
    assert StackReadable(ps) ==> Readable(ps[n].dir);
    assert forall i :: 0 <= i < n ==> ps[..n][i] == ps[i];
  }

  /** Pushing one more subfolder. */
  lemma StackPush(ps: seq<Pending>, paths: seq<Path>, p: Pending, path: Path)
    requires StackOk(ps, paths) && PendingOk(p, path)
    ensures StackOk(ps + [p], paths + [path])
    ensures ListStack(ps + [p], paths + [path]) == List(p.dir, path).Then(ListStack(ps, paths))
    ensures StackWeight(ps + [p]) == StackWeight(ps) + Weight(p.dir)
    ensures StackReadable(ps + [p]) <==> StackReadable(ps) && Readable(p.dir)
  {
    hide PendingOk, List, Weight, Readable, ListStack, StackWeight, StackReadable;
    var qs, qaths := ps + [p], paths + [path];
    assert qs[..|qs| - 1] == ps && qaths[..|qs| - 1] == paths && qs[|qs| - 1] == p && qaths[|qs| - 1] == path;
    forall i | 0 <= i < |qs| ensures PendingOk(qs[i], qaths[i]) { if i < |ps| { assert PendingOk(ps[i], paths[i]); } }
    StackTop(qs, qaths);
  }

  /** `walk_tree`: the plan is the recursive listing, in its order, exactly when
      everything can be read and there are not too many entries. */
  method WalkTree(root: Source) returns (plan: Option<Plan>)
    requires Tidy(root)
    ensures plan.Some? <==> root.Folder? && Readable(root) && List(root, []).Count() <= MAX_ENTRIES
    ensures plan.Some? ==> plan.value == Render(List(root, []))
  {
    hide StackOk, ListStack, List, Weight, Tidy, StackWeight, StackReadable, Render, Readable;
    if !root.Folder? {
      return None;
    }
    var p := Plan([], [], 0);
    var pending: seq<Pending> := [];
    ghost var paths: seq<Path>, done := [], NOTHING;
    EmptyStack();
    StackPush(pending, paths, Pending(root, ""), []);
    pending, paths := pending + [Pending(root, "")], paths + [[]];
    ThenAssoc(List(root, []), NOTHING, NOTHING);
    while pending != []
      invariant StackOk(pending, paths)
      invariant done.Then(ListStack(pending, paths)) == List(root, [])
      invariant Readable(root) <==> StackReadable(pending)
      invariant p == Render(done) && done.Count() <= MAX_ENTRIES
      decreases StackWeight(pending)
    {
      StackTop(pending, paths);
      var top := pending[|pending| - 1];
      ghost var path, before := paths[|pending| - 1], done;
      pending, paths := pending[..|pending| - 1], paths[..|pending| - 1];
      ghost var rest := ListStack(pending, paths);
      ThenAssoc(before, List(top.dir, path), rest);
      if !top.dir.readable {
        UnreadableFolder(top.dir);
        return None;
      }
      var ok;
      ok, p, pending, paths, done := ReadEntries(top, path, p, pending, paths, done);
      if !ok {
        return None;
      }
    }
    EmptyStack();
    assert paths == [];
    ThenAssoc(done, NOTHING, NOTHING);
    plan := Some(p);
  }

  lemma EmptyStack()
    ensures StackOk([], []) && ListStack([], []) == NOTHING && StackReadable([]) && StackWeight([]) == 0
    ensures Render(NOTHING) == Plan([], [], 0)
    ensures forall paths: seq<Path> :: StackOk([], paths) ==> paths == []
  {
  }

  lemma UnreadableFolder(n: Source)
    requires n.Folder? && !n.readable
    ensures !Readable(n)
  {
  }

  lemma OwnGrows(n: Source, path: Path, j: nat, k: nat)
    requires n.Folder? && j <= k <= |n.entries|
    ensures Own(n, path, j).Count() <= Own(n, path, k).Count()
    decreases k
  {
    if j < k { OwnGrows(n, path, j, k - 1); }
  }

  /** The inner loop: one folder's entries go to the plan, its subfolders onto the stack. */
  method ReadEntries(top: Pending, ghost path: Path, plan0: Plan, pending0: seq<Pending>, ghost paths0: seq<Path>,
                     ghost done0: Listing)
    returns (ok: bool, plan: Plan, pending: seq<Pending>, ghost paths: seq<Path>, ghost done: Listing)
    requires PendingOk(top, path) && top.dir.readable && StackOk(pending0, paths0)
    requires plan0 == Render(done0) && done0.Count() <= MAX_ENTRIES
    ensures !ok ==> !Readable(top.dir) || done0.Then(List(top.dir, path)).Count() > MAX_ENTRIES
    ensures ok ==>
              && StackOk(pending, paths)
              && (StackReadable(pending) <==> StackReadable(pending0) && Readable(top.dir))
              && StackWeight(pending) < StackWeight(pending0) + Weight(top.dir)
              && plan == Render(done) && done.Count() <= MAX_ENTRIES
              && done.Then(ListStack(pending, paths))
                 == done0.Then(List(top.dir, path)).Then(ListStack(pending0, paths0))
  {
    hide StackOk, ListStack, List, Weight, StackWeight, StackReadable, Render, Readable, Own, Deep, EntriesWeight;
    hide Text, Tidy;
    hide PendingOk;
    PendingFolder(top, path);
    var dir := top.dir;
    plan, pending, paths, done := plan0, pending0, paths0, done0;
    FolderStart(dir, path);
    ThenAssoc(done0, NOTHING, NOTHING);
    ThenAssoc(ListStack(pending0, paths0), NOTHING, NOTHING);
    for k := 0 to |dir.entries|
      invariant StackOk(pending, paths)
      invariant plan == Render(done) && done.Count() <= MAX_ENTRIES
      invariant done == done0.Then(Own(dir, path, k))
      invariant ListStack(pending, paths) == Deep(dir, path, k).Then(ListStack(pending0, paths0))
      invariant StackWeight(pending) == StackWeight(pending0) + EntriesWeight(dir, k)
      invariant StackReadable(pending) <==>
                  StackReadable(pending0) && forall i :: 0 <= i < k ==> Readable(dir.entries[i].node)
    {
      var e := dir.entries[k];
      EntryStep(top, path, k);
      if e.node.Lost? {
        return false, plan, pending, paths, done;
      }
      if e.node.Link? {
        continue;
      }
      var rel := if top.prefix == "" then e.name else top.prefix + "/" + e.name;
      if |plan.dirs| + |plan.files| >= MAX_ENTRIES {
        OwnGrows(dir, path, k + 1, |dir.entries|);
        Counted(done0, dir, path, plan, done);
        return false, plan, pending, paths, done;
      }
      Counted(done0, dir, path, plan, done);
      if e.node.Folder? {
        RenderDir(done, path + [e.name]);
        ThenMore(done0, Own(dir, path, k));
        ThenAssoc(List(e.node, path + [e.name]), Deep(dir, path, k), ListStack(pending0, paths0));
        plan := plan.(dirs := plan.dirs + [rel]);
        StackPush(pending, paths, Pending(e.node, rel), path + [e.name]);
        pending, paths, done := pending + [Pending(e.node, rel)], paths + [path + [e.name]],
            done.(dirs := done.dirs + [path + [e.name]]);
      } else {
        RenderFile(done, Found(path + [e.name], e.node.content));
        ThenMore(done0, Own(dir, path, k));
        plan := plan.(bytes := plan.bytes + |e.node.content|, files := plan.files + [(rel, e.node.content)]);
        done := done.(files := done.files + [Found(path + [e.name], e.node.content)]);
      }
    }
    ok := true;
    FolderEnd(dir, path);
    ThenAssoc(done0, Own(dir, path, |dir.entries|), Deep(dir, path, |dir.entries|).Then(ListStack(pending0, paths0)));
    ThenAssoc(Own(dir, path, |dir.entries|), Deep(dir, path, |dir.entries|), ListStack(pending0, paths0));
    ThenAssoc(done0, List(dir, path), ListStack(pending0, paths0));
  }

  lemma ThenMore(a: Listing, b: Listing)
    ensures forall p :: a.Then(b).(dirs := a.Then(b).dirs + [p]) == a.Then(b.(dirs := b.dirs + [p]))
    ensures forall f :: a.Then(b).(files := a.Then(b).files + [f]) == a.Then(b.(files := b.files + [f]))
  {
    assert forall p :: a.dirs + b.dirs + [p] == a.dirs + (b.dirs + [p]);
    assert forall f :: a.files + b.files + [f] == a.files + (b.files + [f]);
  }

  lemma PendingFolder(p: Pending, path: Path)
    requires PendingOk(p, path)
    ensures p.dir.Folder?
  {
  }

  lemma FolderStart(n: Source, path: Path)
    requires n.Folder?
    ensures Own(n, path, 0) == Deep(n, path, 0) == NOTHING && EntriesWeight(n, 0) == 0
  {
  }

  lemma FolderEnd(n: Source, path: Path)
    requires n.Folder? && n.readable
    ensures List(n, path) == Own(n, path, |n.entries|).Then(Deep(n, path, |n.entries|))
    ensures Weight(n) == 1 + EntriesWeight(n, |n.entries|)
    ensures Readable(n) <==> forall i :: 0 <= i < |n.entries| ==> Readable(n.entries[i].node)
  {
  }

  lemma Counted(done0: Listing, dir: Source, path: Path, plan: Plan, done: Listing)
    requires dir.Folder? && plan == Render(done)
    ensures |plan.dirs| + |plan.files| == done.Count()
    ensures List(dir, path).Count() >= Own(dir, path, |dir.entries|).Count()
  {
  }

  /** What the k-th entry adds. */
  lemma EntryStep(top: Pending, path: Path, k: nat)
    requires PendingOk(top, path) && k < |top.dir.entries|
    ensures var n, e := top.dir, top.dir.entries[k];
            var rel := if top.prefix == "" then e.name else top.prefix + "/" + e.name;
            && rel == Text(path + [e.name])
            && (e.node.Lost? ==> !Readable(n))
            && (!e.node.Lost? && !e.node.Folder? ==> Readable(e.node))
            && Own(n, path, k + 1) == (match e.node
                 case Folder(_, _) => Own(n, path, k).(dirs := Own(n, path, k).dirs + [path + [e.name]])
                 case Plain(content) =>
                   Own(n, path, k).(files := Own(n, path, k).files + [Found(path + [e.name], content)])
                 case _ => Own(n, path, k))
            && Deep(n, path, k + 1) == (if e.node.Folder? then List(e.node, path + [e.name]).Then(Deep(n, path, k))
                                        else Deep(n, path, k))
            && EntriesWeight(n, k + 1) == EntriesWeight(n, k) + Weight(e.node)
            && (!e.node.Folder? ==> Weight(e.node) == 0)
            && (e.node.Folder? ==> PendingOk(Pending(e.node, rel), path + [e.name]))
  {
    hide List, Text;
    TextBelow(path, top.dir.entries[k].name);
    TextOfFolder(path);
  }

  lemma TextOfFolder(path: Path)
    ensures path == [] ==> Text(path) == ""
  {
  }

  /* ---- what the listing contains ---- */

  /** `p` is at, or in what was listed for, the first k entries of `n`. */
  ghost predicate Reaches(n: Source, path: Path, k: nat, p: Path)
    requires n.Folder? && k <= |n.entries|
  {
    path <= p && |path| < |p| && IndexOf(n.entries, p[|path|]) < k
  }

  /** Where entry i of a tidy folder is found. */
  lemma EntryAt(n: Source, i: nat)
    requires n.Folder? && Tidy(n) && i < |n.entries|
    ensures IndexOf(n.entries, n.entries[i].name) == i
  {
  }

  lemma {:induction false} OwnHas(n: Source, path: Path, k: nat, p: Path)
    requires n.Folder? && Tidy(n) && k <= |n.entries|
    ensures p in Own(n, path, k).dirs <==>
              Reaches(n, path, k, p) && |p| == |path| + 1 && n.entries[IndexOf(n.entries, p[|path|])].node.Folder?
    ensures forall c :: Found(p, c) in Own(n, path, k).files <==>
              Reaches(n, path, k, p) && |p| == |path| + 1 && n.entries[IndexOf(n.entries, p[|path|])].node == Plain(c)
    decreases k
  {
    if k > 0 {
      OwnHas(n, path, k - 1, p);
      EntryAt(n, k - 1);
      var q := path + [n.entries[k - 1].name];
      assert p == q <==> path <= p && |p| == |path| + 1 && p[|path|] == n.entries[k - 1].name;
    }
  }

  /** One step down. */
  lemma AtStep(n: Source, path: Path, p: Path)
    requires n.Folder? && path <= p && |path| < |p|
    ensures var i := IndexOf(n.entries, p[|path|]);
            At(n, p[|path|..]) == if i == |n.entries| then None else At(n.entries[i].node, p[|path| + 1..])
  {
    assert p[|path|..][1..] == p[|path| + 1..];
  }

  ghost predicate DirAt(n: Source, p: Path) { At(n, p).Some? && At(n, p).value.Folder? }

  ghost predicate FileAt(n: Source, p: Path, content: Bytes) { At(n, p) == Some(Plain(content)) }

  lemma {:induction false} DeepHas(n: Source, path: Path, k: nat, p: Path)
    requires n.Folder? && Tidy(n) && k <= |n.entries|
    ensures p in Deep(n, path, k).dirs <==> Reaches(n, path, k, p) && |p| > |path| + 1 && DirAt(n, p[|path|..])
    ensures forall c :: Found(p, c) in Deep(n, path, k).files <==>
              Reaches(n, path, k, p) && |p| > |path| + 1 && FileAt(n, p[|path|..], c)
    decreases n, 0, k
  {
    if k > 0 {
      hide List, At;
      var e := n.entries[k - 1];
      var q := path + [e.name];
      DeepHas(n, path, k - 1, p);
      EntryAt(n, k - 1);
      if path <= p && |p| > |path| { AtStep(n, path, p); }
      assert q <= p <==> path <= p && |path| < |p| && p[|path|] == e.name by {
        if path <= p && |path| < |p| && p[|path|] == e.name { assert q == p[..|q|]; }
      }
      if e.node.Folder? {
        ListHas(e.node, q, p);
      } else {
        if |p| > |path| { NothingBelow(e.node, p, |path| + 1); }
      }
    }
  }

  lemma NothingBelow(n: Source, p: Path, k: nat)
    requires !n.Folder? && k <= |p|
    ensures k < |p| ==> At(n, p[k..]) == None
  {
  }

  /** The listing holds a path exactly when following it from the folder, without
      following links, leads to a directory (or to a file of that content). */
  lemma {:induction false} ListHas(n: Source, path: Path, p: Path)
    requires n.Folder? && Tidy(n)
    ensures p in List(n, path).dirs <==> path <= p && |path| < |p| && DirAt(n, p[|path|..])
    ensures forall c :: Found(p, c) in List(n, path).files <==> path <= p && |path| < |p| && FileAt(n, p[|path|..], c)
    decreases n, 1
  {
    hide Own, Deep;
    OwnHas(n, path, |n.entries|, p);
    DeepHas(n, path, |n.entries|, p);
    if path <= p && |path| < |p| {
      AtStep(n, path, p);
      assert |p| == |path| + 1 ==> p[|path| + 1..] == [];
    }
  }

  /* ---- each entry once, parents first ---- */

  function Times<T(==)>(xs: seq<T>, x: T): nat { multiset(xs)[x] }

  /** How often path `p` is listed, as a directory or as a file. */
  function Listed(l: Listing, p: Path): nat { Times(l.dirs, p) + Times(FilePaths(l.files), p) }

  function FilePaths(fs: seq<Found>): seq<Path> { seq(|fs|, i requires 0 <= i < |fs| => fs[i].path) }

  lemma ListedThen(a: Listing, b: Listing, p: Path)
    ensures Listed(a.Then(b), p) == Listed(a, p) + Listed(b, p)
  {
    assert FilePaths(a.files + b.files) == FilePaths(a.files) + FilePaths(b.files);
  }

  lemma {:induction false} OwnOnce(n: Source, path: Path, k: nat, p: Path)
    requires n.Folder? && Tidy(n) && k <= |n.entries|
    ensures Listed(Own(n, path, k), p) <= (if Reaches(n, path, k, p) && |p| == |path| + 1 then 1 else 0)
    decreases k
  {
    if k > 0 {
      OwnOnce(n, path, k - 1, p);
      EntryAt(n, k - 1);
      var e, l := n.entries[k - 1], Own(n, path, k - 1);
      var q := path + [e.name];
      if e.node.Folder? {
        assert multiset(l.dirs + [q]) == multiset(l.dirs) + multiset{q};
      } else if e.node.Plain? {
        assert FilePaths(l.files + [Found(q, e.node.content)]) == FilePaths(l.files) + [q];
      }
      assert p == q ==> p[|path|] == e.name;
    }
  }

  lemma {:induction false} DeepOnce(n: Source, path: Path, k: nat, p: Path)
    requires n.Folder? && Tidy(n) && k <= |n.entries|
    ensures Listed(Deep(n, path, k), p) <= (if Reaches(n, path, k, p) && |p| > |path| + 1 then 1 else 0)
    decreases n, 0, k
  {
    if k > 0 {
      hide List;
      var e := n.entries[k - 1];
      var q := path + [e.name];
      DeepOnce(n, path, k - 1, p);
      EntryAt(n, k - 1);
      if e.node.Folder? {
        ListOnce(e.node, q, p);
        ListedThen(List(e.node, q), Deep(n, path, k - 1), p);
        assert q <= p ==> p[|path|] == e.name;
      }
    }
  }

  /** No path is listed twice. */
  lemma {:induction false} ListOnce(n: Source, path: Path, p: Path)
    requires n.Folder? && Tidy(n)
    ensures Listed(List(n, path), p) <= (if path <= p && |path| < |p| then 1 else 0)
    decreases n, 1
  {
    hide Own, Deep, Listed;
    OwnOnce(n, path, |n.entries|, p);
    DeepOnce(n, path, |n.entries|, p);
    ListedThen(Own(n, path, |n.entries|), Deep(n, path, |n.entries|), p);
  }

  /** Every directory deeper than one level comes after its parent. */
  ghost predicate ParentsFirst(ds: seq<Path>, level: nat) {
    forall i :: 0 <= i < |ds| && |ds[i]| > level + 1 ==> exists j :: 0 <= j < i && ds[j] == ds[i][..|ds[i]| - 1]
  }

  /** The same with the parents of the first level listed in `before`. */
  ghost predicate ParentsFirstAfter(before: seq<Path>, ds: seq<Path>, level: nat) {
    forall i :: 0 <= i < |ds| && |ds[i]| > level + 1 ==>
      ds[i][..|ds[i]| - 1] in before || exists j :: 0 <= j < i && ds[j] == ds[i][..|ds[i]| - 1]
  }

  lemma {:induction false} DeepParents(n: Source, path: Path, k: nat)
    requires n.Folder? && k <= |n.entries|
    ensures ParentsFirstAfter(Own(n, path, k).dirs, Deep(n, path, k).dirs, |path|)
    decreases n, 0, k
  {
    if k > 0 {
      var e := n.entries[k - 1];
      var q := path + [e.name];
      DeepParents(n, path, k - 1);
      if e.node.Folder? {
        ListParents(e.node, q);
        ListBelow(e.node, q);
        ParentsJoined(Own(n, path, k - 1).dirs, q, List(e.node, q).dirs, Deep(n, path, k - 1).dirs, |path|);
      }
    }
  }

  /** What is below one more subfolder `q` goes before what is below the others. */
  lemma ParentsJoined(own: seq<Path>, q: Path, a: seq<Path>, b: seq<Path>, level: nat)
    requires |q| == level + 1 && ParentsFirst(a, |q|) && (forall p :: p in a ==> q <= p && |q| < |p|)
    requires ParentsFirstAfter(own, b, level)
    ensures ParentsFirstAfter(own + [q], a + b, level)
  {
    forall i | 0 <= i < |a + b| && |(a + b)[i]| > level + 1
      ensures (a + b)[i][..|(a + b)[i]| - 1] in own + [q] || exists j ::
                0 <= j < i && (a + b)[j] == (a + b)[i][..|(a + b)[i]| - 1]
    {
      var p := (a + b)[i];
      if i < |a| {
        assert a[i] == p && p in a;
        if |p| > |q| + 1 {
          var j :| 0 <= j < i && a[j] == p[..|p| - 1];
          assert (a + b)[j] == p[..|p| - 1];
        } else {
          assert p[..|p| - 1] == q;
        }
      } else {
        assert b[i - |a|] == p;
        if p[..|p| - 1] !in own {
          var j :| 0 <= j < i - |a| && b[j] == p[..|p| - 1];
          assert (a + b)[|a| + j] == p[..|p| - 1];
        }
      }
    }
  }

  lemma {:induction false} ListBelow(n: Source, path: Path)
    requires n.Folder?
    ensures forall p :: p in List(n, path).dirs ==> path <= p && |path| < |p|
    decreases n, 1
  {
    OwnBelow(n, path, |n.entries|);
    DeepBelow(n, path, |n.entries|);
  }

  lemma {:induction false} OwnBelow(n: Source, path: Path, k: nat)
    requires n.Folder? && k <= |n.entries|
    ensures forall p :: p in Own(n, path, k).dirs ==> path <= p && |p| == |path| + 1
    decreases k
  {
    if k > 0 { OwnBelow(n, path, k - 1); }
  }

  lemma {:induction false} DeepBelow(n: Source, path: Path, k: nat)
    requires n.Folder? && k <= |n.entries|
    ensures forall p :: p in Deep(n, path, k).dirs ==> path <= p && |path| < |p|
    decreases n, 0, k
  {
    if k > 0 {
      DeepBelow(n, path, k - 1);
      if n.entries[k - 1].node.Folder? { ListBelow(n.entries[k - 1].node, path + [n.entries[k - 1].name]); }
    }
  }

  /** Parents come before their subdirectories. */
  lemma {:induction false} ListParents(n: Source, path: Path)
    requires n.Folder?
    ensures ParentsFirst(List(n, path).dirs, |path|)
    decreases n, 1
  {
    hide Own, Deep, ParentsFirst, ParentsFirstAfter;
    DeepParents(n, path, |n.entries|);
    OwnBelow(n, path, |n.entries|);
    ParentsJoin(Own(n, path, |n.entries|).dirs, Deep(n, path, |n.entries|).dirs, |path|);
  }

  lemma ParentsJoin(a: seq<Path>, b: seq<Path>, level: nat)
    requires ParentsFirstAfter(a, b, level) && forall p :: p in a ==> |p| == level + 1
    ensures ParentsFirst(a + b, level)
  {
    forall i | 0 <= i < |a + b| && |(a + b)[i]| > level + 1
      ensures exists j :: 0 <= j < i && (a + b)[j] == (a + b)[i][..|(a + b)[i]| - 1]
    {
      var p := (a + b)[i];
      assert i >= |a|;
      if p[..|p| - 1] in a {
        var j :| 0 <= j < |a| && a[j] == p[..|p| - 1];
        assert (a + b)[j] == p[..|p| - 1];
      } else {
        var j :| 0 <= j < i - |a| && b[j] == p[..|p| - 1];
        assert (a + b)[|a| + j] == p[..|p| - 1];
      }
    }
  }
}
