/** A folder arrives intact: walked, sent with its files interleaved in any way,
    and finalized, it has the same directories, files and contents. */
module FolderIntact {
  import opened Basics
  import opened Disk
  import opened Receiving
  import opened Ownership
  import opened Walk
  import opened Staging
  import Names

  /** How far the stream of one file has got; `part` is where its temporary file is, below the folder. */
  datatype Progress = Unsent | Sending(sent: nat, part: Path) | Sent

  /** The next message of some file's stream. */
  datatype Move = Open(file: nat) | Chunk(file: nat, size: nat) | Complete(file: nat)

  /** A folder to be sent: the folder itself, its name, its id and the ids its files will get. */
  datatype Parcel = Parcel(root: Source, name: string, tree: nat, ids: seq<nat>) {
    function L(): Listing
      requires root.Folder?
    {
      List(root, [])
    }
  }

  /** Where the temporary file of the file at `p` goes when the places `taken` are. */
  function FreePart(taken: set<Path>, p: Path): Path {
    if p == [] then [] else FreeFilePath(map q | q in taken :: Dir, p[..|p| - 1], p[|p| - 1] + ".vylopart")
  }

  /** Names and depth are what any machine accepts unchanged. */
  ghost predicate Sendable(p: Path) {
    && 1 <= |p| <= Names.MAX_TREE_DEPTH
    && (forall i :: 0 <= i < |p| ==> Names.IsClean(p[i]))
    && Names.StringBytes(Names.Join(p)) <= Names.MAX_REL_BYTES
  }

  /** A readable folder within the limits, with names that cleaning leaves alone, and
      fresh ids. */
  ghost predicate Good(c: Parcel) {
    && c.root.Folder? && Tidy(c.root) && Names.IsClean(c.name)
    && c.L().Count() <= MAX_TREE_ENTRIES
    && (forall p :: p in c.L().dirs ==> Sendable(p))
    && (forall f :: f in c.L().files ==> Sendable(f.path))
    && |c.ids| == |c.L().files|
    && (forall i, j :: 0 <= i < j < |c.ids| ==> c.ids[i] != c.ids[j])
  }

  /** The place of a temporary file is beside its file, under a longer name, and free. */
  lemma FreePartPlace(taken: set<Path>, p: Path)
    requires p != []
    ensures var q := FreePart(taken, p);
            && |q| == |p| && q[..|p| - 1] == p[..|p| - 1] && |q[|p| - 1]| >= |p[|p| - 1]| + 9
            && q !in taken && q != p
  {
    var name, fs: Fs := p[|p| - 1] + ".vylopart", map q | q in taken :: Dir;
    var (stem, ext) := SplitExt(name);
    PlacementIsFresh(fs, p[..|p| - 1], stem, ext);
    assert stem + ext == name;
  }

  /** On a disk where just those places are taken, it is what `unique_path` finds. */
  lemma FreePartOnDisk(taken: set<Path>, fs: Fs, root: Path, p: Path)
    requires p != [] && forall q :: q != [] ==> (root + q in fs <==> q in taken)
    ensures FreeFilePath(fs, root + p[..|p| - 1], p[|p| - 1] + ".vylopart") == root + FreePart(taken, p)
  {
    var dir, names: Fs := p[..|p| - 1], map q | q in taken :: Dir;
    var (stem, ext) := SplitExt(p[|p| - 1] + ".vylopart");
    PlacementIsFresh(names, dir, stem, ext);
    PlacementIsFresh(fs, root + dir, stem, ext);
    var a, b := FirstFree(names.Keys, dir, stem, ext, 0), FirstFree(fs.Keys, root + dir, stem, ext, 0);
    forall k: nat
      ensures root + dir + [Numbered(stem, ext, k)] == root + (dir + [Numbered(stem, ext, k)])
      ensures root + dir + [Numbered(stem, ext, k)] in fs <==> dir + [Numbered(stem, ext, k)] in names
    {
    }
    assert a == b;
  }

  /* ---- the messages ---- */

  function Begin(c: Parcel): Message
    requires c.root.Folder?
  {
    TreeOffer(c.tree, c.name, |c.L().files|, TotalBytes(c.L().files), None)
  }

  predicate CanMove(c: Parcel, prog: seq<Progress>, m: Move)
    requires c.root.Folder? && |prog| == |c.L().files| == |c.ids|
  {
    && m.file < |prog|
    && match m
       case Open(i) => prog[i].Unsent?
       case Chunk(i, n) => prog[i].Sending? && 0 < n <= CHUNK_SIZE && prog[i].sent + n <= |c.L().files[i].content|
       case Complete(i) => prog[i].Sending? && prog[i].sent == |c.L().files[i].content|
  }

  /** The places below the folder that are taken: directories, finished files, temporary files. */
  function Taken(c: Parcel, prog: seq<Progress>): set<Path>
    requires c.root.Folder? && |prog| == |c.L().files|
  {
    (set d | d in c.L().dirs)
    + (set i | 0 <= i < |prog| && prog[i].Sent? :: c.L().files[i].path)
    + (set i | 0 <= i < |prog| && prog[i].Sending? :: prog[i].part)
  }

  function Moved(c: Parcel, prog: seq<Progress>, m: Move): seq<Progress>
    requires c.root.Folder? && |prog| == |c.L().files| == |c.ids| && CanMove(c, prog, m)
  {
    match m
    case Open(i) => prog[i := Sending(0, FreePart(Taken(c, prog), c.L().files[i].path))]
    case Chunk(i, n) => prog[i := Sending(prog[i].sent + n, prog[i].part)]
    case Complete(i) => prog[i := Sent]
  }

  /** The file is opened or completed while another one's temporary file has its place. */
  predicate ClashAt(c: Parcel, prog: seq<Progress>, m: Move)
    requires c.root.Folder? && |prog| == |c.L().files| && m.file < |prog|
  {
    !m.Chunk?
    && exists j ::
         0 <= j < |prog| && j != m.file && prog[j].Sending? && prog[j].part == c.L().files[m.file].path
  }

  ghost predicate ClashFree(c: Parcel, prog: seq<Progress>, moves: seq<Move>)
    requires c.root.Folder? && |prog| == |c.L().files| == |c.ids| && SendsAll(c, prog, moves)
    decreases |moves|
  {
    moves == [] || (!ClashAt(c, prog, moves[0]) && ClashFree(c, Moved(c, prog, moves[0]), moves[1..]))
  }

  function MessageOf(c: Parcel, prog: seq<Progress>, m: Move, env: Env): Message
    requires c.root.Folder? && |prog| == |c.L().files| == |c.ids| && CanMove(c, prog, m)
  {
    var f, id := c.L().files[m.file], c.ids[m.file];
    match m
    case Open(_) => TreeFile(c.tree, id, Text(f.path), |f.content|)
    case Chunk(_, n) => FileChunk(id, prog[m.file].sent, f.content[prog[m.file].sent..prog[m.file].sent + n])
    case Complete(_) => FileDone(id, env.sha(f.content))
  }

  /** All files are sent by these moves, in any interleaving. */
  ghost predicate SendsAll(c: Parcel, prog: seq<Progress>, moves: seq<Move>)
    requires c.root.Folder? && |prog| == |c.L().files| == |c.ids|
    decreases |moves|
  {
    if moves == [] then forall i :: 0 <= i < |prog| ==> prog[i].Sent?
    else CanMove(c, prog, moves[0]) && SendsAll(c, Moved(c, prog, moves[0]), moves[1..])
  }

  /** The receiver after the messages of these moves. */
  ghost function Receive(c: Parcel, s: State, prog: seq<Progress>, moves: seq<Move>, env: Env): State
    requires c.root.Folder? && |prog| == |c.L().files| == |c.ids| && SendsAll(c, prog, moves)
    decreases |moves|
  {
    if moves == [] then s
    else Receive(c, Handle(s, MessageOf(c, prog, moves[0], env), env), Moved(c, prog, moves[0]), moves[1..], env)
  }

  /** The receiver after the first k directories. */
  function ReceiveDirs(c: Parcel, s: State, k: nat, env: Env): State
    requires c.root.Folder? && k <= |c.L().dirs|
  {
    if k == 0 then s else Handle(ReceiveDirs(c, s, k - 1, env), TreeDir(c.tree, Text(c.L().dirs[k - 1])), env)
  }

  function NothingSent(n: nat): seq<Progress> { seq(n, _ => Unsent) }

  /** The receiver after the whole folder. */
  ghost function ReceiveAll(c: Parcel, s: State, moves: seq<Move>, env: Env): State
    requires c.root.Folder? && |c.ids| == |c.L().files| && SendsAll(c, NothingSent(|c.ids|), moves)
  {
    var s1 := Handle(s, Begin(c), env);
    var s2 := ReceiveDirs(c, s1, |c.L().dirs|, env);
    Handle(Receive(c, s2, NothingSent(|c.ids|), moves, env), TreeEnd(c.tree, None), env)
  }

  /** What is left to do for file `k`. */
  function Left(c: Parcel, prog: seq<Progress>, k: nat): nat
    requires c.root.Folder? && |prog| == |c.L().files|
  {
    if k >= |prog| || prog[k].Sent? then 0
    else
      var size := |c.L().files[k].content|;
      if prog[k].Unsent? then size + 2 else if prog[k].sent <= size then size - prog[k].sent + 1 else 0
  }

  /** Sending never gets stuck: from any point the files can all be finished. */
  lemma {:induction false} SendingCanFinish(c: Parcel, prog: seq<Progress>, k: nat) returns (moves: seq<Move>)
    requires c.root.Folder? && |prog| == |c.L().files| == |c.ids| && k <= |prog|
    requires forall i :: 0 <= i < k ==> prog[i].Sent?
    requires forall i :: 0 <= i < |prog| && prog[i].Sending? ==> prog[i].sent <= |c.L().files[i].content|
    ensures SendsAll(c, prog, moves)
    decreases |prog| - k, Left(c, prog, k)
  {
    hide List;
    if k == |prog| {
      moves := [];
    } else if prog[k].Sent? {
      moves := SendingCanFinish(c, prog, k + 1);
    } else {
      var size := |c.L().files[k].content|;
      var m := if prog[k].Unsent? then Open(k)
               else if prog[k].sent == size then Complete(k)
               else if size - prog[k].sent < CHUNK_SIZE then Chunk(k, size - prog[k].sent)
               else Chunk(k, CHUNK_SIZE);
      var rest := SendingCanFinish(c, Moved(c, prog, m), k);
      moves := [m] + rest;
      assert moves[1..] == rest;
    }
  }

  /* ---- facts about the folder ---- */

  lemma {:induction false} AtParent(n: Source, p: Path)
    requires At(n, p).Some? && p != []
    ensures DirAt(n, p[..|p| - 1])
    decreases p
  {
    if |p| > 1 {
      var k := IndexOf(n.entries, p[0]);
      AtParent(n.entries[k].node, p[1..]);
      assert p[1..][..|p| - 2] == p[..|p| - 1][1..];
    } else {
      assert p[..0] == [];
    }
  }

  lemma FileFacts(c: Parcel, i: nat)
    requires Good(c) && i < |c.L().files|
    ensures var f := c.L().files[i];
            && f.path != [] && FileAt(c.root, f.path, f.content) && Sendable(f.path)
            && (|f.path| > 1 ==> f.path[..|f.path| - 1] in c.L().dirs)
  {
    var f := c.L().files[i];
    assert f in c.L().files && f == Found(f.path, f.content);
    ListHas(c.root, [], f.path);
    assert f.path[0..] == f.path;
    AtParent(c.root, f.path);
    var q := f.path[..|f.path| - 1];
    ListHas(c.root, [], q);
    assert q[0..] == q;
  }

  lemma DirFacts(c: Parcel, d: Path)
    requires Good(c) && d in c.L().dirs
    ensures d != [] && DirAt(c.root, d) && Sendable(d)
  {
    ListHas(c.root, [], d);
    assert d[0..] == d;
  }

  lemma PathsDistinct(c: Parcel, i: nat, j: nat)
    requires Good(c) && i < j < |c.L().files|
    ensures c.L().files[i].path != c.L().files[j].path
  {
    var fs, p := c.L().files, c.L().files[i].path;
    ListOnce(c.root, [], p);
    var ps := FilePaths(fs);
    if ps[i] == ps[j] { TwiceListed(ps, i, j); assert false; }
  }

  lemma TwiceListed(ps: seq<Path>, i: nat, j: nat)
    requires i < j < |ps| && ps[i] == ps[j]
    ensures Times(ps, ps[i]) >= 2
  {
    assert ps == ps[..j] + [ps[j]] + ps[j + 1..];
    assert ps[i] in ps[..j];
    assert multiset(ps) == multiset(ps[..j]) + multiset{ps[j]} + multiset(ps[j + 1..]);
  }

  /* ---- what the staged folder holds ---- */

  /** Something the transfer has put at `p`: a directory, a finished file, or a temporary file. */
  ghost predicate Known(c: Parcel, prog: seq<Progress>, k: nat, p: Path)
    requires Good(c) && |prog| == |c.ids| && k <= |c.L().dirs|
  {
    || p in c.L().dirs[..k]
    || (exists i :: 0 <= i < |prog| && prog[i].Sent? && c.L().files[i].path == p)
    || (exists i :: 0 <= i < |prog| && prog[i].Sending? && prog[i].part == p)
  }

  /** Below `root` the disk holds exactly what was put there so far. */
  ghost predicate OnDisk(c: Parcel, fs: Fs, root: Path, prog: seq<Progress>, k: nat)
    requires Good(c) && |prog| == |c.ids| && k <= |c.L().dirs|
  {
    && WellFormed(fs) && root in fs && fs[root].Dir?
    && (forall p :: p in c.L().dirs[..k] ==> root + p in fs && fs[root + p].Dir?)
    && (forall i :: 0 <= i < |prog| ==> FileOnDisk(c, fs, root, prog, i))
    && (forall p :: p != [] && root + p in fs ==> Known(c, prog, k, p))
  }

  ghost predicate FileOnDisk(c: Parcel, fs: Fs, root: Path, prog: seq<Progress>, i: nat)
    requires Good(c) && |prog| == |c.ids| && i < |prog|
  {
    var f := c.L().files[i];
    && (prog[i].Sent? ==> root + f.path in fs && fs[root + f.path] == File(f.content))
    && (prog[i].Sending? ==>
          && prog[i].part != [] && prog[i].part != f.path
          && root + prog[i].part in fs && fs[root + prog[i].part] == Part(c.ids[i]))
  }

  /** Off `root`, `r` is like `fs`. */
  ghost predicate Elsewhere(fs: Fs, r: Fs, root: Path) {
    forall q :: !(root <= q) ==> (q in r <==> q in fs) && (q in fs ==> r[q] == fs[q])
  }

  ghost function Opened(prog: seq<Progress>): set<nat> {
    set i | 0 <= i < |prog| && !prog[i].Unsent?
  }

  ghost function Under(c: Parcel, prog: seq<Progress>): set<nat>
    requires |prog| == |c.ids|
  {
    set i | 0 <= i < |prog| && prog[i].Sending? :: c.ids[i]
  }

  /** The live transfer of file i. */
  ghost function Live(c: Parcel, root: Path, i: nat, n: nat, part: Path): Recv
    requires Good(c) && i < |c.ids| && c.L().files[i].path != [] && n <= |c.L().files[i].content|
  {
    var f := c.L().files[i];
    Recv(f.path[|f.path| - 1], |f.content|, n, root + part, root + f.path, f.content[..n], f.content[..n], None,
         Some(c.tree))
  }

  ghost predicate FileLive(c: Parcel, s: State, root: Path, prog: seq<Progress>, i: nat)
    requires Good(c) && |prog| == |c.ids| && i < |prog|
  {
    match prog[i]
    case Sending(n, part) =>
      && n <= |c.L().files[i].content| && c.L().files[i].path != []
      && c.ids[i] in s.recv && s.recv[c.ids[i]] == Live(c, root, i, n, part)
    case _ => c.ids[i] !in s.recv
  }

  /** The folder's record while nothing went wrong. */
  ghost predicate Going(c: Parcel, t: Tree, root: Path, staging: Path, prog: seq<Progress>, k: nat)
    requires Good(c) && |prog| == |c.ids|
  {
    && t.name == c.name && t.root == root && t.staging == Some(staging) && t.drag == None && t.failed == None
       && !t.ended
    && t.outstanding == Under(c, prog) && t.entries == k + |Opened(prog)|
  }

  /** What the folder's transfer does not touch. */
  ghost predicate OthersSame(c: Parcel, s: State, r: State) {
    && r.fileDir == s.fileDir && r.desktop == s.desktop && r.drag == s.drag && r.placed == s.placed
    && r.trees - {c.tree} == s.trees - {c.tree}
    && (forall id :: id !in c.ids ==> (id in r.recv <==> id in s.recv) && (id in s.recv ==> r.recv[id] == s.recv[id]))
  }

  /** In the middle of the transfer: `s` is the state when the folder was offered. */
  ghost predicate Midway(c: Parcel, s: State, r: State, root: Path, staging: Path, prog: seq<Progress>, k: nat)
    requires Good(c) && |prog| == |c.ids| && k <= |c.L().dirs|
  {
    && c.tree in r.trees && Going(c, r.trees[c.tree], root, staging, prog, k)
    && OnDisk(c, r.fs, root, prog, k) && Elsewhere(s.fs, r.fs, root)
    && (forall i :: 0 <= i < |prog| ==> FileLive(c, r, root, prog, i))
    && OthersSame(c, s, r)
  }

  /* ---- directories ---- */

  lemma MkdirOne(fs: Fs, p: Path, env: Env)
    requires WellFormed(fs) && HasParent(fs, p) && p !in fs && AllLucky(env)
    ensures MkdirAll(fs, p, env) == Some(fs[p := Dir])
  {
    assert Lucky(env, OpMkdir(p));
    var parent := p[..|p| - 1];
    forall q | q in Ancestors(p) && q != p ensures q in fs && fs[q].Dir? {
      assert q == p[..|q|] == parent[..|q|];
      if q != parent { AncestorsAreDirs(fs, parent); }
    }
    assert fs + (map q | q in Ancestors(p) :: Dir) == fs[p := Dir];
  }

  lemma MkdirExisting(fs: Fs, p: Path, env: Env)
    requires WellFormed(fs) && IsDirOrRoot(fs, p) && AllLucky(env)
    ensures MkdirAll(fs, p, env) == Some(fs)
  {
    assert Lucky(env, OpMkdir(p));
    forall q | q in Ancestors(p) ensures q in fs && fs[q].Dir? {
      assert q == p[..|q|];
      if q != p { AncestorsAreDirs(fs, p); }
    }
    assert fs + (map q | q in Ancestors(p) :: Dir) == fs;
  }

  lemma RelArrives(p: Path)
    requires Sendable(p)
    ensures Names.SanitizeRel(Text(p)) == Some(p)
  {
    Names.CleanPathArrives(p);
  }

  lemma OneDirWellFormed(fs: Fs, p: Path)
    requires WellFormed(fs) && HasParent(fs, p) && p !in fs
    ensures WellFormed(fs[p := Dir])
  {
    var r := fs[p := Dir];
    var parent := p[..|p| - 1];
    forall q, k | q in r && 1 <= k < |q| ensures q[..k] in r && r[q[..k]].Dir? {
      if q == p {
        assert q[..k] == parent[..k];
        if k < |parent| { AncestorsAreDirs(fs, parent); } else { assert parent[..k] == parent; }
      } else {
        AncestorsAreDirs(fs, q);
      }
    }
  }

  lemma SamePrefix(root: Path, p: Path, q: Path)
    ensures root + p == root + q <==> p == q
    ensures root <= root + p
  {
    assert (root + p)[|root|..] == p && (root + q)[|root|..] == q;
  }

  lemma GoodFolder(c: Parcel)
    requires Good(c)
    ensures c.root.Folder? && |c.ids| == |c.L().files|
  {
  }

  /** A directory's parent is announced before it. */
  lemma ParentListed(ds: seq<Path>, k: nat)
    requires k < |ds| && ParentsFirst(ds, 0)
    ensures |ds[k]| > 1 ==> ds[k][..|ds[k]| - 1] in ds[..k]
  {
    if |ds[k]| > 1 {
      var j :| 0 <= j < k && ds[j] == ds[k][..|ds[k]| - 1];
      assert ds[..k][j] == ds[j];
    }
  }

  lemma DirParent(c: Parcel, fs: Fs, root: Path, prog: seq<Progress>, k: nat)
    requires Good(c) && |prog| == |c.ids| && k < |c.L().dirs| && OnDisk(c, fs, root, prog, k)
    ensures c.L().dirs[k] != [] && HasParent(fs, root + c.L().dirs[k])
  {
    hide WellFormed, Known, FileOnDisk, Good, List, Sendable, DirAt, ParentsFirst;
    GoodFolder(c);
    var ds, d := c.L().dirs, c.L().dirs[k];
    DirFacts(c, d);
    ListParents(c.root, []);
    ParentListed(ds, k);
    if |d| == 1 { assert d[..0] == [] && root + d[..0] == root; }
    assert (root + d)[..|root + d| - 1] == root + d[..|d| - 1];
  }

  lemma DirMade(c: Parcel, fs: Fs, root: Path, prog: seq<Progress>, k: nat, env: Env)
    requires Good(c) && |prog| == |c.ids| && k < |c.L().dirs| && OnDisk(c, fs, root, prog, k) && AllLucky(env)
    requires forall i :: 0 <= i < |prog| ==> prog[i].Unsent?
    ensures var d := c.L().dirs[k];
            && MkdirAll(fs, root + d, env) == Some(fs[root + d := Dir])
            && OnDisk(c, fs[root + d := Dir], root, prog, k + 1)
  {
    hide WellFormed, Good, HasParent, MkdirAll, List;
    GoodFolder(c);
    var ds, d := c.L().dirs, c.L().dirs[k];
    DirParent(c, fs, root, prog, k);
    DirIsNew(c, fs, root, prog, k);
    MkdirOne(fs, root + d, env);
    OneDirWellFormed(fs, root + d);
    var r := fs[root + d := Dir];
    assert ds[..k + 1] == ds[..k] + [d];
    forall p | p != [] && root + p in r ensures Known(c, prog, k + 1, p) {
      SamePrefix(root, p, d);
      if p != d { assert Known(c, prog, k, p); }
    }
  }

  lemma DirIsNew(c: Parcel, fs: Fs, root: Path, prog: seq<Progress>, k: nat)
    requires Good(c) && |prog| == |c.ids| && k < |c.L().dirs| && OnDisk(c, fs, root, prog, k)
    requires forall i :: 0 <= i < |prog| ==> prog[i].Unsent?
    ensures root + c.L().dirs[k] !in fs
  {
    var ds, d := c.L().dirs, c.L().dirs[k];
    DirFacts(c, d);
    if root + d in fs {
      assert Known(c, prog, k, d);
      var j :| 0 <= j < k && ds[..k][j] == d;
      TwiceListed(ds, j, k);
      ListOnce(c.root, [], d);
      assert false;
    }
  }

  /* ---- files on disk ---- */

  /** Unless there is a clash, nothing has the place of a file that is opened or completed. */
  lemma PlaceIsFree(c: Parcel, prog: seq<Progress>, k: nat, i: nat)
    requires Good(c) && |prog| == |c.ids| && k <= |c.L().dirs| && i < |prog| && !prog[i].Sent?
    requires !ClashAt(c, prog, Open(i)) && (prog[i].Sending? ==> prog[i].part != c.L().files[i].path)
    ensures c.L().files[i].path != [] && !Known(c, prog, k, c.L().files[i].path)
  {
    hide Good, List, At;
    GoodFolder(c);
    FileFacts(c, i);
    var fs, p := c.L().files, c.L().files[i].path;
    forall d | d in c.L().dirs ensures d != p { DirFacts(c, d); }
    forall j | 0 <= j < |prog| && j != i ensures fs[j].path != p {
      if i < j { PathsDistinct(c, i, j); } else { PathsDistinct(c, j, i); }
    }
    assert forall d :: d in c.L().dirs[..k] ==> d in c.L().dirs;
  }

  lemma FileParent(c: Parcel, fs: Fs, root: Path, prog: seq<Progress>, i: nat)
    requires Good(c) && |prog| == |c.ids| && i < |prog| && OnDisk(c, fs, root, prog, |c.L().dirs|)
    ensures var p := c.L().files[i].path;
            && p != [] && root + p[..|p| - 1] in fs && fs[root + p[..|p| - 1]].Dir?
            && HasParent(fs, root + p) && forall taken :: HasParent(fs, root + FreePart(taken, p))
  {
    hide OnDisk, Good, List, FreePart, Sendable, FileAt;
    GoodFolder(c);
    FileFacts(c, i);
    var p := c.L().files[i].path;
    var dir := p[..|p| - 1];
    DirOnDisk(c, fs, root, prog, dir);
    ParentOf(root, p);
    forall taken ensures HasParent(fs, root + FreePart(taken, p)) {
      FreePartPlace(taken, p);
      ParentOf(root, FreePart(taken, p));
    }
  }

  lemma ParentOf(root: Path, p: Path)
    requires p != []
    ensures (root + p)[..|root + p| - 1] == root + p[..|p| - 1]
  {
  }

  lemma DirOnDisk(c: Parcel, fs: Fs, root: Path, prog: seq<Progress>, d: Path)
    requires Good(c) && |prog| == |c.ids| && OnDisk(c, fs, root, prog, |c.L().dirs|) && (d == [] || d in c.L().dirs)
    ensures root + d in fs && fs[root + d].Dir?
  {
    hide WellFormed, Known, FileOnDisk, Good, List;
    GoodFolder(c);
    assert c.L().dirs[..|c.L().dirs|] == c.L().dirs;
    assert root + [] == root;
  }

  /** What is on disk below the folder are the places taken. */
  lemma TakenOnDisk(c: Parcel, fs: Fs, root: Path, prog: seq<Progress>)
    requires Good(c) && |prog| == |c.ids| && OnDisk(c, fs, root, prog, |c.L().dirs|)
    ensures c.root.Folder? && |c.ids| == |c.L().files|
    ensures forall q :: q != [] ==> (root + q in fs <==> q in Taken(c, prog))
  {
    hide Good, List, WellFormed;
    GoodFolder(c);
    assert c.L().dirs[..|c.L().dirs|] == c.L().dirs;
    forall q | q != [] ensures root + q in fs <==> q in Taken(c, prog) {
      if root + q in fs { assert Known(c, prog, |c.L().dirs|, q); }
      if i :| 0 <= i < |prog| && prog[i].Sent? && c.L().files[i].path == q { assert FileOnDisk(c, fs, root, prog, i); }
      if i :| 0 <= i < |prog| && prog[i].Sending? && prog[i].part == q { assert FileOnDisk(c, fs, root, prog, i); }
    }
  }

  /** The place of the temporary file of the file that is opened. */
  function PartFor(c: Parcel, prog: seq<Progress>, i: nat): Path
    requires c.root.Folder? && |prog| == |c.L().files| && i < |prog|
  {
    FreePart(Taken(c, prog), c.L().files[i].path)
  }

  lemma OpenedOnDisk(c: Parcel, fs: Fs, root: Path, prog: seq<Progress>, i: nat)
    requires Good(c) && |prog| == |c.ids| == |c.L().files| && i < |prog| && prog[i].Unsent?
    requires OnDisk(c, fs, root, prog, |c.L().dirs|) && !ClashAt(c, prog, Open(i))
    ensures var p, part := c.L().files[i].path, PartFor(c, prog, i);
            && p != [] && root + p !in fs && root + part !in fs
            && OnDisk(c, fs[root + part := Part(c.ids[i])], root, prog[i := Sending(0, part)], |c.L().dirs|)
  {
    hide WellFormed, Good, HasParent, List, FreePart, Taken;
    GoodFolder(c);
    var k, p, part := |c.L().dirs|, c.L().files[i].path, PartFor(c, prog, i);
    FileParent(c, fs, root, prog, i);
    PlaceIsFree(c, prog, k, i);
    FreePartPlace(Taken(c, prog), p);
    TakenOnDisk(c, fs, root, prog);
    var r, next := fs[root + part := Part(c.ids[i])], prog[i := Sending(0, part)];
    PartWellFormed(fs, root + part, c.ids[i]);
    forall q | q != [] && root + q in r ensures Known(c, next, k, q) {
      SamePrefix(root, q, part);
      if q == part { assert next[i].Sending?; } else { KnownStays(c, prog, next, k, q, i); }
    }
    forall j | 0 <= j < |next| ensures FileOnDisk(c, r, root, next, j) {
      assert FileOnDisk(c, fs, root, prog, j);
    }
  }

  lemma PartWellFormed(fs: Fs, p: Path, id: nat)
    requires WellFormed(fs) && HasParent(fs, p) && p !in fs
    ensures WellFormed(fs[p := Part(id)])
  {
    var env := Env((_: Op) => true, (_: Bytes) => []);
    CreatePartEffect(fs, p, id, env);
  }

  /** What was known apart from file i still is when only file i moves on. */
  lemma KnownStays(c: Parcel, prog: seq<Progress>, next: seq<Progress>, k: nat, q: Path, i: nat)
    requires Good(c) && |prog| == |c.ids| && k <= |c.L().dirs| && i < |prog|
    requires |next| == |prog| && next == prog[i := next[i]]
    requires Known(c, prog, k, q) && (prog[i].Sent? ==> next[i].Sent?)
    requires prog[i].Sending? ==> (next[i].Sending? && next[i].part == prog[i].part) || q != prog[i].part
    ensures Known(c, next, k, q)
  {
    hide Good, List;
    GoodFolder(c);
    if j :| 0 <= j < |prog| && prog[j].Sent? && c.L().files[j].path == q {
      assert next[j].Sent?;
    } else if j :| 0 <= j < |prog| && prog[j].Sending? && prog[j].part == q {
      assert j != i ==> next[j].Sending?;
    }
  }

  lemma CompletedOnDisk(c: Parcel, fs: Fs, root: Path, prog: seq<Progress>, i: nat, env: Env)
    requires Good(c) && |prog| == |c.ids| == |c.L().files| && i < |prog| && prog[i].Sending?
    requires OnDisk(c, fs, root, prog, |c.L().dirs|) && !ClashAt(c, prog, Complete(i)) && AllLucky(env)
    ensures var f, part := c.L().files[i], prog[i].part;
            && f.path != []
            && var r := RenameFile(fs, root + part, root + f.path, c.ids[i], f.content, env);
            && r == Some((fs - {root + part})[root + f.path := File(f.content)])
            && OnDisk(c, r.value, root, prog[i := Sent], |c.L().dirs|)
  {
    hide WellFormed, Good, HasParent, List;
    GoodFolder(c);
    var f, k, part := c.L().files[i], |c.L().dirs|, prog[i].part;
    FileParent(c, fs, root, prog, i);
    assert FileOnDisk(c, fs, root, prog, i);
    PlaceIsFree(c, prog, k, i);
    assert Lucky(env, OpRename(root + part, root + f.path));
    RenameFileEffect(fs, root + part, root + f.path, c.ids[i], f.content, env);
    var r, next := (fs - {root + part})[root + f.path := File(f.content)], prog[i := Sent];
    forall q | q != [] && root + q in r ensures Known(c, next, k, q) {
      SamePrefix(root, q, f.path);
      SamePrefix(root, q, part);
      if q == f.path { assert next[i].Sent?; } else { KnownStays(c, prog, next, k, q, i); }
    }
    forall d | d in c.L().dirs[..k] ensures root + d in r && r[root + d].Dir? { SamePrefix(root, d, f.path); }
    forall j | 0 <= j < |next| ensures FileOnDisk(c, r, root, next, j) {
      assert FileOnDisk(c, fs, root, prog, j);
      if j != i { OthersApart(c, fs, root, prog, i, j); }
    }
    SamePrefix(root, [], []);
    assert root + f.path != root && root + part != root;
  }

  lemma OthersApart(c: Parcel, fs: Fs, root: Path, prog: seq<Progress>, i: nat, j: nat)
    requires Good(c) && |prog| == |c.ids| == |c.L().files| && i < |prog| && j < |prog| && i != j && prog[i].Sending?
    requires FileOnDisk(c, fs, root, prog, i) && FileOnDisk(c, fs, root, prog, j) && !ClashAt(c, prog, Complete(i))
    ensures var p, q := c.L().files[i].path, c.L().files[j].path;
            && (prog[j].Sent? ==> root + q != root + p && root + q != root + prog[i].part)
            && (prog[j].Sending? ==> root + prog[j].part != root + p && root + prog[j].part != root + prog[i].part)
  {
    DistinctIds(c);
    hide Good, List, At;
    GoodFolder(c);
    var p, q := c.L().files[i].path, c.L().files[j].path;
    if i < j { PathsDistinct(c, i, j); } else { PathsDistinct(c, j, i); }
    SamePrefix(root, q, p);
    if prog[j].Sending? { SamePrefix(root, prog[j].part, p); }
  }

  /* ---- counting ---- */

  function Indices(n: nat): (r: set<nat>)
    ensures |r| == n && forall i: nat :: i in r <==> i < n
  {
    if n == 0 then {} else Indices(n - 1) + {n - 1}
  }

  lemma OpenedBound(prog: seq<Progress>)
    ensures |Opened(prog)| <= |prog|
    ensures forall i :: 0 <= i < |prog| && prog[i].Unsent? ==> |Opened(prog)| < |prog|
  {
    SubsetSize(Opened(prog), Indices(|prog|));
    if i :| 0 <= i < |prog| && prog[i].Unsent? {
      SubsetSize(Opened(prog), Indices(|prog|) - {i});
    }
  }

  lemma SubsetSize(a: set<nat>, b: set<nat>)
    requires a <= b
    ensures |a| <= |b|
  {
    assert b == a + (b - a);
  }

  lemma FileOpened(c: Parcel, prog: seq<Progress>, i: nat)
    requires Good(c) && |prog| == |c.ids| && i < |prog| && prog[i].Unsent?
    ensures forall part :: |Opened(prog[i := Sending(0, part)])| == |Opened(prog)| + 1
    ensures forall part :: Under(c, prog[i := Sending(0, part)]) == Under(c, prog) + {c.ids[i]}
  {
    hide Good, List;
    forall part
      ensures |Opened(prog[i := Sending(0, part)])| == |Opened(prog)| + 1
      ensures Under(c, prog[i := Sending(0, part)]) == Under(c, prog) + {c.ids[i]}
    {
      var next := prog[i := Sending(0, part)];
      assert Opened(next) == Opened(prog) + {i};
      assert next[i].Sending?;
      forall x | x in Under(c, prog) ensures x in Under(c, next) {
        var j :| 0 <= j < |prog| && prog[j].Sending? && c.ids[j] == x;
        assert next[j].Sending?;
      }
    }
  }

  lemma FileMoved(c: Parcel, prog: seq<Progress>, i: nat, n: nat)
    requires Good(c) && |prog| == |c.ids| && i < |prog| && prog[i].Sending?
    ensures var next := prog[i := Sending(n, prog[i].part)];
            Opened(next) == Opened(prog) && Under(c, next) == Under(c, prog)
    ensures Opened(prog[i := Sent]) == Opened(prog) && Under(c, prog[i := Sent]) == Under(c, prog) - {c.ids[i]}
  {
    DistinctIds(c);
    hide Good, List;
    var next, last := prog[i := Sending(n, prog[i].part)], prog[i := Sent];
    forall x | x in Under(c, prog) ensures x in Under(c, next) && (x != c.ids[i] ==> x in Under(c, last)) {
      var j :| 0 <= j < |prog| && prog[j].Sending? && c.ids[j] == x;
      assert next[j].Sending?;
      assert j != i ==> last[j].Sending?;
    }
    assert Opened(next) == Opened(prog) == Opened(last);
    assert Under(c, next) == Under(c, prog);
    assert Under(c, last) == Under(c, prog) - {c.ids[i]};
  }

  lemma DistinctIds(c: Parcel)
    requires Good(c)
    ensures forall i, j :: 0 <= i < |c.ids| && 0 <= j < |c.ids| && i != j ==> c.ids[i] != c.ids[j]
  {
  }

  /* ---- receiving, step by step ---- */

  lemma FreeAsNamed(fs: Fs, dir: Path, name: string)
    requires dir + [name] !in fs
    ensures FreeFilePath(fs, dir, name) == dir + [name] == FreeDirPath(fs, dir, name)
  {
    var (stem, ext) := SplitExt(name);
    PlacementIsFresh(fs, dir, stem, ext);
    PlacementIsFresh(fs, dir, name, "");
    assert name + "" == name;
  }

  lemma BeginsInPlace(fs: Fs, dir: Path, id: nat, name: string, part: Path, size: nat, tree: Option<nat>, env: Env)
    requires WellFormed(fs) && dir in fs && fs[dir].Dir? && Names.IsClean(name) && AllLucky(env)
    requires dir + [name] !in fs && part !in fs && FreeFilePath(fs, dir, name + ".vylopart") == part
    ensures BeginRecv(fs, dir, id, name, size, None, tree, env)
         == (fs[part := Part(id)], Some(Recv(name, size, 0, part, dir + [name], [], [], None, tree)))
  {
    hide FreeFilePath, MkdirAll, WellFormed, Names.IsClean, Names.Sanitize;
    Names.CleanIsFixed(name);
    MkdirExisting(fs, dir, env);
    FreeAsNamed(fs, dir, name);
    PartParent(fs, dir, name + ".vylopart");
    assert Lucky(env, OpCreate(part));
  }

  lemma PartParent(fs: Fs, dir: Path, name: string)
    ensures var p := FreeFilePath(fs, dir, name); |p| == |dir| + 1 && p[..|p| - 1] == dir
  {
  }

  /** The receiver once file i was offered and accepted. */
  ghost function AfterOpen(c: Parcel, r: State, root: Path, i: nat, part: Path): State
    requires Good(c) && i < |c.ids| && c.L().files[i].path != [] && c.tree in r.trees
  {
    var f, id, t := c.L().files[i], c.ids[i], r.trees[c.tree];
    r.(fs := r.fs[root + part := Part(id)],
       recv := r.recv[id := Live(c, root, i, 0, part)],
       trees := r.trees[c.tree := t.(entries := t.entries + 1, offered := t.offered + [id],
                                     outstanding := t.outstanding + {id})],
       replies := r.replies + [Accept(id)])
  }

  lemma OpenHandled(c: Parcel, r: State, root: Path, i: nat, part: Path, env: Env)
    requires Good(c) && AllLucky(env) && i < |c.ids| && c.ids[i] !in r.recv && c.tree in r.trees
    requires var t := r.trees[c.tree];
             t.root == root && t.drag == None && t.failed == None && t.entries < MAX_TREE_ENTRIES
    requires var p := c.L().files[i].path;
             && p != [] && WellFormed(r.fs) && root + p[..|p| - 1] in r.fs && r.fs[root + p[..|p| - 1]].Dir?
             && root + p !in r.fs && root + part !in r.fs
             && FreeFilePath(r.fs, root + p[..|p| - 1], p[|p| - 1] + ".vylopart") == root + part
    ensures OfferInTree(r, c.tree, c.ids[i], Text(c.L().files[i].path), |c.L().files[i].content|, env)
            == AfterOpen(c, r, root, i, part)
  {
    hide Good, List, WellFormed, BeginRecv, Names.SanitizeRel, Names.IsClean, At, Text, FreeFilePath;
    GoodFolder(c);
    FileFacts(c, i);
    var f, id := c.L().files[i], c.ids[i];
    var p, k := f.path, |f.path| - 1;
    RelArrives(p);
    assert root + p[..k] + [p[k]] == root + p;
    BeginsInPlace(r.fs, root + p[..k], id, p[k], root + part, |f.content|, Some(c.tree), env);
    assert f.content[..0] == [];
    var t := r.trees[c.tree].(entries := r.trees[c.tree].entries + 1, offered := r.trees[c.tree].offered + [id]);
    assert r.trees[c.tree := t][c.tree := t.(outstanding := t.outstanding + {id})]
        == r.trees[c.tree := t.(outstanding := t.outstanding + {id})];
  }

  lemma OpenReceived(c: Parcel, s: State, r: State, root: Path, staging: Path, prog: seq<Progress>, i: nat, env: Env)
    requires Good(c) && AllLucky(env) && |prog| == |c.ids| == |c.L().files| && i < |prog| && prog[i].Unsent?
    requires Midway(c, s, r, root, staging, prog, |c.L().dirs|) && !ClashAt(c, prog, Open(i))
    ensures Midway(c, s, Handle(r, MessageOf(c, prog, Open(i), env), env), root, staging, Moved(c, prog, Open(i)),
                   |c.L().dirs|)
  {
    hide Good, List, OnDisk, Elsewhere, WellFormed, OfferInTree, FreePart, Taken, Text, Opened, Under, OthersSame;
    GoodFolder(c);
    var p := c.L().files[i].path;
    OpenedOnDisk(c, r.fs, root, prog, i);
    FileParent(c, r.fs, root, prog, i);
    TakenOnDisk(c, r.fs, root, prog);
    FreePartOnDisk(Taken(c, prog), r.fs, root, p);
    OpenedBound(prog);
    Limits(c);
    DiskOk(c, r.fs, root, prog, |c.L().dirs|);
    assert FileLive(c, r, root, prog, i);
    OpenHandled(c, r, root, i, PartFor(c, prog, i), env);
    OpenedMidway(c, s, r, root, staging, prog, i);
  }

  lemma OpenedMidway(c: Parcel, s: State, r: State, root: Path, staging: Path, prog: seq<Progress>, i: nat)
    requires Good(c) && |prog| == |c.ids| == |c.L().files| && i < |prog| && prog[i].Unsent? && c.L().files[i].path != []
    requires Midway(c, s, r, root, staging, prog, |c.L().dirs|)
    requires OnDisk(c, r.fs[root + PartFor(c, prog, i) := Part(c.ids[i])], root,
                    prog[i := Sending(0, PartFor(c, prog, i))], |c.L().dirs|)
    ensures Midway(c, s, AfterOpen(c, r, root, i, PartFor(c, prog, i)), root, staging,
                   prog[i := Sending(0, PartFor(c, prog, i))], |c.L().dirs|)
  {
    hide Good, List, OnDisk, Elsewhere, PartFor, Opened, Under;
    GoodFolder(c);
    var part := PartFor(c, prog, i);
    FileOpened(c, prog, i);
    PutBelow(s.fs, r.fs, root, part, Part(c.ids[i]));
    DistinctIds(c);
    var next, after := AfterOpen(c, r, root, i, part), prog[i := Sending(0, part)];
    forall j | 0 <= j < |after| ensures FileLive(c, next, root, after, j) { assert FileLive(c, r, root, prog, j); }
  }

  lemma DiskOk(c: Parcel, fs: Fs, root: Path, prog: seq<Progress>, k: nat)
    requires Good(c) && |prog| == |c.ids| && k <= |c.L().dirs| && OnDisk(c, fs, root, prog, k)
    ensures WellFormed(fs) && root in fs && fs[root].Dir?
    ensures k == |c.L().dirs| ==> forall d :: d in c.L().dirs ==> root + d in fs
  {
    assert c.L().dirs[..|c.L().dirs|] == c.L().dirs;
  }

  lemma Limits(c: Parcel)
    requires Good(c)
    ensures |c.L().dirs| + |c.ids| <= MAX_TREE_ENTRIES
  {
  }

  /** Writing below `root` changes nothing elsewhere. */
  lemma PutBelow(fs: Fs, r: Fs, root: Path, p: Path, n: Node)
    requires Elsewhere(fs, r, root)
    ensures Elsewhere(fs, r[root + p := n], root)
  {
    SamePrefix(root, p, p);
  }

  /** The next chunk of a live file is taken. */
  lemma ChunkHandled(c: Parcel, r: State, root: Path, i: nat, n: nat, part: Path, size: nat, env: Env)
    requires Good(c) && AllLucky(env) && i < |c.ids| && 0 < size <= CHUNK_SIZE && n + size <= |c.L().files[i].content|
    requires c.L().files[i].path != [] && c.ids[i] in r.recv && r.recv[c.ids[i]] == Live(c, root, i, n, part)
    ensures Receiving.Chunk(r, c.ids[i], n, c.L().files[i].content[n..n + size], env)
         == r.(recv := r.recv[c.ids[i] := Live(c, root, i, n + size, part)])
  {
    hide Good, List, SettleFailure;
    GoodFolder(c);
    var f := c.L().files[i];
    assert Lucky(env, OpWrite(r.recv[c.ids[i]].part));
    assert f.content[..n] + f.content[n..n + size] == f.content[..n + size];
  }

  lemma ChunkReceived(c: Parcel, s: State, r: State, root: Path, staging: Path, prog: seq<Progress>, m: Move, env: Env)
    requires Good(c) && AllLucky(env) && |prog| == |c.ids| && |c.ids| == |c.L().files| && m.Chunk?
             && CanMove(c, prog, m)
    requires Midway(c, s, r, root, staging, prog, |c.L().dirs|)
    ensures Midway(c, s, Handle(r, MessageOf(c, prog, m, env), env), root, staging, Moved(c, prog, m), |c.L().dirs|)
  {
    hide Good, List, Elsewhere, WellFormed, Opened, Under, OnDisk, Receiving.Chunk;
    GoodFolder(c);
    var i, n := m.file, prog[m.file].sent;
    FileMoved(c, prog, i, n + m.size);
    assert FileLive(c, r, root, prog, i);
    ChunkHandled(c, r, root, i, n, prog[i].part, m.size, env);
    DistinctIds(c);
    var next, after := Handle(r, MessageOf(c, prog, m, env), env), Moved(c, prog, m);
    forall j | 0 <= j < |after| ensures FileLive(c, next, root, after, j) { assert FileLive(c, r, root, prog, j); }
    StillOnDisk(c, r.fs, root, prog, after, i);
  }

  /** A file that goes on streaming changes nothing on disk. */
  lemma StillOnDisk(c: Parcel, fs: Fs, root: Path, prog: seq<Progress>, next: seq<Progress>, i: nat)
    requires Good(c) && |prog| == |next| == |c.ids| && i < |prog| && prog[i].Sending? && next[i].Sending?
             && next[i].part == prog[i].part && next == prog[i := next[i]]
    requires OnDisk(c, fs, root, prog, |c.L().dirs|)
    ensures OnDisk(c, fs, root, next, |c.L().dirs|)
  {
    hide Good, List, WellFormed;
    GoodFolder(c);
    forall q | q != [] && root + q in fs
      ensures Known(c, next, |c.L().dirs|, q)
    {
      KnownStays(c, prog, next, |c.L().dirs|, q, i);
    }
    forall j | 0 <= j < |next| ensures FileOnDisk(c, fs, root, next, j) { assert FileOnDisk(c, fs, root, prog, j); }
  }

  /** The receiver once file i was verified. */
  ghost function AfterDone(c: Parcel, r: State, root: Path, i: nat, part: Path): State
    requires Good(c) && i < |c.ids| && c.tree in r.trees
  {
    var f, id, t := c.L().files[i], c.ids[i], r.trees[c.tree];
    r.(fs := (r.fs - {root + part})[root + f.path := File(f.content)],
       recv := r.recv - {id},
       trees := r.trees[c.tree := t.(outstanding := t.outstanding - {id}, doneBytes := t.doneBytes + |f.content|,
                                     verified := t.verified + [Verified(id, |f.content|)])])
  }

  lemma DoneHandled(c: Parcel, r: State, root: Path, i: nat, part: Path, env: Env)
    requires Good(c) && i < |c.ids| && c.tree in r.trees && !r.trees[c.tree].ended && c.ids[i] in r.recv
    requires var f := c.L().files[i];
             && f.path != [] && r.recv[c.ids[i]] == Live(c, root, i, |f.content|, part)
             && RenameFile(r.fs, root + part, root + f.path, c.ids[i], f.content, env)
                == Some((r.fs - {root + part})[root + f.path := File(f.content)])
    ensures Done(r, c.ids[i], env.sha(c.L().files[i].content), env) == AfterDone(c, r, root, i, part)
  {
    hide Good, List, RenameFile;
    GoodFolder(c);
    var f := c.L().files[i];
    assert f.content[..|f.content|] == f.content;
  }

  lemma DoneReceived(c: Parcel, s: State, r: State, root: Path, staging: Path, prog: seq<Progress>, i: nat, env: Env)
    requires Good(c) && AllLucky(env) && |prog| == |c.ids| == |c.L().files| && CanMove(c, prog, Complete(i))
    requires Midway(c, s, r, root, staging, prog, |c.L().dirs|) && !ClashAt(c, prog, Complete(i))
    ensures Midway(c, s, Handle(r, MessageOf(c, prog, Complete(i), env), env), root, staging, prog[i := Sent],
                   |c.L().dirs|)
  {
    hide Good, List, OnDisk, Elsewhere, WellFormed, Opened, Under, Done, RenameFile, ClashAt;
    GoodFolder(c);
    var f, part := c.L().files[i], prog[i].part;
    assert FileLive(c, r, root, prog, i);
    CompletedOnDisk(c, r.fs, root, prog, i, env);
    DoneHandled(c, r, root, i, part, env);
    FileMoved(c, prog, i, 0);
    DistinctIds(c);
    var next, after := AfterDone(c, r, root, i, part), prog[i := Sent];
    forall j | 0 <= j < |after| ensures FileLive(c, next, root, after, j) { assert FileLive(c, r, root, prog, j); }
    assert Elsewhere(s.fs, next.fs, root) by {
      TakenBelow(s.fs, r.fs, root, part);
      PutBelow(s.fs, r.fs - {root + part}, root, f.path, File(f.content));
    }
  }

  lemma TakenBelow(fs: Fs, r: Fs, root: Path, p: Path)
    requires Elsewhere(fs, r, root)
    ensures Elsewhere(fs, r - {root + p}, root)
  {
    SamePrefix(root, p, p);
  }

  /** All the files' messages, in any interleaving without a clash. */
  lemma {:induction false} FilesReceived(c: Parcel, s: State, r: State, root: Path, staging: Path, prog: seq<Progress>,
                                         moves: seq<Move>, env: Env)
    requires Good(c) && AllLucky(env) && |prog| == |c.L().files| == |c.ids| && SendsAll(c, prog, moves)
    requires ClashFree(c, prog, moves)
    requires Midway(c, s, r, root, staging, prog, |c.L().dirs|)
    ensures exists done: seq<Progress> ::
              && |done| == |c.ids| && (forall i :: 0 <= i < |done| ==> done[i].Sent?)
              && Midway(c, s, Receive(c, r, prog, moves, env), root, staging, done, |c.L().dirs|)
    decreases |moves|
  {
    hide Good, Midway, Handle, List;
    GoodFolder(c);
    if moves != [] {
      var m := moves[0];
      match m {
        case Open(i) => OpenReceived(c, s, r, root, staging, prog, i, env);
        case Chunk(_, _) => ChunkReceived(c, s, r, root, staging, prog, m, env);
        case Complete(i) => DoneReceived(c, s, r, root, staging, prog, i, env);
      }
      FilesReceived(c, s, Handle(r, MessageOf(c, prog, m, env), env), root, staging, Moved(c, prog, m), moves[1..],
                    env);
    }
  }

  lemma DirReceived(c: Parcel, s: State, r: State, root: Path, staging: Path, prog: seq<Progress>, k: nat, env: Env)
    requires Good(c) && AllLucky(env) && |prog| == |c.ids| && k < |c.L().dirs|
             && (forall i :: 0 <= i < |prog| ==> prog[i].Unsent?)
    requires Midway(c, s, r, root, staging, prog, k)
    ensures Midway(c, s, MakeDir(r, c.tree, Text(c.L().dirs[k]), env), root, staging, prog, k + 1)
  {
    hide Good, List, OnDisk, Elsewhere, WellFormed, Under, Text, Names.SanitizeRel, MkdirAll, FileLive;
    GoodFolder(c);
    var d := c.L().dirs[k];
    DirFacts(c, d);
    RelArrives(d);
    DirMade(c, r.fs, root, prog, k, env);
    PutBelow(s.fs, r.fs, root, d, Dir);
    Limits(c);
    assert Opened(prog) == {};
    SameTransfers(c, r, MakeDir(r, c.tree, Text(d), env), root, prog);
  }

  lemma SameTransfers(c: Parcel, s: State, r: State, root: Path, prog: seq<Progress>)
    requires Good(c) && |prog| == |c.ids| && r.recv == s.recv
    ensures forall i :: 0 <= i < |prog| ==> FileLive(c, s, root, prog, i) == FileLive(c, r, root, prog, i)
  {
    hide Good, List;
    GoodFolder(c);
  }

  lemma {:induction false} DirsReceived(c: Parcel, s: State, r: State, root: Path, staging: Path, prog: seq<Progress>,
                                        k: nat, env: Env)
    requires Good(c) && AllLucky(env) && |prog| == |c.ids| && k <= |c.L().dirs|
             && (forall i :: 0 <= i < |prog| ==> prog[i].Unsent?)
    requires Midway(c, s, r, root, staging, prog, 0)
    ensures Midway(c, s, ReceiveDirs(c, r, k, env), root, staging, prog, k)
  {
    hide Good, Midway, MakeDir, List;
    GoodFolder(c);
    if k > 0 {
      DirsReceived(c, s, r, root, staging, prog, k - 1, env);
      DirReceived(c, s, ReceiveDirs(c, r, k - 1, env), root, staging, prog, k - 1, env);
    }
  }

  /* ---- beginning and end ---- */

  /** Nothing is known before anything was sent. */
  lemma NothingKnown(c: Parcel, fs: Fs, root: Path)
    requires Good(c) && WellFormed(fs) && root != [] && root !in fs && HasParent(fs, root)
    ensures OnDisk(c, fs[root := Dir], root, NothingSent(|c.ids|), 0)
  {
    hide Good, List, HasParent;
    GoodFolder(c);
    OneDirWellFormed(fs, root);
    forall p | p != [] ensures root + p !in fs {
      if root + p in fs { NothingBelowAbsent(fs, root, root + p); SamePrefix(root, p, p); assert false; }
    }
    forall p | p != [] ensures root + p != root { }
  }

  /** The record of a folder of its own that was just offered. */
  function NewRecord(name: string, root: Path, staging: Path, files: nat, bytes: nat): Tree {
    Tree(name, root, Some(staging), None, files, bytes, 0, {}, 0, false, None, false, [], [], [], [])
  }

  lemma OfferedAlone(s: State, tree: nat, name: string, files: nat, bytes: nat, fs: Fs, root: Path, env: Env)
    requires tree !in s.trees && Names.Sanitize(name) == Some(name)
    requires MkdirAll(s.fs, s.fileDir + [TreeStagingName(tree)], env) == Some(fs)
    requires root == FreeDirPath(fs, s.fileDir + [TreeStagingName(tree)], name) && MkdirAll(fs, root, env).Some?
    ensures OfferTree(s, tree, name, files, bytes, None, env)
         == s.(fs := MkdirAll(fs, root, env).value,
               trees := s.trees[tree := NewRecord(name, root, s.fileDir + [TreeStagingName(tree)], files, bytes)])
  {
    hide MkdirAll, FreeDirPath, Names.Sanitize, TreeStagingName;
  }

  /** The folder's root is made below its own staging directory. */
  lemma Begun(c: Parcel, s: State, env: Env)
    requires Good(c) && AllLucky(env) && WellFormed(s.fs) && c.tree !in s.trees
             && (forall id :: id in c.ids ==> id !in s.recv)
    requires MkdirAll(s.fs, s.fileDir + [TreeStagingName(c.tree)], env).Some?
    ensures var staging := s.fileDir + [TreeStagingName(c.tree)];
            var fs := MkdirAll(s.fs, staging, env).value;
            var root := FreeDirPath(fs, staging, c.name);
            && |root| == |staging| + 1 && staging <= root && WellFormed(fs) && root !in fs
            && Midway(c, s.(fs := fs), Handle(s, Begin(c), env), root, staging, NothingSent(|c.ids|), 0)
  {
    hide Good, List, OnDisk, MkdirAll, FreeDirPath, WellFormed, TreeStagingName, Names.Sanitize, Names.IsClean;
    hide OfferTree;
    hide Midway;
    GoodFolder(c);
    var staging := s.fileDir + [TreeStagingName(c.tree)];
    var fs := MkdirAll(s.fs, staging, env).value;
    MkdirAllEffect(s.fs, staging, env);
    CleanName(c);
    Names.CleanIsFixed(c.name);
    FreshDir(fs, staging, c.name);
    var root := FreeDirPath(fs, staging, c.name);
    assert root[..|root| - 1] == staging;
    MkdirOne(fs, root, env);
    OfferedAlone(s, c.tree, c.name, |c.L().files|, TotalBytes(c.L().files), fs, root, env);
    BegunMidway(c, s, fs, root, staging);
  }

  lemma BegunMidway(c: Parcel, s: State, fs: Fs, root: Path, staging: Path)
    requires Good(c) && c.tree !in s.trees && (forall id :: id in c.ids ==> id !in s.recv)
    requires WellFormed(fs) && root != [] && root !in fs && HasParent(fs, root)
    ensures c.root.Folder?
    ensures var t := NewRecord(c.name, root, staging, |c.L().files|, TotalBytes(c.L().files));
            Midway(c, s.(fs := fs), s.(fs := fs[root := Dir], trees := s.trees[c.tree := t]), root, staging,
                   NothingSent(|c.ids|), 0)
  {
    hide Good, List, OnDisk, WellFormed;
    GoodFolder(c);
    NothingKnown(c, fs, root);
    var prog := NothingSent(|c.ids|);
    assert Under(c, prog) == {} && Opened(prog) == {};
    assert s.trees[c.tree := NewRecord(c.name, root, staging, |c.L().files|, TotalBytes(c.L().files))] - {c.tree}
        == s.trees - {c.tree};
  }

  lemma CleanName(c: Parcel)
    requires Good(c)
    ensures Names.IsClean(c.name)
  {
  }

  lemma FreshDir(fs: Fs, dir: Path, name: string)
    ensures var p := FreeDirPath(fs, dir, name);
            p !in fs && |p| == |dir| + 1 && dir <= p && exists i :: p == dir + [Numbered(name, "", i)]
  {
    PlacementIsFresh(fs, dir, name, "");
  }

  /** What is at `root` on disk is the folder `n`: the same directories, empty
      ones too, and the same files with the same contents, and nothing else. */
  ghost predicate SameTree(fs: Fs, root: Path, n: Source) {
    && root in fs && fs[root].Dir?
    && forall p :: p != [] ==>
         && (root + p in fs <==> DirAt(n, p) || exists content :: FileAt(n, p, content))
         && (DirAt(n, p) ==> fs[root + p].Dir?)
         && (forall content :: FileAt(n, p, content) ==> fs[root + p] == File(content))
  }

  lemma AllOnDisk(c: Parcel, fs: Fs, root: Path, prog: seq<Progress>)
    requires Good(c) && |prog| == |c.ids| && (forall i :: 0 <= i < |prog| ==> prog[i].Sent?)
    requires OnDisk(c, fs, root, prog, |c.L().dirs|)
    ensures SameTree(fs, root, c.root)
  {
    hide Good, List, At, WellFormed, DirAt, FileAt;
    GoodFolder(c);
    var ds, fl := c.L().dirs, c.L().files;
    assert ds[..|ds|] == ds;
    TidyRoot(c);
    forall p | p != []
      ensures root + p in fs <==> DirAt(c.root, p) || exists content :: FileAt(c.root, p, content)
      ensures DirAt(c.root, p) ==> fs[root + p].Dir?
      ensures forall content :: FileAt(c.root, p, content) ==> fs[root + p] == File(content)
    {
      ListHas(c.root, [], p);
      assert p[0..] == p;
      if root + p in fs {
        assert Known(c, prog, |ds|, p);
        if i :| 0 <= i < |prog| && prog[i].Sent? && fl[i].path == p {
          assert fl[i] in fl && fl[i] == Found(p, fl[i].content);
        }
      }
      forall content | FileAt(c.root, p, content) ensures root + p in fs && fs[root + p] == File(content) {
        var i :| 0 <= i < |fl| && fl[i] == Found(p, content);
        assert FileOnDisk(c, fs, root, prog, i);
      }
    }
  }

  lemma TidyRoot(c: Parcel)
    requires Good(c)
    ensures Tidy(c.root)
  {
  }

  /** Moving a directory moves all that is in it. */
  lemma MovedTree(fs: Fs, src: Path, dst: Path, n: Source, env: Env)
    requires WellFormed(fs) && SameTree(fs, src, n) && MovePath(fs, src, dst, env).Some?
    ensures SameTree(MovePath(fs, src, dst, env).value, dst, n)
  {
    hide WellFormed, MovePath, DirAt, FileAt;
    MoveContents(fs, src, dst, env);
    var r := MovePath(fs, src, dst, env).value;
    forall p ensures (dst + p in r <==> src + p in fs) && (src + p in fs ==> r[dst + p] == fs[src + p]) {
      assert (dst + p)[|dst|..] == p && (src + p)[|src|..] == p;
      SamePrefix(src, p, p);
      SamePrefix(dst, p, p);
    }
    assert src + [] == src && dst + [] == dst;
  }

  /** Removing a directory beside it leaves a folder alone. */
  lemma BesideRemoved(fs: Fs, beside: Path, dst: Path, n: Source)
    requires WellFormed(fs) && SameTree(fs, dst, n) && |beside| == |dst| && beside != dst
    ensures SameTree(RemoveDir(fs, beside), dst, n)
  {
    hide WellFormed, DirAt, FileAt, RemoveDir;
    RemoveDirEffect(fs, beside);
    forall p ensures !(beside <= dst + p) {
      assert (dst + p)[..|dst|] == dst;
      assert (beside <= dst + p) == ((dst + p)[..|beside|] == beside);
    }
    assert dst + [] == dst;
  }

  lemma StagingApart(home: Path, tree: nat, name: string, i: nat)
    requires Names.IsClean(name)
    ensures home + [TreeStagingName(tree)] != home + [Numbered(name, "", i)]
  {
    CleanNameUndotted(name);
    PlacedNamesUnstaged(name, i);
    StagingNames(tree, tree);
    var a, b := home + [TreeStagingName(tree)], home + [Numbered(name, "", i)];
    assert a[|home|] == TreeStagingName(tree) && b[|home|] == Numbered(name, "", i);
  }

  /** What `try_finalize_tree` computes for a folder of its own that nothing went wrong with. */
  lemma EndResult(r: State, tree: nat, root: Path, staging: Path, dest: Path, env: Env)
    requires tree in r.trees
    requires var t := r.trees[tree];
             t.outstanding == {} && t.drag == None && t.failed == None && t.root == root && t.staging == Some(staging)
             && dest == FreeDirPath(r.fs, r.fileDir, t.name)
    requires MkdirAll(r.fs, r.fileDir, env) == Some(r.fs) && MovePath(r.fs, root, dest, env).Some?
    ensures EndTree(r, tree, None, env)
         == r.(trees := r.trees - {tree}, fs := RemoveDir(MovePath(r.fs, root, dest, env).value, staging),
               placed := r.placed + [Placed(tree, true, dest, Some(r.trees[tree].(ended := true)))])
  {
    hide MovePath, MkdirAll, RemoveDir, FreeDirPath;
    var t := r.trees[tree].(ended := true);
    assert r.trees[tree := t] - {tree} == r.trees - {tree};
  }

  /** The disk after a folder was moved out of its staging directory. */
  lemma MovedOut(fs: Fs, home: Path, root: Path, staging: Path, dest: Path, n: Source, env: Env)
    requires WellFormed(fs) && SameTree(fs, root, n) && MovePath(fs, root, dest, env).Some?
    requires staging <= root && |staging| == |dest| && staging != dest
    ensures var r := RemoveDir(MovePath(fs, root, dest, env).value, staging);
            && SameTree(r, dest, n)
            && (forall q :: !(dest <= q) && !(staging <= q) ==> (q in r <==> q in fs) && (q in fs ==> r[q] == fs[q]))
            && (forall q :: q in r && q !in fs ==> dest <= q)
  {
    hide WellFormed, MovePath, RemoveDir, SameTree;
    MovedTree(fs, root, dest, n, env);
    MoveWellFormed(fs, root, dest, env);
    var moved := MovePath(fs, root, dest, env).value;
    BesideRemoved(moved, staging, dest, n);
    MoveContents(fs, root, dest, env);
    RemoveDirEffect(moved, staging);
    var r := RemoveDir(moved, staging);
    forall q | !(dest <= q) && !(staging <= q) ensures (q in r <==> q in fs) && (q in fs ==> r[q] == fs[q]) {
      assert !(root <= q);
    }
  }

  /** Where a finished folder goes. */
  lemma Destination(c: Parcel, fs: Fs, home: Path, root: Path, env: Env) returns (dest: Path)
    requires Good(c) && AllLucky(env) && WellFormed(fs) && root in fs
    requires home + [TreeStagingName(c.tree)] <= root && |root| == |home| + 2
    ensures dest == FreeDirPath(fs, home, c.name) && dest !in fs && |dest| == |home| + 1 && home <= dest
    ensures dest != home + [TreeStagingName(c.tree)]
    ensures MkdirAll(fs, home, env) == Some(fs) && MovePath(fs, root, dest, env).Some?
  {
    hide Good, WellFormed, MovePath, MkdirAll, FreeDirPath, TreeStagingName, Names.IsClean;
    AncestorsAreDirs(fs, root);
    var staging := home + [TreeStagingName(c.tree)];
    assert root[..|home|] == staging[..|home|] == home;
    MkdirExisting(fs, home, env);
    CleanName(c);
    dest := FreeDirPath(fs, home, c.name);
    FreshDir(fs, home, c.name);
    var i :| dest == home + [Numbered(c.name, "", i)];
    StagingApart(home, c.tree, c.name, i);
    assert Lucky(env, OpRename(root, dest));
    assert dest[..|dest| - 1] == home;
    CanMoveThere(fs, root, dest, env);
  }

  /** The last step: the finished folder is moved to an unused name in the receive folder. */
  lemma Finalized(c: Parcel, s: State, r: State, root: Path, staging: Path, prog: seq<Progress>,
                  env: Env) returns (dest: Path)
    requires Good(c) && AllLucky(env) && |prog| == |c.ids| && (forall i :: 0 <= i < |prog| ==> prog[i].Sent?)
    requires Midway(c, s, r, root, staging, prog, |c.L().dirs|)
    requires staging == s.fileDir + [TreeStagingName(c.tree)] && staging <= root && |root| == |staging| + 1
    ensures var e := EndTree(r, c.tree, None, env);
            && dest !in r.fs && s.fileDir <= dest && |dest| == |s.fileDir| + 1 && dest != staging
            && SameTree(e.fs, dest, c.root)
            && (exists t :: e.placed == r.placed + [Placed(c.tree, true, dest, Some(t))])
            && e.trees == r.trees - {c.tree} && e.recv == r.recv && e.drag == r.drag
            && (forall q :: !(dest <= q) && !(staging <= q) ==>
                  (q in e.fs <==> q in r.fs) && (q in r.fs ==> e.fs[q] == r.fs[q]))
            && (forall q :: q in e.fs && q !in r.fs ==> dest <= q)
  {
    hide Good, List, OnDisk, WellFormed, MovePath, MkdirAll, RemoveDir, FreeDirPath, SameTree, TreeStagingName;
    hide Elsewhere, EndTree, FileLive;
    GoodFolder(c);
    AllOnDisk(c, r.fs, root, prog);
    DiskOk(c, r.fs, root, prog, |c.L().dirs|);
    dest := Destination(c, r.fs, s.fileDir, root, env);
    MovedOut(r.fs, s.fileDir, root, staging, dest, c.root, env);
    NoneUnder(c, prog);
    EndResult(r, c.tree, root, staging, dest, env);
  }

  lemma CanMoveThere(fs: Fs, src: Path, dst: Path, env: Env)
    requires src in fs && HasParent(fs, dst) && dst !in fs && |src| > |dst| && env.lucky(OpRename(src, dst))
    ensures MovePath(fs, src, dst, env).Some?
  {
  }

  lemma NoneUnder(c: Parcel, prog: seq<Progress>)
    requires |prog| == |c.ids| && forall i :: 0 <= i < |prog| ==> prog[i].Sent?
    ensures Under(c, prog) == {}
  {
  }

  /** A folder within the limits, whose names cleaning leaves alone, arrives intact if
      the streams of its files interleave without a clash: it is placed once, under an
      unused name of the receive folder, as the same tree; and nothing else
      changes, on disk or among the other transfers. */
  lemma FolderArrivesIntact(c: Parcel, s: State, moves: seq<Move>, env: Env) returns (dest: Path)
    requires Good(c) && SendsAll(c, NothingSent(|c.ids|), moves) && AllLucky(env)
    requires ClashFree(c, NothingSent(|c.ids|), moves)
    requires WellFormed(s.fs) && c.tree !in s.trees && (forall id :: id in c.ids ==> id !in s.recv)
    requires MkdirAll(s.fs, s.fileDir + [TreeStagingName(c.tree)], env).Some?
    ensures var staging := s.fileDir + [TreeStagingName(c.tree)];
            var r := ReceiveAll(c, s, moves, env);
            && dest !in s.fs && SameTree(r.fs, dest, c.root)
            && (exists t :: r.placed == s.placed + [Placed(c.tree, true, dest, Some(t))])
            && r.trees == s.trees && r.recv == s.recv && r.drag == s.drag
            && (forall q :: q in s.fs && !(staging <= q) ==> q in r.fs && r.fs[q] == s.fs[q])
            && (forall q :: q in r.fs && q !in s.fs ==> dest <= q || q <= staging || staging <= q)
  {
    hide Good, List, WellFormed, MkdirAll, FreeDirPath, SameTree, TreeStagingName, Handle, Receive, SendsAll, Midway;
    hide OthersSame, ClashFree;
    GoodFolder(c);
    var staging := s.fileDir + [TreeStagingName(c.tree)];
    var fs := MkdirAll(s.fs, staging, env).value;
    MkdirAllEffect(s.fs, staging, env);
    var root := FreeDirPath(fs, staging, c.name);
    Begun(c, s, env);
    var s0, s1, prog := s.(fs := fs), Handle(s, Begin(c), env), NothingSent(|c.ids|);
    var s2 := ReceiveDirs(c, s1, |c.L().dirs|, env);
    DirsReceived(c, s0, s1, root, staging, prog, |c.L().dirs|, env);
    var s3 := Receive(c, s2, prog, moves, env);
    FilesReceived(c, s0, s2, root, staging, prog, moves, env);
    var done: seq<Progress> :| |done| == |c.ids| && (forall i :: 0 <= i < |done| ==> done[i].Sent?)
      && Midway(c, s0, s3, root, staging, done, |c.L().dirs|);
    dest := Finalized(c, s0, s3, root, staging, done, env);
    Ended(s3, c.tree, env);
    OthersBack(c, s, fs, s3, root, staging, done);
    DiskSummary(s.fs, fs, s3.fs, EndTree(s3, c.tree, None, env).fs, root, staging, dest);
  }

  /** The disk before the offer, with the staging directory, before the end and after it. */
  lemma DiskSummary(a: Fs, b: Fs, d: Fs, e: Fs, root: Path, staging: Path, dest: Path)
    requires (forall q :: q in a ==> q in b && b[q] == a[q]) && (forall q :: q in b && q !in a ==> q <= staging)
    requires Elsewhere(b, d, root) && staging <= root && |dest| == |staging| && dest != staging && dest !in d
             && |root| == |staging| + 1
    requires forall q :: !(dest <= q) && !(staging <= q) ==> (q in e <==> q in d) && (q in d ==> e[q] == d[q])
    requires forall q :: q in e && q !in d ==> dest <= q
    requires WellFormed(a)
    ensures dest !in a
    ensures forall q :: q in a && !(staging <= q) ==> q in e && e[q] == a[q]
    ensures forall q :: q in e && q !in a ==> dest <= q || q <= staging || staging <= q
  {
    hide WellFormed;
    assert !(root <= dest) && dest != [];
    assert dest !in b;
    forall q | q in a && !(staging <= q) ensures q in e && e[q] == a[q] {
      assert !(root <= q);
      NothingBelowAbsent(a, dest, q);
    }
    forall q | q in e && q !in a ensures dest <= q || q <= staging || staging <= q {
      assert root <= q ==> staging <= q;
    }
    forall q | q in a ensures !(dest <= q) { NothingBelowAbsent(a, dest, q); }
  }

  lemma Ended(s: State, tree: nat, env: Env)
    ensures Handle(s, TreeEnd(tree, None), env) == EndTree(s, tree, None, env)
  {
    hide EndTree;
  }

  lemma OthersBack(c: Parcel, s: State, fs: Fs, r: State, root: Path, staging: Path, done: seq<Progress>)
    requires Good(c) && |done| == |c.ids| && (forall i :: 0 <= i < |done| ==> done[i].Sent?)
    requires c.tree !in s.trees && (forall id :: id in c.ids ==> id !in s.recv)
    requires Midway(c, s.(fs := fs), r, root, staging, done, |c.L().dirs|)
    ensures r.trees - {c.tree} == s.trees && r.recv == s.recv && r.drag == s.drag && r.placed == s.placed
            && r.fileDir == s.fileDir
    ensures Elsewhere(fs, r.fs, root)
  {
    hide Good, OnDisk, Going, List, Elsewhere;
    GoodFolder(c);
    assert s.trees - {c.tree} == s.trees;
    forall id | id in c.ids ensures id !in r.recv {
      var i :| 0 <= i < |c.ids| && c.ids[i] == id;
      assert FileLive(c, r, root, done, i);
    }
  }

  /* ---- a file called like another's temporary file ---- */

  function RecvAt(root: Path, tree: nat, name: string, size: nat): Recv {
    Recv(name, size, 0, root + [name + ".vylopart"], root + [name], [], [], None, Some(tree))
  }

  /** Folder `tree` is being received at `root`, without trouble so far. */
  ghost predicate Healthy(r: State, tree: nat, root: Path) {
    && tree in r.trees && WellFormed(r.fs) && root in r.fs && r.fs[root].Dir?
    && var t := r.trees[tree];
    && t.root == root && t.drag == None && t.failed == None && !t.ended && t.entries < MAX_TREE_ENTRIES
  }

  /** Offering a file at the top of the folder. */
  lemma OpenAtTop(r: State, tree: nat, root: Path, id: nat, name: string, size: nat, env: Env)
    requires Healthy(r, tree, root) && AllLucky(env) && id !in r.recv && Names.IsClean(name)
    requires Names.StringBytes(name) <= Names.MAX_REL_BYTES
    requires root + [name] !in r.fs && root + [name + ".vylopart"] !in r.fs
    ensures var s := Handle(r, TreeFile(tree, id, name, size), env);
            && s.fs == r.fs[root + [name + ".vylopart"] := Part(id)] && WellFormed(s.fs)
            && s.recv == r.recv[id := RecvAt(root, tree, name, size)]
            && tree in s.trees && s.trees[tree].root == root && s.trees[tree].drag == None
               && s.trees[tree].failed == None
            && !s.trees[tree].ended && s.trees[tree].entries == r.trees[tree].entries + 1
  {
    hide WellFormed, BeginRecv, Names.SanitizeRel, Names.IsClean;
    assert Names.Join([name]) == name;
    RelArrives([name]);
    FreeAsNamed(r.fs, root, name + ".vylopart");
    BeginsInPlace(r.fs, root, id, name, root + [name + ".vylopart"], size, Some(tree), env);
    assert root + [] == root && [name][..0] == [];
    var part := root + [name + ".vylopart"];
    assert part[..|part| - 1] == root;
    PartWellFormed(r.fs, part, id);
  }

  /** One file's content in one chunk, and its end: the temporary file, or
      whatever is in its place by then, becomes the file. */
  lemma StreamAtTop(r: State, tree: nat, root: Path, id: nat, name: string, content: Bytes, env: Env)
    requires AllLucky(env) && |content| <= CHUNK_SIZE && id in r.recv
             && r.recv[id] == RecvAt(root, tree, name, |content|)
    requires tree in r.trees && r.trees[tree].failed == None && !r.trees[tree].ended
    requires root in r.fs && r.fs[root].Dir?
    requires root + [name + ".vylopart"] in r.fs && !r.fs[root + [name + ".vylopart"]].Dir?
    requires root + [name] in r.fs ==> !r.fs[root + [name]].Dir?
    ensures var s := Handle(Handle(r, FileChunk(id, 0, content), env), FileDone(id, env.sha(content)), env);
            var part := root + [name + ".vylopart"];
            && s.recv == r.recv - {id}
            && s.fs == (r.fs - {part})[root + [name] := if r.fs[part] == Part(id) then File(content) else r.fs[part]]
            && tree in s.trees && s.trees[tree].failed == None && !s.trees[tree].ended
  {
    var part, final := root + [name + ".vylopart"], root + [name];
    assert Lucky(env, OpWrite(part)) && Lucky(env, OpRename(part, final));
    assert [] + content == content;
    var s1 := Handle(r, FileChunk(id, 0, content), env);
    assert s1 == r.(recv := r.recv[id := r.recv[id].(received := |content|, hashed := content, written := content)]);
    assert final[..|final| - 1] == root;
    assert s1.recv - {id} == r.recv - {id};
  }

  /** The files `n` and `n.vylopart` in one folder, the second offered first: the
      temporary file of `n` is then `n.vylopart` itself. `n` is delivered with
      the other file's content, the other file not at all, and nothing is
      noticed. */
  lemma PartClashCorrupts(r: State, tree: nat, root: Path, i: nat, j: nat, n: string, a: Bytes, b: Bytes, env: Env)
    requires Healthy(r, tree, root) && r.trees[tree].entries + 2 <= MAX_TREE_ENTRIES && AllLucky(env)
    requires forall p :: p != [] ==> root + p !in r.fs
    requires i !in r.recv && j !in r.recv && i != j && |a| <= CHUNK_SIZE && |b| <= CHUNK_SIZE
    requires Names.IsClean(n) && Names.IsClean(n + ".vylopart")
    requires Names.StringBytes(n) <= Names.MAX_REL_BYTES && Names.StringBytes(n + ".vylopart") <= Names.MAX_REL_BYTES
    ensures var s1 := Handle(r, TreeFile(tree, j, n + ".vylopart", |b|), env);
            var s2 := Handle(s1, TreeFile(tree, i, n, |a|), env);
            var s3 := Handle(Handle(s2, FileChunk(j, 0, b), env), FileDone(j, env.sha(b)), env);
            var s4 := Handle(Handle(s3, FileChunk(i, 0, a), env), FileDone(i, env.sha(a)), env);
            && root + [n] in s4.fs && s4.fs[root + [n]] == File(b) && root + [n + ".vylopart"] !in s4.fs
            && tree in s4.trees && s4.trees[tree].failed == None
  {
    hide Handle, WellFormed, Names.IsClean;
    var v := n + ".vylopart";
    var w := v + ".vylopart";
    assert |v| == |n| + 9 && |w| == |v| + 9;
    SamePrefix(root, [n], [v]);
    SamePrefix(root, [n], [w]);
    SamePrefix(root, [v], [w]);
    assert [n] != [v] && [n] != [w] && [v] != [w] by {
      assert [n][0] != [v][0] && [n][0] != [w][0] && [v][0] != [w][0];
    }
    assert root + [n] != root && root + [v] != root && root + [w] != root;
    OpenAtTop(r, tree, root, j, v, |b|, env);
    var s1 := Handle(r, TreeFile(tree, j, v, |b|), env);
    OpenAtTop(s1, tree, root, i, n, |a|, env);
    var s2 := Handle(s1, TreeFile(tree, i, n, |a|), env);
    StreamAtTop(s2, tree, root, j, v, b, env);
    var s3 := Handle(Handle(s2, FileChunk(j, 0, b), env), FileDone(j, env.sha(b)), env);
    StreamAtTop(s3, tree, root, i, n, a, env);
  }
}
