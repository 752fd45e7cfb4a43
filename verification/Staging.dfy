/** Staged material stays inside staging directories, and every staging
    directory on disk belongs to a live folder or to the drag being staged. */
module Staging {
  import opened Basics
  import opened Disk
  import opened Receiving
  import opened Ownership
  import Names

  /** The names `purge_stale_staging` looks for at start-up. */
  predicate IsStaging(n: string) {
    |n| >= 11 && (n[..11] == ".vylo-tree-" || n[..11] == ".vylo-drag-")
  }

  predicate Unstaged(p: Path) { forall k :: 0 <= k < |p| ==> !IsStaging(p[k]) }

  /** `p` lies strictly below `base`, and no directory in between has a staging name. */
  predicate Inside(base: Path, p: Path) { base <= p && |base| < |p| && Unstaged(p[|base|..]) }

  /** The staging directory of the receive folder `home` that `p` is or lies in. */
  predicate InStaging(home: Path, p: Path) {
    home <= p && |home| < |p| && IsStaging(p[|home|]) && Unstaged(p[|home| + 1..])
  }

  predicate TidyPath(home: Path, owners: set<Path>, p: Path) {
    Unstaged(p) || (InStaging(home, p) && p[..|home| + 1] in owners)
  }

  ghost predicate TidyFs(fs: Fs, home: Path, owners: set<Path>) {
    && WellFormed(fs)
    && (forall p :: p in fs ==> TidyPath(home, owners, p))
    && (forall p :: p in fs && InStaging(home, p) && |p| == |home| + 1 ==> fs[p].Dir?)
  }

  /* ---- names ---- */

  lemma StagingNames(a: nat, b: nat)
    ensures IsStaging(TreeStagingName(a)) && IsStaging(DragStagingName(a))
    ensures TreeStagingName(a) != DragStagingName(b)
    ensures TreeStagingName(a) == TreeStagingName(b) ==> a == b
  {
    var t, d := TreeStagingName(a), DragStagingName(b);
    assert t[..11] == ".vylo-tree-" && d[..11] == ".vylo-drag-";
    assert DragStagingName(a)[..11] == ".vylo-drag-";
    assert ".vylo-tree-"[6] == 't' && ".vylo-drag-"[6] == 'd';
    assert t[6] == 't' && d[6] == 'd';
    if TreeStagingName(a) == TreeStagingName(b) {
      assert t[11..] == Decimal(a) && TreeStagingName(b)[11..] == Decimal(b);
      DecimalInjective(a, b);
    }
  }

  /** A name that does not start with a dot is no staging name. */
  lemma UndottedIsUnstaged(n: string)
    requires n != [] && n[0] != '.'
    ensures !IsStaging(n)
  {
    if |n| >= 11 {
      assert n[..11][0] == n[0];
      assert ".vylo-tree-"[0] == '.' && ".vylo-drag-"[0] == '.';
    }
  }

  /** Numbering a clean name, with or without ".vylopart" behind it, never
      produces a staging name. */
  lemma PlacedNamesUnstaged(name: string, i: nat)
    requires name != [] && name[0] != '.'
    ensures var n := Numbered(SplitExt(name).0, SplitExt(name).1, i);
            n != [] && n[0] == name[0] && !IsStaging(n)
    ensures var n := Numbered(name, "", i); n != [] && n[0] == name[0] && !IsStaging(n)
  {
    hide IsStaging;
    SplitExtStem(name, |name|);
    UndottedIsUnstaged(Numbered(SplitExt(name).0, SplitExt(name).1, i));
    UndottedIsUnstaged(Numbered(name, "", i));
  }

  lemma {:induction false} SplitExtStem(name: string, k: nat)
    requires k <= |name| && name != [] && name[0] != '.'
    ensures SplitExt(name, k).0 != [] && SplitExt(name, k).0[0] == name[0]
  {
    if k > 0 && name[k - 1] != '.' {
      SplitExtStem(name, k - 1);
    }
  }

  lemma CleanNameUndotted(name: string)
    requires Names.IsClean(name)
    ensures name != [] && name[0] != '.'
  {
    hide Names.IsReserved;
  }

  /* ---- paths ---- */

  lemma InsideTrans(a: Path, b: Path, c: Path)
    requires Inside(a, b) && (Inside(b, c) || b == c)
    ensures Inside(a, c)
  {
    hide IsStaging;
    var below := c[|a|..];
    forall k | 0 <= k < |below| ensures !IsStaging(below[k]) {
      assert below[k] == c[|a| + k];
      if |a| + k < |b| { assert b[|a|..][k] == b[|a| + k] == c[|a| + k]; }
      else { assert c[|b|..][|a| + k - |b|] == c[|a| + k]; }
    }
  }

  /** Below a staging directory of `home`: the path, and all its ancestors. */
  lemma InsideStaging(home: Path, n: string, p: Path, q: Path)
    requires Unstaged(home) && IsStaging(n) && (Inside(home + [n], p) || p == home + [n])
    requires q <= p && q != []
    ensures InStaging(home, p) && p[..|home| + 1] == home + [n]
    ensures Unstaged(q) || (InStaging(home, q) && q[..|home| + 1] == home + [n])
    ensures home + [n] <= q <==> InStaging(home, q)
    ensures TidyPath(home, {home + [n]}, q)
  {
    hide IsStaging;
    var top := home + [n];
    assert p[|top|..] == p[|home| + 1..] && p[|home|] == n;
    if |q| <= |home| {
      assert forall k :: 0 <= k < |q| ==> q[k] == home[k];
    } else {
      assert q[|home|] == n;
      var below := q[|home| + 1..];
      forall k | 0 <= k < |below| ensures !IsStaging(below[k]) {
        assert below[k] == p[|home| + 1..][k];
      }
    }
  }

  lemma UnstagedPrefix(p: Path, q: Path)
    requires Unstaged(p) && q <= p
    ensures Unstaged(q)
  {
  }

  lemma UnstagedAppend(p: Path, q: Path)
    requires Unstaged(p) && Unstaged(q)
    ensures Unstaged(p + q)
  {
  }

  lemma InsideUnstaged(home: Path, p: Path)
    requires Unstaged(home) && Inside(home, p)
    ensures Unstaged(p)
  {
    hide IsStaging;
    UnstagedAppend(home, p[|home|..]);
    assert p == home + p[|home|..];
  }

  lemma InStagingIsStaged(home: Path, p: Path)
    requires InStaging(home, p)
    ensures !Unstaged(p)
  {
  }

  /* ---- effects on a tidy disk ---- */

  lemma AddTidy(fs: Fs, r: Fs, home: Path, owners: set<Path>)
    requires TidyFs(fs, home, owners) && WellFormed(r)
    requires forall q :: q in r && q in fs ==> r[q].Dir? == fs[q].Dir?
    requires forall q :: q in r && q !in fs ==>
               TidyPath(home, owners, q) && (r[q].Dir? || |q| != |home| + 1 || !InStaging(home, q))
    ensures TidyFs(r, home, owners)
  {
  }

  lemma EvictTidy(fs: Fs, r: Fs, home: Path, owners: set<Path>, top: Path)
    requires TidyFs(fs, home, owners) && WellFormed(r)
    requires forall q :: q in r ==> q in fs && r[q] == fs[q] && !(top <= q)
    ensures TidyFs(r, home, owners - {top})
  {
    hide IsStaging, Unstaged;
    forall p | p in r ensures TidyPath(home, owners - {top}, p) {
      assert TidyPath(home, owners, p);
      assert |p| > |home| ==> p[..|home| + 1] <= p;
    }
  }

  lemma MoveTidy(fs: Fs, home: Path, owners: set<Path>, n: string, src: Path, dst: Path, env: Env)
    requires TidyFs(fs, home, owners) && Unstaged(home) && Unstaged(dst) && IsStaging(n) && Inside(home + [n], src)
    requires MovePath(fs, src, dst, env).Some?
    ensures TidyFs(MovePath(fs, src, dst, env).value, home, owners)
  {
    hide IsStaging, MovePath, WellFormed;
    var r := MovePath(fs, src, dst, env).value;
    MoveContents(fs, src, dst, env);
    MoveWellFormed(fs, src, dst, env);
    forall q | q in r
      ensures TidyPath(home, owners, q) && (InStaging(home, q) && |q| == |home| + 1 ==> r[q].Dir?)
    {
      if dst <= q {
        var o := src + q[|dst|..];
        assert TidyPath(home, owners, o);
        assert o[|home|] == src[|home|] == n;
        var below := q[|dst|..];
        forall k | 0 <= k < |below| ensures !IsStaging(below[k]) {
          assert below[k] == o[|src| + k] == o[|home| + 1..][|src| + k - |home| - 1];
        }
        UnstagedAppend(dst, below);
        assert q == dst + below;
        if InStaging(home, q) { InStagingIsStaged(home, q); assert false; }
      }
    }
  }

  /* ---- where the live items are ---- */

  /** The staging directories somebody still answers for. */
  function Owners(s: State): set<Path> {
    (set t | t in s.trees && s.trees[t].staging.Some? :: s.trees[t].staging.value)
    + (if s.drag.Some? then {s.drag.value.dir} else {})
  }

  function TopName(t: nat, drag: Option<nat>): string {
    if drag.Some? then DragStagingName(drag.value) else TreeStagingName(t)
  }

  ghost predicate TreeLocated(s: State, t: nat)
    requires t in s.trees
  {
    var tr := s.trees[t];
    var top := s.fileDir + [TopName(t, tr.drag)];
    && (tr.root == [] ==> tr.failed.Some? && tr.staging == None)
    && (tr.root != [] ==>
          && Names.IsClean(tr.name) && Inside(top, tr.root)
          && (tr.drag.Some? ==> tr.counted && tr.staging == None)
          && (tr.drag.None? ==> tr.staging == Some(top)))
  }

  /** The directory below which a transfer's files are. */
  function Base(s: State, r: Recv): Path {
    match r.tree
    case Some(t) => if t in s.trees then s.trees[t].root else []
    case None => if r.drag.Some? then s.fileDir + [DragStagingName(r.drag.value)] else s.fileDir
  }

  ghost predicate FileLocated(s: State, id: nat)
    requires id in s.recv
  {
    var r := s.recv[id];
    && Base(s, r) != [] && Names.IsClean(r.name)
    && Inside(Base(s, r), r.part) && Inside(Base(s, r), r.final)
  }

  ghost predicate ItemLocated(s: State, d: nat, x: Staged) {
    Names.IsClean(x.name) && Inside(s.fileDir + [DragStagingName(d)], x.path)
  }

  ghost predicate DragLocated(s: State) {
    s.drag.Some? ==>
      && s.drag.value.dir == s.fileDir + [DragStagingName(s.drag.value.drag)]
      && forall x :: x in s.drag.value.done ==> ItemLocated(s, s.drag.value.drag, x)
  }

  /** The receive folder and the desktop are not staging directories themselves. */
  predicate PlainDirs(s: State) {
    s.fileDir != [] && Unstaged(s.fileDir) && (s.desktop.Some? ==> Unstaged(s.desktop.value))
  }

  ghost predicate Located(s: State) {
    && PlainDirs(s)
    && TidyFs(s.fs, s.fileDir, Owners(s))
    && (forall t :: t in s.trees ==> TreeLocated(s, t))
    && (forall id :: id in s.recv ==> FileLocated(s, id))
    && DragLocated(s)
  }

  /** Everything at, above or below a live folder's root is tidy. */
  lemma RootTidy(s: State, t: nat, p: Path, q: Path)
    requires Owned(s) && Located(s) && t in s.trees && s.trees[t].root != []
    requires s.trees[t].root == p || Inside(s.trees[t].root, p)
    requires q <= p && q != []
    ensures TidyPath(s.fileDir, Owners(s), q)
    ensures q == p && InStaging(s.fileDir, q) ==> |q| > |s.fileDir| + 1
    ensures Inside(s.fileDir + [TopName(t, s.trees[t].drag)], p)
  {
    hide IsStaging, Unstaged, Inside, InStaging, WellFormed;
    assert TreeLocated(s, t) && TreeOwned(s, t);
    var n := TopName(t, s.trees[t].drag);
    StagingNames(t, t);
    if s.trees[t].drag.Some? { StagingNames(s.trees[t].drag.value, t); }
    InsideTrans(s.fileDir + [n], s.trees[t].root, p);
    InsideStaging(s.fileDir, n, p, q);
    assert s.fileDir + [n] in Owners(s);
    InsideLonger(s.fileDir + [n], p);
  }

  lemma InsideLonger(a: Path, p: Path)
    requires Inside(a, p)
    ensures |p| > |a| && a <= p
  {
  }

  /** The same for the files of a transfer. */
  lemma FileTidy(s: State, id: nat, p: Path, q: Path)
    requires Owned(s) && Located(s) && id in s.recv
    requires p == s.recv[id].part || p == s.recv[id].final
    requires q <= p && q != []
    ensures TidyPath(s.fileDir, Owners(s), q)
    ensures q == p && InStaging(s.fileDir, q) ==> |q| > |s.fileDir| + 1
  {
    hide IsStaging, InStaging, WellFormed, Names.IsClean, Inside, Unstaged, TidyPath, TidyFs, Owners;
    var r := s.recv[id];
    assert FileLocated(s, id) && FileOwned(s, id);
    if r.tree.Some? {
      RootTidy(s, r.tree.value, p, q);
    } else if r.drag.Some? {
      StagingNames(r.drag.value, 0);
      InsideStaging(s.fileDir, DragStagingName(r.drag.value), p, q);
      InsideLonger(s.fileDir + [DragStagingName(r.drag.value)], p);
      DragOwner(s);
      OwnerTidy(s.fileDir, Owners(s), s.drag.value.dir, q);
    } else {
      InsideUnstaged(s.fileDir, p);
      UnstagedPrefix(p, q);
      UnstagedTidy(s.fileDir, Owners(s), q);
    }
  }

  lemma DragOwner(s: State)
    requires s.drag.Some?
    ensures s.drag.value.dir in Owners(s)
  {
  }

  lemma OwnerTidy(home: Path, owners: set<Path>, dir: Path, q: Path)
    requires TidyPath(home, {dir}, q) && dir in owners
    ensures TidyPath(home, owners, q)
  {
  }

  lemma UnstagedTidy(home: Path, owners: set<Path>, q: Path)
    requires Unstaged(q)
    ensures TidyPath(home, owners, q) && !InStaging(home, q)
  {
    if InStaging(home, q) { InStagingIsStaged(home, q); }
  }
}
