/** What was on the disk before the connection stays as it was, and what is on
    it after the connection is that plus what was delivered. */
module Leftovers {
  import opened Basics
  import opened Disk
  import opened Receiving
  import opened Ownership
  import opened Staging
  import opened Cleanup
  import Names

  predicate IsPlain(r: Recv) { r.drag.None? && r.tree.None? }

  ghost predicate IsPart(s: State, p: Path) {
    exists id :: id in s.recv && IsPlain(s.recv[id]) && s.recv[id].part == p
  }

  ghost predicate UnderPlaced(ps: seq<Placed>, p: Path) {
    exists x :: x in ps && x.path <= p
  }

  /** Outside staging: everything of `before` is still there unchanged; every
      temporary file of a plain transfer exists and is its own; and every other
      file is the temporary file of a live transfer, was delivered, or is one of
      `stuck`, the temporary files of plain transfers whose last rename failed. */
  ghost predicate Accounted(before: Fs, stuck: set<Path>, s: State) {
    && (forall p :: p in before && Unstaged(p) ==> p in s.fs && s.fs[p] == before[p])
    && (forall id :: id in s.recv && IsPlain(s.recv[id]) ==>
          && s.recv[id].part in s.fs && !s.fs[s.recv[id].part].Dir?
          && s.recv[id].part !in before && s.recv[id].final !in before)
    && (forall i, j :: i in s.recv && j in s.recv && i != j && IsPlain(s.recv[i]) && IsPlain(s.recv[j]) ==>
          s.recv[i].part != s.recv[j].part)
    && (forall p :: p in s.fs && Unstaged(p) && !s.fs[p].Dir? && p !in before ==>
          IsPart(s, p) || UnderPlaced(s.placed, p) || p in stuck)
    && (forall p :: p in stuck ==> p in s.fs && !s.fs[p].Dir? && p !in before && Unstaged(p) && !IsPart(s, p))
  }

  /** Outside staging, only directories and delivered items were added. */
  ghost predicate Grew(fs: Fs, r: Fs, ps: seq<Placed>) {
    forall p :: Unstaged(p) ==>
      && (p in fs ==> p in r && r[p] == fs[p])
      && (p in r && p !in fs ==> r[p].Dir? || UnderPlaced(ps, p))
  }

  lemma GrewTrans(a: Fs, b: Fs, c: Fs, ps: seq<Placed>, qs: seq<Placed>)
    requires Grew(a, b, ps) && Grew(b, c, qs) && ps <= qs
    ensures Grew(a, c, qs)
  {
    hide Unstaged;
    forall p | Unstaged(p) && UnderPlaced(ps, p) ensures UnderPlaced(qs, p) {
      var x :| x in ps && x.path <= p;
      assert x in qs;
    }
  }

  lemma GrewAccounted(before: Fs, stuck: set<Path>, s: State, r: State)
    requires Accounted(before, stuck, s) && Located(s) && Grew(s.fs, r.fs, r.placed) && s.placed <= r.placed
    requires forall id :: id in r.recv && IsPlain(r.recv[id]) ==>
               id in s.recv && IsPlain(s.recv[id]) && r.recv[id].part == s.recv[id].part
                   && r.recv[id].final == s.recv[id].final
    requires forall id :: id in s.recv && IsPlain(s.recv[id]) ==>
               id in r.recv && IsPlain(r.recv[id]) && r.recv[id].part == s.recv[id].part
    ensures Accounted(before, stuck, r)
  {
    hide Unstaged, Inside, Names.IsClean, IsStaging, TidyFs;
    forall id | id in r.recv && IsPlain(r.recv[id]) ensures Unstaged(r.recv[id].part) {
      PlainUnstaged(s, id);
    }
    forall p | p in r.fs && Unstaged(p) && !r.fs[p].Dir? && p !in before
      ensures IsPart(r, p) || UnderPlaced(r.placed, p) || p in stuck
    {
      if p in s.fs {
        if IsPart(s, p) {
          var id :| id in s.recv && IsPlain(s.recv[id]) && s.recv[id].part == p;
          assert r.recv[id].part == p;
        } else if UnderPlaced(s.placed, p) {
          var x :| x in s.placed && x.path <= p;
          assert x in r.placed;
        }
      }
    }
  }

  lemma PlainUnstaged(s: State, id: nat)
    requires Located(s) && id in s.recv && IsPlain(s.recv[id])
    ensures Unstaged(s.recv[id].part) && Unstaged(s.recv[id].final)
  {
    hide IsStaging, TidyFs, Names.IsClean, Unstaged, Inside;
    assert FileLocated(s, id);
    InsideUnstaged(s.fileDir, s.recv[id].part);
    InsideUnstaged(s.fileDir, s.recv[id].final);
  }

  /* ---- operations inside staging ---- */

  lemma MkdirGrew(fs: Fs, p: Path, env: Env, ps: seq<Placed>)
    requires WellFormed(fs)
    ensures Grew(fs, OrElse(MkdirAll(fs, p, env), fs), ps)
  {
    hide MkdirAll;
    if MkdirAll(fs, p, env).Some? { MkdirAllEffect(fs, p, env); }
  }

  /** `root` is, or lies in, a staging directory. */
  ghost predicate Hidden(home: Path, root: Path) {
    exists n :: IsStaging(n) && home + [n] <= root
  }

  lemma BelowHidden(home: Path, root: Path, p: Path)
    requires Hidden(home, root) && root <= p
    ensures !Unstaged(p)
  {
    var n :| IsStaging(n) && home + [n] <= root;
    assert p[|home|] == n;
  }

  lemma RemoveGrew(fs: Fs, home: Path, root: Path, ps: seq<Placed>)
    requires Hidden(home, root)
    ensures Grew(fs, RemoveDir(fs, root), ps) && Grew(fs, RemoveFile(fs, root), ps)
  {
    hide Unstaged;
    forall p | Unstaged(p) ensures !(root <= p) {
      if root <= p { BelowHidden(home, root, p); }
    }
  }

  lemma MoveGrew(fs: Fs, home: Path, src: Path, dst: Path, env: Env, ps: seq<Placed>, x: Placed)
    requires WellFormed(fs) && Hidden(home, src) && MovePath(fs, src, dst, env).Some? && x in ps && x.path == dst
    ensures Grew(fs, MovePath(fs, src, dst, env).value, ps)
  {
    hide Unstaged, MovePath, WellFormed;
    MoveContents(fs, src, dst, env);
    forall p | Unstaged(p) ensures !(src <= p) {
      if src <= p { BelowHidden(home, src, p); }
    }
  }

  lemma {:induction false} PlaceAllGrew(fs: Fs, home: Path, items: seq<Staged>, dest: Path, env: Env)
    requires WellFormed(fs) && forall x :: x in items ==> Hidden(home, x.path)
    ensures var (r, ps) := PlaceAll(fs, items, dest, env); WellFormed(r) && Grew(fs, r, ps)
  {
    hide MovePath, WellFormed, FreeDirPath, FreeFilePath, Hidden, Grew;
    if items != [] {
      PlaceAllGrew(fs, home, items[..|items| - 1], dest, env);
      var (before, placed) := PlaceAll(fs, items[..|items| - 1], dest, env);
      var item := items[|items| - 1];
      var target := if item.folder then FreeDirPath(before, dest, item.name) else FreeFilePath(before, dest, item.name);
      var x := Placed(item.id, item.folder, target, item.record);
      if MovePath(before, item.path, target, env).Some? {
        MoveGrew(before, home, item.path, target, env, placed + [x], x);
        MoveWellFormed(before, item.path, target, env);
        GrewTrans(fs, before, MovePath(before, item.path, target, env).value, placed, placed + [x]);
      }
    } else {
      GrewRefl(fs, []);
    }
  }

  lemma GrewRefl(fs: Fs, ps: seq<Placed>)
    ensures Grew(fs, fs, ps)
  {
  }

  lemma GrewMore(fs: Fs, r: Fs, ps: seq<Placed>, qs: seq<Placed>)
    requires Grew(fs, r, ps) && forall x :: x in ps ==> x in qs
    ensures Grew(fs, r, qs)
  {
    hide Unstaged;
  }

  lemma InsideHidden(home: Path, n: string, p: Path)
    requires IsStaging(n) && (p == home + [n] || Inside(home + [n], p))
    ensures Hidden(home, p)
  {
  }

  /** Placing the items of a drag that is done. */
  lemma FinalizeDragGrew(s: State, env: Env)
    requires Located(s)
    ensures var r := FinalizeDrag(s, env); Grew(s.fs, r.fs, r.placed) && s.placed <= r.placed
  {
    hide IsStaging, TidyFs, Inside, Unstaged, PlaceAll, MkdirAll, RemoveDir, Names.IsClean, Grew, Hidden, WellFormed;
    GrewRefl(s.fs, s.placed);
    if s.drag.Some? && s.drag.value.dropRequested && s.drag.value.Settled() {
      var d, dest := s.drag.value, s.DropDir();
      var n := DragStagingName(d.drag);
      var r := FinalizeDrag(s, env);
      LocatedTidy(s);
      StagingNames(d.drag, d.drag);
      forall x | x in d.done ensures Hidden(s.fileDir, x.path) { InsideHidden(s.fileDir, n, x.path); }
      InsideHidden(s.fileDir, n, d.dir);
      var fs1 := OrElse(MkdirAll(s.fs, dest, env), s.fs);
      MkdirGrew(s.fs, dest, env, []);
      if MkdirAll(s.fs, dest, env).Some? { MkdirAllEffect(s.fs, dest, env); }
      PlaceAllGrew(fs1, s.fileDir, d.done, dest, env);
      var (fs2, ps) := PlaceAll(fs1, d.done, dest, env);
      GrewTrans(s.fs, fs1, fs2, [], ps);
      GrewMore(s.fs, fs2, ps, r.placed);
      RemoveGrew(fs2, s.fileDir, d.dir, r.placed);
      GrewTrans(s.fs, fs2, r.fs, r.placed, r.placed);
    }
  }

  lemma SettleInDragGrew(s: State, drag: Option<nat>, id: nat, item: Option<Staged>, env: Env)
    requires Located(s) && (item.Some? && s.DragIs(drag) ==> ItemLocated(s, drag.value, item.value))
    ensures var r := SettleInDrag(s, drag, id, item, env); Grew(s.fs, r.fs, r.placed) && s.placed <= r.placed
  {
    hide Located, FinalizeDrag, Grew, TidyFs, ItemLocated;
    GrewRefl(s.fs, s.placed);
    if s.DragIs(drag) {
      var d := s.drag.value.(outstanding := s.drag.value.outstanding - {id});
      var s1 := s.WithDrag(if item.Some? then d.(done := d.done + [item.value]) else d);
      LocatedTidy(s);
      LiveTrees(s);
      assert s.drag.value.dir == s1.drag.value.dir && Owners(s1) == Owners(s);
      PlacesKept(s, s1);
      FinalizeDragGrew(s1, env);
    }
  }

  lemma FinalizeTreeGrew(s: State, tree: nat, env: Env)
    requires Owned(s) && Located(s)
    ensures var r := FinalizeTree(s, tree, env); Grew(s.fs, r.fs, r.placed) && s.placed <= r.placed
  {
    hide Owned, Located, TidyFs, SettleInDrag, Grew, Hidden, MovePath, MkdirAll, RemoveDir, FreeDirPath, WellFormed;
    GrewRefl(s.fs, s.placed);
    if tree in s.trees && s.trees[tree].Settled() {
      var t := s.trees[tree];
      TreeHidden(s, tree);
      if t.failed.Some? {
        var fs1 := if t.root != [] then RemoveDir(s.fs, t.root) else s.fs;
        var fs2 := if t.staging.Some? then RemoveDir(fs1, t.staging.value) else fs1;
        if t.root != [] { RemoveGrew(s.fs, s.fileDir, t.root, s.placed); }
        if t.staging.Some? { RemoveGrew(fs1, s.fileDir, t.staging.value, s.placed); }
        GrewRefl(fs1, s.placed);
        GrewTrans(s.fs, fs1, fs2, s.placed, s.placed);
        FailedTreeTidy(s, tree);
        assert Owners(s) - {} == Owners(s);
        TreeOutLocated(s, tree, fs2, s.placed);
        var s1 := s.(trees := s.trees - {tree}, fs := fs2);
        SettleInDragGrew(s1, t.drag, tree, None, env);
        GrewTrans(s.fs, fs2, FinalizeTree(s, tree, env).fs, s.placed, FinalizeTree(s, tree, env).placed);
      } else if t.drag.Some? {
        if s.DragIs(t.drag) {
          LocatedTidy(s);
          TreeItem(s, tree);
          TreeOutLocated(s, tree, s.fs, s.placed);
          SettleInDragGrew(s.(trees := s.trees - {tree}), t.drag, tree,
                           Some(Staged(tree, t.name, true, t.total, t.root, Some(t))), env);
        } else {
          RemoveGrew(s.fs, s.fileDir, t.root, s.placed);
        }
      } else {
        PlacedTreeGrew(s, tree, env);
      }
    }
  }

  /** The places of a stored folder. */
  lemma TreeHidden(s: State, tree: nat)
    requires Located(s) && tree in s.trees
    ensures s.trees[tree].failed.None? ==> s.trees[tree].root != []
    ensures s.trees[tree].root != [] ==> Hidden(s.fileDir, s.trees[tree].root)
    ensures s.trees[tree].staging.Some? ==> Hidden(s.fileDir, s.trees[tree].staging.value)
    ensures s.trees[tree].staging.Some? ==> s.trees[tree].staging.value == s.fileDir + [TreeStagingName(tree)]
    ensures s.trees[tree].failed.None? && s.trees[tree].drag.None? ==> s.trees[tree].staging.Some?
    ensures s.trees[tree].drag.Some? ==> s.trees[tree].staging.None?
  {
    hide IsStaging, TidyFs, Inside, Unstaged, Names.IsClean, Hidden;
    assert TreeLocated(s, tree);
    var t := s.trees[tree];
    var n := TopName(tree, t.drag);
    StagingNames(tree, tree);
    if t.drag.Some? { StagingNames(t.drag.value, tree); }
    InsideHidden(s.fileDir, n, s.fileDir + [n]);
    if t.root != [] { InsideHidden(s.fileDir, n, t.root); }
  }

  lemma TreeItem(s: State, tree: nat)
    requires Owned(s) && Located(s) && tree in s.trees && s.trees[tree].failed.None? && s.trees[tree].drag.Some?
    ensures var t := s.trees[tree];
            ItemLocated(s.(trees := s.trees - {tree}), t.drag.value,
                        Staged(tree, t.name, true, t.total, t.root, Some(t)))
    ensures s.trees[tree].staging.None?
  {
    hide IsStaging, TidyFs, Inside, Unstaged, Names.IsClean;
    assert TreeLocated(s, tree);
  }

  lemma FailedTreeTidy(s: State, tree: nat)
    requires Located(s) && tree in s.trees
    ensures var t := s.trees[tree];
            var fs1 := if t.root != [] then RemoveDir(s.fs, t.root) else s.fs;
            var fs2 := if t.staging.Some? then RemoveDir(fs1, t.staging.value) else fs1;
            TidyFs(fs2, s.fileDir, Owners(s) - (if t.staging.Some? then {t.staging.value} else {}))
  {
    hide Located, TidyFs, RemoveDir;
    LocatedTidy(s);
    TreeHidden(s, tree);
    var t := s.trees[tree];
    RemoveRootTidy(s.fs, s.fileDir, Owners(s), t.root, None, tree);
    var fs1 := if t.root != [] then RemoveDir(s.fs, t.root) else s.fs;
    RemoveRootTidy(fs1, s.fileDir, Owners(s), t.root, t.staging, tree);
    assert Owners(s) - {} == Owners(s);
  }

  lemma PlacedTreeGrew(s: State, tree: nat, env: Env)
    requires Owned(s) && Located(s) && tree in s.trees && s.trees[tree].Settled()
    requires s.trees[tree].failed.None? && s.trees[tree].drag.None?
    ensures var r := FinalizeTree(s, tree, env); Grew(s.fs, r.fs, r.placed) && s.placed <= r.placed
  {
    hide Owned, Located, TidyFs, Grew, Hidden, MovePath, MkdirAll, RemoveDir, FreeDirPath, WellFormed;
    var t, home := s.trees[tree], s.fileDir;
    TreeHidden(s, tree);
    LocatedTidy(s);
    var fs1 := OrElse(MkdirAll(s.fs, home, env), s.fs);
    if MkdirAll(s.fs, home, env).Some? { MkdirAllEffect(s.fs, home, env); }
    var dest := FreeDirPath(fs1, home, t.name);
    var x := Placed(tree, true, dest, Some(t));
    var ps := s.placed + [x];
    var moved := MovePath(fs1, t.root, dest, env);
    var fs2 := OrElse(moved, fs1);
    var fs3 := RemoveDir(fs2, t.staging.value);
    var qs := if moved.Some? then ps else s.placed;
    MkdirGrew(s.fs, home, env, qs);
    GrewRefl(fs1, qs);
    if moved.Some? { MoveGrew(fs1, home, t.root, dest, env, ps, x); }
    RemoveGrew(fs2, home, t.staging.value, qs);
    RemoveGrew(fs3, home, t.root, qs);
    GrewTrans(s.fs, fs1, fs2, qs, qs);
    GrewTrans(s.fs, fs2, fs3, qs, qs);
    GrewTrans(s.fs, fs3, RemoveDir(fs3, t.root), qs, qs);
  }

  /* ---- files ---- */

  lemma FileHidden(s: State, id: nat)
    requires Owned(s) && Located(s) && id in s.recv && !IsPlain(s.recv[id])
    ensures Hidden(s.fileDir, s.recv[id].part) && Hidden(s.fileDir, s.recv[id].final)
  {
    hide IsStaging, TidyFs, Unstaged, Names.IsClean, Hidden;
    var r := s.recv[id];
    assert FileLocated(s, id) && FileOwned(s, id);
    if r.tree.Some? {
      var t := r.tree.value;
      assert TreeLocated(s, t);
      var n := TopName(t, s.trees[t].drag);
      StagingNames(t, t);
      if s.trees[t].drag.Some? { StagingNames(s.trees[t].drag.value, t); }
      InsideTrans(s.fileDir + [n], s.trees[t].root, r.part);
      InsideTrans(s.fileDir + [n], s.trees[t].root, r.final);
      InsideHidden(s.fileDir, n, r.part);
      InsideHidden(s.fileDir, n, r.final);
    } else {
      StagingNames(r.drag.value, 0);
      InsideHidden(s.fileDir, DragStagingName(r.drag.value), r.part);
      InsideHidden(s.fileDir, DragStagingName(r.drag.value), r.final);
    }
  }

  lemma RenameGrew(fs: Fs, home: Path, src: Path, dst: Path, id: nat, content: Bytes, env: Env, ps: seq<Placed>)
    requires Hidden(home, src) && Hidden(home, dst)
    ensures Grew(fs, OrElse(RenameFile(fs, src, dst, id, content, env), fs), ps)
  {
    hide Unstaged, Hidden;
    BelowHidden(home, src, src);
    BelowHidden(home, dst, dst);
  }

  /** The temporary files of plain transfers when one is forgotten: all but its own. */
  lemma PartsWithout(before: Fs, stuck: set<Path>, s: State, id: nat, r: State)
    requires Accounted(before, stuck, s) && id in s.recv && IsPlain(s.recv[id]) && r.recv == s.recv - {id}
    ensures forall p :: IsPart(r, p) <==> IsPart(s, p) && p != s.recv[id].part
    ensures IsPart(s, s.recv[id].part)
  {
    hide Unstaged, UnderPlaced;
    forall p | IsPart(s, p) && p != s.recv[id].part ensures IsPart(r, p) {
      var i :| i in s.recv && IsPlain(s.recv[i]) && s.recv[i].part == p;
      assert i in r.recv;
    }
  }

  /** Throwing away transfer `id` and its temporary file. */
  lemma DropAccounted(before: Fs, stuck: set<Path>, s: State, id: nat, r: State)
    requires Owned(s) && Located(s) && Accounted(before, stuck, s) && id in s.recv
    requires r.recv == s.recv - {id} && r.fs == RemoveFile(s.fs, s.recv[id].part) && r.placed == s.placed
    ensures Accounted(before, stuck, r)
  {
    hide Owned, Located, Unstaged, Hidden, UnderPlaced, IsPart, Grew;
    if IsPlain(s.recv[id]) {
      PartsWithout(before, stuck, s, id, r);
    } else {
      FileHidden(s, id);
      RemoveGrew(s.fs, s.fileDir, s.recv[id].part, r.placed);
      GrewAccounted(before, stuck, s, r);
    }
  }

  /** The end of a message: the state `s1` reached so far is sound, and what
      follows only grows the disk and leaves the plain transfers alone. */
  lemma TailAccounted(before: Fs, stuck: set<Path>, s: State, r: State)
    requires Accounted(before, stuck, s) && Located(s) && Grew(s.fs, r.fs, r.placed) && s.placed <= r.placed
             && r.recv == s.recv
    ensures Accounted(before, stuck, r)
  {
    hide Located, Grew;
    GrewAccounted(before, stuck, s, r);
  }

  lemma SettleFailureAccounted(before: Fs, stuck: set<Path>, s: State, r: State, id: nat, why: Reason, env: Env)
    requires Owned(s) && Located(s) && Accounted(before, stuck, s) && id in s.recv
    requires r == s.(recv := s.recv - {id}, fs := RemoveFile(s.fs, s.recv[id].part), replies := r.replies)
    ensures Accounted(before, stuck, SettleFailure(r, s.recv[id], id, why, env))
  {
    hide Owned, Located, TidyFs, FinalizeTree, SettleInDrag, RemoveFile, Accounted, Grew;
    var t := s.recv[id];
    LocatedTidy(s);
    RemovePartTidy(s.fs, s.fileDir, Owners(s), t.part);
    if t.tree.Some? {
      var tree := t.tree.value;
      assert tree in s.trees by { LiveTrees(s); }
      var s1 := r.WithTree(tree, r.trees[tree].(outstanding := r.trees[tree].outstanding - {id})
        .Fail(InFile(t.name, why)));
      DropAccounted(before, stuck, s, id, s1);
      SettleInTreeAccounted(before, stuck, s, s1, id, env);
    } else {
      DropAccounted(before, stuck, s, id, r);
      FileOutLocated(s, id, r);
      SettleInDragGrew(r, t.drag, id, None, env);
      TailAccounted(before, stuck, r, SettleInDrag(r, t.drag, id, None, env));
    }
  }

  /** File `id` was taken out and off its folder; the folder may now finish. */
  lemma SettleInTreeAccounted(before: Fs, stuck: set<Path>, s: State, r: State, id: nat, env: Env)
    requires Owned(s) && Located(s) && id in s.recv && Accounted(before, stuck, r) && r.recv == s.recv - {id}
    requires r.fileDir == s.fileDir && r.desktop == s.desktop && r.drag == s.drag && TidyFs(r.fs, s.fileDir, Owners(s))
    requires s.recv[id].tree.Some? && s.recv[id].tree.value in s.trees && s.recv[id].tree.value in r.trees
    requires var tree := s.recv[id].tree.value;
             && r.trees == s.trees[tree := r.trees[tree]]
             && var a, b := s.trees[tree], r.trees[tree];
             && a.root == b.root && a.staging == b.staging && a.drag == b.drag && a.counted == b.counted
                && a.name == b.name
             && b.outstanding == a.outstanding - {id} && (a.failed.Some? ==> b.failed.Some?)
    ensures Accounted(before, stuck, FinalizeTree(r, s.recv[id].tree.value, env))
  {
    hide Owned, Located, TidyFs, FinalizeTree, Accounted, Grew;
    FileRemovedOwned(s, id, r);
    FileOutLocated(s, id, r);
    FinalizeTreeGrew(r, s.recv[id].tree.value, env);
    TailAccounted(before, stuck, r, FinalizeTree(r, s.recv[id].tree.value, env));
  }

  /** A plain file is complete and correct but cannot be renamed into place. */
  predicate StuckRename(s: State, m: Message, env: Env) {
    && m.FileDone? && m.id in s.recv && IsPlain(s.recv[m.id])
    && var t := s.recv[m.id];
    && env.sha(t.hashed) == m.digest && t.received == t.size && !CanRename(s.fs, t.part, t.final, env)
  }

  function StuckPart(s: State, m: Message, env: Env): set<Path> {
    if StuckRename(s, m, env) then {s.recv[m.id].part} else {}
  }

  /** A plain file was moved to its place. */
  lemma MovedAccounted(before: Fs, stuck: set<Path>, s: State, id: nat, r: State)
    requires Accounted(before, stuck, s) && id in s.recv && IsPlain(s.recv[id])
    requires r.recv == s.recv - {id} && r.placed == s.placed + [Placed(id, false, s.recv[id].final, None)]
    requires var t := s.recv[id];
             t.final in r.fs && !r.fs[t.final].Dir? && r.fs == (s.fs - {t.part})[t.final := r.fs[t.final]]
    ensures Accounted(before, stuck, r)
  {
    hide Unstaged, UnderPlaced, IsPart;
    var t := s.recv[id];
    var x := Placed(id, false, t.final, None);
    PartsWithout(before, stuck, s, id, r);
    forall p | p in r.fs && Unstaged(p) && !r.fs[p].Dir? && p !in before
      ensures IsPart(r, p) || UnderPlaced(r.placed, p) || p in stuck
    {
      if p == t.final {
        PlacedNow(s.placed, x, p);
      } else if UnderPlaced(s.placed, p) {
        StillPlaced(s.placed, x, p);
      }
    }
  }

  lemma DonePlainAccounted(before: Fs, stuck: set<Path>, s: State, id: nat, digest: Digest, env: Env)
    requires Owned(s) && Located(s) && Accounted(before, stuck, s) && id in s.recv && IsPlain(s.recv[id])
    ensures Accounted(before, stuck + StuckPart(s, FileDone(id, digest), env), Done(s, id, digest, env))
  {
    hide Owned, Located, FinalizeDrag, Unstaged, UnderPlaced, IsPart, Accounted;
    var t := s.recv[id];
    var r := Done(s, id, digest, env);
    var (fs, error) := FinishRecv(s.fs, id, t, digest, env);
    assert r.recv == s.recv - {id} && r.fs == fs;
    if StuckRename(s, FileDone(id, digest), env) {
      StuckAccounted(before, stuck, s, id, r);
    } else {
      assert stuck + StuckPart(s, FileDone(id, digest), env) == stuck;
      if error.Some? {
        DropAccounted(before, stuck, s, id, r);
      } else {
        PartIsFile(before, stuck, s, id);
        MovedAccounted(before, stuck, s, id, r);
      }
    }
  }

  /** The transfer is forgotten, its temporary file is not removed. */
  lemma StuckAccounted(before: Fs, stuck: set<Path>, s: State, id: nat, r: State)
    requires Located(s) && Accounted(before, stuck, s) && id in s.recv && IsPlain(s.recv[id])
    requires r.recv == s.recv - {id} && r.fs == s.fs && r.placed == s.placed
    ensures Accounted(before, stuck + {s.recv[id].part}, r)
  {
    hide Located, Unstaged, UnderPlaced, IsPart;
    PlainUnstaged(s, id);
    PartsWithout(before, stuck, s, id, r);
  }

  lemma PartIsFile(before: Fs, stuck: set<Path>, s: State, id: nat)
    requires Accounted(before, stuck, s) && id in s.recv && IsPlain(s.recv[id])
    ensures s.recv[id].part in s.fs && !s.fs[s.recv[id].part].Dir?
  {
  }

  lemma PlacedNow(ps: seq<Placed>, x: Placed, p: Path)
    requires x.path <= p
    ensures UnderPlaced(ps + [x], p)
  {
    assert x in ps + [x];
  }

  lemma StillPlaced(ps: seq<Placed>, x: Placed, p: Path)
    requires UnderPlaced(ps, p)
    ensures UnderPlaced(ps + [x], p)
  {
    var y :| y in ps && y.path <= p;
    assert y in ps + [x];
  }

  lemma DoneInTreeAccounted(before: Fs, stuck: set<Path>, s: State, id: nat, digest: Digest, env: Env)
    requires Owned(s) && Located(s) && Accounted(before, stuck, s) && id in s.recv && s.recv[id].tree.Some?
    ensures Accounted(before, stuck, Done(s, id, digest, env))
  {
    hide Owned, Located, TidyFs, FinalizeTree, FinishRecv, Accounted, Grew;
    var t := s.recv[id];
    var (fs, error) := FinishRecv(s.fs, id, t, digest, env);
    var s1 := s.(recv := s.recv - {id}, fs := fs);
    var tree := t.tree.value;
    assert tree in s.trees by { LiveTrees(s); }
    var tr := s1.trees[tree].(outstanding := s1.trees[tree].outstanding - {id});
    var tr1 := if error.Some? then tr.Fail(InFile(t.name, error.value))
               else tr.(doneBytes := tr.doneBytes + t.size, verified := tr.verified + [Verified(id, t.size)]);
    FinishGrew(s, id, digest, env);
    FinishTidy(s, id, digest, env);
    GrewAccounted(before, stuck, s, s1.WithTree(tree, tr1));
    SettleInTreeAccounted(before, stuck, s, s1.WithTree(tree, tr1), id, env);
  }

  lemma DoneInDragAccounted(before: Fs, stuck: set<Path>, s: State, id: nat, digest: Digest, env: Env)
    requires Owned(s) && Located(s) && Accounted(before, stuck, s) && id in s.recv && s.recv[id].tree.None?
             && s.recv[id].drag.Some?
    ensures Accounted(before, stuck, Done(s, id, digest, env))
  {
    hide Owned, Located, TidyFs, SettleInDrag, FinishRecv, Accounted, Grew, Names.IsClean, Inside;
    var t := s.recv[id];
    var (fs, error) := FinishRecv(s.fs, id, t, digest, env);
    var s1 := s.(recv := s.recv - {id}, fs := fs);
    FinishGrew(s, id, digest, env);
    FinishTidy(s, id, digest, env);
    GrewAccounted(before, stuck, s, s1);
    FileOutLocated(s, id, s1);
    var item := Staged(id, t.name, false, t.size, t.final, None);
    assert ItemLocated(s1, t.drag.value, item) by { assert FileLocated(s, id) by { LiveLocated(s, id); } }
    var given := if error.None? then Some(item) else None;
    SettleInDragGrew(s1, t.drag, id, given, env);
    TailAccounted(before, stuck, s1, SettleInDrag(s1, t.drag, id, given, env));
  }

  lemma FinishGrew(s: State, id: nat, digest: Digest, env: Env)
    requires Owned(s) && Located(s) && id in s.recv && !IsPlain(s.recv[id])
    ensures Grew(s.fs, FinishRecv(s.fs, id, s.recv[id], digest, env).0, s.placed)
  {
    hide Owned, Located, Grew, Hidden, RenameFile, RemoveFile;
    var t := s.recv[id];
    FileHidden(s, id);
    GrewRefl(s.fs, s.placed);
    RemoveGrew(s.fs, s.fileDir, t.part, s.placed);
    RenameGrew(s.fs, s.fileDir, t.part, t.final, id, t.written, env, s.placed);
  }

  /* ---- offers and drags ---- */

  /** A new plain transfer, and its temporary file. */
  lemma PlainAddedAccounted(before: Fs, stuck: set<Path>, s: State, r: State, id: nat)
    requires Accounted(before, stuck, s) && id !in s.recv && id in r.recv && r.recv == s.recv[id := r.recv[id]]
             && r.placed == s.placed
    requires var t := r.recv[id];
             && IsPlain(t) && Unstaged(t.part) && Unstaged(t.final)
             && t.part in r.fs && !r.fs[t.part].Dir? && t.part !in s.fs && t.final !in s.fs
             && (forall p :: p in s.fs ==> p in r.fs && r.fs[p] == s.fs[p])
             && (forall p :: p in r.fs && p !in s.fs && !r.fs[p].Dir? ==> p == t.part)
    ensures Accounted(before, stuck, r)
  {
    hide UnderPlaced, Unstaged, IsPlain;
    forall p | p in r.fs && Unstaged(p) && !r.fs[p].Dir? && p !in before
      ensures IsPart(r, p) || UnderPlaced(r.placed, p) || p in stuck
    {
      if p == r.recv[id].part {
      } else if IsPart(s, p) {
        var i :| i in s.recv && IsPlain(s.recv[i]) && s.recv[i].part == p;
        assert r.recv[i].part == p;
      }
    }
  }

  lemma OfferPlainAccounted(before: Fs, stuck: set<Path>, s: State, id: nat, name: string, size: nat, env: Env)
    requires Owned(s) && Located(s) && Accounted(before, stuck, s)
    ensures Accounted(before, stuck, AcceptOffer(s, s.fileDir, id, name, size, None, None, env).0)
  {
    hide Owned, Located, BeginRecv, Accounted, Names.IsClean, WellFormed, IsStaging, Unstaged;
    var r := AcceptOffer(s, s.fileDir, id, name, size, None, None, env).0;
    if id !in s.recv {
      LocatedTidy(s);
      BeginRecvEffect(s.fs, s.fileDir, id, name, size, None, None, env);
      var t := BeginRecv(s.fs, s.fileDir, id, name, size, None, None, env).1;
      if t.Some? {
        AcceptOfferLocated(s, s.fileDir, id, name, size, None, None, env);
        PlainUnstaged(r, id);
        PlainAddedAccounted(before, stuck, s, r, id);
      } else {
        assert Grew(s.fs, r.fs, r.placed);
        TailAccounted(before, stuck, s, r);
      }
    } else {
      GrewRefl(s.fs, s.placed);
      TailAccounted(before, stuck, s, r);
    }
  }

  lemma AcceptStagedGrew(s: State, dir: Path, id: nat, name: string, size: nat, drag: Option<nat>, tree: Option<nat>,
                         env: Env)
    requires Located(s) && Hidden(s.fileDir, dir)
    ensures Grew(s.fs, AcceptOffer(s, dir, id, name, size, drag, tree, env).0.fs, s.placed)
  {
    hide Located, BeginRecv, Names.IsClean, WellFormed, Hidden, Unstaged, IsStaging;
    GrewRefl(s.fs, s.placed);
    if id !in s.recv {
      LocatedTidy(s);
      BeginRecvEffect(s.fs, dir, id, name, size, drag, tree, env);
      var t := BeginRecv(s.fs, dir, id, name, size, drag, tree, env).1;
      if t.Some? { BelowHidden(s.fileDir, dir, t.value.part); }
    }
  }

  lemma OfferInDragAccounted(before: Fs, stuck: set<Path>, s: State, drag: nat, id: nat, name: string, size: nat,
                             env: Env)
    requires Owned(s) && Located(s) && Accounted(before, stuck, s)
    ensures Accounted(before, stuck, OfferInDrag(s, drag, id, name, size, env))
  {
    hide Owned, Located, AcceptOffer, FinalizeDrag, Grew, Hidden, Accounted;
    var r := OfferInDrag(s, drag, id, name, size, env);
    if s.DragIs(Some(drag)) {
      var d := s.drag.value.(offered := s.drag.value.offered + 1);
      var s0 := s.WithDrag(d);
      SameOwnership(s, s0);
      DragRecordLocated(s, d);
      DragDir(s);
      StagingNames(drag, drag);
      InsideHidden(s.fileDir, DragStagingName(drag), d.dir);
      AcceptStagedGrew(s0, d.dir, id, name, size, Some(drag), None, env);
      AcceptOfferLocated(s0, d.dir, id, name, size, Some(drag), None, env);
      var (s1, accepted) := AcceptOffer(s0, d.dir, id, name, size, Some(drag), None, env);
      GrewAccounted(before, stuck, s, s1);
      FinalizeDragGrew(s1, env);
      if accepted {
        GrewRefl(s1.fs, s1.placed);
        TailAccounted(before, stuck, s1, r);
      } else {
        TailAccounted(before, stuck, s1, r);
      }
    } else {
      GrewRefl(s.fs, s.placed);
      GrewAccounted(before, stuck, s, r);
    }
  }

  lemma OfferInTreeAccounted(before: Fs, stuck: set<Path>, s: State, tree: nat, id: nat, rel: string, size: nat,
                             env: Env)
    requires Owned(s) && Located(s) && Accounted(before, stuck, s)
    ensures Accounted(before, stuck, OfferInTree(s, tree, id, rel, size, env))
  {
    hide Owned, Located, AcceptOffer, Grew, Hidden, Accounted, Names.SanitizeRel, Inside;
    var r := OfferInTree(s, tree, id, rel, size, env);
    OfferInTreeEffect(s, tree, id, rel, size, env);
    GrewRefl(s.fs, s.placed);
    if tree in s.trees && s.trees[tree].failed.None? {
      var t := s.trees[tree].(entries := s.trees[tree].entries + 1, offered := s.trees[tree].offered + [id]);
      var s0 := s.WithTree(tree, t);
      var path := Names.SanitizeRel(rel);
      if path.Some? && path.value != [] && t.entries <= MAX_TREE_ENTRIES {
        var k := |path.value| - 1;
        TreeHidden(s, tree);
        RootKnown(s, tree);
        RelInside(t.root, rel, k);
        assert t.root <= t.root + path.value[..k];
        HiddenBelow(s.fileDir, t.root, t.root + path.value[..k]);
        TreeRecordLocated(s, tree, t);
        AcceptStagedGrew(s0, t.root + path.value[..k], id, path.value[k], size, t.drag, Some(tree), env);
      }
    }
    GrewAccounted(before, stuck, s, r);
  }

  lemma HiddenBelow(home: Path, root: Path, p: Path)
    requires Hidden(home, root) && root <= p
    ensures Hidden(home, p)
  {
    var n :| IsStaging(n) && home + [n] <= root;
    assert home + [n] <= p;
  }

  lemma DirsGrew(fs: Fs, p: Path, q: Path, env: Env, ps: seq<Placed>)
    requires WellFormed(fs)
    ensures Grew(fs, OrElse(MkdirAll(fs, p, env), fs), ps)
    ensures MkdirAll(fs, p, env).Some? ==>
              var fs1 := MkdirAll(fs, p, env).value; Grew(fs, OrElse(MkdirAll(fs1, q, env), fs1), ps)
  {
    hide MkdirAll, Grew, WellFormed;
    MkdirGrew(fs, p, env, ps);
    if MkdirAll(fs, p, env).Some? {
      var fs1 := MkdirAll(fs, p, env).value;
      MkdirAllEffect(fs, p, env);
      MkdirGrew(fs1, q, env, ps);
      GrewTrans(fs, fs1, OrElse(MkdirAll(fs1, q, env), fs1), ps, ps);
    }
  }

  lemma RootTreeGrew(s: State, tree: nat, name: string, files: nat, bytes: nat, drag: Option<nat>, counted: bool,
                     parent: Path, staging: Option<Path>, env: Env, ps: seq<Placed>)
    requires WellFormed(s.fs) && tree !in s.trees
    ensures Grew(s.fs, RootTree(s, tree, name, files, bytes, drag, counted, parent, staging, env).fs, ps)
  {
    hide Grew, MkdirAll, FreeDirPath, WellFormed;
    GrewRefl(s.fs, ps);
    if MkdirAll(s.fs, parent, env).Some? {
      DirsGrew(s.fs, parent, FreeDirPath(MkdirAll(s.fs, parent, env).value, parent, name), env, ps);
    }
  }

  lemma OfferTreeAccounted(before: Fs, stuck: set<Path>, s: State, tree: nat, name: string, files: nat, bytes: nat,
                           drag: Option<nat>, env: Env)
    requires Located(s) && Accounted(before, stuck, s)
    ensures Accounted(before, stuck, OfferTree(s, tree, name, files, bytes, drag, env))
  {
    hide Located, Grew, Accounted, MkdirAll, FreeDirPath, Names.Sanitize, WellFormed;
    hide RootTree, TreeStagingName;
    LocatedTidy(s);
    GrewRefl(s.fs, s.placed);
    var parent := if drag.Some? && s.DragIs(drag) then s.drag.value.dir else s.fileDir + [TreeStagingName(tree)];
    var safe := Names.Sanitize(name);
    if safe.Some? {
      forall s1: State, c, staging | s1.fs == s.fs && tree !in s1.trees
        ensures Grew(s.fs, RootTree(s1, tree, safe.value, files, bytes, drag, c, parent, staging, env).fs, s.placed)
      {
        RootTreeGrew(s1, tree, safe.value, files, bytes, drag, c, parent, staging, env, s.placed);
      }
    }
    TailAccounted(before, stuck, s, OfferTree(s, tree, name, files, bytes, drag, env));
  }

  lemma MakeDirAccounted(before: Fs, stuck: set<Path>, s: State, tree: nat, rel: string, env: Env)
    requires Located(s) && Accounted(before, stuck, s)
    ensures Accounted(before, stuck, MakeDir(s, tree, rel, env))
  {
    hide Located, Grew, Accounted, MkdirAll, Names.SanitizeRel, WellFormed;
    LocatedTidy(s);
    GrewRefl(s.fs, s.placed);
    if tree in s.trees && s.trees[tree].failed.None? && Names.SanitizeRel(rel).Some? {
      MkdirGrew(s.fs, s.trees[tree].root + Names.SanitizeRel(rel).value, env, s.placed);
    }
    TailAccounted(before, stuck, s, MakeDir(s, tree, rel, env));
  }

  lemma DiscardAccounted(before: Fs, stuck: set<Path>, s: State)
    requires Owned(s) && Located(s) && Accounted(before, stuck, s) && s.drag.Some?
    ensures Accounted(before, stuck, DiscardDrag(s.(drag := None), s.drag.value))
  {
    hide Owned, Located, Accounted, Unstaged, Hidden, Doomed;
    var d := s.drag.value;
    var r := DiscardDrag(s.(drag := None), d);
    DiscardRemovesExactly(s);
    var gone := Doomed(s.(drag := None), d);
    var parts := PartsOf(s.(drag := None), gone);
    forall p | p in parts ensures !Unstaged(p) {
      var id :| id in gone && id in s.recv && s.recv[id].part == p;
      assert id !in r.recv && !IsPlain(s.recv[id]);
      FileHidden(s, id);
      BelowHidden(s.fileDir, p, p);
    }
    DragDir(s);
    StagingNames(d.drag, d.drag);
    InsideHidden(s.fileDir, DragStagingName(d.drag), d.dir);
    RemoveGrew(RemoveFiles(s.fs, parts), s.fileDir, d.dir, s.placed);
    assert Grew(s.fs, RemoveFiles(s.fs, parts), s.placed);
    GrewTrans(s.fs, RemoveFiles(s.fs, parts), r.fs, s.placed, s.placed);
    GrewAccounted(before, stuck, s, r);
  }

  lemma BeginDragAccounted(before: Fs, stuck: set<Path>, s: State, drag: nat, count: nat, env: Env)
    requires Owned(s) && Located(s) && Accounted(before, stuck, s)
    ensures Accounted(before, stuck, BeginDrag(s, drag, count, env))
  {
    hide Owned, Located, Accounted, Grew, DiscardDrag, MkdirAll, WellFormed;
    if s.drag.Some? { DiscardLocated(s); DiscardAccounted(before, stuck, s); }
    var s1 := if s.drag.Some? then DiscardDrag(s.(drag := None), s.drag.value) else s;
    LocatedTidy(s1);
    MkdirGrew(s1.fs, s1.fileDir + [DragStagingName(drag)], env, s1.placed);
    GrewRefl(s1.fs, s1.placed);
    TailAccounted(before, stuck, s1, BeginDrag(s, drag, count, env));
  }

  lemma ChunkAccounted(before: Fs, stuck: set<Path>, s: State, id: nat, offset: nat, data: Bytes, env: Env)
    requires Owned(s) && Located(s) && Accounted(before, stuck, s)
    ensures Accounted(before, stuck, Chunk(s, id, offset, data, env))
  {
    hide Owned, Located, SettleFailure, RemoveFile, Accounted, Grew;
    if id in s.recv {
      var t := s.recv[id];
      forall w, r: State | r == Drop(s, id).(replies := r.replies)
        ensures Accounted(before, stuck, SettleFailure(r, t, id, w, env))
      {
        SettleFailureAccounted(before, stuck, s, r, id, w, env);
      }
      GrewRefl(s.fs, s.placed);
      GrewAccounted(before, stuck, s,
        s.(recv := s.recv[id := t.(received := t.received + |data|, hashed := t.hashed + data,
                                   written := t.written + data)]));
    }
  }

  lemma HandleKeepsAccounted(before: Fs, stuck: set<Path>, s: State, m: Message, env: Env)
    requires Owned(s) && Located(s) && Accounted(before, stuck, s)
    ensures Accounted(before, stuck + StuckPart(s, m, env), Handle(s, m, env))
  {
    hide Owned, Located, Accounted, Grew, FinalizeDrag, FinalizeTree, SettleFailure, Done, Chunk, DiscardDrag;
    hide BeginDrag, RemoveFile;
    hide AcceptOffer, OfferInDrag, OfferInTree, OfferTree, MakeDir;
    GrewRefl(s.fs, s.placed);
    if !StuckRename(s, m, env) { assert stuck + StuckPart(s, m, env) == stuck; }
    match m
    case FileOffer(id, name, size) => OfferPlainAccounted(before, stuck, s, id, name, size, env);
    case DragBegin(drag, count) => BeginDragAccounted(before, stuck, s, drag, count, env);
    case DragOffer(drag, id, name, size) => OfferInDragAccounted(before, stuck, s, drag, id, name, size, env);
    case DragDrop(drag) =>
      if s.DragIs(Some(drag)) {
        var s1 := s.WithDrag(s.drag.value.(dropRequested := true));
        DragRecordLocated(s, s1.drag.value);
        FinalizeDragGrew(s1, env);
        GrewAccounted(before, stuck, s, FinalizeDrag(s1, env));
      }
    case DragCancel(drag) => if s.DragIs(Some(drag)) { DiscardAccounted(before, stuck, s); }
    case TreeOffer(tree, name, files, bytes, within) =>
      OfferTreeAccounted(before, stuck, s, tree, name, files, bytes, within, env);
    case TreeDir(tree, rel) => MakeDirAccounted(before, stuck, s, tree, rel, env);
    case TreeFile(tree, id, rel, size) => OfferInTreeAccounted(before, stuck, s, tree, id, rel, size, env);
    case TreeEnd(tree, error) =>
      if tree in s.trees {
        var t := s.trees[tree].(ended := true);
        var t' := if error.Some? then t.Fail(FromPeer(error.value)) else t;
        TreeRecordLocated(s, tree, t');
        TreeChangedOwned(s, tree, s.WithTree(tree, t'));
        FinalizeTreeGrew(s.WithTree(tree, t'), tree, env);
        GrewAccounted(before, stuck, s, FinalizeTree(s.WithTree(tree, t'), tree, env));
      }
    case FileChunk(id, offset, data) => ChunkAccounted(before, stuck, s, id, offset, data, env);
    case FileDone(id, digest) =>
      if id !in s.recv { assert Done(s, id, digest, env) == s by { UnknownDone(s, id, digest, env); } }
      else if IsPlain(s.recv[id]) { DonePlainAccounted(before, stuck, s, id, digest, env); }
      else if s.recv[id].tree.Some? { DoneInTreeAccounted(before, stuck, s, id, digest, env); }
      else { DoneInDragAccounted(before, stuck, s, id, digest, env); }
    case FileCancel(id, why) =>
      if id in s.recv { SettleFailureAccounted(before, stuck, s, Drop(s, id), id, why, env); }
  }

  lemma UnknownDone(s: State, id: nat, digest: Digest, env: Env)
    requires id !in s.recv
    ensures Done(s, id, digest, env) == s
  {
  }

  /** The temporary files of the plain files of the run that got stuck at their last step. */
  ghost function StuckParts(s: State, es: seq<Event>): set<Path> {
    if es == [] then {}
    else
      var r, e := Run(s, es[..|es| - 1]), es[|es| - 1];
      StuckParts(s, es[..|es| - 1]) + StuckPart(r, e.m, e.env)
  }

  /** A disk without staging directories (they are purged at start-up). */
  ghost predicate FreshDisk(s: State) {
    WellFormed(s.fs) && PlainDirs(s) && forall p :: p in s.fs ==> Unstaged(p)
  }

  lemma {:induction false} RunKeepsAccounted(s: State, es: seq<Event>)
    requires IsNew(s) && FreshDisk(s) && FreshRun(s, es)
    ensures Owned(Run(s, es)) && Located(Run(s, es)) && Accounted(s.fs, StuckParts(s, es), Run(s, es))
  {
    hide Owned, Located, Accounted, StuckPart;
    NewIsSound(s);
    RunKeepsLocated(s, es);
    if es != [] {
      var before := es[..|es| - 1];
      RunKeepsAccounted(s, before);
      HandleKeepsAccounted(s.fs, StuckParts(s, before), Run(s, before), es[|es| - 1].m, es[|es| - 1].env);
    }
  }

  lemma NewIsSound(s: State)
    requires IsNew(s) && FreshDisk(s)
    ensures Owned(s) && Located(s) && Accounted(s.fs, {}, s)
  {
    forall p | p in s.fs
      ensures !InStaging(s.fileDir, p)
    {
      if InStaging(s.fileDir, p) { InStagingIsStaged(s.fileDir, p); assert false; }
    }
  }

  /** Whatever the peer sends, closing the connection leaves on the disk what was there
      before, unchanged, plus directories, delivered items and the temporary files of the
      plain files whose last rename failed, all of these: no staging directory and no
      other temporary file. */
  lemma CloseLeavesOnlyDelivered(s: State, es: seq<Event>)
    requires IsNew(s) && FreshDisk(s) && FreshRun(s, es)
    ensures var r := Run(s, es); var fs := Close(r).fs;
            && (forall p :: p in s.fs ==> p in fs && fs[p] == s.fs[p])
            && (forall p :: p in fs ==> Unstaged(p))
            && (forall p :: p in fs && !fs[p].Dir? && p !in s.fs ==> UnderPlaced(r.placed, p) || p in StuckParts(s, es))
            && (forall p :: p in StuckParts(s, es) ==> p in fs && !fs[p].Dir? && p !in s.fs)
  {
    hide Owned, Located, Accounted, IsStaging, Run, UnderPlaced, Unstaged;
    RunKeepsAccounted(s, es);
    var r, stuck := Run(s, es), StuckParts(s, es);
    CloseLeavesNoStaging(r);
    forall p | p in s.fs ensures p in Close(r).fs && Close(r).fs[p] == s.fs[p] {
      NotPart(s.fs, stuck, r, p);
      CloseKeeps(r, p);
    }
    forall p | p in stuck ensures p in Close(r).fs && !Close(r).fs[p].Dir? && p !in s.fs {
      NotPart(s.fs, stuck, r, p);
      CloseKeeps(r, p);
    }
    forall p | p in Close(r).fs && !Close(r).fs[p].Dir? && p !in s.fs ensures UnderPlaced(r.placed, p) || p in stuck {
      NewFile(s.fs, stuck, r, p);
      assert p in r.fs && p !in RemoveFiles(r.fs, PartsOf(r, r.recv.Keys)) <== IsPart(r, p);
    }
  }

  lemma NewFile(before: Fs, stuck: set<Path>, s: State, p: Path)
    requires Accounted(before, stuck, s) && p in s.fs && Unstaged(p) && !s.fs[p].Dir? && p !in before
    ensures IsPart(s, p) || UnderPlaced(s.placed, p) || p in stuck
  {
  }

  lemma NotPart(before: Fs, stuck: set<Path>, s: State, p: Path)
    requires Accounted(before, stuck, s) && (p in stuck || (p in before && Unstaged(p)))
    ensures !IsPart(s, p) && p in s.fs && Unstaged(p)
    ensures p in stuck ==> !s.fs[p].Dir? && p !in before
    ensures p in before ==> s.fs[p] == before[p]
  {
  }

  /** Closing removes nothing outside staging but the temporary files of live plain transfers. */
  lemma CloseKeeps(s: State, p: Path)
    requires Owned(s) && Located(s) && p in s.fs && Unstaged(p) && !IsPart(s, p)
    ensures p in Close(s).fs
  {
    hide IsStaging, Unstaged, Hidden, TidyFs, Names.IsClean;
    var parts := PartsOf(s, s.recv.Keys);
    forall q | q in parts ensures q != p {
      var id :| id in s.recv && s.recv[id].part == q;
      if !IsPlain(s.recv[id]) { FileHidden(s, id); BelowHidden(s.fileDir, q, q); }
    }
    forall d | d in TreeDirs(s) && d in s.fs ensures !(d <= p) {
      if t :| t in s.trees && (s.trees[t].root == d || s.trees[t].staging == Some(d)) {
        TreeHidden(s, t);
        LocatedTidy(s);
        assert d != [] by { hide WellFormed; AncestorsAreDirs(s.fs, d); }
        if d <= p { BelowHidden(s.fileDir, d, p); }
      }
    }
    if s.drag.Some? {
      DragDir(s);
      StagingNames(s.drag.value.drag, 0);
      InsideHidden(s.fileDir, DragStagingName(s.drag.value.drag), s.drag.value.dir);
      if s.drag.value.dir <= p { BelowHidden(s.fileDir, s.drag.value.dir, p); }
    }
  }

  /** The temporary file of a plain file that gets stuck is still there after closing,
      and the message delivers nothing. */
  lemma StuckRenameLeavesPart(before: Fs, stuck: set<Path>, s: State, m: Message, env: Env)
    requires Owned(s) && Located(s) && Accounted(before, stuck, s) && StuckRename(s, m, env)
    ensures var p := s.recv[m.id].part;
            && p !in before
            && p in Close(Handle(s, m, env)).fs
            && Handle(s, m, env).placed == s.placed
  {
    hide Owned, Located;
    var t := s.recv[m.id];
    var r := Handle(s, m, env);
    assert r.fs == s.fs && r.recv == s.recv - {m.id} && r.placed == s.placed;
    HandleKeepsOwnership(s, m, env);
    HandleKeepsLocated(s, m, env);
    PlainUnstaged(s, m.id);
    CloseKeeps(r, t.part);
  }
}
