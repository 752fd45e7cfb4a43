/** Every message keeps staged material where it belongs, and closing the
    connection leaves none behind. */
module Cleanup {
  import opened Basics
  import opened Disk
  import opened Receiving
  import opened Ownership
  import opened Staging
  import Names

  /** `r` has no transfers, folders, drag or staged items but those of `s`, in
      the same places; new staged items lie inside the drag's directory. */
  ghost predicate SamePlaces(s: State, r: State) {
    && r.fileDir == s.fileDir && r.desktop == s.desktop
    && (forall t :: t in r.trees ==>
          && t in s.trees
          && var a, b := s.trees[t], r.trees[t];
          && a.root == b.root && a.staging == b.staging && a.drag == b.drag && a.counted == b.counted
             && a.name == b.name
          && (a.failed.Some? ==> b.failed.Some?))
    && (forall id :: id in r.recv ==>
          && id in s.recv
          && var a, b := s.recv[id], r.recv[id];
          && a.name == b.name && a.part == b.part && a.final == b.final && a.drag == b.drag && a.tree == b.tree
          && (a.tree.Some? ==> a.tree.value in r.trees))
    && (r.drag.Some? ==>
          && s.drag.Some? && r.drag.value.drag == s.drag.value.drag && r.drag.value.dir == s.drag.value.dir
          && forall x :: x in r.drag.value.done ==> x in s.drag.value.done || ItemLocated(s, s.drag.value.drag, x))
  }

  lemma PlacesKept(s: State, r: State)
    requires Located(s) && SamePlaces(s, r) && TidyFs(r.fs, r.fileDir, Owners(r))
    ensures Located(r)
  {
    hide TidyFs, Inside, Unstaged, Names.IsClean;
    forall t | t in r.trees ensures TreeLocated(r, t) { assert TreeLocated(s, t); }
    forall id | id in r.recv ensures FileLocated(r, id) { assert FileLocated(s, id); }
  }

  /** Owners depend only on the staging directories of the folders and on the drag. */
  lemma OwnersOf(s: State, x: Path)
    ensures x in Owners(s) <==>
              (exists t :: t in s.trees && s.trees[t].staging == Some(x)) || (s.drag.Some? && s.drag.value.dir == x)
  {
    if t :| t in s.trees && s.trees[t].staging == Some(x) {
      assert s.trees[t].staging.value == x;
    }
  }

  lemma SameOwners(s: State, r: State, gone: set<Path>)
    requires forall t :: t in r.trees ==> t in s.trees && r.trees[t].staging == s.trees[t].staging
    requires forall t :: t in r.trees && r.trees[t].staging.Some? ==> r.trees[t].staging.value !in gone
    requires forall t :: t in s.trees && t !in r.trees && s.trees[t].staging.Some? ==> s.trees[t].staging.value in gone
    requires r.drag.Some? ==> s.drag.Some? && r.drag.value.dir == s.drag.value.dir && s.drag.value.dir !in gone
    requires s.drag.Some? && r.drag.None? ==> s.drag.value.dir in gone
    ensures Owners(r) == Owners(s) - gone
  {
    forall x ensures x in Owners(r) <==> x in Owners(s) && x !in gone {
      OwnersOf(s, x);
      OwnersOf(r, x);
    }
  }

  /** A live file of a folder is in a live folder. */
  lemma LiveTrees(s: State)
    requires Located(s)
    ensures forall id :: id in s.recv && s.recv[id].tree.Some? ==> s.recv[id].tree.value in s.trees
  {
    hide TidyFs, Inside, Names.IsClean;
    forall id | id in s.recv && s.recv[id].tree.Some?
      ensures s.recv[id].tree.value in s.trees
    {
      assert FileLocated(s, id);
    }
  }

  /* ---- the disk during each operation ---- */

  lemma MkdirTidy(fs: Fs, p: Path, home: Path, owners: set<Path>, env: Env)
    requires TidyFs(fs, home, owners)
    requires forall q :: q <= p && q != [] ==> TidyPath(home, owners, q)
    ensures TidyFs(OrElse(MkdirAll(fs, p, env), fs), home, owners)
  {
    hide MkdirAll;
    if MkdirAll(fs, p, env).Some? {
      MkdirAllEffect(fs, p, env);
      AddTidy(fs, MkdirAll(fs, p, env).value, home, owners);
    }
  }

  lemma SubsetTidy(fs: Fs, r: Fs, home: Path, owners: set<Path>)
    requires TidyFs(fs, home, owners) && WellFormed(r)
    requires forall q :: q in r ==> q in fs && r[q] == fs[q]
    ensures TidyFs(r, home, owners)
  {
  }

  lemma FreeNameUnstaged(fs: Fs, dest: Path, name: string)
    requires Names.IsClean(name)
    ensures exists n :: FreeFilePath(fs, dest, name) == dest + [n] && !IsStaging(n) && n != [] && n[0] != '.'
    ensures exists n :: FreeDirPath(fs, dest, name) == dest + [n] && !IsStaging(n)
    ensures FreeFilePath(fs, dest, name) !in fs && FreeDirPath(fs, dest, name) !in fs
  {
    hide IsStaging, Names.IsClean;
    CleanNameUndotted(name);
    PlacedNamesUnstaged(name, FirstFree(fs.Keys, dest, SplitExt(name).0, SplitExt(name).1, 0));
    PlacedNamesUnstaged(name, FirstFree(fs.Keys, dest, name, "", 0));
    PlacementIsFresh(fs, dest, SplitExt(name).0, SplitExt(name).1);
    PlacementIsFresh(fs, dest, name, "");
  }

  lemma {:induction false} PlaceAllTidy(fs: Fs, items: seq<Staged>, dest: Path, env: Env, home: Path,
                                        owners: set<Path>, n: string)
    requires TidyFs(fs, home, owners) && Unstaged(home) && Unstaged(dest) && IsStaging(n)
    requires forall x :: x in items ==> Names.IsClean(x.name) && Inside(home + [n], x.path)
    ensures TidyFs(PlaceAll(fs, items, dest, env).0, home, owners)
  {
    hide TidyFs, Inside, Unstaged, MovePath, FreeDirPath, FreeFilePath, Names.IsClean, IsStaging;
    if items != [] {
      PlaceAllTidy(fs, items[..|items| - 1], dest, env, home, owners, n);
      var before, item := PlaceAll(fs, items[..|items| - 1], dest, env).0, items[|items| - 1];
      FreeNameUnstaged(before, dest, item.name);
      var target := if item.folder then FreeDirPath(before, dest, item.name) else FreeFilePath(before, dest, item.name);
      var m :| target == dest + [m] && !IsStaging(m);
      UnstagedName(dest, m);
      if MovePath(before, item.path, target, env).Some? {
        MoveTidy(before, home, owners, n, item.path, target, env);
      }
    }
  }

  lemma UnstagedName(p: Path, n: string)
    requires Unstaged(p) && !IsStaging(n)
    ensures Unstaged(p + [n])
  {
  }

  lemma UnstagedAncestors(home: Path, owners: set<Path>, p: Path)
    requires Unstaged(p)
    ensures forall q :: q <= p ==> TidyPath(home, owners, q)
  {
  }

  lemma EvictDir(fs: Fs, home: Path, owners: set<Path>, n: string)
    requires TidyFs(fs, home, owners) && IsStaging(n)
    ensures TidyFs(RemoveDir(fs, home + [n]), home, owners - {home + [n]})
  {
    hide IsStaging, RemoveDir;
    var top := home + [n];
    RemoveDirEffect(fs, top);
    assert InStaging(home, top);
    EvictTidy(fs, RemoveDir(fs, top), home, owners, top);
  }

  /* ---- finishing ---- */

  lemma OwnersWithoutDrag(s: State, r: State)
    requires Located(s) && s.drag.Some? && r.trees == s.trees && r.drag == None
    ensures Owners(r) == Owners(s) - {s.drag.value.dir}
  {
    hide IsStaging, TidyFs, Inside, Unstaged, Names.IsClean;
    forall t | t in s.trees && s.trees[t].staging.Some? ensures s.trees[t].staging.value != s.drag.value.dir {
      assert TreeLocated(s, t);
      StagingNames(t, s.drag.value.drag);
      assert (s.fileDir + [TreeStagingName(t)])[|s.fileDir|] == TreeStagingName(t);
      assert (s.fileDir + [DragStagingName(s.drag.value.drag)])[|s.fileDir|] == DragStagingName(s.drag.value.drag);
    }
    SameOwners(s, r, {s.drag.value.dir});
  }

  lemma FinalizeDragLocated(s: State, env: Env)
    requires Located(s)
    ensures Located(FinalizeDrag(s, env))
  {
    hide IsStaging, TidyFs, Inside, Unstaged, PlaceAll, MkdirAll, RemoveDir, Names.IsClean;
    var r := FinalizeDrag(s, env);
    if s.drag.Some? && s.drag.value.dropRequested && s.drag.value.Settled() {
      var d, dest := s.drag.value, s.DropDir();
      StagingNames(d.drag, d.drag);
      UnstagedAncestors(s.fileDir, Owners(s), dest);
      MkdirTidy(s.fs, dest, s.fileDir, Owners(s), env);
      var fs1 := OrElse(MkdirAll(s.fs, dest, env), s.fs);
      PlaceAllTidy(fs1, d.done, dest, env, s.fileDir, Owners(s), DragStagingName(d.drag));
      EvictDir(PlaceAll(fs1, d.done, dest, env).0, s.fileDir, Owners(s), DragStagingName(d.drag));
      OwnersWithoutDrag(s, r);
      PlacesKept(s, r) by { LiveTrees(s); }
    }
  }

  lemma LocatedTidy(s: State)
    requires Located(s)
    ensures TidyFs(s.fs, s.fileDir, Owners(s)) && WellFormed(s.fs) && PlainDirs(s)
  {
  }

  lemma SettleInDragLocated(s: State, drag: Option<nat>, id: nat, item: Option<Staged>, env: Env)
    requires Located(s)
    requires item.Some? && s.DragIs(drag) ==> ItemLocated(s, drag.value, item.value)
    ensures Located(SettleInDrag(s, drag, id, item, env))
  {
    hide Located, TidyFs, FinalizeDrag, ItemLocated;
    if s.DragIs(drag) {
      var d := s.drag.value.(outstanding := s.drag.value.outstanding - {id});
      var s1 := s.WithDrag(if item.Some? then d.(done := d.done + [item.value]) else d);
      assert TidyFs(s.fs, s.fileDir, Owners(s)) by { LocatedTidy(s); }
      assert s.drag.value.dir == s1.drag.value.dir && Owners(s1) == Owners(s);
      PlacesKept(s, s1) by { LiveTrees(s); }
      FinalizeDragLocated(s1, env);
    }
  }

  lemma OwnersWithoutTree(s: State, tree: nat, r: State)
    requires Located(s) && tree in s.trees && s.trees[tree].staging.Some? && r.trees == s.trees - {tree}
             && r.drag == s.drag
    ensures Owners(r) == Owners(s) - {s.trees[tree].staging.value}
    ensures s.trees[tree].staging.value == s.fileDir + [TreeStagingName(tree)]
  {
    hide IsStaging, TidyFs, Inside, Unstaged, Names.IsClean;
    var top := s.trees[tree].staging.value;
    assert TreeLocated(s, tree);
    assert top[|s.fileDir|] == TreeStagingName(tree);
    forall t | t in r.trees && r.trees[t].staging.Some? ensures r.trees[t].staging.value != top {
      assert TreeLocated(s, t);
      StagingNames(t, tree);
      StagingNames(tree, t);
      assert (s.fileDir + [TreeStagingName(t)])[|s.fileDir|] == TreeStagingName(t);
    }
    if s.drag.Some? {
      StagingNames(tree, s.drag.value.drag);
      assert (s.fileDir + [DragStagingName(s.drag.value.drag)])[|s.fileDir|] == DragStagingName(s.drag.value.drag);
    }
    SameOwners(s, r, {top});
  }

  /** Taking a settled folder out, with its staging directory if it has one. */
  lemma TreeOutLocated(s: State, tree: nat, fs: Fs, placed: seq<Placed>)
    requires Owned(s) && Located(s) && tree in s.trees && s.trees[tree].outstanding == {}
    requires s.trees[tree].staging.None? ==> TidyFs(fs, s.fileDir, Owners(s))
    requires s.trees[tree].staging.Some? ==> TidyFs(fs, s.fileDir, Owners(s) - {s.trees[tree].staging.value})
    ensures Located(s.(trees := s.trees - {tree}, fs := fs, placed := placed))
  {
    hide Located, TidyFs, SamePlaces, Owned;
    var r := s.(trees := s.trees - {tree}, fs := fs, placed := placed);
    if s.trees[tree].staging.Some? {
      OwnersWithoutTree(s, tree, r);
    } else {
      SameOwners(s, r, {});
      assert Owners(s) - {} == Owners(s);
    }
    TreeOutPlaces(s, tree, r);
    PlacesKept(s, r);
  }

  lemma TreeOutPlaces(s: State, tree: nat, r: State)
    requires Owned(s) && Located(s) && tree in s.trees && s.trees[tree].outstanding == {}
    requires r == s.(trees := s.trees - {tree}, fs := r.fs, placed := r.placed)
    ensures SamePlaces(s, r)
  {
    hide Located;
    assert TreeOwned(s, tree);
    LiveTrees(s);
    forall id | id in s.recv ensures s.recv[id].tree != Some(tree) { assert id !in FilesOf(s, tree); }
  }

  lemma RemoveRootTidy(fs: Fs, home: Path, owners: set<Path>, root: Path, staging: Option<Path>, t: nat)
    requires TidyFs(fs, home, owners) && (staging.Some? ==> staging.value == home + [TreeStagingName(t)])
    ensures TidyFs(RemoveDir(fs, root), home, owners)
    ensures staging.Some? ==> TidyFs(RemoveDir(fs, staging.value), home, owners - {staging.value})
  {
    hide IsStaging, RemoveDir;
    RemoveDirEffect(fs, root);
    SubsetTidy(fs, RemoveDir(fs, root), home, owners);
    StagingNames(t, t);
    if staging.Some? { EvictDir(fs, home, owners, TreeStagingName(t)); }
  }

  lemma FinalizeTreeLocated(s: State, tree: nat, env: Env)
    requires Owned(s) && Located(s)
    ensures Located(FinalizeTree(s, tree, env))
  {
    hide TidyFs, SettleInDrag, Inside, Unstaged, IsStaging, Names.IsClean, MovePath, MkdirAll, RemoveDir, FreeDirPath;
    if tree in s.trees && s.trees[tree].Settled() {
      var t := s.trees[tree];
      assert TreeLocated(s, tree) && TreeOwned(s, tree);
      if t.failed.Some? {
        FailedTreeLocated(s, tree, env);
      } else if t.drag.Some? {
        if s.DragIs(t.drag) {
          TreeOutLocated(s, tree, s.fs, s.placed);
          SettleInDragLocated(s.(trees := s.trees - {tree}), t.drag, tree,
                              Some(Staged(tree, t.name, true, t.total, t.root, Some(t))), env);
        } else {
          RemoveRootTidy(s.fs, s.fileDir, Owners(s), t.root, None, tree);
          TreeOutLocated(s, tree, RemoveDir(s.fs, t.root), s.placed);
        }
      } else {
        PlacedTreeLocated(s, tree, env);
      }
    }
  }

  lemma FailedTreeLocated(s: State, tree: nat, env: Env)
    requires Owned(s) && Located(s) && tree in s.trees && s.trees[tree].Settled() && s.trees[tree].failed.Some?
    ensures Located(FinalizeTree(s, tree, env))
  {
    hide TidyFs, SettleInDrag, Inside, Unstaged, IsStaging, Names.IsClean, RemoveDir;
    var t := s.trees[tree];
    assert TreeLocated(s, tree);
    RemoveRootTidy(s.fs, s.fileDir, Owners(s), t.root, None, tree);
    var fs1 := if t.root != [] then RemoveDir(s.fs, t.root) else s.fs;
    RemoveRootTidy(fs1, s.fileDir, Owners(s), t.root, t.staging, tree);
    var fs2 := if t.staging.Some? then RemoveDir(fs1, t.staging.value) else fs1;
    TreeOutLocated(s, tree, fs2, s.placed);
    SettleInDragLocated(s.(trees := s.trees - {tree}, fs := fs2), t.drag, tree, None, env);
  }

  lemma PlacedTreeLocated(s: State, tree: nat, env: Env)
    requires Owned(s) && Located(s) && tree in s.trees && s.trees[tree].Settled()
    requires s.trees[tree].failed.None? && s.trees[tree].drag.None?
    ensures Located(FinalizeTree(s, tree, env))
  {
    hide TidyFs, Inside, Unstaged, IsStaging, Names.IsClean, MovePath, MkdirAll, RemoveDir, FreeDirPath;
    var t, home := s.trees[tree], s.fileDir;
    assert TreeLocated(s, tree);
    StagingNames(tree, tree);
    UnstagedAncestors(home, Owners(s), home);
    MkdirTidy(s.fs, home, home, Owners(s), env);
    var fs1 := OrElse(MkdirAll(s.fs, home, env), s.fs);
    var dest := FreeDirPath(fs1, home, t.name);
    FreeNameUnstaged(fs1, home, t.name);
    var m :| dest == home + [m] && !IsStaging(m);
    UnstagedName(home, m);
    var moved := MovePath(fs1, t.root, dest, env);
    if moved.Some? { MoveTidy(fs1, home, Owners(s), TreeStagingName(tree), t.root, dest, env); }
    var fs2 := OrElse(moved, fs1);
    RemoveRootTidy(fs2, home, Owners(s), t.root, t.staging, tree);
    var fs3 := RemoveDir(fs2, t.staging.value);
    RemoveRootTidy(fs3, home, Owners(s) - {t.staging.value}, t.root, None, tree);
    TreeOutLocated(s, tree, fs3, s.placed + [Placed(tree, true, dest, Some(t))]);
    TreeOutLocated(s, tree, RemoveDir(fs3, t.root), s.placed);
  }

  /* ---- settling a file ---- */

  /** A transfer taken out, its folder's bookkeeping updated. */
  lemma FileOutLocated(s: State, id: nat, r: State)
    requires Located(s) && id in s.recv && r.recv == s.recv - {id}
    requires r.fileDir == s.fileDir && r.desktop == s.desktop && r.drag == s.drag && r.trees.Keys == s.trees.Keys
    requires forall t :: t in r.trees ==>
               && var a, b := s.trees[t], r.trees[t];
               && a.root == b.root && a.staging == b.staging && a.drag == b.drag && a.counted == b.counted
                  && a.name == b.name
               && (a.failed.Some? ==> b.failed.Some?)
    requires TidyFs(r.fs, s.fileDir, Owners(s))
    ensures Located(r)
  {
    hide Located, TidyFs;
    assert Owners(r) == Owners(s);
    LiveTrees(s);
    PlacesKept(s, r);
  }

  lemma RemovePartTidy(fs: Fs, home: Path, owners: set<Path>, p: Path)
    requires TidyFs(fs, home, owners)
    ensures TidyFs(RemoveFile(fs, p), home, owners)
  {
    RemoveFilesEffect(fs, {p});
    SubsetTidy(fs, RemoveFile(fs, p), home, owners);
  }

  lemma SettleFailureLocated(s: State, r: State, id: nat, why: Reason, env: Env)
    requires Owned(s) && Located(s) && id in s.recv
    requires r == s.(recv := s.recv - {id}, fs := RemoveFile(s.fs, s.recv[id].part), replies := r.replies)
    ensures Located(SettleFailure(r, s.recv[id], id, why, env))
  {
    hide Owned, Located, TidyFs, FinalizeTree, SettleInDrag, RemoveFile;
    var t := s.recv[id];
    LocatedTidy(s);
    RemovePartTidy(s.fs, s.fileDir, Owners(s), t.part);
    if t.tree.Some? {
      assert t.tree.value in s.trees by { LiveTrees(s); }
      SettleInTreeLocated(s, r, id, InFile(t.name, why), env);
    } else {
      FileOutLocated(s, id, r);
      SettleInDragLocated(r, t.drag, id, None, env);
    }
  }

  lemma SettleInTreeLocated(s: State, r: State, id: nat, why: Reason, env: Env)
    requires Owned(s) && Located(s) && id in s.recv && s.recv[id].tree.Some? && s.recv[id].tree.value in s.trees
    requires r == s.(recv := s.recv - {id}, fs := r.fs, replies := r.replies) && TidyFs(r.fs, s.fileDir, Owners(s))
    ensures var tree := s.recv[id].tree.value;
            var tr := r.trees[tree].(outstanding := r.trees[tree].outstanding - {id}).Fail(why);
            Located(FinalizeTree(r.WithTree(tree, tr), tree, env))
  {
    hide Owned, Located, TidyFs, FinalizeTree;
    var tree := s.recv[id].tree.value;
    var tr := r.trees[tree].(outstanding := r.trees[tree].outstanding - {id}).Fail(why);
    FileRemovedOwned(s, id, r.WithTree(tree, tr));
    FileOutLocated(s, id, r.WithTree(tree, tr));
    FinalizeTreeLocated(r.WithTree(tree, tr), tree, env);
  }

  lemma OwnedFile(s: State, id: nat)
    requires Owned(s) && id in s.recv
    ensures FileOwned(s, id)
  {
  }

  lemma FinishTidy(s: State, id: nat, digest: Digest, env: Env)
    requires Owned(s) && Located(s) && id in s.recv
    ensures TidyFs(FinishRecv(s.fs, id, s.recv[id], digest, env).0, s.fileDir, Owners(s))
  {
    hide TidyFs, RemoveFile, RenameFile, TidyPath;
    var t := s.recv[id];
    RemovePartTidy(s.fs, s.fileDir, Owners(s), t.part);
    if RenameFile(s.fs, t.part, t.final, id, t.written, env).Some? {
      RenameTidy(s, id, env);
    }
  }

  lemma RenameTidy(s: State, id: nat, env: Env)
    requires Owned(s) && Located(s) && id in s.recv
    requires RenameFile(s.fs, s.recv[id].part, s.recv[id].final, id, s.recv[id].written, env).Some?
    ensures TidyFs(RenameFile(s.fs, s.recv[id].part, s.recv[id].final, id, s.recv[id].written, env).value, s.fileDir,
                   Owners(s))
  {
    hide InStaging, TidyPath;
    var t := s.recv[id];
    var r := RenameFile(s.fs, t.part, t.final, id, t.written, env).value;
    RenameFileEffect(s.fs, t.part, t.final, id, t.written, env);
    FileTidy(s, id, t.final, t.final);
    AddTidy(s.fs, r, s.fileDir, Owners(s));
  }

  lemma DoneInTreeLocated(s: State, id: nat, digest: Digest, env: Env)
    requires Owned(s) && Located(s) && id in s.recv && s.recv[id].tree.Some?
    ensures Located(Done(s, id, digest, env))
  {
    hide Owned, Located, TidyFs, FinalizeTree, FinishRecv, Owners, ItemLocated;
    var t := s.recv[id];
    assert FileOwned(s, id) by { OwnedFile(s, id); }
    FinishTidy(s, id, digest, env);
    var (fs, error) := FinishRecv(s.fs, id, t, digest, env);
    var s1 := s.(recv := s.recv - {id}, fs := fs);
    var tree := t.tree.value;
    var tr := s1.trees[tree].(outstanding := s1.trees[tree].outstanding - {id});
    var tr1 := if error.Some? then tr.Fail(InFile(t.name, error.value))
               else tr.(doneBytes := tr.doneBytes + t.size, verified := tr.verified + [Verified(id, t.size)]);
    FileRemovedOwned(s, id, s1.WithTree(tree, tr1));
    FileOutLocated(s, id, s1.WithTree(tree, tr1));
    FinalizeTreeLocated(s1.WithTree(tree, tr1), tree, env);
  }

  lemma DoneLooseLocated(s: State, id: nat, digest: Digest, env: Env)
    requires Owned(s) && Located(s) && id in s.recv && s.recv[id].tree.None?
    ensures Located(Done(s, id, digest, env))
  {
    hide Owned, Located, TidyFs, SettleInDrag, FinishRecv, Names.IsClean, Inside;
    var t := s.recv[id];
    FinishTidy(s, id, digest, env);
    var (fs, error) := FinishRecv(s.fs, id, t, digest, env);
    var s1 := s.(recv := s.recv - {id}, fs := fs);
    var s2 := if error.None? && t.drag.None? then s1.(placed := s1.placed + [Placed(id, false, t.final, None)]) else s1;
    var item := Staged(id, t.name, false, t.size, t.final, None);
    FileOutLocated(s, id, s2);
    assert t.drag.Some? ==> ItemLocated(s2, t.drag.value, item) by {
      assert FileLocated(s, id) by { LiveLocated(s, id); }
    }
    SettleInDragLocated(s2, t.drag, id, if error.None? then Some(item) else None, env);
  }

  lemma LiveLocated(s: State, id: nat)
    requires Located(s) && id in s.recv
    ensures FileLocated(s, id)
  {
    hide TidyFs;
  }

  lemma ChunkLocated(s: State, id: nat, offset: nat, data: Bytes, env: Env)
    requires Owned(s) && Located(s)
    ensures Located(Chunk(s, id, offset, data, env))
  {
    hide Owned, Located, SettleFailure, RemoveFile;
    if id in s.recv {
      var t := s.recv[id];
      forall w, r: State | r == Drop(s, id).(replies := r.replies)
        ensures Located(SettleFailure(r, t, id, w, env))
      {
        SettleFailureLocated(s, r, id, w, env);
      }
      WrittenLocated(s, id, t.(received := t.received + |data|, hashed := t.hashed + data,
                               written := t.written + data));
    }
  }

  lemma WrittenLocated(s: State, id: nat, t: Recv)
    requires Located(s) && id in s.recv
    requires t.name == s.recv[id].name && t.part == s.recv[id].part && t.final == s.recv[id].final
    requires t.drag == s.recv[id].drag && t.tree == s.recv[id].tree
    ensures Located(s.(recv := s.recv[id := t]))
  {
    hide Located, TidyFs;
    LiveTrees(s);
    LocatedTidy(s);
    assert Owners(s.(recv := s.recv[id := t])) == Owners(s);
    PlacesKept(s, s.(recv := s.recv[id := t]));
  }

  /* ---- drags ---- */

  lemma DiscardLocated(s: State)
    requires Owned(s) && Located(s) && s.drag.Some?
    ensures Located(DiscardDrag(s.(drag := None), s.drag.value))
  {
    hide Located, Owned, RemoveFiles, RemoveDir, IsStaging, Doomed, TidyFs, Owners, SamePlaces;
    var d := s.drag.value;
    var r := DiscardDrag(s.(drag := None), d);
    DiscardRemovesExactly(s);
    LocatedTidy(s);
    var parts := PartsOf(s.(drag := None), Doomed(s.(drag := None), d));
    RemoveFilesEffect(s.fs, parts);
    RemoveFilesSubset(s.fs, parts);
    SubsetTidy(s.fs, RemoveFiles(s.fs, parts), s.fileDir, Owners(s));
    StagingNames(d.drag, d.drag);
    assert d.dir == s.fileDir + [DragStagingName(d.drag)] by { DragDir(s); }
    EvictDir(RemoveFiles(s.fs, parts), s.fileDir, Owners(s), DragStagingName(d.drag));
    DiscardOwners(s, r);
    DiscardPlaces(s, r);
    PlacesKept(s, r);
  }

  lemma DiscardPlaces(s: State, r: State)
    requires Owned(s) && Located(s) && s.drag.Some? && r == DiscardDrag(s.(drag := None), s.drag.value)
    ensures SamePlaces(s, r)
  {
    hide Located, Doomed, TreeOwned, RemoveFiles, RemoveDir, ItemLocated;
    DiscardRemovesExactly(s);
    LocatedTidy(s);
    LiveTrees(s);
    forall id | id in r.recv ensures r.recv[id].tree.Some? ==> r.recv[id].tree.value in r.trees {
      assert FileOwned(s, id);
    }
  }

  lemma DragDir(s: State)
    requires Located(s) && s.drag.Some?
    ensures s.drag.value.dir == s.fileDir + [DragStagingName(s.drag.value.drag)]
  {
  }

  lemma DiscardOwners(s: State, r: State)
    requires Located(s) && s.drag.Some? && r.drag == None
    requires r.trees == map t | t in s.trees && s.trees[t].drag != Some(s.drag.value.drag) :: s.trees[t]
    ensures Owners(r) == Owners(s) - {s.drag.value.dir}
  {
    hide IsStaging, TidyFs, Inside, Unstaged, Names.IsClean;
    var s1 := s.(drag := None);
    OwnersWithoutDrag(s, s1);
    forall t | t in s.trees && s.trees[t].staging.Some? ensures t in r.trees { assert TreeLocated(s, t); }
    SameOwners(s1, r, {});
  }

  lemma RemoveFilesSubset(fs: Fs, ps: set<Path>)
    ensures forall q :: q in RemoveFiles(fs, ps) ==> q in fs && RemoveFiles(fs, ps)[q] == fs[q]
  {
  }

  lemma BeginDragLocated(s: State, drag: nat, count: nat, env: Env)
    requires Owned(s) && Located(s)
    ensures Located(BeginDrag(s, drag, count, env))
  {
    hide Located, TidyFs, DiscardDrag, MkdirAll, IsStaging, TidyPath;
    if s.drag.Some? { DiscardLocated(s); }
    var s1 := if s.drag.Some? then DiscardDrag(s.(drag := None), s.drag.value) else s;
    var top := s1.fileDir + [DragStagingName(drag)];
    if MkdirAll(s1.fs, top, env).Some? {
      var r := s1.(fs := MkdirAll(s1.fs, top, env).value, drag := Some(Drag(drag, top, count, 0, {}, [], false)));
      assert r == BeginDrag(s, drag, count, env);
      LocatedTidy(s1);
      forall x ensures x in Owners(r) <==> x in Owners(s1) || x == top { OwnersOf(s1, x); OwnersOf(r, x); }
      assert Owners(r) == Owners(s1) + {top};
      MoreOwners(s1.fs, s1.fileDir, Owners(s1), Owners(r));
      StagingNames(drag, drag);
      forall q | q <= top && q != [] ensures TidyPath(s1.fileDir, Owners(r), q) {
        InsideStaging(s1.fileDir, DragStagingName(drag), top, q);
        MoreOwnersPath(s1.fileDir, {top}, Owners(r), q);
      }
      MkdirTidy(s1.fs, top, s1.fileDir, Owners(r), env);
      NewDragLocated(s1, r);
    }
  }

  lemma NewDragLocated(s: State, r: State)
    requires Located(s) && r.recv == s.recv && r.trees == s.trees && r.fileDir == s.fileDir && r.desktop == s.desktop
    requires r.drag.Some? && r.drag.value.dir == s.fileDir + [DragStagingName(r.drag.value.drag)]
             && r.drag.value.done == []
    requires TidyFs(r.fs, r.fileDir, Owners(r))
    ensures Located(r)
  {
    hide TidyFs, Inside, Unstaged, Names.IsClean;
    forall t | t in r.trees ensures TreeLocated(r, t) { assert TreeLocated(s, t); }
    forall id | id in r.recv ensures FileLocated(r, id) { assert FileLocated(s, id); }
  }

  lemma MoreOwners(fs: Fs, home: Path, owners: set<Path>, more: set<Path>)
    requires TidyFs(fs, home, owners) && owners <= more
    ensures TidyFs(fs, home, more)
  {
    hide InStaging, Unstaged;
  }

  lemma MoreOwnersPath(home: Path, owners: set<Path>, more: set<Path>, p: Path)
    requires TidyPath(home, owners, p) && owners <= more
    ensures TidyPath(home, more, p)
  {
  }

  /* ---- offers ---- */

  lemma NameInside(base: Path, dir: Path, n: string)
    requires (dir == base || Inside(base, dir)) && !IsStaging(n)
    ensures Inside(base, dir + [n])
  {
    hide IsStaging;
    var p := dir + [n];
    var below := p[|base|..];
    forall k | 0 <= k < |below| ensures !IsStaging(below[k]) {
      assert below[k] == p[|base| + k];
      if |base| + k < |dir| { assert dir[|base|..][k] == below[k]; }
    }
  }

  lemma BeginRecvEffect(fs: Fs, dir: Path, id: nat, offered: string, size: nat, drag: Option<nat>, tree: Option<nat>,
                        env: Env)
    requires WellFormed(fs)
    ensures var (r, t) := BeginRecv(fs, dir, id, offered, size, drag, tree, env);
            && WellFormed(r)
            && (forall q :: q in fs ==> q in r && r[q] == fs[q])
            && (forall q :: q in r && q !in fs ==> (q <= dir && q != [] && r[q].Dir?) || (t.Some? && q == t.value.part))
            && (t.Some? ==>
                  && t.value.part !in fs && t.value.final !in r && t.value.part in r && r[t.value.part] == Part(id)
                  && Names.IsClean(t.value.name)
                  && t.value == Recv(t.value.name, size, 0, t.value.part, t.value.final, [], [], drag, tree)
                  && (exists n :: t.value.part == dir + [n] && !IsStaging(n))
                  && (exists n :: t.value.final == dir + [n] && !IsStaging(n)))
  {
    hide MkdirAll, CreatePart, FreeFilePath, WellFormed, Names.IsClean, IsStaging, Names.Sanitize;
    var name := Names.Sanitize(offered);
    if name.Some? && MkdirAll(fs, dir, env).Some? {
      Names.SanitizedIsClean(offered);
      MkdirAllEffect(fs, dir, env);
      var fs1 := MkdirAll(fs, dir, env).value;
      FreeNameUnstaged(fs1, dir, name.value);
      var final := FreeFilePath(fs1, dir, name.value);
      PartNameUnstaged(fs1, dir, name.value);
      var part := FreeFilePath(fs1, dir, final[|final| - 1] + ".vylopart");
      if CreatePart(fs1, part, id, env).Some? {
        CreatePartEffect(fs1, part, id, env);
        assert CreatePart(fs1, part, id, env).value == fs1[part := Part(id)] by { CreatePartIs(fs1, part, id, env); }
      }
    }
  }

  lemma CreatePartIs(fs: Fs, p: Path, id: nat, env: Env)
    ensures CreatePart(fs, p, id, env).Some? ==> CreatePart(fs, p, id, env).value == fs[p := Part(id)]
  {
  }

  /** The temporary file gets an unused, unstaged name of its own. */
  lemma PartNameUnstaged(fs: Fs, dir: Path, name: string)
    requires Names.IsClean(name)
    ensures var final := FreeFilePath(fs, dir, name);
            var part := FreeFilePath(fs, dir, final[|final| - 1] + ".vylopart");
            && part !in fs && part != final
            && exists n :: part == dir + [n] && !IsStaging(n)
  {
    hide IsStaging, Names.IsClean, FirstFree;
    CleanNameUndotted(name);
    var (stem, ext) := SplitExt(name);
    var i := FirstFree(fs.Keys, dir, stem, ext, 0);
    PlacedNamesUnstaged(name, i);
    var m := Numbered(stem, ext, i);
    assert FreeFilePath(fs, dir, name) == dir + [m];
    var whole := m + ".vylopart";
    assert whole[0] == m[0];
    var (stem', ext') := SplitExt(whole);
    var j := FirstFree(fs.Keys, dir, stem', ext', 0);
    PlacedNamesUnstaged(whole, j);
    PlacementIsFresh(fs, dir, stem', ext');
    assert |Numbered(stem', ext', j)| >= |whole| > |m|;
    assert (dir + [m])[|dir|] != (dir + [Numbered(stem', ext', j)])[|dir|];
  }

  /** The directory a file is received in, by what it belongs to. */
  ghost predicate GoodDir(s: State, drag: Option<nat>, tree: Option<nat>, dir: Path) {
    if tree.Some? then
      && tree.value in s.trees && s.trees[tree.value].root != [] && s.trees[tree.value].drag == drag
      && (dir == s.trees[tree.value].root || Inside(s.trees[tree.value].root, dir))
    else if drag.Some? then s.DragIs(drag) && dir == s.drag.value.dir
    else dir == s.fileDir
  }

  lemma GoodDirTidy(s: State, drag: Option<nat>, tree: Option<nat>, dir: Path, n: string, q: Path)
    requires Owned(s) && Located(s) && GoodDir(s, drag, tree, dir) && !IsStaging(n) && q != []
    requires q <= dir || q == dir + [n]
    ensures TidyPath(s.fileDir, Owners(s), q)
    ensures q == dir + [n] && InStaging(s.fileDir, q) ==> |q| > |s.fileDir| + 1
  {
    hide IsStaging, InStaging, Unstaged, Owned, TidyFs, WellFormed, Names.IsClean;
    var p := if q <= dir then dir else q;
    if tree.Some? {
      if q == dir + [n] { NameInside(s.trees[tree.value].root, dir, n); }
      hide Inside, Located;
      RootTidy(s, tree.value, p, q);
    } else if drag.Some? {
      var top := s.fileDir + [DragStagingName(drag.value)];
      assert dir == top;
      StagingNames(drag.value, 0);
      if q == dir + [n] { NameInside(top, dir, n); }
      InsideStaging(s.fileDir, DragStagingName(drag.value), p, q);
      assert top in Owners(s);
    } else {
      UnstagedName(s.fileDir, n);
      UnstagedAncestors(s.fileDir, Owners(s), s.fileDir);
      UnstagedAncestors(s.fileDir, Owners(s), s.fileDir + [n]);
      if InStaging(s.fileDir, q) && q == dir + [n] { InStagingIsStaged(s.fileDir, q); assert false; }
    }
  }

  lemma BeginRecvTidy(s: State, dir: Path, id: nat, name: string, size: nat, drag: Option<nat>, tree: Option<nat>,
                      env: Env)
    requires Owned(s) && Located(s) && GoodDir(s, drag, tree, dir)
    ensures TidyFs(BeginRecv(s.fs, dir, id, name, size, drag, tree, env).0, s.fileDir, Owners(s))
  {
    hide IsStaging, InStaging, Unstaged, Owned, Located, WellFormed, Names.IsClean, Inside, TidyPath, BeginRecv;
    hide GoodDir;
    LocatedTidy(s);
    BeginRecvEffect(s.fs, dir, id, name, size, drag, tree, env);
    var (fs, t) := BeginRecv(s.fs, dir, id, name, size, drag, tree, env);
    UndottedIsUnstaged("x");
    forall q | q in fs && q !in s.fs
      ensures TidyPath(s.fileDir, Owners(s), q) && (fs[q].Dir? || |q| != |s.fileDir| + 1 || !InStaging(s.fileDir, q))
    {
      if t.Some? && q == t.value.part {
        var n :| q == dir + [n] && !IsStaging(n);
        GoodDirTidy(s, drag, tree, dir, n, q);
      } else {
        GoodDirTidy(s, drag, tree, dir, "x", q);
      }
    }
    AddTidy(s.fs, fs, s.fileDir, Owners(s));
  }

  lemma AcceptOfferLocated(s: State, dir: Path, id: nat, name: string, size: nat, drag: Option<nat>, tree: Option<nat>,
                           env: Env)
    requires Owned(s) && Located(s) && GoodDir(s, drag, tree, dir)
    ensures Located(AcceptOffer(s, dir, id, name, size, drag, tree, env).0)
  {
    hide IsStaging, Owned, Located, Names.IsClean, TidyFs, WellFormed, BeginRecv, GoodDir;
    LocatedTidy(s);
    BeginRecvTidy(s, dir, id, name, size, drag, tree, env);
    BeginRecvEffect(s.fs, dir, id, name, size, drag, tree, env);
    var r := AcceptOffer(s, dir, id, name, size, drag, tree, env).0;
    var (fs, t) := BeginRecv(s.fs, dir, id, name, size, drag, tree, env);
    if id !in s.recv && t.Some? {
      var n :| t.value.part == dir + [n] && !IsStaging(n);
      var m :| t.value.final == dir + [m] && !IsStaging(m);
      RegisteredLocated(s, dir, id, t.value, n, m, fs, r.replies);
    } else {
      DiskLocated(s, fs);
      RepliesLocated(s, r.replies);
      RepliesLocated(s.(fs := fs), r.replies);
    }
  }

  /** Only the disk changed. */
  lemma DiskLocated(s: State, fs: Fs)
    requires Located(s) && TidyFs(fs, s.fileDir, Owners(s))
    ensures Located(s.(fs := fs))
  {
    hide Located, TidyFs;
    LiveTrees(s);
    assert Owners(s.(fs := fs)) == Owners(s);
    PlacesKept(s, s.(fs := fs));
  }

  lemma RepliesLocated(s: State, replies: seq<Reply>)
    requires Located(s)
    ensures Located(s.(replies := replies))
  {
    hide Located, TidyFs;
    LocatedTidy(s);
    LiveTrees(s);
    assert Owners(s.(replies := replies)) == Owners(s);
    PlacesKept(s, s.(replies := replies));
  }

  lemma RegisteredLocated(s: State, dir: Path, id: nat, t: Recv, n: string, m: string, fs: Fs, replies: seq<Reply>)
    requires Located(s) && GoodDir(s, t.drag, t.tree, dir) && Names.IsClean(t.name) && TidyFs(fs, s.fileDir, Owners(s))
    requires t.part == dir + [n] && t.final == dir + [m] && !IsStaging(n) && !IsStaging(m)
    ensures Located(s.(fs := fs, recv := s.recv[id := t], replies := replies))
  {
    hide IsStaging, TidyFs, Names.IsClean, Inside;
    var r := s.(fs := fs, recv := s.recv[id := t], replies := replies);
    assert Owners(r) == Owners(s);
    var base := Base(r, t);
    assert dir == base || Inside(base, dir);
    NameInside(base, dir, n);
    NameInside(base, dir, m);
    forall t | t in r.trees ensures TreeLocated(r, t) { assert TreeLocated(s, t); }
    forall f | f in r.recv ensures FileLocated(r, f) { if f != id { assert FileLocated(s, f); } }
  }

  lemma DragRecordLocated(s: State, d: Drag)
    requires Located(s) && s.drag.Some?
    requires d.drag == s.drag.value.drag && d.dir == s.drag.value.dir && d.done == s.drag.value.done
    ensures Located(s.WithDrag(d))
  {
    hide Located, TidyFs, ItemLocated;
    LocatedTidy(s);
    LiveTrees(s);
    assert Owners(s.WithDrag(d)) == Owners(s);
    PlacesKept(s, s.WithDrag(d));
  }

  lemma OfferInDragLocated(s: State, drag: nat, id: nat, name: string, size: nat, env: Env)
    requires Owned(s) && Located(s)
    ensures Located(OfferInDrag(s, drag, id, name, size, env))
  {
    hide Owned, Located, AcceptOffer, FinalizeDrag;
    if s.DragIs(Some(drag)) {
      var d := s.drag.value.(offered := s.drag.value.offered + 1);
      var s0 := s.WithDrag(d);
      SameOwnership(s, s0);
      DragRecordLocated(s, d);
      AcceptOfferLocated(s0, d.dir, id, name, size, Some(drag), None, env);
      var (s1, accepted) := AcceptOffer(s0, d.dir, id, name, size, Some(drag), None, env);
      FinalizeDragLocated(s1, env);
      DragRecordLocated(s1, d.(outstanding := d.outstanding + {id}));
    } else {
      RepliesLocated(s, OfferInDrag(s, drag, id, name, size, env).replies);
    }
  }

  lemma RelInside(root: Path, rel: string, k: nat)
    requires Names.SanitizeRel(rel).Some? && k <= |Names.SanitizeRel(rel).value|
    ensures var dir := root + Names.SanitizeRel(rel).value[..k]; dir == root || Inside(root, dir)
  {
    hide IsStaging, Names.SanitizeRel;
    var cs := Names.SanitizeRel(rel).value;
    Names.AcceptedPathStaysInside(rel);
    var dir := root + cs[..k];
    var below := dir[|root|..];
    assert below == cs[..k];
    forall i | 0 <= i < |below| ensures !IsStaging(below[i]) {
      CleanNameUndotted(cs[i]);
      UndottedIsUnstaged(cs[i]);
    }
    assert k == 0 ==> dir == root;
  }

  /** A folder's record changed, its places kept. */
  lemma TreeRecordLocated(s: State, tree: nat, t: Tree)
    requires Located(s) && tree in s.trees
    requires t.root == s.trees[tree].root && t.staging == s.trees[tree].staging && t.drag == s.trees[tree].drag
    requires t.counted == s.trees[tree].counted && t.name == s.trees[tree].name
             && (s.trees[tree].failed.Some? ==> t.failed.Some?)
    ensures Located(s.WithTree(tree, t))
  {
    hide Located, TidyFs, Owners, ItemLocated;
    var r := s.WithTree(tree, t);
    LocatedTidy(s);
    LiveTrees(s);
    SameOwners(s, r, {});
    assert Owners(s) - {} == Owners(s);
    PlacesKept(s, r);
  }

  lemma RootKnown(s: State, tree: nat)
    requires Located(s) && tree in s.trees && s.trees[tree].failed.None?
    ensures s.trees[tree].root != []
  {
    hide TidyFs;
    assert TreeLocated(s, tree);
  }

  lemma NewDiskLocated(s: State, fs: Fs)
    requires Located(s) && TidyFs(fs, s.fileDir, Owners(s))
    ensures Located(s.(fs := fs))
  {
    hide Located, TidyFs;
    LiveTrees(s);
    assert Owners(s.(fs := fs)) == Owners(s);
    PlacesKept(s, s.(fs := fs));
  }

  lemma MakeDirLocated(s: State, tree: nat, rel: string, env: Env)
    requires Owned(s) && Located(s)
    ensures Located(MakeDir(s, tree, rel, env))
  {
    hide Owned, Located, TidyFs, MkdirAll, Names.SanitizeRel, TidyPath, Inside;
    if tree in s.trees && s.trees[tree].failed.None? {
      var t := s.trees[tree].(entries := s.trees[tree].entries + 1, dirs := s.trees[tree].dirs + [rel]);
      RootKnown(s, tree);
      forall why ensures Located(s.WithTree(tree, t.Fail(why))) { TreeRecordLocated(s, tree, t.Fail(why)); }
      var path := Names.SanitizeRel(rel);
      if path.Some? {
        RelInside(t.root, rel, |path.value|);
        assert path.value[..|path.value|] == path.value;
        var dir := t.root + path.value;
        LocatedTidy(s);
        forall q | q <= dir && q != [] ensures TidyPath(s.fileDir, Owners(s), q) { RootTidy(s, tree, dir, q); }
        MkdirTidy(s.fs, dir, s.fileDir, Owners(s), env);
        if MkdirAll(s.fs, dir, env).Some? {
          var s1 := s.(fs := MkdirAll(s.fs, dir, env).value);
          NewDiskLocated(s, s1.fs);
          TreeRecordLocated(s1, tree, t.(made := t.made + [rel]));
        }
      }
    }
  }

  lemma OfferInTreeLocated(s: State, tree: nat, id: nat, rel: string, size: nat, env: Env)
    requires Owned(s) && Located(s)
    ensures Located(OfferInTree(s, tree, id, rel, size, env))
  {
    hide Owned, Located, TidyFs, AcceptOffer, Names.SanitizeRel, Inside;
    if tree !in s.trees || s.trees[tree].failed.Some? {
      RepliesLocated(s, OfferInTree(s, tree, id, rel, size, env).replies);
    } else {
      var t := s.trees[tree].(entries := s.trees[tree].entries + 1, offered := s.trees[tree].offered + [id]);
      RootKnown(s, tree);
      forall why, replies ensures Located(s.WithTree(tree, t.Fail(why)).(replies := replies)) {
        TreeRecordLocated(s, tree, t.Fail(why));
        RepliesLocated(s.WithTree(tree, t.Fail(why)), replies);
      }
      var path := Names.SanitizeRel(rel);
      if path.Some? && path.value != [] && t.entries <= MAX_TREE_ENTRIES {
        var k := |path.value| - 1;
        RelInside(t.root, rel, k);
        var s0 := s.WithTree(tree, t);
        TreeRecordLocated(s, tree, t);
        TreeChangedOwned(s, tree, s0);
        AcceptOfferLocated(s0, t.root + path.value[..k], id, path.value[k], size, t.drag, Some(tree), env);
        var s1 := AcceptOffer(s0, t.root + path.value[..k], id, path.value[k], size, t.drag, Some(tree), env).0;
        TreeRecordLocated(s1, tree, t.(outstanding := t.outstanding + {id}));
        TreeRecordLocated(s1, tree, t.Fail(NotReceived));
      }
    }
  }

  lemma NewOwners(s: State, tree: nat, t: Tree, r: State)
    requires tree !in s.trees && r.trees == s.trees[tree := t] && r.drag == s.drag && r.fileDir == s.fileDir
    ensures Owners(r) == Owners(s) + (if t.staging.Some? then {t.staging.value} else {})
  {
    var added := if t.staging.Some? then {t.staging.value} else {};
    forall x ensures x in Owners(r) <==> x in Owners(s) || x in added {
      OwnersOf(s, x);
      OwnersOf(r, x);
      if u :| u in s.trees && s.trees[u].staging == Some(x) { assert r.trees[u].staging == Some(x); }
      if x in added { assert r.trees[tree].staging == Some(x); }
    }
  }

  lemma NewTreePlaces(s: State, tree: nat, t: Tree, r: State)
    requires Located(s) && tree !in s.trees && r.trees == s.trees[tree := t] && r.recv == s.recv
             && r.fileDir == s.fileDir
    requires forall id :: id in s.recv ==> s.recv[id].tree != Some(tree)
    ensures forall u :: u in s.trees ==> TreeLocated(r, u)
    ensures forall f :: f in r.recv ==> FileLocated(r, f)
  {
    hide TidyFs, Inside, Names.IsClean, IsStaging, Owners;
    forall u | u in s.trees ensures TreeLocated(r, u) { assert TreeLocated(s, u); }
    forall f | f in r.recv ensures FileLocated(r, f) { assert FileLocated(s, f); }
  }

  /** A newly offered folder; `t` is its record. */
  lemma NewTreeLocated(s: State, tree: nat, t: Tree, fs: Fs)
    requires Located(s) && tree !in s.trees
    requires t.root == [] ==> t.failed.Some? && t.staging == None
    requires t.root != [] ==>
               && Names.IsClean(t.name) && Inside(s.fileDir + [TopName(tree, t.drag)], t.root)
               && (t.drag.Some? ==> t.counted && t.staging == None && s.DragIs(t.drag))
               && (t.drag.None? ==> t.staging == Some(s.fileDir + [TopName(tree, t.drag)]))
    requires TidyFs(fs, s.fileDir, Owners(s) + (if t.staging.Some? then {t.staging.value} else {}))
    requires forall id :: id in s.recv ==> s.recv[id].tree != Some(tree)
    ensures Located(s.(fs := fs).WithTree(tree, t))
  {
    hide TidyFs, Inside, Names.IsClean, IsStaging, FileLocated, Owners;
    var r := s.(fs := fs).WithTree(tree, t);
    NewOwners(s, tree, t, r);
    NewTreePlaces(s, tree, t, r);
  }

  lemma RefusedLocated(s: State, tree: nat, t: Tree)
    requires Owned(s) && Located(s) && tree !in s.trees && t.root == [] && t.failed.Some? && t.staging == None
    ensures Located(s.WithTree(tree, t))
  {
    hide Located;
    LocatedTidy(s);
    LiveTrees(s);
    assert Owners(s) + {} == Owners(s);
    NewTreeLocated(s, tree, t, s.fs);
  }

  lemma NoRootLocated(s: State, tree: nat, t: Tree)
    requires Located(s) && tree !in s.trees && t.root == [] && t.failed.Some? && t.staging == None
    requires forall id :: id in s.recv ==> s.recv[id].tree != Some(tree)
    ensures Located(s.WithTree(tree, t))
  {
    hide Located, Owners;
    LocatedTidy(s);
    assert Owners(s) + {} == Owners(s);
    NewTreeLocated(s, tree, t, s.fs);
  }

  lemma OfferTreeLocated(s: State, tree: nat, name: string, files: nat, bytes: nat, drag: Option<nat>, env: Env)
    requires Owned(s) && Located(s) && tree !in s.trees
    ensures Located(OfferTree(s, tree, name, files, bytes, drag, env))
  {
    hide Owned, Located, TidyFs, Names.Sanitize, Names.IsClean, MkdirAll, FreeDirPath, IsStaging, Inside;
    if drag.Some? && !s.DragIs(drag) {
      RefusedLocated(s, tree, RefusedTree(name, files, bytes, drag, false, NoDrag));
    } else {
      var counted := drag.Some?;
      var s1 := if counted
        then s.WithDrag(s.drag.value.(offered := s.drag.value.offered + 1,
                                      outstanding := s.drag.value.outstanding + {tree}))
        else s;
      if counted { DragRecordLocated(s, s1.drag.value); }
      LiveTrees(s1);
      LocatedTidy(s1);
      forall t: Tree | t.root == [] && t.failed.Some? && t.staging == None ensures Located(s1.WithTree(tree, t)) {
        NoRootLocated(s1, tree, t);
      }
      var safe := Names.Sanitize(name);
      var parent := if counted then s1.drag.value.dir else s1.fileDir + [TreeStagingName(tree)];
      if safe.Some? && MkdirAll(s1.fs, parent, env).Some? {
        Names.SanitizedIsClean(name);
        if counted { DragDir(s1); }
        RootedTreeLocated(s1, tree, safe.value, files, bytes, drag, parent, env);
      }
    }
  }

  lemma RootedTreeLocated(s: State, tree: nat, name: string, files: nat, bytes: nat, drag: Option<nat>, parent: Path,
                          env: Env)
    requires Located(s) && tree !in s.trees && Names.IsClean(name)
    requires forall id :: id in s.recv ==> s.recv[id].tree != Some(tree)
    requires parent == s.fileDir + [TopName(tree, drag)] && (drag.Some? ==> s.DragIs(drag))
             && MkdirAll(s.fs, parent, env).Some?
    ensures var fs := MkdirAll(s.fs, parent, env).value;
            var root := FreeDirPath(fs, parent, name);
            var t := Tree(name, root, if drag.Some? then None else Some(parent), drag, files, bytes, 0, {}, 0, false,
                          None, drag.Some?, [], [], [], []);
            && Located(s.(fs := fs).WithTree(tree, t.Fail(CannotCreate)))
            && (MkdirAll(fs, root, env).Some? ==> Located(s.(fs := MkdirAll(fs, root, env).value).WithTree(tree, t)))
  {
    hide TidyFs, Names.IsClean, MkdirAll, FreeDirPath, IsStaging, Inside, TidyPath, Unstaged;
    var owners := Owners(s) + (if drag.Some? then {} else {parent});
    var fs := MkdirAll(s.fs, parent, env).value;
    var root := FreeDirPath(fs, parent, name);
    assert parent in owners;
    StagingNames(tree, tree);
    if drag.Some? { StagingNames(drag.value, tree); }
    FreeNameUnstaged(fs, parent, name);
    var m :| root == parent + [m] && !IsStaging(m);
    NameInside(parent, parent, m);
    forall q | q <= root && q != [] ensures TidyPath(s.fileDir, owners, q) {
      InsideStaging(s.fileDir, TopName(tree, drag), root, q);
      MoreOwnersPath(s.fileDir, {parent}, owners, q);
    }
    MoreOwners(s.fs, s.fileDir, Owners(s), owners);
    forall q | q <= parent && q != [] ensures TidyPath(s.fileDir, owners, q) { assert q <= root; }
    MkdirTidy(s.fs, parent, s.fileDir, owners, env);
    MkdirTidy(fs, root, s.fileDir, owners, env);
    var t := Tree(name, root, if drag.Some? then None else Some(parent), drag, files, bytes, 0, {}, 0, false, None,
                  drag.Some?, [], [], [], []);
    NewTreeLocated(s, tree, t.Fail(CannotCreate), fs);
    if MkdirAll(fs, root, env).Some? { NewTreeLocated(s, tree, t, MkdirAll(fs, root, env).value); }
  }

  /* ---- whole runs ---- */

  /** Every message keeps staged material inside owned staging directories. */
  lemma HandleKeepsLocated(s: State, m: Message, env: Env)
    requires Owned(s) && Located(s)
    ensures Located(Handle(s, m, env))
  {
    hide Owned, Located, TidyFs, FinalizeDrag, FinalizeTree, SettleFailure, Done, Chunk, DiscardDrag, BeginDrag;
    hide RemoveFile;
    hide AcceptOffer, OfferInDrag, OfferInTree, OfferTree, MakeDir;
    match m
    case FileOffer(id, name, size) => AcceptOfferLocated(s, s.fileDir, id, name, size, None, None, env);
    case DragBegin(drag, count) => BeginDragLocated(s, drag, count, env);
    case DragOffer(drag, id, name, size) => OfferInDragLocated(s, drag, id, name, size, env);
    case DragDrop(drag) =>
      if s.DragIs(Some(drag)) {
        DragRecordLocated(s, s.drag.value.(dropRequested := true));
        FinalizeDragLocated(s.WithDrag(s.drag.value.(dropRequested := true)), env);
      }
    case DragCancel(drag) => if s.DragIs(Some(drag)) { DiscardLocated(s); }
    case TreeOffer(tree, name, files, bytes, within) =>
      if tree !in s.trees { OfferTreeLocated(s, tree, name, files, bytes, within, env); }
    case TreeDir(tree, rel) => MakeDirLocated(s, tree, rel, env);
    case TreeFile(tree, id, rel, size) => OfferInTreeLocated(s, tree, id, rel, size, env);
    case TreeEnd(tree, error) =>
      if tree in s.trees {
        var t := s.trees[tree].(ended := true);
        var t' := if error.Some? then t.Fail(FromPeer(error.value)) else t;
        TreeRecordLocated(s, tree, t');
        TreeChangedOwned(s, tree, s.WithTree(tree, t'));
        FinalizeTreeLocated(s.WithTree(tree, t'), tree, env);
      }
    case FileChunk(id, offset, data) => ChunkLocated(s, id, offset, data, env);
    case FileDone(id, digest) => DoneLocated(s, id, digest, env);
    case FileCancel(id, why) =>
      if id in s.recv { SettleFailureLocated(s, Drop(s, id), id, why, env); }
  }

  lemma DoneLocated(s: State, id: nat, digest: Digest, env: Env)
    requires Owned(s) && Located(s)
    ensures Located(Done(s, id, digest, env))
  {
    hide Owned, Located, FinalizeTree, SettleInDrag, FinishRecv;
    if id in s.recv {
      if s.recv[id].tree.Some? { DoneInTreeLocated(s, id, digest, env); } else { DoneLooseLocated(s, id, digest, env); }
    }
  }

  lemma {:induction false} RunKeepsLocated(s: State, es: seq<Event>)
    requires Owned(s) && Located(s) && FreshRun(s, es)
    ensures Owned(Run(s, es)) && Located(Run(s, es))
  {
    hide Owned, Located;
    RunKeepsOwnership(s, es);
    if es != [] {
      RunKeepsLocated(s, es[..|es| - 1]);
      HandleKeepsLocated(Run(s, es[..|es| - 1]), es[|es| - 1].m, es[|es| - 1].env);
    }
  }

  /** Closing removes every staging directory there is. */
  lemma CloseLeavesNoStaging(s: State)
    requires Located(s)
    ensures forall p :: p in Close(s).fs ==> Unstaged(p) && p in s.fs && Close(s).fs[p] == s.fs[p]
  {
    hide IsStaging, Unstaged, Inside, Names.IsClean, InStaging;
    forall p | p in s.fs && InStaging(s.fileDir, p) ensures p !in Close(s).fs { CloseRemoves(s, p); }
    assert forall p :: p in s.fs ==> TidyPath(s.fileDir, Owners(s), p);
  }

  lemma CloseRemoves(s: State, p: Path)
    requires Located(s) && p in s.fs && InStaging(s.fileDir, p)
    ensures p !in Close(s).fs
  {
    hide IsStaging, Unstaged, Inside, Names.IsClean;
    var top := p[..|s.fileDir| + 1];
    assert TidyPath(s.fileDir, Owners(s), p);
    InStagingIsStaged(s.fileDir, p);
    TopIsDir(s, p);
    OwnersOf(s, top);
    assert top <= p;
    var fs1 := RemoveFiles(s.fs, PartsOf(s, s.recv.Keys));
    var fs2 := RemoveDirs(fs1, TreeDirs(s));
    assert top in fs1 && fs1[top].Dir?;
    if t :| t in s.trees && s.trees[t].staging == Some(top) {
      assert s.trees[t].staging.value == top && top in TreeDirs(s);
      assert p !in fs2;
    } else if top in fs2 {
      assert p !in RemoveDir(fs2, top);
    } else {
      var d :| d in TreeDirs(s) && d <= top && d in fs1 && fs1[d].Dir?;
      assert d <= p;
    }
  }

  lemma TopIsDir(s: State, p: Path)
    requires Located(s) && p in s.fs && InStaging(s.fileDir, p)
    ensures var top := p[..|s.fileDir| + 1]; top in s.fs && s.fs[top].Dir?
  {
    hide IsStaging, Inside, Names.IsClean;
    AncestorsAreDirs(s.fs, p);
    assert |p| == |s.fileDir| + 1 ==> p[..|s.fileDir| + 1] == p;
  }
}
