/** What one message does to the disk, path by path, and to the records of
    transfers, folders and drag. */
module Footprints {
  import opened Basics
  import opened Disk
  import opened Receiving
  import opened Ownership
  import opened Staging
  import opened Cleanup
  import Names

  /* ---- what stays ---- */

  /** What was at `q` is still there. */
  ghost predicate Kept(fs: Fs, r: Fs, q: Path) { q in fs ==> q in r && r[q] == fs[q] }

  /** Staged items and the folders of the drag are below its directory. */
  ghost predicate Contained(s: State) {
    && WellFormed(s.fs)
    && (s.drag.Some? ==> forall x :: x in s.drag.value.done ==> s.drag.value.dir <= x.path)
    && (forall t :: t in s.trees && s.trees[t].root != [] && s.DragIs(s.trees[t].drag) ==>
          s.drag.value.dir <= s.trees[t].root)
  }

  /** `q` would be taken away with folder `t`. A failed folder whose directory could not
      be made takes no file away that got its place. */
  ghost predicate InFolder(s: State, t: nat, q: Path)
    requires t in s.trees
  {
    || (s.trees[t].staging.Some? && s.trees[t].staging.value <= q)
    || (s.trees[t].root != [] && s.trees[t].root <= q
        && !(s.trees[t].failed.Some? && s.trees[t].root == q && q in s.fs && !s.fs[q].Dir?))
  }

  /** `q` is in nothing that was taken away with a folder or with the drag. */
  ghost predicate Outside(s: State, r: State, q: Path) {
    && (s.drag.Some? && r.drag.None? ==> !(s.drag.value.dir <= q))
    && (forall t :: t in s.trees && t !in r.trees ==> !InFolder(s, t, q))
  }

  lemma OutsideOn(s: State, s1: State, r: State, q: Path)
    requires Outside(s, r, q) && s1.trees == s.trees && s1.drag == s.drag
    requires q in s.fs && !s.fs[q].Dir? ==> q in s1.fs && !s1.fs[q].Dir?
    ensures Outside(s1, r, q)
  {
    forall t | t in s1.trees && t !in r.trees ensures !InFolder(s1, t, q) { assert !InFolder(s, t, q); }
  }

  lemma MkdirKeeps(fs: Fs, p: Path, env: Env, q: Path)
    ensures Kept(fs, OrElse(MkdirAll(fs, p, env), fs), q)
  {
  }

  lemma RemoveDirKeeps(fs: Fs, root: Path, q: Path)
    requires !(root <= q)
    ensures Kept(fs, RemoveDir(fs, root), q)
  {
  }

  lemma MoveKeeps(fs: Fs, src: Path, dst: Path, env: Env, q: Path)
    requires WellFormed(fs) && !(src <= q)
    ensures Kept(fs, OrElse(MovePath(fs, src, dst, env), fs), q)
  {
    hide MovePath, WellFormed;
    if MovePath(fs, src, dst, env).Some? { MoveContents(fs, src, dst, env); }
  }

  lemma KeptTrans(a: Fs, b: Fs, c: Fs, q: Path)
    requires Kept(a, b, q) && Kept(b, c, q)
    ensures Kept(a, c, q)
  {
  }

  lemma {:induction false} PlaceAllKeeps(fs: Fs, items: seq<Staged>, dest: Path, env: Env, dir: Path, q: Path)
    requires WellFormed(fs) && (forall x :: x in items ==> dir <= x.path) && !(dir <= q)
    ensures WellFormed(PlaceAll(fs, items, dest, env).0) && Kept(fs, PlaceAll(fs, items, dest, env).0, q)
  {
    hide MovePath, FreeDirPath, FreeFilePath, WellFormed;
    if items != [] {
      var front, x := items[..|items| - 1], items[|items| - 1];
      PlaceAllKeeps(fs, front, dest, env, dir, q);
      var before := PlaceAll(fs, front, dest, env).0;
      var target := if x.folder then FreeDirPath(before, dest, x.name) else FreeFilePath(before, dest, x.name);
      if x.path <= q { BelowBelow(dir, x.path, q); }
      MoveKeeps(before, x.path, target, env, q);
      if MovePath(before, x.path, target, env).Some? { MoveWellFormed(before, x.path, target, env); }
    }
  }

  lemma BelowBelow(a: Path, b: Path, c: Path)
    requires a <= b && b <= c
    ensures a <= c
  {
    assert c[..|a|] == b[..|a|] == a;
  }

  lemma FinalizeDragKeeps(s: State, env: Env, q: Path)
    requires Contained(s) && Outside(s, FinalizeDrag(s, env), q)
    ensures Kept(s.fs, FinalizeDrag(s, env).fs, q)
  {
    hide PlaceAll, MkdirAll, RemoveDir, WellFormed;
    if s.drag.Some? && s.drag.value.dropRequested && s.drag.value.Settled() {
      var d, dest := s.drag.value, s.DropDir();
      var fs1 := OrElse(MkdirAll(s.fs, dest, env), s.fs);
      if MkdirAll(s.fs, dest, env).Some? { MkdirAllEffect(s.fs, dest, env); }
      MkdirKeeps(s.fs, dest, env, q);
      PlaceAllKeeps(fs1, d.done, dest, env, d.dir, q);
      RemoveDirKeeps(PlaceAll(fs1, d.done, dest, env).0, d.dir, q);
    }
  }

  lemma SettleInDragKeeps(s: State, drag: Option<nat>, id: nat, item: Option<Staged>, env: Env, q: Path)
    requires Contained(s) && Outside(s, SettleInDrag(s, drag, id, item, env), q)
    requires s.DragIs(drag) && item.Some? ==> s.drag.value.dir <= item.value.path
    ensures Kept(s.fs, SettleInDrag(s, drag, id, item, env).fs, q)
  {
    hide FinalizeDrag, WellFormed;
    if s.DragIs(drag) {
      var d := s.drag.value.(outstanding := s.drag.value.outstanding - {id});
      FinalizeDragKeeps(s.WithDrag(if item.Some? then d.(done := d.done + [item.value]) else d), env, q);
    }
  }

  lemma FinalizeTreeKeeps(s: State, tree: nat, env: Env, q: Path)
    requires Contained(s) && Outside(s, FinalizeTree(s, tree, env), q)
    requires tree in s.trees && s.trees[tree].failed.None? ==> s.trees[tree].root != []
    ensures Kept(s.fs, FinalizeTree(s, tree, env).fs, q)
  {
    hide SettleInDrag, MovePath, MkdirAll, FreeDirPath, RemoveDir, WellFormed;
    if tree in s.trees && s.trees[tree].Settled() {
      var t := s.trees[tree];
      if t.failed.Some? {
        FailedTreeKeeps(s, tree, env, q);
      } else if t.drag.Some? {
        if s.DragIs(t.drag) {
          SettleInDragKeeps(s.(trees := s.trees - {tree}), t.drag, tree,
            Some(Staged(tree, t.name, true, t.total, t.root, Some(t))), env, q);
        } else {
          RemoveDirKeeps(s.fs, t.root, q);
        }
      } else {
        PlacedTreeKeeps(s, tree, env, q);
      }
    }
  }

  lemma PlacedTreeKeeps(s: State, tree: nat, env: Env, q: Path)
    requires WellFormed(s.fs) && tree in s.trees && s.trees[tree].Settled()
    requires s.trees[tree].failed.None? && s.trees[tree].drag.None? && !(s.trees[tree].root <= q)
    requires s.trees[tree].staging.Some? ==> !(s.trees[tree].staging.value <= q)
    ensures Kept(s.fs, FinalizeTree(s, tree, env).fs, q)
  {
    hide MovePath, MkdirAll, FreeDirPath, RemoveDir, WellFormed;
    var t := s.trees[tree];
    var fs1 := OrElse(MkdirAll(s.fs, s.fileDir, env), s.fs);
    if MkdirAll(s.fs, s.fileDir, env).Some? { MkdirAllEffect(s.fs, s.fileDir, env); }
    MkdirKeeps(s.fs, s.fileDir, env, q);
    var dest := FreeDirPath(fs1, s.fileDir, t.name);
    MoveKeeps(fs1, t.root, dest, env, q);
    var fs2 := OrElse(MovePath(fs1, t.root, dest, env), fs1);
    if t.staging.Some? { RemoveDirKeeps(fs2, t.staging.value, q); }
    var fs3 := if t.staging.Some? then RemoveDir(fs2, t.staging.value) else fs2;
    RemoveDirKeeps(fs3, t.root, q);
  }

  lemma FailedTreeKeeps(s: State, tree: nat, env: Env, q: Path)
    requires Contained(s) && Outside(s, FinalizeTree(s, tree, env), q)
    requires tree in s.trees && s.trees[tree].Settled() && s.trees[tree].failed.Some?
    ensures Kept(s.fs, FinalizeTree(s, tree, env).fs, q)
  {
    hide SettleInDrag, RemoveDir, WellFormed;
    var t := s.trees[tree];
    var fs := RemovedTree(s.fs, t);
    var s1 := s.(trees := s.trees - {tree}, fs := fs);
    assert FinalizeTree(s, tree, env) == SettleInDrag(s1, t.drag, tree, None, env);
    assert !InFolder(s, tree, q);
    RemovedTreeKeeps(s.fs, t, q);
    SettleInDragKeeps(s1, t.drag, tree, None, env, q);
  }

  /** The disk without a failed folder. */
  function RemovedTree(fs: Fs, t: Tree): Fs {
    var fs1 := if t.root != [] then RemoveDir(fs, t.root) else fs;
    if t.staging.Some? then RemoveDir(fs1, t.staging.value) else fs1
  }

  lemma RemovedTreeKeeps(fs: Fs, t: Tree, q: Path)
    requires WellFormed(fs)
    requires t.root != [] && t.root <= q ==> t.root == q && q in fs && !fs[q].Dir?
    requires t.staging.Some? ==> !(t.staging.value <= q)
    ensures WellFormed(RemovedTree(fs, t)) && Kept(fs, RemovedTree(fs, t), q)
  {
    hide RemoveDir, WellFormed;
    var fs1 := if t.root != [] then RemoveDir(fs, t.root) else fs;
    RemoveDirEffect(fs, t.root);
    if t.root != [] && t.root == q { NoDirKept(fs, q); }
    if t.staging.Some? { RemoveDirEffect(fs1, t.staging.value); }
  }

  lemma NoDirKept(fs: Fs, p: Path)
    requires p in fs && !fs[p].Dir?
    ensures RemoveDir(fs, p) == fs
  {
  }

  /** A folder's record with the same places. */
  ghost predicate SamePlace(a: Tree, b: Tree) {
    a.root == b.root && a.staging == b.staging && a.drag == b.drag && (a.failed.Some? ==> b.failed.Some?)
  }

  lemma LocatedContained(s: State)
    requires Owned(s) && Located(s)
    ensures Contained(s)
  {
    hide IsStaging, Unstaged, Names.IsClean, TidyPath;
    forall t | t in s.trees && s.trees[t].root != [] && s.DragIs(s.trees[t].drag)
      ensures s.drag.value.dir <= s.trees[t].root
    {
      assert TreeLocated(s, t);
    }
    if s.drag.Some? {
      forall x | x in s.drag.value.done ensures s.drag.value.dir <= x.path {
        assert ItemLocated(s, s.drag.value.drag, x);
      }
    }
  }

  /* ---- transfers ---- */

  lemma RemoveFileKeeps(fs: Fs, p: Path, q: Path)
    requires p != q
    ensures Kept(fs, RemoveFile(fs, p), q)
  {
  }

  /** Settling a transfer that was taken out; `fs` is the disk without its temporary file. */
  lemma SettleFailureKeeps(s: State, r: State, id: nat, why: Reason, env: Env, q: Path)
    requires Owned(s) && Located(s) && id in s.recv && WellFormed(r.fs)
    requires r == s.(recv := s.recv - {id}, fs := r.fs, replies := r.replies)
    requires Outside(r, SettleFailure(r, s.recv[id], id, why, env), q)
    ensures Kept(r.fs, SettleFailure(r, s.recv[id], id, why, env).fs, q)
  {
    hide FinalizeTree, SettleInDrag, WellFormed, Located, Owned;
    LocatedContained(s);
    var t := s.recv[id];
    match t.tree
    case Some(tree) =>
      if tree in s.trees {
        var tr := r.trees[tree].(outstanding := r.trees[tree].outstanding - {id}).Fail(InFile(t.name, why));
        FailedMemberKeeps(s, r, tree, tr, env, q);
      }
    case None => SettleInDragKeeps(r, t.drag, id, None, env, q);
  }

  lemma FailedMemberKeeps(s: State, r: State, tree: nat, tr: Tree, env: Env, q: Path)
    requires Contained(s) && WellFormed(r.fs) && r == s.(recv := r.recv, fs := r.fs, replies := r.replies)
    requires tree in s.trees && SamePlace(s.trees[tree], tr) && (tr.failed.None? ==> tr.root != [])
    requires Outside(r, FinalizeTree(r.WithTree(tree, tr), tree, env), q)
    ensures Kept(r.fs, FinalizeTree(r.WithTree(tree, tr), tree, env).fs, q)
  {
    hide FinalizeTree, WellFormed, InFolder;
    var r1 := r.WithTree(tree, tr);
    assert Contained(r1);
    forall t | t in r1.trees && t !in FinalizeTree(r1, tree, env).trees ensures !InFolder(r1, t, q) {
      RecordInFolder(r, tree, tr, t, q);
    }
    FinalizeTreeKeeps(r1, tree, env, q);
  }

  lemma RecordInFolder(s: State, tree: nat, tr: Tree, t: nat, q: Path)
    requires tree in s.trees && SamePlace(s.trees[tree], tr) && t in s.trees && !InFolder(s, t, q)
    ensures !InFolder(s.WithTree(tree, tr), t, q)
  {
  }

  lemma DoneKeeps(s: State, id: nat, digest: Digest, env: Env, q: Path)
    requires Owned(s) && Located(s) && id in s.recv
    requires Outside(s, Done(s, id, digest, env), q)
    requires var fs := FinishRecv(s.fs, id, s.recv[id], digest, env).0;
             q in s.fs && !s.fs[q].Dir? ==> q in fs && !fs[q].Dir?
    ensures Kept(FinishRecv(s.fs, id, s.recv[id], digest, env).0, Done(s, id, digest, env).fs, q)
  {
    hide Located, Owned, Done, Outside;
    LocatedContained(s);
    LocatedTidy(s);
    FinishWellFormed(s.fs, id, s.recv[id], digest, env);
    var fs := FinishRecv(s.fs, id, s.recv[id], digest, env).0;
    OutsideOn(s, s.(recv := s.recv - {id}, fs := fs), Done(s, id, digest, env), q);
    if s.recv[id].tree.Some? {
      if s.recv[id].tree.value in s.trees && s.trees[s.recv[id].tree.value].failed.None? {
        RootKnown(s, s.recv[id].tree.value);
      }
      DoneInTreeKeeps(s, id, digest, env, q);
    } else {
      if s.DragIs(s.recv[id].drag) { LooseBelow(s, id); }
      DoneLooseKeeps(s, id, digest, env, q);
    }
  }

  lemma DoneInTreeKeeps(s: State, id: nat, digest: Digest, env: Env, q: Path)
    requires Contained(s) && id in s.recv && s.recv[id].tree.Some?
    requires WellFormed(FinishRecv(s.fs, id, s.recv[id], digest, env).0)
    requires var t := s.recv[id].tree.value; t in s.trees && s.trees[t].failed.None? ==> s.trees[t].root != []
    requires Outside(s.(recv := s.recv - {id}, fs := FinishRecv(s.fs, id, s.recv[id], digest, env).0),
                     Done(s, id, digest, env), q)
    ensures Kept(FinishRecv(s.fs, id, s.recv[id], digest, env).0, Done(s, id, digest, env).fs, q)
  {
    hide FinalizeTree, WellFormed, FinishRecv, Contained, Outside;
    var t, tree := s.recv[id], s.recv[id].tree.value;
    if tree in s.trees {
      var (fs, error) := FinishRecv(s.fs, id, t, digest, env);
      var s1 := s.(recv := s.recv - {id}, fs := fs);
      var tr := s1.trees[tree].(outstanding := s1.trees[tree].outstanding - {id});
      var tr1 := if error.Some? then tr.Fail(InFile(t.name, error.value))
                 else tr.(doneBytes := tr.doneBytes + t.size, verified := tr.verified + [Verified(id, t.size)]);
      FailedMemberKeeps(s, s1, tree, tr1, env, q);
    }
  }

  lemma DoneLooseKeeps(s: State, id: nat, digest: Digest, env: Env, q: Path)
    requires Contained(s) && id in s.recv && s.recv[id].tree.None?
    requires WellFormed(FinishRecv(s.fs, id, s.recv[id], digest, env).0)
    requires s.DragIs(s.recv[id].drag) ==> s.drag.value.dir <= s.recv[id].final
    requires Outside(s.(recv := s.recv - {id}, fs := FinishRecv(s.fs, id, s.recv[id], digest, env).0),
                     Done(s, id, digest, env), q)
    ensures Kept(FinishRecv(s.fs, id, s.recv[id], digest, env).0, Done(s, id, digest, env).fs, q)
  {
    hide SettleInDrag, WellFormed, FinishRecv;
    var t := s.recv[id];
    var (fs, error) := FinishRecv(s.fs, id, t, digest, env);
    var s1 := s.(recv := s.recv - {id}, fs := fs);
    var s2 := if error.None? && t.drag.None?
      then s1.(placed := s1.placed + [Placed(id, false, t.final, None)]) else s1;
    var item := Staged(id, t.name, false, t.size, t.final, None);
    SettleInDragKeeps(s2, t.drag, id, if error.None? then Some(item) else None, env, q);
  }

  lemma FinishWellFormed(fs: Fs, id: nat, t: Recv, digest: Digest, env: Env)
    requires WellFormed(fs)
    ensures WellFormed(FinishRecv(fs, id, t, digest, env).0)
  {
    hide WellFormed, RemoveFile, RenameFile;
    RemoveFilesEffect(fs, {t.part});
    if RenameFile(fs, t.part, t.final, id, t.written, env).Some? {
      RenameFileEffect(fs, t.part, t.final, id, t.written, env);
    }
  }

  lemma LooseBelow(s: State, id: nat)
    requires Located(s) && id in s.recv && s.recv[id].tree.None? && s.DragIs(s.recv[id].drag)
    ensures s.drag.value.dir <= s.recv[id].final && s.drag.value.dir <= s.recv[id].part
  {
    hide IsStaging, Unstaged, Names.IsClean, TidyFs;
    assert FileLocated(s, id);
  }

  lemma BeginRecvKeeps(fs: Fs, dir: Path, id: nat, name: string, size: nat, drag: Option<nat>, tree: Option<nat>,
                       env: Env, q: Path)
    requires WellFormed(fs)
    ensures Kept(fs, BeginRecv(fs, dir, id, name, size, drag, tree, env).0, q)
  {
    hide BeginRecv;
    BeginRecvEffect(fs, dir, id, name, size, drag, tree, env);
  }

  lemma AcceptOfferKeeps(s: State, dir: Path, id: nat, name: string, size: nat, drag: Option<nat>, tree: Option<nat>,
                         env: Env, q: Path)
    requires WellFormed(s.fs)
    ensures Kept(s.fs, AcceptOffer(s, dir, id, name, size, drag, tree, env).0.fs, q)
  {
    hide BeginRecv, WellFormed;
    BeginRecvKeeps(s.fs, dir, id, name, size, drag, tree, env, q);
  }

  lemma AcceptOfferWellFormed(s: State, dir: Path, id: nat, name: string, size: nat, drag: Option<nat>,
                              tree: Option<nat>, env: Env)
    requires WellFormed(s.fs)
    ensures WellFormed(AcceptOffer(s, dir, id, name, size, drag, tree, env).0.fs)
  {
    hide BeginRecv, WellFormed;
    BeginRecvEffect(s.fs, dir, id, name, size, drag, tree, env);
  }

  lemma OfferInDragKeeps(s: State, drag: nat, id: nat, name: string, size: nat, env: Env, q: Path)
    requires Contained(s) && Outside(s, OfferInDrag(s, drag, id, name, size, env), q)
    ensures Kept(s.fs, OfferInDrag(s, drag, id, name, size, env).fs, q)
  {
    hide AcceptOffer, FinalizeDrag, WellFormed;
    if s.DragIs(Some(drag)) {
      var d := s.drag.value.(offered := s.drag.value.offered + 1);
      AcceptOfferKeeps(s.WithDrag(d), d.dir, id, name, size, Some(drag), None, env, q);
      AcceptOfferWellFormed(s.WithDrag(d), d.dir, id, name, size, Some(drag), None, env);
      var (s1, accepted) := AcceptOffer(s.WithDrag(d), d.dir, id, name, size, Some(drag), None, env);
      if !accepted { FinalizeDragKeeps(s1, env, q); }
    }
  }

  lemma OfferInTreeKeeps(s: State, tree: nat, id: nat, rel: string, size: nat, env: Env, q: Path)
    requires WellFormed(s.fs)
    ensures Kept(s.fs, OfferInTree(s, tree, id, rel, size, env).fs, q)
  {
    hide AcceptOffer, WellFormed, Names.SanitizeRel;
    if tree in s.trees && s.trees[tree].failed.None? {
      var t := s.trees[tree].(entries := s.trees[tree].entries + 1, offered := s.trees[tree].offered + [id]);
      var path := Names.SanitizeRel(rel);
      if path.Some? && path.value != [] {
        var k := |path.value| - 1;
        AcceptOfferKeeps(s.WithTree(tree, t), t.root + path.value[..k], id, path.value[k], size, t.drag, Some(tree),
                         env, q);
      }
    }
  }

  lemma OfferTreeKeeps(s: State, tree: nat, name: string, files: nat, bytes: nat, drag: Option<nat>, env: Env, q: Path)
    ensures Kept(s.fs, OfferTree(s, tree, name, files, bytes, drag, env).fs, q)
  {
    hide MkdirAll, FreeDirPath, Names.Sanitize, RootTree;
    var safe := Names.Sanitize(name);
    var parent := if s.DragIs(drag) then s.drag.value.dir else s.fileDir + [TreeStagingName(tree)];
    if safe.Some? {
      forall s1: State, c, staging | s1.fs == s.fs && tree !in s1.trees
        ensures Kept(s.fs, RootTree(s1, tree, safe.value, files, bytes, drag, c, parent, staging, env).fs, q)
      {
        RootTreeKeeps(s1, tree, safe.value, files, bytes, drag, c, parent, staging, env, q);
      }
    }
  }

  lemma RootTreeKeeps(s: State, tree: nat, name: string, files: nat, bytes: nat, drag: Option<nat>, counted: bool,
                      parent: Path, staging: Option<Path>, env: Env, q: Path)
    requires tree !in s.trees
    ensures Kept(s.fs, RootTree(s, tree, name, files, bytes, drag, counted, parent, staging, env).fs, q)
  {
    hide MkdirAll, FreeDirPath;
    MkdirKeeps(s.fs, parent, env, q);
    if MkdirAll(s.fs, parent, env).Some? {
      var fs := MkdirAll(s.fs, parent, env).value;
      MkdirKeeps(fs, FreeDirPath(fs, parent, name), env, q);
    }
  }

  lemma MakeDirKeeps(s: State, tree: nat, rel: string, env: Env, q: Path)
    ensures Kept(s.fs, MakeDir(s, tree, rel, env).fs, q)
  {
    hide MkdirAll, Names.SanitizeRel;
    if tree in s.trees && s.trees[tree].failed.None? && Names.SanitizeRel(rel).Some? {
      MkdirKeeps(s.fs, s.trees[tree].root + Names.SanitizeRel(rel).value, env, q);
    }
  }

  lemma DiscardKeeps(s: State, q: Path)
    requires s.drag.Some? && !(s.drag.value.dir <= q)
    requires forall id :: id in s.recv && id !in DiscardDrag(s.(drag := None), s.drag.value).recv ==>
               s.recv[id].part != q
    ensures Kept(s.fs, DiscardDrag(s.(drag := None), s.drag.value).fs, q)
  {
    hide RemoveDir, Doomed;
    var gone := Doomed(s.(drag := None), s.drag.value);
    var parts := PartsOf(s.(drag := None), gone);
    forall id | id in gone && id in s.recv ensures s.recv[id].part != q {
      assert id !in DiscardDrag(s.(drag := None), s.drag.value).recv;
    }
    RemoveDirKeeps(RemoveFiles(s.fs, parts), s.drag.value.dir, q);
  }

  /* ---- every message ---- */

  /** The drag is dropped, discarded or superseded by the message. */
  predicate DragEnds(s: State, m: Message, r: State) { s.drag.Some? && (r.drag.None? || m.DragBegin?) }

  /** The message finishes transfer `m.id`: size and digest are right and the last rename gets through. */
  predicate Finishes(s: State, m: Message, env: Env) {
    && m.FileDone? && m.id in s.recv
    && var t := s.recv[m.id];
    && env.sha(t.hashed) == m.digest && t.received == t.size && CanRename(s.fs, t.part, t.final, env)
  }

  /** The message would finish transfer `id`, but its last rename does not get through. */
  predicate Stuck(s: State, m: Message, env: Env, id: nat)
    requires id in s.recv
  {
    && m.FileDone? && m.id == id
    && var t := s.recv[id];
    && env.sha(t.hashed) == m.digest && t.received == t.size && !CanRename(s.fs, t.part, t.final, env)
  }

  /** `q` is not taken away: it is in no folder and no drag that ends, it is not the
      temporary file of a transfer that ends without getting stuck, and no file is
      renamed onto it. */
  ghost predicate Spared(s: State, m: Message, env: Env, q: Path) {
    var r := Handle(s, m, env);
    && Outside(s, r, q) && (DragEnds(s, m, r) ==> !(s.drag.value.dir <= q))
    && (forall id :: id in s.recv && id !in r.recv && !Stuck(s, m, env, id) ==> s.recv[id].part != q)
    && (Finishes(s, m, env) ==> s.recv[m.id].final != q)
  }

  lemma HandleKeepsPath(s: State, m: Message, env: Env, q: Path)
    requires Owned(s) && Located(s) && Spared(s, m, env, q)
    ensures Kept(s.fs, Handle(s, m, env).fs, q)
  {
    hide Owned, Located, WellFormed, FinalizeDrag, FinalizeTree, SettleFailure, Done, Chunk, DiscardDrag, BeginDrag;
    hide RemoveFile;
    hide AcceptOffer, OfferInDrag, OfferInTree, OfferTree, MakeDir, FinishRecv;
    LocatedContained(s);
    match m
    case FileOffer(id, name, size) => AcceptOfferKeeps(s, s.fileDir, id, name, size, None, None, env, q);
    case DragBegin(drag, count) => BeginDragKeeps(s, drag, count, env, q);
    case DragOffer(drag, id, name, size) => OfferInDragKeeps(s, drag, id, name, size, env, q);
    case DragDrop(drag) =>
      if s.DragIs(Some(drag)) {
        FinalizeDragKeeps(s.WithDrag(s.drag.value.(dropRequested := true)), env, q);
      }
    case DragCancel(drag) => if s.DragIs(Some(drag)) { CancelKeeps(s, drag, env, q); }
    case TreeOffer(tree, name, files, bytes, within) => OfferTreeKeeps(s, tree, name, files, bytes, within, env, q);
    case TreeDir(tree, rel) => MakeDirKeeps(s, tree, rel, env, q);
    case TreeFile(tree, id, rel, size) => OfferInTreeKeeps(s, tree, id, rel, size, env, q);
    case TreeEnd(tree, error) =>
      if tree in s.trees {
        var t := s.trees[tree].(ended := true);
        if s.trees[tree].failed.None? { RootKnown(s, tree); }
        FailedMemberKeeps(s, s, tree, if error.Some? then t.Fail(FromPeer(error.value)) else t, env, q);
      }
    case FileChunk(id, offset, data) => 
      if id in s.recv { ChunkKeeps(s, id, offset, data, env, q); } else { UnknownSame(s, id, offset, data, [], env); }
    case FileDone(id, digest) =>
      if id in s.recv {
        FinishKeeps(s, id, digest, env, q);
        DoneKeeps(s, id, digest, env, q);
        KeptTrans(s.fs, FinishRecv(s.fs, id, s.recv[id], digest, env).0, Done(s, id, digest, env).fs, q);
      } else {
        UnknownSame(s, id, 0, [], digest, env);
      }
    case FileCancel(id, why) => if id in s.recv { DropKeeps(s, Drop(s, id), id, why, env, q); }
  }

  lemma UnknownSame(s: State, id: nat, offset: nat, data: Bytes, digest: Digest, env: Env)
    requires id !in s.recv
    ensures Done(s, id, digest, env) == s && Chunk(s, id, offset, data, env) == s
  {
  }

  lemma FinishKeeps(s: State, id: nat, digest: Digest, env: Env, q: Path)
    requires id in s.recv && Spared(s, FileDone(id, digest), env, q)
    ensures Kept(s.fs, FinishRecv(s.fs, id, s.recv[id], digest, env).0, q)
  {
    hide Outside, Done;
    assert id !in Done(s, id, digest, env).recv by { DoneEnds(s, id, digest, env); }
  }

  lemma DoneEnds(s: State, id: nat, digest: Digest, env: Env)
    ensures Done(s, id, digest, env).recv == s.recv - {id}
  {
    hide FinalizeTree, SettleInDrag, FinishRecv;
  }

  lemma SettleFailureEnds(s: State, t: Recv, id: nat, why: Reason, env: Env)
    ensures SettleFailure(s, t, id, why, env).recv == s.recv
  {
    hide FinalizeTree, SettleInDrag;
  }

  /** A transfer dropped with its temporary file and settled as failed. */
  lemma DropKeeps(s: State, r: State, id: nat, why: Reason, env: Env, q: Path)
    requires Owned(s) && Located(s) && id in s.recv && r == Drop(s, id).(replies := r.replies)
    requires Outside(s, SettleFailure(r, s.recv[id], id, why, env), q)
    requires id !in SettleFailure(r, s.recv[id], id, why, env).recv ==> s.recv[id].part != q
    ensures Kept(s.fs, SettleFailure(r, s.recv[id], id, why, env).fs, q)
  {
    hide Owned, Located, WellFormed, SettleFailure, RemoveFile, Outside;
    SettleFailureEnds(r, s.recv[id], id, why, env);
    RemoveFileKeeps(s.fs, s.recv[id].part, q);
    LocatedTidy(s);
    RemoveFilesEffect(s.fs, {s.recv[id].part});
    DroppedOutside(s, r, SettleFailure(r, s.recv[id], id, why, env), id, q);
    SettleFailureKeeps(s, r, id, why, env, q);
  }

  lemma DroppedOutside(s: State, r: State, end: State, id: nat, q: Path)
    requires id in s.recv && r == Drop(s, id).(replies := r.replies) && Outside(s, end, q) && s.recv[id].part != q
    ensures Outside(r, end, q)
  {
    hide Outside;
    OutsideOn(s, r, end, q);
  }

  lemma ChunkKeeps(s: State, id: nat, offset: nat, data: Bytes, env: Env, q: Path)
    requires Owned(s) && Located(s) && id in s.recv && Outside(s, Chunk(s, id, offset, data, env), q)
    requires id !in Chunk(s, id, offset, data, env).recv ==> s.recv[id].part != q
    ensures Kept(s.fs, Chunk(s, id, offset, data, env).fs, q)
  {
    hide Owned, Located, SettleFailure, RemoveFile, Outside;
    forall w, r: State | r == Drop(s, id).(replies := r.replies)
        && Outside(s, SettleFailure(r, s.recv[id], id, w, env), q)
                         && (id !in SettleFailure(r, s.recv[id], id, w, env).recv ==> s.recv[id].part != q)
      ensures Kept(s.fs, SettleFailure(r, s.recv[id], id, w, env).fs, q)
    {
      DropKeeps(s, r, id, w, env, q);
    }
  }

  lemma CancelKeeps(s: State, drag: nat, env: Env, q: Path)
    requires s.DragIs(Some(drag)) && Spared(s, DragCancel(drag), env, q)
    ensures Kept(s.fs, DiscardDrag(s.(drag := None), s.drag.value).fs, q)
  {
    hide DiscardDrag;
    DiscardKeeps(s, q);
  }

  lemma BeginDragKeeps(s: State, drag: nat, count: nat, env: Env, q: Path)
    requires Spared(s, DragBegin(drag, count), env, q)
    ensures Kept(s.fs, BeginDrag(s, drag, count, env).fs, q)
  {
    hide DiscardDrag, MkdirAll;
    if s.drag.Some? { DiscardKeeps(s, q); }
    var s1 := if s.drag.Some? then DiscardDrag(s.(drag := None), s.drag.value) else s;
    MkdirKeeps(s1.fs, s1.fileDir + [DragStagingName(drag)], env, q);
  }

  /** A file that finishes is at its final path, unless that was taken away at once
      with its folder or its drag. */
  lemma FinishedLands(s: State, m: Message, env: Env)
    requires Owned(s) && Located(s) && Finishes(s, m, env) && Outside(s, Handle(s, m, env), s.recv[m.id].final)
    ensures var t, r := s.recv[m.id], Handle(s, m, env);
            && t.final in r.fs
            && r.fs[t.final] == if s.fs[t.part] == Part(m.id) then File(t.written) else s.fs[t.part]
  {
    hide Owned, Located, Done, Outside;
    DoneKeeps(s, m.id, m.digest, env, s.recv[m.id].final);
  }

  lemma DirsSame(s: State, m: Message, env: Env)
    ensures Handle(s, m, env).fileDir == s.fileDir && Handle(s, m, env).desktop == s.desktop
  {
    hide FinalizeDrag, FinalizeTree, SettleFailure, Done, RemoveFile, AcceptOffer, OfferInDrag, OfferTree, OfferInTree;
    hide MakeDir, DiscardDrag, MkdirAll, Chunk, BeginDrag;
    SettlingSameDirs(s, env);
    match m
    case FileOffer(id, name, size) => AcceptSameDirs(s, s.fileDir, id, name, size, None, None, env);
    case DragBegin(drag, count) => BeginDragSameDirs(s, drag, count, env);
    case DragOffer(drag, id, name, size) => OfferInDragSameDirs(s, drag, id, name, size, env);
    case DragDrop(drag) =>
      if s.DragIs(Some(drag)) { SettlingSameDirs(s.WithDrag(s.drag.value.(dropRequested := true)), env); }
    case DragCancel(drag) => if s.DragIs(Some(drag)) { DiscardSameDirs(s.(drag := None), s.drag.value); }
    case TreeOffer(tree, name, files, bytes, within) => OfferTreeSameDirs(s, tree, name, files, bytes, within, env);
    case TreeDir(tree, rel) =>
    case TreeFile(tree, id, rel, size) => OfferInTreeSameDirs(s, tree, id, rel, size, env);
    case TreeEnd(tree, error) =>
      if tree in s.trees {
        var t := s.trees[tree].(ended := true);
        FinalizeTreeSameDirs(s.WithTree(tree, if error.Some? then t.Fail(FromPeer(error.value)) else t), tree, env);
      }
    case FileChunk(id, offset, data) => ChunkSameDirs(s, id, offset, data, env);
    case FileDone(id, digest) => DoneSameDirs(s, id, digest, env);
    case FileCancel(id, why) => if id in s.recv { SettleFailureSameDirs(Drop(s, id), s.recv[id], id, why, env); }
  }

  predicate SameDirs(s: State, r: State) { r.fileDir == s.fileDir && r.desktop == s.desktop }

  lemma SettlingSameDirs(s: State, env: Env)
    ensures SameDirs(s, FinalizeDrag(s, env))
  {
    hide PlaceAll, MkdirAll, RemoveDir;
  }

  lemma SettleInDragSameDirs(s: State, drag: Option<nat>, id: nat, item: Option<Staged>, env: Env)
    ensures SameDirs(s, SettleInDrag(s, drag, id, item, env))
  {
    hide FinalizeDrag;
    if s.DragIs(drag) {
      var d := s.drag.value.(outstanding := s.drag.value.outstanding - {id});
      SettlingSameDirs(s.WithDrag(if item.Some? then d.(done := d.done + [item.value]) else d), env);
    }
  }

  lemma FinalizeTreeSameDirs(s: State, tree: nat, env: Env)
    ensures SameDirs(s, FinalizeTree(s, tree, env))
  {
    hide SettleInDrag, MovePath, MkdirAll, FreeDirPath, RemoveDir;
    if tree in s.trees {
      forall s': State, d, i, x | SameDirs(s, s') ensures SameDirs(s, SettleInDrag(s', d, i, x, env)) {
        SettleInDragSameDirs(s', d, i, x, env);
      }
    }
  }

  lemma SettleFailureSameDirs(s: State, t: Recv, id: nat, why: Reason, env: Env)
    ensures SameDirs(s, SettleFailure(s, t, id, why, env))
  {
    hide FinalizeTree, SettleInDrag;
    if t.tree.Some? && t.tree.value in s.trees {
      var tr := s.trees[t.tree.value].(outstanding := s.trees[t.tree.value].outstanding - {id})
            .Fail(InFile(t.name, why));
      FinalizeTreeSameDirs(s.WithTree(t.tree.value, tr), t.tree.value, env);
    } else if t.tree.None? {
      SettleInDragSameDirs(s, t.drag, id, None, env);
    }
  }

  lemma ChunkSameDirs(s: State, id: nat, offset: nat, data: Bytes, env: Env)
    ensures SameDirs(s, Chunk(s, id, offset, data, env))
  {
    hide SettleFailure, RemoveFile;
    if id in s.recv {
      forall w, r: State | SameDirs(s, r) ensures SameDirs(s, SettleFailure(r, s.recv[id], id, w, env)) {
        SettleFailureSameDirs(r, s.recv[id], id, w, env);
      }
    }
  }

  lemma DoneSameDirs(s: State, id: nat, digest: Digest, env: Env)
    ensures SameDirs(s, Done(s, id, digest, env))
  {
    hide FinalizeTree, SettleInDrag, FinishRecv;
    if id in s.recv {
      var t := s.recv[id];
      var (fs, error) := FinishRecv(s.fs, id, t, digest, env);
      var s1 := s.(recv := s.recv - {id}, fs := fs);
      match t.tree
      case Some(tree) =>
        if tree in s.trees {
          var tr := s1.trees[tree].(outstanding := s1.trees[tree].outstanding - {id});
          var tr1 := if error.Some? then tr.Fail(InFile(t.name, error.value))
                     else tr.(doneBytes := tr.doneBytes + t.size, verified := tr.verified + [Verified(id, t.size)]);
          FinalizeTreeSameDirs(s1.WithTree(tree, tr1), tree, env);
        }
      case None =>
        var s2 := if error.None? && t.drag.None?
          then s1.(placed := s1.placed + [Placed(id, false, t.final, None)]) else s1;
        var item := Staged(id, t.name, false, t.size, t.final, None);
        SettleInDragSameDirs(s2, t.drag, id, if error.None? then Some(item) else None, env);
    }
  }

  lemma AcceptSameDirs(s: State, dir: Path, id: nat, name: string, size: nat, drag: Option<nat>, tree: Option<nat>,
                       env: Env)
    ensures SameDirs(s, AcceptOffer(s, dir, id, name, size, drag, tree, env).0)
  {
    hide BeginRecv;
  }

  lemma OfferInDragSameDirs(s: State, drag: nat, id: nat, name: string, size: nat, env: Env)
    ensures SameDirs(s, OfferInDrag(s, drag, id, name, size, env))
  {
    hide AcceptOffer, FinalizeDrag;
    if s.DragIs(Some(drag)) {
      var d := s.drag.value.(offered := s.drag.value.offered + 1);
      AcceptSameDirs(s.WithDrag(d), d.dir, id, name, size, Some(drag), None, env);
      SettlingSameDirs(AcceptOffer(s.WithDrag(d), d.dir, id, name, size, Some(drag), None, env).0, env);
    }
  }

  lemma OfferInTreeSameDirs(s: State, tree: nat, id: nat, rel: string, size: nat, env: Env)
    ensures SameDirs(s, OfferInTree(s, tree, id, rel, size, env))
  {
    hide AcceptOffer, Names.SanitizeRel;
    if tree in s.trees && s.trees[tree].failed.None? {
      forall t: Tree, dir, name
        ensures SameDirs(s, AcceptOffer(s.WithTree(tree, t), dir, id, name, size, t.drag, Some(tree), env).0)
      {
        AcceptSameDirs(s.WithTree(tree, t), dir, id, name, size, t.drag, Some(tree), env);
      }
    }
  }

  lemma OfferTreeSameDirs(s: State, tree: nat, name: string, files: nat, bytes: nat, drag: Option<nat>, env: Env)
    ensures SameDirs(s, OfferTree(s, tree, name, files, bytes, drag, env))
  {
    hide RootTree, Names.Sanitize;
  }

  lemma DiscardSameDirs(s: State, d: Drag)
    ensures SameDirs(s, DiscardDrag(s, d))
  {
  }

  lemma BeginDragSameDirs(s: State, drag: nat, count: nat, env: Env)
    ensures SameDirs(s, BeginDrag(s, drag, count, env))
  {
    hide DiscardDrag, MkdirAll;
    if s.drag.Some? { DiscardSameDirs(s.(drag := None), s.drag.value); }
  }

  /* ---- records ---- */

  /** The record of a folder that was there before. */
  ghost predicate SameTree(a: Tree, b: Tree) {
    SamePlace(a, b) && a.counted == b.counted && a.name == b.name
  }

  /** Folders stay where they are. */
  lemma TreeAfter(s: State, m: Message, env: Env, t: nat)
    requires t in Handle(s, m, env).trees
    ensures if t in s.trees then SameTree(s.trees[t], Handle(s, m, env).trees[t]) else m.TreeOffer? && m.tree == t
  {
    hide FinalizeDrag, FinalizeTree, SettleFailure, Done, RemoveFile, AcceptOffer, OfferInDrag, OfferTree, OfferInTree;
    hide MakeDir, DiscardDrag, MkdirAll, Chunk;
    match m
    case DragBegin(drag, count) => BeginDragTrees(s, drag, count, env, t);
    case DragCancel(drag) => if s.DragIs(Some(drag)) { DiscardTrees(s, t); }
    case TreeFile(tree, id, rel, size) => OfferInTreeEffect(s, tree, id, rel, size, env);
    case FileChunk(id, offset, data) => ChunkTrees(s, id, offset, data, env, t);
    case FileDone(id, digest) => DoneTrees(s, id, digest, env, t);
    case FileCancel(id, why) => if id in s.recv { SettleFailureTrees(Drop(s, id), s.recv[id], id, why, env, t); }
    case TreeOffer(tree, name, files, bytes, within) =>
    case _ =>
  }

  lemma DiscardTrees(s: State, t: nat)
    requires s.drag.Some? && t in DiscardDrag(s.(drag := None), s.drag.value).trees
    ensures t in s.trees && DiscardDrag(s.(drag := None), s.drag.value).trees[t] == s.trees[t]
  {
  }

  lemma BeginDragTrees(s: State, drag: nat, count: nat, env: Env, t: nat)
    requires t in BeginDrag(s, drag, count, env).trees
    ensures t in s.trees && BeginDrag(s, drag, count, env).trees[t] == s.trees[t]
  {
    hide MkdirAll, DiscardDrag;
    if s.drag.Some? { DiscardTrees(s, t); }
  }

  lemma SettleFailureTrees(s: State, x: Recv, id: nat, why: Reason, env: Env, t: nat)
    requires t in SettleFailure(s, x, id, why, env).trees
    ensures t in s.trees && SameTree(s.trees[t], SettleFailure(s, x, id, why, env).trees[t])
  {
    hide FinalizeTree, SettleInDrag;
  }

  lemma ChunkTrees(s: State, id: nat, offset: nat, data: Bytes, env: Env, t: nat)
    requires t in Chunk(s, id, offset, data, env).trees
    ensures t in s.trees && SameTree(s.trees[t], Chunk(s, id, offset, data, env).trees[t])
  {
    hide SettleFailure, RemoveFile;
    if id in s.recv {
      forall w, r: State | r.trees == s.trees && t in SettleFailure(r, s.recv[id], id, w, env).trees
        ensures t in s.trees && SameTree(s.trees[t], SettleFailure(r, s.recv[id], id, w, env).trees[t])
      {
        SettleFailureTrees(r, s.recv[id], id, w, env, t);
      }
    }
  }

  lemma DoneTrees(s: State, id: nat, digest: Digest, env: Env, t: nat)
    requires t in Done(s, id, digest, env).trees
    ensures t in s.trees && SameTree(s.trees[t], Done(s, id, digest, env).trees[t])
  {
    hide FinalizeTree, SettleInDrag, FinishRecv;
  }

  /** The disk after the last rename, if the message finishes a file. */
  function FinishedFs(s: State, m: Message, env: Env): Fs {
    if m.FileDone? && m.id in s.recv then FinishRecv(s.fs, m.id, s.recv[m.id], m.digest, env).0 else s.fs
  }

  /** An item was staged: a loose file that finished, or a folder that ended whole.
      The disk is not touched for it. */
  ghost predicate NewItem(s: State, m: Message, env: Env, x: Staged) {
    Handle(s, m, env).fs == FinishedFs(s, m, env) &&
    if x.folder then
      && x.id in s.trees && x.id !in Handle(s, m, env).trees
      && var t := s.trees[x.id];
      && s.DragIs(t.drag) && t.failed.None? && x.path == t.root && x.name == t.name
    else
      && Finishes(s, m, env) && x.id == m.id
      && var t := s.recv[m.id];
      && t.tree.None? && s.DragIs(t.drag) && x == Staged(m.id, t.name, false, t.size, t.final, None)
  }

  /** The drag while it is held: its staged items only grow. */
  ghost predicate DragGoesOn(s: State, m: Message, env: Env, r: State) {
    r.drag.Some? && !m.DragBegin? ==>
      && s.drag.Some?
      && var d, d' := s.drag.value, r.drag.value;
      && d'.drag == d.drag && d'.dir == d.dir && d'.expected == d.expected
      && (d'.done == d.done || exists x :: d'.done == d.done + [x] && NewItem(s, m, env, x))
  }

  lemma FinalizeTreeDrag(s: State, tree: nat, env: Env)
    ensures var r := FinalizeTree(s, tree, env);
            r.drag.Some? ==>
              && s.drag.Some?
              && var d, d' := s.drag.value, r.drag.value;
              && d'.drag == d.drag && d'.dir == d.dir && d'.expected == d.expected
              && (d'.done == d.done
                  || (tree in s.trees && tree !in r.trees && s.DragIs(s.trees[tree].drag) && s.trees[tree].failed.None?
                      && var t := s.trees[tree];
                         d'.done == d.done + [Staged(tree, t.name, true, t.total, t.root, Some(t))]
                         && r.fs == s.fs))
  {
    hide SettleInDrag, MovePath, MkdirAll, FreeDirPath, RemoveDir;
  }

  lemma DragAfter(s: State, m: Message, env: Env)
    ensures DragGoesOn(s, m, env, Handle(s, m, env))
  {
    hide FinalizeDrag, FinalizeTree, SettleFailure, Done, RemoveFile, AcceptOffer, OfferInDrag, OfferTree, OfferInTree;
    hide MakeDir, DiscardDrag, MkdirAll, Chunk, BeginDrag, NewItem, FinishRecv;
    match m
    case DragCancel(drag) =>
    case DragOffer(drag, id, name, size) => OfferInDragGoesOn(s, drag, id, name, size, env);
    case TreeFile(tree, id, rel, size) => OfferInTreeEffect(s, tree, id, rel, size, env);
    case TreeEnd(tree, error) => EndTreeGoesOn(s, tree, error, env);
    case FileChunk(id, offset, data) => ChunkGoesOn(s, id, offset, data, env);
    case FileDone(id, digest) => DoneGoesOn(s, id, digest, env);
    case FileCancel(id, why) => if id in s.recv { SettleFailureDrag(Drop(s, id), s.recv[id], id, why, env); }
    case _ =>
  }

  lemma OfferInDragGoesOn(s: State, drag: nat, id: nat, name: string, size: nat, env: Env)
    ensures var r := OfferInDrag(s, drag, id, name, size, env);
            r.drag.Some? ==>
              && s.drag.Some?
              && var d, d' := s.drag.value, r.drag.value;
              && d'.drag == d.drag && d'.dir == d.dir && d'.expected == d.expected && d'.done == d.done
  {
    hide OfferInDrag;
  }

  lemma EndTreeGoesOn(s: State, tree: nat, error: Option<string>, env: Env)
    ensures DragGoesOn(s, TreeEnd(tree, error), env, EndTree(s, tree, error, env))
  {
    hide FinalizeTree;
    if tree in s.trees {
      var t := s.trees[tree].(ended := true);
      FinalizeTreeDrag(s.WithTree(tree, if error.Some? then t.Fail(FromPeer(error.value)) else t), tree, env);
    }
  }

  lemma SettleFailureDrag(s: State, x: Recv, id: nat, why: Reason, env: Env)
    ensures var r := SettleFailure(s, x, id, why, env);
            r.drag.Some? ==>
              && s.drag.Some?
              && var d, d' := s.drag.value, r.drag.value;
              && d'.drag == d.drag && d'.dir == d.dir && d'.expected == d.expected && d'.done == d.done
  {
    hide FinalizeTree, SettleInDrag;
    if x.tree.Some? && x.tree.value in s.trees {
      var tr := s.trees[x.tree.value].(outstanding := s.trees[x.tree.value].outstanding - {id})
            .Fail(InFile(x.name, why));
      FinalizeTreeDrag(s.WithTree(x.tree.value, tr), x.tree.value, env);
    }
  }

  lemma ChunkGoesOn(s: State, id: nat, offset: nat, data: Bytes, env: Env)
    ensures DragGoesOn(s, FileChunk(id, offset, data), env, Chunk(s, id, offset, data, env))
  {
    hide SettleFailure, RemoveFile;
    if id in s.recv {
      forall w, r: State | r == Drop(s, id).(replies := r.replies)
        ensures DragGoesOn(s, FileChunk(id, offset, data), env, SettleFailure(r, s.recv[id], id, w, env))
      {
        SettleFailureDrag(r, s.recv[id], id, w, env);
      }
    }
  }

  lemma DoneGoesOn(s: State, id: nat, digest: Digest, env: Env)
    ensures DragGoesOn(s, FileDone(id, digest), env, Done(s, id, digest, env))
  {
    hide FinalizeTree, SettleInDrag, RemoveFile, CanRename;
    if id in s.recv {
      var t := s.recv[id];
      var (fs, error) := FinishRecv(s.fs, id, t, digest, env);
      var s1 := s.(recv := s.recv - {id}, fs := fs);
      assert error.None? <==> Finishes(s, FileDone(id, digest), env);
      if t.tree.Some? && t.tree.value in s.trees {
        var tree := t.tree.value;
        var tr := s1.trees[tree].(outstanding := s1.trees[tree].outstanding - {id});
        var tr1 := if error.Some? then tr.Fail(InFile(t.name, error.value))
                   else tr.(doneBytes := tr.doneBytes + t.size, verified := tr.verified + [Verified(id, t.size)]);
        FinalizeTreeDrag(s1.WithTree(tree, tr1), tree, env);
      }
    }
  }
}
