/** What one message can add inside the directory of a drag that is being staged. */
module Additions {
  import opened Basics
  import opened Disk
  import opened Receiving
  import opened Ownership
  import opened Frames
  import opened Staging
  import opened Cleanup
  import opened Footprints
  import opened Layout
  import opened Streams
  import Names

  /** What is at `q` was there before. */
  ghost predicate Old(fs: Fs, r: Fs, q: Path) { q in r ==> q in fs && r[q] == fs[q] }

  /** `p` lies directly in the directory of the drag being staged, it is no folder's that
      goes on, and `q` is at or below it. */
  ghost predicate InDrag(s: State, p: Path, q: Path) {
    && s.drag.Some? && s.drag.value.dir <= p && |p| == |s.drag.value.dir| + 1 && p <= q
    && (forall t :: t in s.trees ==> s.trees[t].root != p || s.trees[t].failed.Some?)
  }

  lemma MkdirAdds(fs: Fs, p: Path, env: Env, q: Path)
    requires !(q <= p)
    ensures Old(fs, OrElse(MkdirAll(fs, p, env), fs), q)
  {
  }

  lemma MoveAdds(fs: Fs, src: Path, dst: Path, env: Env, q: Path)
    requires WellFormed(fs) && !(dst <= q)
    ensures Old(fs, OrElse(MovePath(fs, src, dst, env), fs), q)
  {
    hide MovePath, WellFormed;
    if MovePath(fs, src, dst, env).Some? { MoveContents(fs, src, dst, env); }
  }

  /** Two directories at the same depth with something in common below are one. */
  lemma SameDepth(a: Path, b: Path, q: Path)
    requires a <= q && b <= q && |a| == |b|
    ensures a == b
  {
    assert a == q[..|a|] == b;
  }

  /** Nothing in a folder, nor above it, is in the drag's directory beside it. */
  lemma FolderApart(s: State, p: Path, q: Path, t: nat, path: Path)
    requires Sound(s) && InDrag(s, p, q) && t in s.trees && s.trees[t].root != [] && s.trees[t].failed.None?
    ensures !(q <= s.trees[t].root + path) && (s.trees[t].root <= q ==> false)
  {
    hide Owned, Located, Laid;
    var root := s.trees[t].root;
    RootDepth(s, t);
    if q <= root + path { BelowBelow(p, q, root + path); SameDepth(p, root, root + path); }
    if root <= q { SameDepth(p, root, q); }
  }

  lemma RootDepth(s: State, t: nat)
    requires Sound(s) && s.drag.Some? && t in s.trees && s.trees[t].root != []
    ensures |s.trees[t].root| == |s.drag.value.dir| + 1 == |s.fileDir| + 2
  {
    hide Owned, TidyFs, Names.IsClean;
    DragDir(s);
    assert RootLaid(s, t);
  }

  lemma RemoveAdds(fs: Fs, p: Path, q: Path)
    ensures Old(fs, RemoveDir(fs, p), q) && Old(fs, RemoveFile(fs, p), q)
  {
  }

  /* ---- settling ---- */

  lemma SettleInDragAdds(s: State, drag: Option<nat>, id: nat, item: Option<Staged>, env: Env, q: Path)
    requires SettleInDrag(s, drag, id, item, env).drag.Some?
    ensures Old(s.fs, SettleInDrag(s, drag, id, item, env).fs, q)
  {
    hide FinalizeDrag;
  }

  /** `q` does not lie under any name without a staging prefix in the receive folder. */
  ghost predicate BelowStaging(home: Path, q: Path) { |q| > |home| + 1 && IsStaging(q[|home|]) }

  lemma FinalizeTreeAdds(s: State, tree: nat, env: Env, q: Path)
    requires WellFormed(s.fs) && FinalizeTree(s, tree, env).drag.Some? && BelowStaging(s.fileDir, q)
    requires tree in s.trees && s.trees[tree].failed.None? ==> Names.IsClean(s.trees[tree].name)
    ensures Old(s.fs, FinalizeTree(s, tree, env).fs, q)
  {
    hide SettleInDrag, MovePath, MkdirAll, FreeDirPath, RemoveDir, WellFormed, Names.IsClean, IsStaging;
    if tree in s.trees && s.trees[tree].Settled() {
      var t := s.trees[tree];
      if t.failed.Some? {
        var fs1 := if t.root != [] then RemoveDir(s.fs, t.root) else s.fs;
        RemoveAdds(s.fs, t.root, q);
        if t.staging.Some? { RemoveAdds(fs1, t.staging.value, q); }
        var fs2 := if t.staging.Some? then RemoveDir(fs1, t.staging.value) else fs1;
        SettleInDragAdds(s.(trees := s.trees - {tree}, fs := fs2), t.drag, tree, None, env, q);
      } else if t.drag.Some? {
        if s.DragIs(t.drag) {
          SettleInDragAdds(s.(trees := s.trees - {tree}), t.drag, tree,
            Some(Staged(tree, t.name, true, t.total, t.root, Some(t))), env, q);
        } else {
          RemoveAdds(s.fs, t.root, q);
        }
      } else {
        PlacedTreeAdds(s, tree, env, q);
      }
    }
  }

  lemma PlacedTreeAdds(s: State, tree: nat, env: Env, q: Path)
    requires WellFormed(s.fs) && BelowStaging(s.fileDir, q)
    requires tree in s.trees && s.trees[tree].Settled() && s.trees[tree].failed.None? && s.trees[tree].drag.None?
    requires Names.IsClean(s.trees[tree].name)
    ensures Old(s.fs, FinalizeTree(s, tree, env).fs, q)
  {
    hide MovePath, MkdirAll, FreeDirPath, RemoveDir, WellFormed, Names.IsClean, IsStaging;
    var t, home := s.trees[tree], s.fileDir;
    var fs1 := OrElse(MkdirAll(s.fs, home, env), s.fs);
    if MkdirAll(s.fs, home, env).Some? { MkdirAllEffect(s.fs, home, env); }
    MkdirAdds(s.fs, home, env, q);
    var dest := FreeDirPath(fs1, home, t.name);
    FreeNameUnstaged(fs1, home, t.name);
    var n :| dest == home + [n] && !IsStaging(n);
    if dest <= q { PrefixAt(home, n, q); }
    MoveAdds(fs1, t.root, dest, env, q);
    var fs2 := OrElse(MovePath(fs1, t.root, dest, env), fs1);
    if t.staging.Some? { RemoveAdds(fs2, t.staging.value, q); }
    var fs3 := if t.staging.Some? then RemoveDir(fs2, t.staging.value) else fs2;
    RemoveAdds(fs3, t.root, q);
  }

  lemma MemberAdds(s: State, r: State, tree: nat, tr: Tree, env: Env, q: Path)
    requires Located(s) && WellFormed(r.fs) && r == s.(recv := r.recv, fs := r.fs, replies := r.replies)
    requires tree in s.trees && tr.name == s.trees[tree].name && (tr.failed.None? ==> s.trees[tree].failed.None?)
    requires FinalizeTree(r.WithTree(tree, tr), tree, env).drag.Some? && BelowStaging(s.fileDir, q)
    ensures Old(r.fs, FinalizeTree(r.WithTree(tree, tr), tree, env).fs, q)
  {
    hide FinalizeTree, WellFormed, IsStaging, Names.IsClean, TidyFs, Inside;
    assert TreeLocated(s, tree);
    FinalizeTreeAdds(r.WithTree(tree, tr), tree, env, q);
  }

  lemma SettleFailureAdds(s: State, r: State, id: nat, why: Reason, env: Env, q: Path)
    requires Located(s) && id in s.recv && WellFormed(r.fs) && BelowStaging(s.fileDir, q)
    requires r == s.(recv := s.recv - {id}, fs := r.fs, replies := r.replies)
    requires SettleFailure(r, s.recv[id], id, why, env).drag.Some?
    ensures Old(r.fs, SettleFailure(r, s.recv[id], id, why, env).fs, q)
  {
    hide FinalizeTree, SettleInDrag, WellFormed, Located, IsStaging;
    var t := s.recv[id];
    match t.tree
    case Some(tree) =>
      if tree in s.trees {
        var tr := r.trees[tree].(outstanding := r.trees[tree].outstanding - {id}).Fail(InFile(t.name, why));
        MemberAdds(s, r, tree, tr, env, q);
      }
    case None => SettleInDragAdds(r, t.drag, id, None, env, q);
  }

  lemma DropAdds(s: State, r: State, id: nat, why: Reason, env: Env, q: Path)
    requires Located(s) && id in s.recv && r == Drop(s, id).(replies := r.replies) && BelowStaging(s.fileDir, q)
    requires SettleFailure(r, s.recv[id], id, why, env).drag.Some?
    ensures Old(s.fs, SettleFailure(r, s.recv[id], id, why, env).fs, q)
  {
    hide Located, WellFormed, SettleFailure, RemoveFile, IsStaging;
    RemoveAdds(s.fs, s.recv[id].part, q);
    LocatedTidy(s);
    RemoveFilesEffect(s.fs, {s.recv[id].part});
    SettleFailureAdds(s, r, id, why, env, q);
  }

  lemma ChunkAdds(s: State, id: nat, offset: nat, data: Bytes, env: Env, q: Path)
    requires Located(s) && id in s.recv && BelowStaging(s.fileDir, q) && Chunk(s, id, offset, data, env).drag.Some?
    ensures Old(s.fs, Chunk(s, id, offset, data, env).fs, q)
  {
    hide Located, SettleFailure, RemoveFile, IsStaging;
    forall w, r: State | r == Drop(s, id).(replies := r.replies) && SettleFailure(r, s.recv[id], id, w, env).drag.Some?
      ensures Old(s.fs, SettleFailure(r, s.recv[id], id, w, env).fs, q)
    {
      DropAdds(s, r, id, w, env, q);
    }
  }

  lemma DoneAdds(s: State, id: nat, digest: Digest, env: Env, q: Path)
    requires Located(s) && id in s.recv && BelowStaging(s.fileDir, q) && Done(s, id, digest, env).drag.Some?
    ensures Old(s.fs, Done(s, id, digest, env).fs, q)
            || (Finishes(s, FileDone(id, digest), env) && q == s.recv[id].final)
  {
    hide Located, Done, BelowStaging;
    var fs := FinishRecv(s.fs, id, s.recv[id], digest, env).0;
    RemoveAdds(s.fs, s.recv[id].part, q);
    assert Old(s.fs, fs, q) || (Finishes(s, FileDone(id, digest), env) && q == s.recv[id].final);
    DoneSettlingAdds(s, id, digest, env, q);
  }

  lemma DoneSettlingAdds(s: State, id: nat, digest: Digest, env: Env, q: Path)
    requires Located(s) && id in s.recv && BelowStaging(s.fileDir, q) && Done(s, id, digest, env).drag.Some?
    ensures Old(FinishRecv(s.fs, id, s.recv[id], digest, env).0, Done(s, id, digest, env).fs, q)
  {
    hide FinalizeTree, SettleInDrag, WellFormed, Located, BelowStaging, FinishRecv, Old;
    var t := s.recv[id];
    var (fs, error) := FinishRecv(s.fs, id, t, digest, env);
    LocatedTidy(s);
    FinishWellFormed(s.fs, id, t, digest, env);
    var s1 := s.(recv := s.recv - {id}, fs := fs);
    match t.tree
    case Some(tree) =>
      if tree in s.trees {
        var tr := s1.trees[tree].(outstanding := s1.trees[tree].outstanding - {id});
        var tr1 := if error.Some? then tr.Fail(InFile(t.name, error.value))
                   else tr.(doneBytes := tr.doneBytes + t.size, verified := tr.verified + [Verified(id, t.size)]);
        MemberAdds(s, s1, tree, tr1, env, q);
      } else {
        OldSame(fs, q);
      }
    case None =>
      var s2 := if error.None? && t.drag.None?
        then s1.(placed := s1.placed + [Placed(id, false, t.final, None)]) else s1;
      var item := Staged(id, t.name, false, t.size, t.final, None);
      SettleInDragAdds(s2, t.drag, id, if error.None? then Some(item) else None, env, q);
  }

  lemma OldSame(fs: Fs, q: Path)
    ensures Old(fs, fs, q)
  {
  }

  /* ---- offers ---- */

  lemma AcceptAdds(s: State, dir: Path, id: nat, name: string, size: nat, drag: Option<nat>, tree: Option<nat>,
                   env: Env, q: Path)
    requires WellFormed(s.fs) && !(q <= dir)
    ensures var (r, accepted) := AcceptOffer(s, dir, id, name, size, drag, tree, env);
            Old(s.fs, r.fs, q) || (accepted && q == r.recv[id].part && dir <= q && |q| == |dir| + 1)
  {
    hide BeginRecv, WellFormed, IsStaging, Names.IsClean;
    BeginRecvEffect(s.fs, dir, id, name, size, drag, tree, env);
  }

  /** The message offers the drag a file, whose temporary file is started at `q`. */
  ghost predicate StartsAt(s: State, m: Message, env: Env, q: Path) {
    && m.DragOffer? && s.DragIs(Some(m.drag)) && m.id !in s.recv && m.id in Handle(s, m, env).recv
    && Handle(s, m, env).recv[m.id].part == q
  }

  /** The message offers the drag a folder, which is given the directory `q`. */
  ghost predicate RootsAt(s: State, m: Message, env: Env, q: Path) {
    && m.TreeOffer? && s.DragIs(m.within) && m.tree !in s.trees && m.tree in Handle(s, m, env).trees
    && Handle(s, m, env).trees[m.tree].root == q
  }

  lemma PlainAdds(s: State, id: nat, name: string, size: nat, env: Env, p: Path, q: Path)
    requires Sound(s) && InDrag(s, p, q)
    ensures Old(s.fs, Handle(s, FileOffer(id, name, size), env).fs, q)
  {
    hide AcceptOffer, Owned, Laid, Located, WellFormed;
    LocatedTidy(s);
    DragDir(s);
    AcceptAdds(s, s.fileDir, id, name, size, None, None, env, q);
  }

  lemma LooseAdds(s: State, drag: nat, id: nat, name: string, size: nat, env: Env, p: Path, q: Path)
    requires Sound(s) && InDrag(s, p, q) && Handle(s, DragOffer(drag, id, name, size), env).drag.Some?
    ensures Old(s.fs, Handle(s, DragOffer(drag, id, name, size), env).fs, q)
            || (StartsAt(s, DragOffer(drag, id, name, size), env, q) && q == p)
  {
    hide AcceptOffer, FinalizeDrag, Owned, Laid, Located, WellFormed;
    LocatedTidy(s);
    if s.DragIs(Some(drag)) {
      var d := s.drag.value.(offered := s.drag.value.offered + 1);
      AcceptAdds(s.WithDrag(d), d.dir, id, name, size, Some(drag), None, env, q);
      if |q| == |p| { assert p == q; }
    }
  }

  lemma MemberOfferAdds(s: State, tree: nat, id: nat, rel: string, size: nat, env: Env, p: Path, q: Path)
    requires Sound(s) && InDrag(s, p, q)
    ensures Old(s.fs, OfferInTree(s, tree, id, rel, size, env).fs, q)
  {
    hide AcceptOffer, Owned, Laid, Located, WellFormed, Names.SanitizeRel, InDrag, Old;
    LocatedTidy(s);
    OldSame(s.fs, q);
    if tree in s.trees && s.trees[tree].failed.None? {
      var t := s.trees[tree].(entries := s.trees[tree].entries + 1, offered := s.trees[tree].offered + [id]);
      var path := Names.SanitizeRel(rel);
      if path.Some? && path.value != [] {
        RootKnown(s, tree);
        MemberPartAdds(s, tree, t, id, path.value, size, env, p, q);
      }
    }
  }

  lemma MemberPartAdds(s: State, tree: nat, t: Tree, id: nat, path: Path, size: nat, env: Env, p: Path, q: Path)
    requires Sound(s) && InDrag(s, p, q) && tree in s.trees && s.trees[tree].failed.None?
    requires t.root == s.trees[tree].root != [] && path != []
    ensures var k := |path| - 1;
            Old(s.fs, AcceptOffer(s.WithTree(tree, t), t.root + path[..k], id, path[k], size, t.drag, Some(tree),
                                  env).0.fs, q)
  {
    hide AcceptOffer, Owned, Laid, Located, WellFormed, InDrag;
    LocatedTidy(s);
    var k := |path| - 1;
    FolderApart(s, p, q, tree, path[..k]);
    NotBelowFolder(t.root, path[..k], q);
    AcceptAdds(s.WithTree(tree, t), t.root + path[..k], id, path[k], size, t.drag, Some(tree), env, q);
  }

  lemma NotBelowFolder(root: Path, path: Path, q: Path)
    requires !(root <= q)
    ensures !(root + path <= q)
  {
    if root + path <= q { BelowBelow(root, root + path, q); }
  }

  lemma MakeDirAdds(s: State, tree: nat, rel: string, env: Env, p: Path, q: Path)
    requires Sound(s) && InDrag(s, p, q)
    ensures Old(s.fs, MakeDir(s, tree, rel, env).fs, q)
  {
    hide MkdirAll, Names.SanitizeRel, Owned, Laid, Located, InDrag;
    if tree in s.trees && s.trees[tree].failed.None? && Names.SanitizeRel(rel).Some? {
      RootKnown(s, tree);
      FolderApart(s, p, q, tree, Names.SanitizeRel(rel).value);
      MkdirAdds(s.fs, s.trees[tree].root + Names.SanitizeRel(rel).value, env, q);
    }
  }

  lemma FolderOfferAdds(s: State, tree: nat, name: string, files: nat, bytes: nat, drag: Option<nat>, env: Env,
                        p: Path, q: Path)
    requires Sound(s) && InDrag(s, p, q)
    ensures var r := OfferTree(s, tree, name, files, bytes, drag, env);
            Old(s.fs, r.fs, q) || (tree !in s.trees && s.DragIs(drag) && q == r.trees[tree].root && q == p)
  {
    hide Owned, Laid, Located, Names.Sanitize, RootTree, MkdirAll, FreeDirPath, DragStagingName, TreeStagingName;
    DragDir(s);
    StagingNames(tree, s.drag.value.drag);
    OwnStagingApart(s, p, tree);
    var safe := Names.Sanitize(name);
    if safe.Some? && (drag.None? || s.DragIs(drag)) && tree !in s.trees {
      var parent := if drag.Some? then s.drag.value.dir else s.fileDir + [TreeStagingName(tree)];
      forall s1: State, c, staging | s1.fs == s.fs && tree !in s1.trees
        ensures var r := RootTree(s1, tree, safe.value, files, bytes, drag, c, parent, staging, env);
                Old(s.fs, r.fs, q) || (q == r.trees[tree].root && q == p && parent <= p)
      {
        RootAdds(s1, tree, safe.value, files, bytes, drag, c, parent, staging, env, p, q);
      }
    }
  }

  lemma OwnStagingApart(s: State, p: Path, tree: nat)
    requires s.drag.Some? && s.drag.value.dir == s.fileDir + [DragStagingName(s.drag.value.drag)]
             && s.drag.value.dir <= p
    ensures !(s.fileDir + [TreeStagingName(tree)] <= p)
  {
    StagingNames(tree, s.drag.value.drag);
    PrefixAt(s.fileDir, DragStagingName(s.drag.value.drag), p);
    if s.fileDir + [TreeStagingName(tree)] <= p { PrefixAt(s.fileDir, TreeStagingName(tree), p); }
  }

  lemma RootAdds(s: State, tree: nat, name: string, files: nat, bytes: nat, drag: Option<nat>, counted: bool,
                 parent: Path, staging: Option<Path>, env: Env, p: Path, q: Path)
    requires tree !in s.trees && |p| == |parent| + 1 && p <= q
    ensures var r := RootTree(s, tree, name, files, bytes, drag, counted, parent, staging, env);
            Old(s.fs, r.fs, q) || (q == r.trees[tree].root && q == p && parent <= p)
  {
    hide MkdirAll;
    MkdirAdds(s.fs, parent, env, q);
    if MkdirAll(s.fs, parent, env).Some? {
      var fs := MkdirAll(s.fs, parent, env).value;
      PlacementIsFresh(fs, parent, name, "");
      var root := FreeDirPath(fs, parent, name);
      if q <= root {
        assert |q| == |root|;
        assert q == p == root;
      } else {
        MkdirAdds(fs, root, env, q);
      }
    }
  }

  /* ---- every message ---- */

  /** While a drag goes on: what comes to be at or below a place directly in its
      directory, if no live folder's, is the temporary file of a file offered just
      now, the directory of a folder offered just now, or a file finished just now. */
  lemma HandleAdds(s: State, m: Message, env: Env, p: Path, q: Path)
    requires Sound(s) && InDrag(s, p, q) && !m.DragBegin? && Handle(s, m, env).drag.Some?
    ensures || Old(s.fs, Handle(s, m, env).fs, q)
            || (Finishes(s, m, env) && q == s.recv[m.id].final)
            || (StartsAt(s, m, env, q) && q == p)
            || (RootsAt(s, m, env, q) && q == p)
  {
    hide Owned, Laid, Located, FinalizeDrag, FinalizeTree, SettleFailure, Done, Chunk, DiscardDrag, RemoveFile;
    hide StartsAt;
    hide AcceptOffer, OfferInDrag, OfferInTree, OfferTree, MakeDir, InDrag, IsStaging, RootsAt;
    InDragStaged(s, p, q);
    match m
    case FileOffer(id, name, size) => PlainAdds(s, id, name, size, env, p, q);
    case DragOffer(drag, id, name, size) => LooseAdds(s, drag, id, name, size, env, p, q);
    case DragDrop(drag) => if s.DragIs(Some(drag)) {
      UndroppedSame(s.WithDrag(s.drag.value.(dropRequested := true)), env);
    }
    case DragCancel(drag) => if s.DragIs(Some(drag)) { DiscardedNone(s); }
    case TreeOffer(tree, name, files, bytes, within) =>
      FolderOfferAdds(s, tree, name, files, bytes, within, env, p, q);
      if tree !in s.trees && s.DragIs(within) { OfferRoots(s, tree, name, files, bytes, within, env, q); }
    case TreeDir(tree, rel) => MakeDirAdds(s, tree, rel, env, p, q);
    case TreeFile(tree, id, rel, size) => MemberOfferAdds(s, tree, id, rel, size, env, p, q);
    case TreeEnd(tree, error) =>
      if tree in s.trees {
        LocatedTidy(s);
        var t := s.trees[tree].(ended := true);
        MemberAdds(s, s, tree, if error.Some? then t.Fail(FromPeer(error.value)) else t, env, q);
      }
    case FileChunk(id, offset, data) =>
      if id in s.recv { ChunkAdds(s, id, offset, data, env, q); } else { UnknownSame(s, id, offset, data, [], env); }
    case FileDone(id, digest) =>
      if id in s.recv { DoneAdds(s, id, digest, env, q); } else { UnknownSame(s, id, 0, [], digest, env); }
    case FileCancel(id, why) => if id in s.recv { DropAdds(s, Drop(s, id), id, why, env, q); }
  }

  lemma InDragStaged(s: State, p: Path, q: Path)
    requires Sound(s) && InDrag(s, p, q)
    ensures BelowStaging(s.fileDir, q)
  {
    hide Owned, Laid, TidyFs, IsStaging, Names.IsClean;
    DragDir(s);
    StagingNames(s.drag.value.drag, 0);
    BelowBelow(s.drag.value.dir, p, q);
    PrefixAt(s.fileDir, DragStagingName(s.drag.value.drag), q);
  }

  lemma UndroppedSame(s: State, env: Env)
    ensures FinalizeDrag(s, env).drag.Some? ==> FinalizeDrag(s, env) == s
  {
    hide FinalizeDrag;
  }

  lemma DiscardedNone(s: State)
    requires s.drag.Some?
    ensures DiscardDrag(s.(drag := None), s.drag.value).drag == None
  {
    hide DiscardDrag;
  }

  lemma OfferRoots(s: State, tree: nat, name: string, files: nat, bytes: nat, drag: Option<nat>, env: Env, q: Path)
    requires tree !in s.trees && s.DragIs(drag)
    ensures q == OfferTree(s, tree, name, files, bytes, drag, env).trees[tree].root ==>
              RootsAt(s, TreeOffer(tree, name, files, bytes, drag), env, q)
  {
    hide OfferTree;
  }
}
