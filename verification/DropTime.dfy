/** The moment of a drop: a message that completes a drop does what it would do while
    the drop was not requested yet, and then the drop happens. */
module DropTime {
  import opened Basics
  import opened Disk
  import opened Receiving
  import opened Ownership
  import Names

  /** The same state with the drop not requested, or requested. */
  function Undropped(s: State): State {
    if s.drag.Some? then s.WithDrag(s.drag.value.(dropRequested := false)) else s
  }

  function Dropping(s: State): State {
    if s.drag.Some? then s.WithDrag(s.drag.value.(dropRequested := true)) else s
  }

  /** The state just before the drag's items are placed, if the message completes the drop. */
  function BeforeDrop(s: State, m: Message, env: Env): State {
    if m.DragDrop? then Dropping(s) else Dropping(Handle(Undropped(s), m, env))
  }

  /** `s` is `b` with the drop requested. */
  predicate Pair(s: State, b: State) { b.drag.Some? && !b.drag.value.dropRequested && s == Dropping(b) }

  /** `s` is `b` with the drop requested, or with the drop made. */
  predicate Factors(s: State, b: State, env: Env) {
    b.drag.Some? && !b.drag.value.dropRequested && (s == Dropping(b) || s == FinalizeDrag(Dropping(b), env))
  }

  lemma SettleInDragFactors(s: State, b: State, drag: Option<nat>, id: nat, item: Option<Staged>, env: Env)
    requires Pair(s, b)
    ensures Factors(SettleInDrag(s, drag, id, item, env), SettleInDrag(b, drag, id, item, env), env)
  {
    hide PlaceAll, MkdirAll, RemoveDir;
    if s.DragIs(drag) {
      var d := b.drag.value.(outstanding := b.drag.value.outstanding - {id});
      var b1 := b.WithDrag(if item.Some? then d.(done := d.done + [item.value]) else d);
      assert SettleInDrag(b, drag, id, item, env) == b1;
      assert SettleInDrag(s, drag, id, item, env) == FinalizeDrag(Dropping(b1), env);
    }
  }

  lemma FinalizeTreeFactors(s: State, b: State, tree: nat, env: Env)
    requires Pair(s, b)
    ensures Factors(FinalizeTree(s, tree, env), FinalizeTree(b, tree, env), env)
  {
    hide SettleInDrag, FinalizeDrag, MovePath, MkdirAll, FreeDirPath, RemoveDir;
    if tree in s.trees && s.trees[tree].Settled() {
      var t := s.trees[tree];
      forall fs: Fs, item: Option<Staged>
        ensures Factors(SettleInDrag(s.(trees := s.trees - {tree}, fs := fs), t.drag, tree, item, env),
                        SettleInDrag(b.(trees := b.trees - {tree}, fs := fs), t.drag, tree, item, env), env)
      {
        SettleInDragFactors(s.(trees := s.trees - {tree}, fs := fs), b.(trees := b.trees - {tree}, fs := fs),
                            t.drag, tree, item, env);
      }
      assert s.(trees := s.trees - {tree}, fs := s.fs) == s.(trees := s.trees - {tree});
      assert b.(trees := b.trees - {tree}, fs := b.fs) == b.(trees := b.trees - {tree});
    }
  }

  lemma SettleFailureFactors(s: State, b: State, t: Recv, id: nat, why: Reason, env: Env)
    requires Pair(s, b)
    ensures Factors(SettleFailure(s, t, id, why, env), SettleFailure(b, t, id, why, env), env)
  {
    hide FinalizeTree, SettleInDrag, FinalizeDrag;
    match t.tree
    case Some(tree) =>
      if tree in s.trees {
        var tr := s.trees[tree].(outstanding := s.trees[tree].outstanding - {id}).Fail(InFile(t.name, why));
        FinalizeTreeFactors(s.WithTree(tree, tr), b.WithTree(tree, tr), tree, env);
      }
    case None => SettleInDragFactors(s, b, t.drag, id, None, env);
  }

  lemma ChunkFactors(s: State, b: State, id: nat, offset: nat, data: Bytes, env: Env)
    requires Pair(s, b)
    ensures Factors(Chunk(s, id, offset, data, env), Chunk(b, id, offset, data, env), env)
  {
    hide SettleFailure, RemoveFile, FinalizeDrag;
    if id in s.recv {
      forall w ensures Factors(SettleFailure(Drop(s, id).Say(Abort(id, w)), s.recv[id], id, w, env),
                               SettleFailure(Drop(b, id).Say(Abort(id, w)), b.recv[id], id, w, env), env)
      {
        SettleFailureFactors(Drop(s, id).Say(Abort(id, w)), Drop(b, id).Say(Abort(id, w)), s.recv[id], id, w, env);
      }
    }
  }

  lemma DoneFactors(s: State, b: State, id: nat, digest: Digest, env: Env)
    requires Pair(s, b)
    ensures Factors(Done(s, id, digest, env), Done(b, id, digest, env), env)
  {
    hide FinalizeTree, SettleInDrag, FinishRecv, FinalizeDrag;
    if id in s.recv {
      var t := s.recv[id];
      var (fs, error) := FinishRecv(s.fs, id, t, digest, env);
      var s1, b1 := s.(recv := s.recv - {id}, fs := fs), b.(recv := b.recv - {id}, fs := fs);
      match t.tree
      case Some(tree) =>
        if tree in s.trees {
          var tr := s1.trees[tree].(outstanding := s1.trees[tree].outstanding - {id});
          var tr1 := if error.Some? then tr.Fail(InFile(t.name, error.value))
                     else tr.(doneBytes := tr.doneBytes + t.size, verified := tr.verified + [Verified(id, t.size)]);
          FinalizeTreeFactors(s1.WithTree(tree, tr1), b1.WithTree(tree, tr1), tree, env);
        }
      case None =>
        var ps := if error.None? && t.drag.None? then s1.placed + [Placed(id, false, t.final, None)] else s1.placed;
        var item := Staged(id, t.name, false, t.size, t.final, None);
        SettleInDragFactors(s1.(placed := ps), b1.(placed := ps), t.drag, id, if error.None? then Some(item) else None,
                            env);
        assert s1.(placed := s1.placed) == s1 && b1.(placed := b1.placed) == b1;
    }
  }

  lemma AcceptPair(s: State, b: State, dir: Path, id: nat, name: string, size: nat, drag: Option<nat>,
                   tree: Option<nat>, env: Env)
    requires Pair(s, b)
    ensures var (s1, x) := AcceptOffer(s, dir, id, name, size, drag, tree, env);
            var (b1, y) := AcceptOffer(b, dir, id, name, size, drag, tree, env);
            x == y && Pair(s1, b1)
  {
    hide BeginRecv;
  }

  lemma OfferInDragFactors(s: State, b: State, drag: nat, id: nat, name: string, size: nat, env: Env)
    requires Pair(s, b)
    ensures Factors(OfferInDrag(s, drag, id, name, size, env), OfferInDrag(b, drag, id, name, size, env), env)
  {
    hide AcceptOffer, PlaceAll, MkdirAll, RemoveDir;
    if s.DragIs(Some(drag)) {
      var d := s.drag.value.(offered := s.drag.value.offered + 1);
      var e := b.drag.value.(offered := b.drag.value.offered + 1);
      AcceptPair(s.WithDrag(d), b.WithDrag(e), d.dir, id, name, size, Some(drag), None, env);
    }
  }

  lemma OfferInTreeFactors(s: State, b: State, tree: nat, id: nat, rel: string, size: nat, env: Env)
    requires Pair(s, b)
    ensures Pair(OfferInTree(s, tree, id, rel, size, env), OfferInTree(b, tree, id, rel, size, env))
  {
    hide AcceptOffer, Names.SanitizeRel;
    if tree in s.trees && s.trees[tree].failed.None? {
      var t := s.trees[tree].(entries := s.trees[tree].entries + 1, offered := s.trees[tree].offered + [id]);
      var path := Names.SanitizeRel(rel);
      if path.Some? && path.value != [] {
        var k := |path.value| - 1;
        AcceptPair(s.WithTree(tree, t), b.WithTree(tree, t), t.root + path.value[..k], id, path.value[k], size, t.drag,
                   Some(tree), env);
      }
    }
  }

  lemma OfferTreePair(s: State, b: State, tree: nat, name: string, files: nat, bytes: nat, drag: Option<nat>, env: Env)
    requires Pair(s, b)
    ensures Pair(OfferTree(s, tree, name, files, bytes, drag, env), OfferTree(b, tree, name, files, bytes, drag, env))
  {
    hide MkdirAll, FreeDirPath, Names.Sanitize;
  }

  lemma MakeDirPair(s: State, b: State, tree: nat, rel: string, env: Env)
    requires Pair(s, b)
    ensures Pair(MakeDir(s, tree, rel, env), MakeDir(b, tree, rel, env))
  {
    hide MkdirAll, Names.SanitizeRel;
  }

  lemma HandleFactors(s: State, b: State, m: Message, env: Env)
    requires Pair(s, b) && !m.DragBegin? && !m.DragDrop? && m != DragCancel(s.drag.value.drag)
    ensures Factors(Handle(s, m, env), Handle(b, m, env), env)
  {
    hide FinalizeDrag, FinalizeTree, SettleFailure, Done, Chunk, RemoveFile, AcceptOffer, OfferInDrag, OfferInTree;
    hide OfferTree, MakeDir;
    match m
    case FileOffer(id, name, size) => AcceptPair(s, b, s.fileDir, id, name, size, None, None, env);
    case DragOffer(drag, id, name, size) => OfferInDragFactors(s, b, drag, id, name, size, env);
    case DragCancel(drag) =>
    case TreeOffer(tree, name, files, bytes, within) => OfferTreePair(s, b, tree, name, files, bytes, within, env);
    case TreeDir(tree, rel) => MakeDirPair(s, b, tree, rel, env);
    case TreeFile(tree, id, rel, size) => OfferInTreeFactors(s, b, tree, id, rel, size, env);
    case TreeEnd(tree, error) =>
      if tree in s.trees {
        var t := s.trees[tree].(ended := true);
        var t' := if error.Some? then t.Fail(FromPeer(error.value)) else t;
        FinalizeTreeFactors(s.WithTree(tree, t'), b.WithTree(tree, t'), tree, env);
      }
    case FileChunk(id, offset, data) => ChunkFactors(s, b, id, offset, data, env);
    case FileDone(id, digest) => DoneFactors(s, b, id, digest, env);
    case FileCancel(id, why) =>
      if id in s.recv { SettleFailureFactors(Drop(s, id), Drop(b, id), s.recv[id], id, why, env); }
  }

  /** A message that ends a drag without abandoning it drops it, from `BeforeDrop`. */
  lemma DropIs(s: State, m: Message, env: Env)
    requires s.drag.Some? && NothingReady(s) && !m.DragBegin? && m != DragCancel(s.drag.value.drag)
    requires Handle(s, m, env).drag.None?
    ensures var b := BeforeDrop(s, m, env);
            && b.drag.Some? && b.drag.value.dropRequested && b.drag.value.Settled()
            && Handle(s, m, env) == FinalizeDrag(b, env)
            && (!m.DragDrop? ==> Handle(Undropped(s), m, env).drag.Some? && b == Dropping(Handle(Undropped(s), m, env)))
  {
    hide Handle, FinalizeDrag;
    if m.DragDrop? {
      DropNow(s, m.drag, env);
    } else if s.drag.value.dropRequested {
      HandleFactors(s, Undropped(s), m, env);
      FinalizedIfReady(BeforeDrop(s, m, env), env);
    } else {
      OnlyIfRequested(s, m, env);
    }
  }

  lemma DropNow(s: State, d: nat, env: Env)
    requires s.drag.Some? && Handle(s, DragDrop(d), env).drag.None?
    ensures Handle(s, DragDrop(d), env) == FinalizeDrag(Dropping(s), env) && s.drag.value.Settled()
  {
    hide PlaceAll, MkdirAll, RemoveDir;
  }

  lemma FinalizedIfReady(b: State, env: Env)
    requires b.drag.Some?
    ensures FinalizeDrag(b, env).drag.None? ==> b.drag.value.dropRequested && b.drag.value.Settled()
  {
    hide PlaceAll, MkdirAll, RemoveDir;
  }

  /** A drag is not dropped before that is requested. */
  lemma OnlyIfRequested(s: State, m: Message, env: Env)
    requires s.drag.Some? && !s.drag.value.dropRequested
    requires !m.DragBegin? && !m.DragDrop? && m != DragCancel(s.drag.value.drag)
    ensures Handle(s, m, env).drag.Some?
  {
    hide Handle, FinalizeDrag;
    HandleFactors(Dropping(s), s, m, env);
  }
}
