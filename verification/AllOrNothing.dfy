/** A folder is delivered, or handed to its drag, whole or not at all. */
module AllOrNothing {
  import opened Basics
  import opened Disk
  import opened Receiving
  import opened Ownership

  function Ids(v: seq<Verified>): seq<nat> {
    if v == [] then [] else Ids(v[..|v| - 1]) + [v[|v| - 1].id]
  }

  function Sizes(v: seq<Verified>): nat {
    if v == [] then 0 else Sizes(v[..|v| - 1]) + v[|v| - 1].size
  }

  /** `done_bytes` is the sum of the verified sizes; and as long as nothing
      failed, every file offered to the folder is outstanding or verified (each
      as often as it was offered) and every directory announced was made. */
  ghost predicate WholeSoFar(t: Tree) {
    && t.doneBytes == Sizes(t.verified)
    && (t.failed.None? ==>
          multiset(t.offered) == multiset(t.outstanding) + multiset(Ids(t.verified)) && t.dirs == t.made)
  }

  /** Closed by the sender, nothing failed, every offered file verified and every directory made. */
  ghost predicate Intact(t: Tree) {
    && t.ended && t.failed.None?
    && multiset(t.offered) == multiset(Ids(t.verified))
    && t.doneBytes == Sizes(t.verified)
    && t.dirs == t.made
  }

  ghost predicate IntactIfFolder(folder: bool, record: Option<Tree>) {
    folder ==> record.Some? && Intact(record.value)
  }

  ghost predicate StagedIntact(d: Option<Drag>) {
    d.Some? ==> forall x :: x in d.value.done ==> IntactIfFolder(x.folder, x.record)
  }

  ghost predicate PlacedIntact(ps: seq<Placed>) {
    forall p :: p in ps ==> IntactIfFolder(p.folder, p.record)
  }

  ghost predicate Whole(s: State) {
    && (forall t :: t in s.trees ==> WholeSoFar(s.trees[t]))
    && StagedIntact(s.drag)
    && PlacedIntact(s.placed)
  }

  lemma {:induction false} PlaceAllIntact(fs: Fs, items: seq<Staged>, dest: Path, env: Env)
    requires forall x :: x in items ==> IntactIfFolder(x.folder, x.record)
    ensures PlacedIntact(PlaceAll(fs, items, dest, env).1)
  {
    hide MovePath, FreeDirPath, FreeFilePath;
    if items != [] {
      PlaceAllIntact(fs, items[..|items| - 1], dest, env);
    }
  }

  lemma FinalizeDragWhole(s: State, env: Env)
    requires Whole(s)
    ensures Whole(FinalizeDrag(s, env))
  {
    hide PlaceAll, MkdirAll;
    if s.drag.Some? {
      forall fs ensures PlacedIntact(PlaceAll(fs, s.drag.value.done, s.DropDir(), env).1) {
        PlaceAllIntact(fs, s.drag.value.done, s.DropDir(), env);
      }
    }
  }

  lemma SettleInDragWhole(s: State, drag: Option<nat>, id: nat, item: Option<Staged>, env: Env)
    requires Whole(s) && (item.Some? ==> IntactIfFolder(item.value.folder, item.value.record))
    ensures Whole(SettleInDrag(s, drag, id, item, env))
  {
    hide FinalizeDrag;
    forall s': State | Whole(s') ensures Whole(FinalizeDrag(s', env)) { FinalizeDragWhole(s', env); }
  }

  lemma FinalizeTreeWhole(s: State, tree: nat, env: Env)
    requires Whole(s)
    ensures Whole(FinalizeTree(s, tree, env))
  {
    hide SettleInDrag, MkdirAll, MovePath, FreeDirPath, RemoveDir;
    if tree in s.trees && s.trees[tree].Settled() {
      var t := s.trees[tree];
      assert WholeSoFar(t);
      assert t.failed.None? ==> Intact(t);
      forall s': State, item: Option<Staged> |
        s'.trees == s.trees - {tree} && s'.drag == s.drag && s'.placed == s.placed
        && (item.Some? ==> IntactIfFolder(item.value.folder, item.value.record))
        ensures Whole(SettleInDrag(s', t.drag, tree, item, env))
      {
        SettleInDragWhole(s', t.drag, tree, item, env);
      }
    }
  }

  /** A file of a folder settled. */
  lemma FileSettledWhole(tr: Tree, id: nat, size: nat, why: Option<Reason>)
    requires WholeSoFar(tr) && id in tr.outstanding
    ensures var t := tr.(outstanding := tr.outstanding - {id});
            && (why.Some? ==> WholeSoFar(t.Fail(why.value)))
            && WholeSoFar(t.(doneBytes := t.doneBytes + size, verified := t.verified + [Verified(id, size)]))
  {
    var v := tr.verified + [Verified(id, size)];
    assert v[..|v| - 1] == tr.verified;
    assert multiset(tr.outstanding) == multiset(tr.outstanding - {id}) + multiset{id};
  }

  lemma DoneWhole(s: State, id: nat, digest: Digest, env: Env)
    requires Owned(s) && Whole(s)
    ensures Whole(Done(s, id, digest, env))
  {
    hide FinalizeTree, SettleInDrag, FinishRecv, WholeSoFar;
    if id in s.recv {
      var t := s.recv[id];
      var (fs, error) := FinishRecv(s.fs, id, t, digest, env);
      var s1 := s.(recv := s.recv - {id}, fs := fs);
      if t.tree.Some? {
        var tree := t.tree.value;
        assert FileOwned(s, id) && TreeOwned(s, tree) && id in FilesOf(s, tree) && WholeSoFar(s.trees[tree]);
        var tr := s1.trees[tree].(outstanding := s1.trees[tree].outstanding - {id});
        var tr1 := if error.Some? then tr.Fail(InFile(t.name, error.value))
                   else tr.(doneBytes := tr.doneBytes + t.size, verified := tr.verified + [Verified(id, t.size)]);
        FileSettledWhole(s.trees[tree], id, t.size, if error.Some? then Some(InFile(t.name, error.value)) else None);
        FinalizeTreeWhole(s1.WithTree(tree, tr1), tree, env);
      } else {
        var s2 := if error.None? && t.drag.None? then s1.(placed := s1.placed + [Placed(id, false, t.final, None)])
                  else s1;
        var item := if error.None? then Some(Staged(id, t.name, false, t.size, t.final, None)) else None;
        SettleInDragWhole(s2, t.drag, id, item, env);
      }
    }
  }

  lemma SettleFailureWhole(s: State, t: Recv, id: nat, why: Reason, env: Env)
    requires Whole(s)
    ensures Whole(SettleFailure(s, t, id, why, env))
  {
    hide FinalizeTree, SettleInDrag;
    SettleInDragWhole(s, t.drag, id, None, env);
    forall s': State, tree | Whole(s') ensures Whole(FinalizeTree(s', tree, env)) { FinalizeTreeWhole(s', tree, env); }
  }

  lemma OfferInDragWhole(s: State, drag: nat, id: nat, name: string, size: nat, env: Env)
    requires Whole(s)
    ensures Whole(OfferInDrag(s, drag, id, name, size, env))
  {
    hide AcceptOffer, FinalizeDrag;
    forall s': State | Whole(s') ensures Whole(FinalizeDrag(s', env)) { FinalizeDragWhole(s', env); }
  }

  lemma OfferInTreeWhole(s: State, tree: nat, id: nat, rel: string, size: nat, env: Env)
    requires Owned(s) && Whole(s)
    ensures Whole(OfferInTree(s, tree, id, rel, size, env))
  {
    hide OfferInTree;
    OfferInTreeEffect(s, tree, id, rel, size, env);
    if tree in s.trees {
      assert WholeSoFar(s.trees[tree]) && TreeOwned(s, tree);
      if id !in s.recv {
        assert id !in FilesOf(s, tree);
        assert multiset(s.trees[tree].outstanding + {id}) == multiset(s.trees[tree].outstanding) + multiset{id};
      }
    }
  }

  lemma OfferTreeWhole(s: State, tree: nat, name: string, files: nat, bytes: nat, drag: Option<nat>, env: Env)
    requires Whole(s)
    ensures Whole(OfferTree(s, tree, name, files, bytes, drag, env))
  {
    hide OfferTree;
    var r := OfferTree(s, tree, name, files, bytes, drag, env);
    if tree !in s.trees {
      assert Ids([]) == [] && multiset(r.trees[tree].outstanding) == multiset{};
      assert WholeSoFar(r.trees[tree]);
    }
  }

  lemma MakeDirWhole(s: State, tree: nat, rel: string, env: Env)
    requires Whole(s)
    ensures Whole(MakeDir(s, tree, rel, env))
  {
    hide MakeDir;
    if tree in s.trees { assert WholeSoFar(s.trees[tree]); }
  }

  lemma EndTreeWhole(s: State, tree: nat, error: Option<string>, env: Env)
    requires Whole(s)
    ensures Whole(EndTree(s, tree, error, env))
  {
    hide FinalizeTree;
    if tree in s.trees {
      var t := s.trees[tree].(ended := true);
      assert WholeSoFar(s.trees[tree]);
      FinalizeTreeWhole(s.WithTree(tree, if error.Some? then t.Fail(FromPeer(error.value)) else t), tree, env);
    }
  }

  lemma ChunkWhole(s: State, id: nat, offset: nat, data: Bytes, env: Env)
    requires Whole(s)
    ensures Whole(Chunk(s, id, offset, data, env))
  {
    hide SettleFailure, RemoveFile;
    forall s': State, t, w | Whole(s')
      ensures Whole(SettleFailure(s', t, id, w, env))
    {
      SettleFailureWhole(s', t, id, w, env);
    }
  }

  /** Every message keeps the promise. */
  lemma HandleKeepsWhole(s: State, m: Message, env: Env)
    requires Owned(s) && Whole(s)
    ensures Whole(Handle(s, m, env))
  {
    hide FinalizeDrag, FinalizeTree, SettleFailure, Done, MkdirAll, RemoveFile, RemoveFiles, RemoveDir;
    hide AcceptOffer, OfferInDrag, OfferInTree, OfferTree, MakeDir, Chunk, EndTree;
    match m
    case FileOffer(id, name, size) =>
    case DragOffer(drag, id, name, size) => OfferInDragWhole(s, drag, id, name, size, env);
    case TreeOffer(tree, name, files, bytes, within) => OfferTreeWhole(s, tree, name, files, bytes, within, env);
    case TreeDir(tree, rel) => MakeDirWhole(s, tree, rel, env);
    case TreeFile(tree, id, rel, size) => OfferInTreeWhole(s, tree, id, rel, size, env);
    case DragDrop(drag) =>
      if s.DragIs(Some(drag)) { FinalizeDragWhole(s.WithDrag(s.drag.value.(dropRequested := true)), env); }
    case TreeEnd(tree, error) => EndTreeWhole(s, tree, error, env);
    case FileDone(id, digest) => DoneWhole(s, id, digest, env);
    case FileCancel(id, why) => if id in s.recv { SettleFailureWhole(Drop(s, id), s.recv[id], id, why, env); }
    case FileChunk(id, offset, data) => ChunkWhole(s, id, offset, data, env);
    case DragBegin(drag, count) =>
    case DragCancel(drag) =>
  }

  /** In every state a new connection can reach, with ids never shared between a
      live file and a live folder: every folder that was placed, or staged for its
      drag, had every file ever offered to it verified and every directory made. */
  lemma {:induction false} FoldersArriveWhole(s: State, es: seq<Event>)
    requires IsNew(s) && FreshRun(s, es)
    ensures Owned(Run(s, es)) && Whole(Run(s, es))
  {
    RunKeepsOwnership(s, es);
    if es != [] {
      FoldersArriveWhole(s, es[..|es| - 1]);
      HandleKeepsWhole(Run(s, es[..|es| - 1]), es[|es| - 1].m, es[|es| - 1].env);
    }
  }
}
