/** What the receiving state keeps true over every run of messages. */
module Ownership {
  import opened Basics
  import opened Disk
  import opened Receiving
  import Names

  datatype Event = Event(m: Message, env: Env)

  /** The state after a sequence of messages. */
  function Run(s: State, es: seq<Event>): State {
    if es == [] then s
    else Handle(Run(s, es[..|es| - 1]), es[|es| - 1].m, es[|es| - 1].env)
  }

  /** A connection that has just been opened. */
  predicate IsNew(s: State) {
    s.recv == map[] && s.trees == map[] && s.drag == None && s.replies == [] && s.placed == []
  }

  /* ---- nothing ready is left waiting ---- */

  /** No stored folder is settled, and no stored drag is both dropped and settled. */
  ghost predicate NothingReady(s: State) {
    && (forall t :: t in s.trees ==> !s.trees[t].Settled())
    && (s.drag.Some? ==> !(s.drag.value.dropRequested && s.drag.value.Settled()))
  }

  ghost predicate NoTreeReady(s: State) {
    forall t :: t in s.trees ==> !s.trees[t].Settled()
  }

  /** Nothing is ready, leaving out folder `tree` and the drag. */
  ghost predicate OthersNotReady(s: State, tree: nat) {
    forall t :: t in s.trees && t != tree ==> !s.trees[t].Settled()
  }

  ghost predicate DragNotReady(s: State) {
    s.drag.Some? ==> !(s.drag.value.dropRequested && s.drag.value.Settled())
  }

  lemma FinalizeDragReady(s: State, env: Env)
    requires NoTreeReady(s)
    ensures NothingReady(FinalizeDrag(s, env))
  {
  }

  lemma FinalizeTreeReady(s: State, tree: nat, env: Env)
    requires OthersNotReady(s, tree) && DragNotReady(s)
    ensures NothingReady(FinalizeTree(s, tree, env))
  {
    hide FinalizeDrag;
    if tree in s.trees && s.trees[tree].Settled() {
      forall s': State | s'.trees == s.trees - {tree} ensures NothingReady(FinalizeDrag(s', env)) {
        FinalizeDragReady(s', env);
      }
    }
  }

  lemma SettleFailureReady(s: State, t: Recv, id: nat, why: Reason, env: Env)
    requires NothingReady(s)
    ensures NothingReady(SettleFailure(s, t, id, why, env))
  {
    hide FinalizeDrag, FinalizeTree;
    match t.tree
    case Some(tree) =>
      if tree in s.trees {
        var tr := s.trees[tree].(outstanding := s.trees[tree].outstanding - {id}).Fail(InFile(t.name, why));
        FinalizeTreeReady(s.WithTree(tree, tr), tree, env);
      }
    case None =>
      forall s': State | s'.trees == s.trees ensures NothingReady(FinalizeDrag(s', env)) {
        FinalizeDragReady(s', env);
      }
  }

  lemma DoneReady(s: State, id: nat, digest: Digest, env: Env)
    requires NothingReady(s)
    ensures NothingReady(Done(s, id, digest, env))
  {
    hide FinalizeTree, SettleInDrag, FinishRecv, Tree.Settled, Drag.Settled;
    if id in s.recv {
      var t := s.recv[id];
      var (fs, error) := FinishRecv(s.fs, id, t, digest, env);
      var s1 := s.(recv := s.recv - {id}, fs := fs);
      match t.tree
      case Some(tree) =>
        if tree in s1.trees {
          var tr := s1.trees[tree].(outstanding := s1.trees[tree].outstanding - {id});
          var tr1 := if error.Some? then tr.Fail(InFile(t.name, error.value))
                     else tr.(doneBytes := tr.doneBytes + t.size, verified := tr.verified + [Verified(id, t.size)]);
          FinalizeTreeReady(s1.WithTree(tree, tr1), tree, env);
        }
      case None =>
        var s2 := if error.None? && t.drag.None? then s1.(placed := s1.placed + [Placed(id, false, t.final, None)])
                  else s1;
        SettleInDragReady(s2, t.drag, id, if error.None? then Some(Staged(id, t.name, false, t.size, t.final, None))
                                          else None, env);
    }
  }

  lemma SettleInDragReady(s: State, drag: Option<nat>, id: nat, item: Option<Staged>, env: Env)
    requires NothingReady(s)
    ensures NothingReady(SettleInDrag(s, drag, id, item, env))
  {
    hide FinalizeDrag;
    if s.DragIs(drag) {
      var d := s.drag.value.(outstanding := s.drag.value.outstanding - {id});
      FinalizeDragReady(s.WithDrag(if item.Some? then d.(done := d.done + [item.value]) else d), env);
    }
  }

  lemma OfferInDragReady(s: State, drag: nat, id: nat, name: string, size: nat, env: Env)
    requires NothingReady(s)
    ensures NothingReady(OfferInDrag(s, drag, id, name, size, env))
  {
    hide FinalizeDrag, AcceptOffer;
    forall s': State | s'.trees == s.trees ensures NothingReady(FinalizeDrag(s', env)) {
      FinalizeDragReady(s', env);
    }
  }

  /** After every message, whatever it is and whatever the disk does, nothing
      that could be finished is left waiting. */
  lemma HandleLeavesNothingReady(s: State, m: Message, env: Env)
    requires NothingReady(s)
    ensures NothingReady(Handle(s, m, env))
  {
    hide FinalizeDrag, FinalizeTree, SettleFailure, Done, RemoveFiles, RemoveFile, AcceptOffer, OfferInDrag, OfferTree;
    hide OfferInTree, MakeDir;
    match m
    case DragOffer(drag, id, name, size) => OfferInDragReady(s, drag, id, name, size, env);
    case TreeFile(tree, id, rel, size) => OfferInTreeEffect(s, tree, id, rel, size, env);
    case FileDone(id, digest) => DoneReady(s, id, digest, env);
    case FileCancel(id, why) =>
      if id in s.recv { SettleFailureReady(Drop(s, id), s.recv[id], id, why, env); }
    case FileChunk(id, offset, data) =>
      forall s': State, t, w | s'.trees == s.trees && s'.drag == s.drag
        ensures NothingReady(SettleFailure(s', t, id, w, env))
      {
        SettleFailureReady(s', t, id, w, env);
      }
    case DragDrop(drag) =>
      if s.DragIs(Some(drag)) { FinalizeDragReady(s.WithDrag(s.drag.value.(dropRequested := true)), env); }
    case TreeEnd(tree, error) =>
      if tree in s.trees {
        var t := s.trees[tree].(ended := true);
        FinalizeTreeReady(s.WithTree(tree, if error.Some? then t.Fail(FromPeer(error.value)) else t), tree, env);
      }
    case _ =>
  }

  lemma {:induction false} RunLeavesNothingReady(s: State, es: seq<Event>)
    requires NothingReady(s)
    ensures NothingReady(Run(s, es))
  {
    if es != [] {
      RunLeavesNothingReady(s, es[..|es| - 1]);
      HandleLeavesNothingReady(Run(s, es[..|es| - 1]), es[|es| - 1].m, es[|es| - 1].env);
    }
  }

  /* ---- ownership ---- */

  /** The live files of folder `t`. */
  ghost function FilesOf(s: State, t: nat): set<nat> {
    set id | id in s.recv && s.recv[id].tree == Some(t)
  }

  /** The live files offered directly to drag `d`. */
  ghost function LooseOf(s: State, d: nat): set<nat> {
    set id | id in s.recv && s.recv[id].tree == None && s.recv[id].drag == Some(d)
  }

  /** The stored folders that drag `d` counted when they were offered. */
  ghost function CountedOf(s: State, d: nat): set<nat> {
    set t | t in s.trees && s.trees[t].counted && s.trees[t].drag == Some(d)
  }

  ghost predicate FileOwned(s: State, id: nat)
    requires id in s.recv
  {
    var r := s.recv[id];
    && (r.tree.Some? ==> r.tree.value in s.trees && s.trees[r.tree.value].drag == r.drag)
    && (r.drag.Some? ==> s.DragIs(r.drag))
  }

  ghost predicate TreeOwned(s: State, t: nat)
    requires t in s.trees
  {
    var tr := s.trees[t];
    && tr.outstanding == FilesOf(s, t)
    && (tr.counted ==> s.DragIs(tr.drag))
    && (!tr.counted && tr.drag.Some? ==> tr.failed.Some? && tr.outstanding == {})
  }

  /** File ids and folder ids differ; the live files tagged with a folder are
      exactly that folder's outstanding files; what is tagged with a drag belongs
      to the drag being staged; and that drag's outstanding items are exactly its
      live loose files and the folders it counted. */
  ghost predicate Owned(s: State) {
    && s.recv.Keys !! s.trees.Keys
    && (forall id :: id in s.recv ==> FileOwned(s, id))
    && (forall t :: t in s.trees ==> TreeOwned(s, t))
    && (s.drag.Some? ==> s.drag.value.outstanding == LooseOf(s, s.drag.value.drag) + CountedOf(s, s.drag.value.drag))
  }

  /** The offer does not reuse the id of a live item of the other kind. */
  predicate FreshKind(s: State, m: Message) {
    match m
    case FileOffer(id, _, _) => id !in s.trees
    case DragOffer(_, id, _, _) => id !in s.trees
    case TreeFile(_, id, _, _) => id !in s.trees
    case TreeOffer(tree, _, _, _, _) => tree !in s.recv
    case _ => true
  }

  lemma FinalizeDragOwned(s: State, env: Env)
    requires Owned(s)
    ensures Owned(FinalizeDrag(s, env))
  {
    hide FinalizeDrag;
    var r := FinalizeDrag(s, env);
    if r != s {
      var d := s.drag.value;
      assert LooseOf(s, d.drag) == {} && CountedOf(s, d.drag) == {};
      forall id | id in r.recv ensures FileOwned(r, id) {
        assert FileOwned(s, id) && id !in LooseOf(s, d.drag);
        if s.recv[id].tree.Some? {
          assert TreeOwned(s, s.recv[id].tree.value) && s.recv[id].tree.value !in CountedOf(s, d.drag);
        }
      }
      forall t | t in r.trees ensures TreeOwned(r, t) {
        assert TreeOwned(s, t) && FilesOf(r, t) == FilesOf(s, t) && t !in CountedOf(s, d.drag);
      }
    }
  }

  /** Taking item `id` off its drag. */
  lemma SettleInDragOwned(s: State, drag: Option<nat>, id: nat, item: Option<Staged>, env: Env)
    requires !s.DragIs(drag) ==> Owned(s)
    requires s.DragIs(drag) ==> Owned(s.WithDrag(s.drag.value.(outstanding := s.drag.value.outstanding - {id})))
    ensures Owned(SettleInDrag(s, drag, id, item, env))
  {
    hide FinalizeDrag;
    if s.DragIs(drag) {
      var d := s.drag.value.(outstanding := s.drag.value.outstanding - {id});
      var s1 := s.WithDrag(if item.Some? then d.(done := d.done + [item.value]) else d);
      SameOwnership(s.WithDrag(d), s1);
      FinalizeDragOwned(s1, env);
    }
  }

  /** Ownership does not depend on the disk, the replies or the finished items. */
  lemma SameOwnership(s: State, r: State)
    requires Owned(s)
    requires r.recv == s.recv && r.trees == s.trees
    requires r.drag == s.drag || (s.drag.Some? && r.drag.Some? && r.drag.value.drag == s.drag.value.drag
                                  && r.drag.value.outstanding == s.drag.value.outstanding)
    ensures Owned(r)
  {
    forall id | id in r.recv ensures FileOwned(r, id) { assert FileOwned(s, id); }
    forall t | t in r.trees ensures TreeOwned(r, t) { assert TreeOwned(s, t) && FilesOf(r, t) == FilesOf(s, t); }
    if s.drag.Some? {
      assert LooseOf(r, s.drag.value.drag) == LooseOf(s, s.drag.value.drag);
      assert CountedOf(r, s.drag.value.drag) == CountedOf(s, s.drag.value.drag);
    }
  }

  /** Taking a folder without live files out of the table. */
  lemma TreeRemovedOwned(s: State, tree: nat, r: State)
    requires Owned(s) && tree in s.trees && s.trees[tree].outstanding == {}
    requires r.recv == s.recv && r.trees == s.trees - {tree}
    requires if s.DragIs(s.trees[tree].drag)
             then r.drag == Some(s.drag.value.(outstanding := s.drag.value.outstanding - {tree}))
             else r.drag == s.drag
    ensures Owned(r)
  {
    assert TreeOwned(s, tree);
    forall id | id in r.recv ensures FileOwned(r, id) { assert FileOwned(s, id) && id !in FilesOf(s, tree); }
    forall t | t in r.trees ensures TreeOwned(r, t) { assert TreeOwned(s, t) && FilesOf(r, t) == FilesOf(s, t); }
    if s.drag.Some? {
      var d := s.drag.value.drag;
      assert LooseOf(r, d) == LooseOf(s, d) && CountedOf(r, d) == CountedOf(s, d) - {tree};
    }
  }

  lemma FinalizeTreeOwned(s: State, tree: nat, env: Env)
    requires Owned(s)
    ensures Owned(FinalizeTree(s, tree, env))
  {
    hide SettleInDrag;
    if tree in s.trees && s.trees[tree].Settled() {
      var t := s.trees[tree];
      forall s': State, item | s'.recv == s.recv && s'.trees == s.trees - {tree} && s'.drag == s.drag
        ensures Owned(SettleInDrag(s', t.drag, tree, item, env))
      {
        if s.DragIs(t.drag) {
          TreeRemovedOwned(s, tree, s'.WithDrag(s.drag.value.(outstanding := s.drag.value.outstanding - {tree})));
        } else {
          TreeRemovedOwned(s, tree, s');
        }
        SettleInDragOwned(s', t.drag, tree, item, env);
      }
      if !s.DragIs(t.drag) {
        TreeRemovedOwned(s, tree, s.(trees := s.trees - {tree}));
        forall s': State | s'.recv == s.recv && s'.trees == s.trees - {tree} && s'.drag == s.drag ensures Owned(s') {
          SameOwnership(s.(trees := s.trees - {tree}), s');
        }
      }
    }
  }

  /** `r` is `s` without the live file `id`, which is not outstanding any more. */
  ghost predicate FileRemoved(s: State, id: nat, r: State) {
    && id in s.recv && r.recv == s.recv - {id}
    && (s.recv[id].tree.Some? ==>
          && r.drag == s.drag && s.recv[id].tree.value in s.trees && s.recv[id].tree.value in r.trees
          && var t := s.recv[id].tree.value;
          && r.trees == s.trees[t := r.trees[t]]
          && r.trees[t].outstanding == s.trees[t].outstanding - {id}
          && r.trees[t].drag == s.trees[t].drag && r.trees[t].counted == s.trees[t].counted
          && (s.trees[t].failed.Some? ==> r.trees[t].failed.Some?))
    && (s.recv[id].tree.None? ==>
          && r.trees == s.trees
          && r.drag == if s.DragIs(s.recv[id].drag)
             then Some(s.drag.value.(outstanding := s.drag.value.outstanding - {id})) else s.drag)
  }

  lemma RemovedTree(s: State, id: nat, r: State, t: nat)
    requires Owned(s) && FileRemoved(s, id, r) && t in r.trees
    ensures TreeOwned(r, t)
  {
    assert FileOwned(s, id) && TreeOwned(s, t);
    assert FilesOf(r, t) == FilesOf(s, t) - {id};
  }

  lemma RemovedDrag(s: State, id: nat, r: State)
    requires Owned(s) && FileRemoved(s, id, r) && r.drag.Some?
    ensures r.drag.value.outstanding == LooseOf(r, r.drag.value.drag) + CountedOf(r, r.drag.value.drag)
  {
    hide TreeOwned;
    assert FileOwned(s, id);
    var d := s.drag.value.drag;
    assert LooseOf(r, d) == LooseOf(s, d) - {id} && CountedOf(r, d) == CountedOf(s, d);
  }

  /** Taking file `id` out of the table and off the folder it belongs to. */
  lemma FileRemovedOwned(s: State, id: nat, r: State)
    requires Owned(s) && FileRemoved(s, id, r)
    ensures Owned(r)
  {
    hide TreeOwned, LooseOf, CountedOf;
    forall f | f in r.recv ensures FileOwned(r, f) { assert FileOwned(s, f); }
    forall t | t in r.trees ensures TreeOwned(r, t) { RemovedTree(s, id, r, t); }
    if r.drag.Some? { RemovedDrag(s, id, r); }
  }

  lemma SettleFailureOwned(s: State, r: State, id: nat, why: Reason, env: Env)
    requires Owned(s) && id in s.recv && r.recv == s.recv - {id} && r.trees == s.trees && r.drag == s.drag
    ensures Owned(SettleFailure(r, s.recv[id], id, why, env))
  {
    hide FinalizeTree, SettleInDrag;
    var t := s.recv[id];
    assert FileOwned(s, id);
    match t.tree
    case Some(tree) =>
      var tr := r.trees[tree].(outstanding := r.trees[tree].outstanding - {id}).Fail(InFile(t.name, why));
      FileRemovedOwned(s, id, r.WithTree(tree, tr));
      FinalizeTreeOwned(r.WithTree(tree, tr), tree, env);
    case None =>
      FileRemovedOwned(s, id, if s.DragIs(t.drag)
        then r.WithDrag(s.drag.value.(outstanding := s.drag.value.outstanding - {id})) else r);
      SettleInDragOwned(r, t.drag, id, None, env);
  }

  lemma DoneOwned(s: State, id: nat, digest: Digest, env: Env)
    requires Owned(s)
    ensures Owned(Done(s, id, digest, env))
  {
    hide FinalizeTree, SettleInDrag, FinishRecv;
    if id in s.recv {
      var t := s.recv[id];
      assert FileOwned(s, id);
      match t.tree
      case Some(tree) =>
        forall r: State | r.recv == s.recv - {id} && r.drag == s.drag && tree in r.trees
            && r.trees == s.trees[tree := r.trees[tree]]
          && r.trees[tree].outstanding == s.trees[tree].outstanding - {id} && r.trees[tree].drag == s.trees[tree].drag
          && r.trees[tree].counted == s.trees[tree].counted
             && (s.trees[tree].failed.Some? ==> r.trees[tree].failed.Some?)
          ensures Owned(FinalizeTree(r, tree, env))
        {
          FileRemovedOwned(s, id, r);
          FinalizeTreeOwned(r, tree, env);
        }
      case None =>
        var (fs, error) := FinishRecv(s.fs, id, t, digest, env);
        var s1 := s.(recv := s.recv - {id}, fs := fs);
        var s2 := if error.None? && t.drag.None? then s1.(placed := s1.placed + [Placed(id, false, t.final, None)])
                  else s1;
        var item := if error.None? then Some(Staged(id, t.name, false, t.size, t.final, None)) else None;
        FileRemovedOwned(s, id, if s.DragIs(t.drag)
          then s2.WithDrag(s.drag.value.(outstanding := s.drag.value.outstanding - {id})) else s2);
        SettleInDragOwned(s2, t.drag, id, item, env);
    }
  }

  /** Discarding a drag removes exactly the transfers and folders tagged with it. */
  lemma DiscardRemovesExactly(s: State)
    requires Owned(s) && s.drag.Some?
    ensures var d := s.drag.value;
            var r := DiscardDrag(s.(drag := None), d);
            && r.recv == (map id | id in s.recv && s.recv[id].drag != Some(d.drag) :: s.recv[id])
            && r.trees == (map t | t in s.trees && s.trees[t].drag != Some(d.drag) :: s.trees[t])
            && Owned(r)
  {
    var d := s.drag.value;
    var r := DiscardDrag(s.(drag := None), d);
    forall id | id in s.recv ensures id in Doomed(s.(drag := None), d) <==> s.recv[id].drag == Some(d.drag) {
      assert FileOwned(s, id);
      if s.recv[id].drag == Some(d.drag) {
        if s.recv[id].tree.Some? {
          var t := s.recv[id].tree.value;
          assert TreeOwned(s, t) && id in FilesOf(s, t);
        } else {
          assert id in LooseOf(s, d.drag);
        }
      } else if t :| t in s.trees && s.trees[t].drag == Some(d.drag) && id in s.trees[t].outstanding {
        assert TreeOwned(s, t);
      } else {
        assert id !in LooseOf(s, d.drag) && id !in s.trees;
      }
    }
    forall id | id in r.recv ensures FileOwned(r, id) { assert FileOwned(s, id); }
    forall t | t in r.trees ensures TreeOwned(r, t) {
      assert TreeOwned(s, t);
      forall id | id in FilesOf(s, t) ensures id in FilesOf(r, t) { assert FileOwned(s, id); }
      assert FilesOf(r, t) == FilesOf(s, t);
    }
  }

  lemma BeginDragOwned(s: State, drag: nat, count: nat, env: Env)
    requires Owned(s)
    ensures Owned(BeginDrag(s, drag, count, env))
  {
    hide DiscardDrag, MkdirAll;
    if s.drag.Some? { DiscardRemovesExactly(s); }
    var s1 := if s.drag.Some? then DiscardDrag(s.(drag := None), s.drag.value) else s;
    forall r: State | r.recv == s1.recv && r.trees == s1.trees && r.drag.Some? && r.drag.value.drag == drag
        && r.drag.value.outstanding == {}
      ensures Owned(r)
    {
      forall id | id in r.recv ensures FileOwned(r, id) { assert FileOwned(s1, id); }
      forall t | t in r.trees ensures TreeOwned(r, t) { assert TreeOwned(s1, t) && FilesOf(r, t) == FilesOf(s1, t); }
      assert LooseOf(r, drag) == {} by { assert forall id :: id in r.recv ==> FileOwned(s1, id); }
      assert CountedOf(r, drag) == {} by { assert forall t :: t in r.trees ==> TreeOwned(s1, t); }
    }
  }

  /** `r` is `s` with the new live file `id`, which is outstanding where it belongs. */
  ghost predicate FileAdded(s: State, id: nat, r: State) {
    && id !in s.recv && id !in s.trees && id in r.recv && r.recv == s.recv[id := r.recv[id]]
    && (r.recv[id].tree.Some? ==>
          && r.drag == s.drag && r.recv[id].tree.value in s.trees && r.recv[id].tree.value in r.trees
          && var t := r.recv[id].tree.value;
          && r.trees == s.trees[t := r.trees[t]] && r.trees[t].outstanding == s.trees[t].outstanding + {id}
          && r.trees[t].drag == s.trees[t].drag == r.recv[id].drag && r.trees[t].counted == s.trees[t].counted
          && s.trees[t].failed.None?)
    && (r.recv[id].tree.None? ==>
          && r.trees == s.trees
          && (r.recv[id].drag.None? ==> r.drag == s.drag)
          && (r.recv[id].drag.Some? ==>
                && s.DragIs(r.recv[id].drag) && r.DragIs(r.recv[id].drag)
                && r.drag.value.outstanding == s.drag.value.outstanding + {id}))
  }

  lemma AddedFile(s: State, id: nat, r: State, f: nat)
    requires Owned(s) && FileAdded(s, id, r) && f in r.recv
    ensures FileOwned(r, f)
  {
    hide FilesOf, LooseOf, CountedOf;
    if f != id { assert FileOwned(s, f); }
    else if r.recv[id].tree.Some? { assert TreeOwned(s, r.recv[id].tree.value); }
  }

  lemma AddedTree(s: State, id: nat, r: State, t: nat)
    requires Owned(s) && FileAdded(s, id, r) && t in r.trees
    ensures TreeOwned(r, t)
  {
    hide FileOwned, LooseOf, CountedOf;
    assert TreeOwned(s, t);
    assert FilesOf(r, t) == if r.recv[id].tree == Some(t) then FilesOf(s, t) + {id} else FilesOf(s, t);
  }

  lemma AddedDrag(s: State, id: nat, r: State)
    requires Owned(s) && FileAdded(s, id, r) && r.drag.Some?
    ensures r.drag.value.outstanding == LooseOf(r, r.drag.value.drag) + CountedOf(r, r.drag.value.drag)
  {
    hide FileOwned, TreeOwned;
    var d := s.drag.value.drag;
    assert LooseOf(r, d) == if r.recv[id].tree.None? && r.recv[id].drag == Some(d) then LooseOf(s, d) + {id}
                            else LooseOf(s, d);
    assert CountedOf(r, d) == CountedOf(s, d);
  }

  /** Registering file `id`. */
  lemma FileAddedOwned(s: State, id: nat, r: State)
    requires Owned(s) && FileAdded(s, id, r)
    ensures Owned(r)
  {
    hide FileOwned, TreeOwned, LooseOf, CountedOf;
    forall f | f in r.recv ensures FileOwned(r, f) { AddedFile(s, id, r, f); }
    forall t | t in r.trees ensures TreeOwned(r, t) { AddedTree(s, id, r, t); }
    if r.drag.Some? { AddedDrag(s, id, r); }
  }

  lemma OfferTreeOwned(s: State, tree: nat, name: string, files: nat, bytes: nat, drag: Option<nat>, env: Env)
    requires Owned(s) && tree !in s.recv
    ensures Owned(OfferTree(s, tree, name, files, bytes, drag, env))
  {
    hide OfferTree;
    var r := OfferTree(s, tree, name, files, bytes, drag, env);
    if tree !in s.trees {
      forall f | f in r.recv ensures FileOwned(r, f) { assert FileOwned(s, f); }
      assert FilesOf(r, tree) == {} by { assert forall f :: f in s.recv ==> FileOwned(s, f); }
      forall t | t in r.trees ensures TreeOwned(r, t) {
        if t != tree { assert TreeOwned(s, t) && FilesOf(r, t) == FilesOf(s, t); }
      }
      if s.drag.Some? {
        var d := s.drag.value.drag;
        assert LooseOf(r, d) == LooseOf(s, d);
        assert CountedOf(r, d) == if drag == Some(d) then CountedOf(s, d) + {tree} else CountedOf(s, d);
      }
    }
  }

  /** Changing a folder without touching what ownership depends on. */
  lemma TreeChangedOwned(s: State, tree: nat, r: State)
    requires Owned(s) && tree in s.trees && tree in r.trees && r.recv == s.recv && r.drag == s.drag
    requires r.trees == s.trees[tree := r.trees[tree]]
    requires r.trees[tree].outstanding == s.trees[tree].outstanding && r.trees[tree].drag == s.trees[tree].drag
    requires r.trees[tree].counted == s.trees[tree].counted
    requires s.trees[tree].failed.Some? ==> r.trees[tree].failed.Some?
    ensures Owned(r)
  {
    forall f | f in r.recv ensures FileOwned(r, f) { assert FileOwned(s, f); }
    forall t | t in r.trees ensures TreeOwned(r, t) { assert TreeOwned(s, t) && FilesOf(r, t) == FilesOf(s, t); }
    if s.drag.Some? {
      assert LooseOf(r, s.drag.value.drag) == LooseOf(s, s.drag.value.drag);
      assert CountedOf(r, s.drag.value.drag) == CountedOf(s, s.drag.value.drag);
    }
  }

  lemma OffersOwned(s: State, m: Message, env: Env)
    requires Owned(s) && (FreshKind(s, m) || Handle(s, m, env).recv == s.recv)
    requires m.FileOffer? || m.DragOffer? || m.TreeFile? || m.TreeDir?
    ensures Owned(Handle(s, m, env))
  {
    hide AcceptOffer, OfferInDrag, OfferInTree, MakeDir;
    var r := Handle(s, m, env);
    match m
    case FileOffer(id, name, size) =>
      if r.recv == s.recv { SameOwnership(s, r); } else { FileAddedOwned(s, id, r); }
    case DragOffer(drag, id, name, size) =>
      if id !in s.recv && id in r.recv { FileAddedOwned(s, id, r); }
      else { OfferInDragRejectedOwned(s, drag, id, name, size, env); }
    case TreeFile(tree, id, rel, size) =>
      OfferInTreeEffect(s, tree, id, rel, size, env);
      if tree !in s.trees || s.trees[tree].failed.Some? { SameOwnership(s, r); }
      else if r.trees[tree].failed.None? { FileAddedOwned(s, id, r); }
      else { TreeChangedOwned(s, tree, r); }
    case TreeDir(tree, rel) =>
      if r != s { TreeChangedOwned(s, tree, r); }
  }

  lemma OfferInDragRejectedOwned(s: State, drag: nat, id: nat, name: string, size: nat, env: Env)
    requires Owned(s)
    requires id in s.recv || id !in OfferInDrag(s, drag, id, name, size, env).recv
    ensures Owned(OfferInDrag(s, drag, id, name, size, env))
  {
    hide AcceptOffer, FinalizeDrag;
    if !s.DragIs(Some(drag)) {
      SameOwnership(s, OfferInDrag(s, drag, id, name, size, env));
    } else {
      var d := s.drag.value.(offered := s.drag.value.offered + 1);
      var s1 := AcceptOffer(s.WithDrag(d), d.dir, id, name, size, Some(drag), None, env).0;
      SameOwnership(s, s1);
      FinalizeDragOwned(s1, env);
    }
  }

  /** Every message keeps ownership exact, provided an offer does not reuse the
      id of a live item of the other kind. */
  lemma HandleKeepsOwnership(s: State, m: Message, env: Env)
    requires Owned(s) && FreshKind(s, m)
    ensures Owned(Handle(s, m, env))
  {
    hide FinalizeDrag, FinalizeTree, SettleFailure, Done, DiscardDrag, BeginDrag, OfferTree, RemoveFile;
    match m
    case DragBegin(drag, count) => BeginDragOwned(s, drag, count, env);
    case DragDrop(drag) =>
      if s.DragIs(Some(drag)) {
        var s1 := s.WithDrag(s.drag.value.(dropRequested := true));
        SameOwnership(s, s1);
        FinalizeDragOwned(s1, env);
      }
    case DragCancel(drag) => if s.DragIs(Some(drag)) { DiscardRemovesExactly(s); }
    case TreeOffer(tree, name, files, bytes, within) => OfferTreeOwned(s, tree, name, files, bytes, within, env);
    case TreeEnd(tree, error) =>
      if tree in s.trees {
        var t := s.trees[tree].(ended := true);
        var s1 := s.WithTree(tree, if error.Some? then t.Fail(FromPeer(error.value)) else t);
        TreeChangedOwned(s, tree, s1);
        FinalizeTreeOwned(s1, tree, env);
      }
    case FileDone(id, digest) => DoneOwned(s, id, digest, env);
    case FileCancel(id, why) => if id in s.recv { SettleFailureOwned(s, Drop(s, id), id, why, env); }
    case FileChunk(id, offset, data) =>
      if id in s.recv { ChunkOwned(s, id, offset, data, env); }
    case _ => OffersOwned(s, m, env);
  }

  /** A file of this name can be started in `dir`: something is left of the name,
      and the directory and the temporary file can be made. */
  predicate CanBegin(fs: Fs, dir: Path, name: string, env: Env) {
    && Names.Sanitize(name).Some?
    && var made := MkdirAll(fs, dir, env);
    && made.Some?
    && var final := FreeFilePath(made.value, dir, Names.Sanitize(name).value);
    && var part := FreeFilePath(made.value, dir, final[|final| - 1] + ".vylopart");
    && env.lucky(OpCreate(part)) && HasParent(made.value, part)
  }

  /** The offer of a file is turned down, its id not being in use by a file. */
  predicate TurnedDown(s: State, m: Message, env: Env)
    requires m.FileOffer? || m.DragOffer? || m.TreeFile?
  {
    match m
    case FileOffer(_, name, _) => !CanBegin(s.fs, s.fileDir, name, env)
    case DragOffer(drag, _, name, _) => !s.DragIs(Some(drag)) || !CanBegin(s.fs, s.drag.value.dir, name, env)
    case TreeFile(tree, _, rel, _) =>
      || tree !in s.trees || s.trees[tree].failed.Some? || s.trees[tree].entries >= MAX_TREE_ENTRIES
      || var path := Names.SanitizeRel(rel);
         || path.None? || path.value == []
         || !CanBegin(s.fs, s.trees[tree].root + path.value[..|path.value| - 1], path.value[|path.value| - 1], env)
  }

  lemma AcceptedIfCan(s: State, dir: Path, id: nat, name: string, size: nat, drag: Option<nat>, tree: Option<nat>,
                      env: Env)
    requires id !in s.recv
    ensures AcceptOffer(s, dir, id, name, size, drag, tree, env).1 <==> CanBegin(s.fs, dir, name, env)
  {
    hide MkdirAll, Names.Sanitize, SplitExt;
    var made := MkdirAll(s.fs, dir, env);
    if Names.Sanitize(name).Some? && made.Some? {
      var final := FreeFilePath(made.value, dir, Names.Sanitize(name).value);
      var (stem, ext) := SplitExt(final[|final| - 1] + ".vylopart");
      PlacementIsFresh(made.value, dir, stem, ext);
    }
  }

  lemma TakenUpUnlessTurnedDown(s: State, m: Message, env: Env)
    requires m.FileOffer? || m.DragOffer? || m.TreeFile?
    requires m.id !in s.recv
    ensures m.id in Handle(s, m, env).recv <==> !TurnedDown(s, m, env)
    ensures m.id !in Handle(s, m, env).recv ==> Handle(s, m, env).recv == s.recv
  {
    hide AcceptOffer, CanBegin, FinalizeDrag, Names.SanitizeRel;
    match m
    case FileOffer(id, name, size) => AcceptedIfCan(s, s.fileDir, id, name, size, None, None, env);
    case DragOffer(drag, id, name, size) =>
      if s.DragIs(Some(drag)) {
        var d := s.drag.value.(offered := s.drag.value.offered + 1);
        AcceptedIfCan(s.WithDrag(d), d.dir, id, name, size, Some(drag), None, env);
      }
    case TreeFile(tree, id, rel, size) =>
      if tree in s.trees && s.trees[tree].failed.None? {
        var t := s.trees[tree].(entries := s.trees[tree].entries + 1, offered := s.trees[tree].offered + [id]);
        var path := Names.SanitizeRel(rel);
        if path.Some? && path.value != [] {
          var k := |path.value| - 1;
          AcceptedIfCan(s.WithTree(tree, t), t.root + path.value[..k], id, path.value[k], size, t.drag, Some(tree),
                        env);
        }
      }
  }

  /** Ownership stays exact if and only if no offer under the id of a live item of
      the other kind is taken up. A folder offer always is, a file offer unless it
      is turned down. */
  lemma OwnershipKeptExactly(s: State, m: Message, env: Env)
    requires Owned(s)
    ensures Owned(Handle(s, m, env)) <==> FreshKind(s, m) || (!m.TreeOffer? && TurnedDown(s, m, env))
  {
    hide AcceptOffer, OfferInDrag, OfferInTree, OfferTree, TurnedDown;
    if FreshKind(s, m) {
      HandleKeepsOwnership(s, m, env);
    } else {
      var r := Handle(s, m, env);
      if m.TreeFile? { OfferInTreeEffect(s, m.tree, m.id, m.rel, m.size, env); }
      if !m.TreeOffer? { TakenUpUnlessTurnedDown(s, m, env); }
      if !m.TreeOffer? && r.recv == s.recv {
        OffersOwned(s, m, env);
      } else {
        var x := if m.TreeOffer? then m.tree else m.id;
        assert x in r.recv && x in r.trees;
      }
    }
  }

  lemma ChunkOwned(s: State, id: nat, offset: nat, data: Bytes, env: Env)
    requires Owned(s) && id in s.recv
    ensures Owned(Chunk(s, id, offset, data, env))
  {
    hide SettleFailure, RemoveFile, Owned;
    var t := s.recv[id];
    forall w ensures Owned(SettleFailure(Drop(s, id).Say(Abort(id, w)), t, id, w, env)) {
      SettleFailureOwned(s, Drop(s, id).Say(Abort(id, w)), id, w, env);
    }
    TransferChangedOwned(s, id, s.(recv := s.recv[id :=
      t.(received := t.received + |data|, hashed := t.hashed + data, written := t.written + data)]));
  }

  /** A transfer that goes on belongs where it belonged. */
  lemma TransferChangedOwned(s: State, id: nat, r: State)
    requires Owned(s) && id in s.recv && id in r.recv && r == s.(recv := s.recv[id := r.recv[id]])
    requires r.recv[id].tree == s.recv[id].tree && r.recv[id].drag == s.recv[id].drag
    ensures Owned(r)
  {
    forall f | f in r.recv ensures FileOwned(r, f) { assert FileOwned(s, f); }
    forall t | t in r.trees ensures TreeOwned(r, t) { assert TreeOwned(s, t) && FilesOf(r, t) == FilesOf(s, t); }
    if s.drag.Some? {
      assert LooseOf(r, s.drag.value.drag) == LooseOf(s, s.drag.value.drag);
      assert CountedOf(r, s.drag.value.drag) == CountedOf(s, s.drag.value.drag);
    }
  }

  /** Every message of the run respects `FreshKind` at its moment. */
  ghost predicate FreshRun(s: State, es: seq<Event>) {
    es == [] || (FreshRun(s, es[..|es| - 1]) && FreshKind(Run(s, es[..|es| - 1]), es[|es| - 1].m))
  }

  lemma {:induction false} RunKeepsOwnership(s: State, es: seq<Event>)
    requires Owned(s) && FreshRun(s, es)
    ensures Owned(Run(s, es))
  {
    if es != [] {
      RunKeepsOwnership(s, es[..|es| - 1]);
      HandleKeepsOwnership(Run(s, es[..|es| - 1]), es[|es| - 1].m, es[|es| - 1].env);
    }
  }

  /** What the proviso is for: when a folder is offered to the drag under the id
      of a live loose file, closing that folder finishes the drag while the file
      is still arriving. */
  lemma SharedIdFinishesDragEarly(s: State, id: nat, env: Env)
    requires Owned(s) && id in s.recv && s.recv[id].tree == None && s.DragIs(s.recv[id].drag)
    requires s.drag.value.dropRequested && s.drag.value.outstanding == {id}
             && s.drag.value.offered + 1 >= s.drag.value.expected
    ensures var s1 := Handle(s, TreeOffer(id, "", 0, 0, s.recv[id].drag), env);
            var s2 := Handle(s1, TreeEnd(id, None), env);
            s2.drag == None && id in s2.recv && s2.recv[id].drag.Some?
  {
    hide PlaceAll;
    assert Names.Sanitize("") == None by { Names.RefusedNames(""); }
    var s1 := Handle(s, TreeOffer(id, "", 0, 0, s.recv[id].drag), env);
    assert s1.trees[id].failed.Some? && s1.drag.value.outstanding == {id};
    assert s1.drag.value.outstanding - {id} == {};
  }
}
