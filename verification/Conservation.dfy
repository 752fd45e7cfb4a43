/** Nothing is duplicated: each item is in one place at a time, and a message
    adds a copy of an item only by offering it. */
module Conservation {
  import opened Basics
  import opened Disk
  import opened Receiving
  import opened Ownership
  import opened Frames

  function One(b: bool): nat { if b then 1 else 0 }

  function PlacedCount(ps: seq<Placed>, id: nat): nat {
    if ps == [] then 0 else PlacedCount(ps[..|ps| - 1], id) + One(ps[|ps| - 1].id == id)
  }

  function StagedCount(xs: seq<Staged>, id: nat): nat {
    if xs == [] then 0 else StagedCount(xs[..|xs| - 1], id) + One(xs[|xs| - 1].id == id)
  }

  /** How often item `id` is live, staged or placed. */
  function Copies(s: State, id: nat): nat {
    PlacedCount(s.placed, id) + (if s.drag.Some? then StagedCount(s.drag.value.done, id) else 0) + One(id in s.recv)
        + One(id in s.trees)
  }

  lemma {:induction false} PlacedCountAppend(ps: seq<Placed>, qs: seq<Placed>, id: nat)
    ensures PlacedCount(ps + qs, id) == PlacedCount(ps, id) + PlacedCount(qs, id)
  {
    if qs == [] {
      assert ps + qs == ps;
    } else {
      assert (ps + qs)[..|ps + qs| - 1] == ps + qs[..|qs| - 1];
      PlacedCountAppend(ps, qs[..|qs| - 1], id);
    }
  }

  lemma {:induction false} PlaceAllCount(fs: Fs, items: seq<Staged>, dest: Path, env: Env, id: nat)
    ensures PlacedCount(PlaceAll(fs, items, dest, env).1, id) <= StagedCount(items, id)
  {
    hide MovePath, FreeDirPath, FreeFilePath;
    if items != [] {
      PlaceAllCount(fs, items[..|items| - 1], dest, env, id);
      var placed := PlaceAll(fs, items[..|items| - 1], dest, env).1;
      forall p: Placed ensures PlacedCount(placed + [p], id) == PlacedCount(placed, id) + One(p.id == id) {
        assert (placed + [p])[..|placed|] == placed;
      }
    }
  }

  lemma FinalizeDragCopies(s: State, env: Env, id: nat)
    ensures Copies(FinalizeDrag(s, env), id) <= Copies(s, id)
  {
    hide PlaceAll, MkdirAll, RemoveDir;
    if s.drag.Some? {
      var fs, items := OrElse(MkdirAll(s.fs, s.DropDir(), env), s.fs), s.drag.value.done;
      PlaceAllCount(fs, items, s.DropDir(), env, id);
      PlacedCountAppend(s.placed, PlaceAll(fs, items, s.DropDir(), env).1, id);
    }
  }

  lemma SettleInDragCopies(s: State, drag: Option<nat>, i: nat, item: Option<Staged>, env: Env, id: nat)
    ensures Copies(SettleInDrag(s, drag, i, item, env), id) <= Copies(s, id) + One(item.Some? && item.value.id == id)
  {
    hide FinalizeDrag;
    if s.DragIs(drag) {
      var d := s.drag.value.(outstanding := s.drag.value.outstanding - {i});
      if item.Some? { assert (d.done + [item.value])[..|d.done|] == d.done; }
      FinalizeDragCopies(s.WithDrag(if item.Some? then d.(done := d.done + [item.value]) else d), env, id);
    }
  }

  lemma FinalizeTreeCopies(s: State, tree: nat, env: Env, id: nat)
    ensures Copies(FinalizeTree(s, tree, env), id) <= Copies(s, id)
  {
    hide SettleInDrag, MovePath, MkdirAll, FreeDirPath, RemoveDir;
    if tree in s.trees && s.trees[tree].Settled() {
      var t := s.trees[tree];
      forall s': State, item: Option<Staged> |
        s'.recv == s.recv && s'.trees == s.trees - {tree} && s'.drag == s.drag && s'.placed == s.placed
        && (item.Some? ==> item.value.id == tree)
        ensures Copies(SettleInDrag(s', t.drag, tree, item, env), id) <= Copies(s, id)
      {
        SettleInDragCopies(s', t.drag, tree, item, env, id);
      }
      forall p: Path
        ensures PlacedCount(s.placed + [Placed(tree, true, p, Some(t))], id)
                == PlacedCount(s.placed, id) + One(tree == id)
      {
        assert (s.placed + [Placed(tree, true, p, Some(t))])[..|s.placed|] == s.placed;
      }
    }
  }

  lemma SettleFailureCopies(s: State, t: Recv, i: nat, why: Reason, env: Env, id: nat)
    ensures Copies(SettleFailure(s, t, i, why, env), id) <= Copies(s, id)
  {
    hide FinalizeTree, SettleInDrag;
    match t.tree
    case Some(tree) =>
      if tree in s.trees {
        FinalizeTreeCopies(
          s.WithTree(tree, s.trees[tree].(outstanding := s.trees[tree].outstanding - {i}).Fail(InFile(t.name, why))),
              tree, env, id);
      }
    case None => SettleInDragCopies(s, t.drag, i, None, env, id);
  }

  lemma PlacedMore(ps: seq<Placed>, p: Placed, id: nat)
    ensures PlacedCount(ps + [p], id) == PlacedCount(ps, id) + One(p.id == id)
  {
    assert (ps + [p])[..|ps|] == ps;
  }

  lemma DoneCopies(s: State, i: nat, digest: Digest, env: Env, id: nat)
    ensures Copies(Done(s, i, digest, env), id) <= Copies(s, id)
  {
    hide FinalizeTree, SettleInDrag, FinishRecv, PlacedCount, StagedCount;
    if i in s.recv {
      var t := s.recv[i];
      var (fs, error) := FinishRecv(s.fs, i, t, digest, env);
      var s1 := s.(recv := s.recv - {i}, fs := fs);
      match t.tree
      case Some(tree) =>
        if tree in s.trees {
          var tr := s1.trees[tree].(outstanding := s1.trees[tree].outstanding - {i});
          var tr1 := if error.Some? then tr.Fail(InFile(t.name, error.value))
                     else tr.(doneBytes := tr.doneBytes + t.size, verified := tr.verified + [Verified(i, t.size)]);
          FinalizeTreeCopies(s1.WithTree(tree, tr1), tree, env, id);
        }
      case None =>
        var p := Placed(i, false, t.final, None);
        PlacedMore(s.placed, p, id);
        var s2 := if error.None? && t.drag.None? then s1.(placed := s1.placed + [p]) else s1;
        SettleInDragCopies(s2, t.drag, i, if error.None? then Some(Staged(i, t.name, false, t.size, t.final, None))
                                          else None, env, id);
    }
  }

  lemma OfferInDragCopies(s: State, drag: nat, i: nat, name: string, size: nat, env: Env, id: nat)
    ensures Copies(OfferInDrag(s, drag, i, name, size, env), id) <= Copies(s, id) + One(i == id)
  {
    hide AcceptOffer, FinalizeDrag;
    if s.DragIs(Some(drag)) {
      var d := s.drag.value.(offered := s.drag.value.offered + 1);
      FinalizeDragCopies(AcceptOffer(s.WithDrag(d), d.dir, i, name, size, Some(drag), None, env).0, env, id);
    }
  }

  lemma EndTreeCopies(s: State, tree: nat, error: Option<string>, env: Env, id: nat)
    ensures Copies(EndTree(s, tree, error, env), id) <= Copies(s, id)
  {
    hide FinalizeTree, PlacedCount, StagedCount;
    if tree in s.trees {
      var t := s.trees[tree].(ended := true);
      FinalizeTreeCopies(s.WithTree(tree, if error.Some? then t.Fail(FromPeer(error.value)) else t), tree, env, id);
    }
  }

  lemma ChunkCopies(s: State, i: nat, offset: nat, data: Bytes, env: Env, id: nat)
    ensures Copies(Chunk(s, i, offset, data, env), id) <= Copies(s, id)
  {
    hide SettleFailure, RemoveFile, PlacedCount, StagedCount;
    if i in s.recv {
      forall w, r: State | r == Drop(s, i).(replies := r.replies)
        ensures Copies(SettleFailure(r, s.recv[i], i, w, env), id) <= Copies(s, id)
      {
        SettleFailureCopies(r, s.recv[i], i, w, env, id);
      }
    }
  }

  /** One message adds at most one copy of an item, and only by offering it. */
  lemma HandleCopies(s: State, m: Message, env: Env, id: nat)
    ensures Copies(Handle(s, m, env), id) <= Copies(s, id) + One(Announces(m) == Some(id))
  {
    hide FinalizeDrag, FinalizeTree, SettleFailure, Done, RemoveFile, AcceptOffer, OfferInDrag, OfferTree;
    hide OfferInTree, MakeDir;
    hide MkdirAll, PlacedCount, StagedCount, Chunk, EndTree;
    match m
    case FileOffer(i, name, size) =>
    case DragOffer(drag, i, name, size) => OfferInDragCopies(s, drag, i, name, size, env, id);
    case TreeOffer(tree, name, files, bytes, within) =>
    case TreeFile(tree, i, rel, size) => OfferInTreeEffect(s, tree, i, rel, size, env);
    case TreeDir(tree, rel) =>
    case DragBegin(drag, count) => BeginDragCopies(s, drag, count, env, id);
    case DragDrop(drag) =>
      if s.DragIs(Some(drag)) { FinalizeDragCopies(s.WithDrag(s.drag.value.(dropRequested := true)), env, id); }
    case DragCancel(drag) =>
    case TreeEnd(tree, error) => EndTreeCopies(s, tree, error, env, id);
    case FileDone(i, digest) => DoneCopies(s, i, digest, env, id);
    case FileCancel(i, why) => if i in s.recv { SettleFailureCopies(Drop(s, i), s.recv[i], i, why, env, id); }
    case FileChunk(i, offset, data) => ChunkCopies(s, i, offset, data, env, id);
  }

  lemma BeginDragCopies(s: State, drag: nat, count: nat, env: Env, id: nat)
    ensures Copies(BeginDrag(s, drag, count, env), id) <= Copies(s, id)
  {
    hide MkdirAll;
  }

  function AnnouncedCount(es: seq<Event>, id: nat): nat {
    if es == [] then 0 else AnnouncedCount(es[..|es| - 1], id) + One(Announces(es[|es| - 1].m) == Some(id))
  }

  /** An item offered once is never in two places: it is placed at most once, and
      once placed or staged it is no longer live. */
  lemma {:induction false} DeliveredAtMostOnce(s: State, es: seq<Event>, id: nat)
    requires IsNew(s)
    ensures Copies(Run(s, es), id) <= AnnouncedCount(es, id)
  {
    if es != [] {
      DeliveredAtMostOnce(s, es[..|es| - 1], id);
      HandleCopies(Run(s, es[..|es| - 1]), es[|es| - 1].m, es[|es| - 1].env, id);
    }
  }

  /* ---- announced items still owed to a drag ---- */

  /** How many announced items drag `d`, if it is being staged, has not been offered. */
  function Due(s: State, d: nat): Option<int> {
    if s.DragIs(Some(d)) then Some(s.drag.value.expected - s.drag.value.offered) else None
  }

  /** Whether `m` offers an item of drag `d`. */
  predicate OffersTo(m: Message, d: nat) {
    (m.DragOffer? && m.drag == d) || (m.TreeOffer? && m.within == Some(d))
  }

  function NextDue(m: Message, d: nat, x: Option<int>): Option<int> {
    if m.DragBegin? then if m.drag == d then Some(m.count) else None
    else if x.Some? && OffersTo(m, d) then Some(x.value - 1)
    else x
  }

  predicate AtMost(x: Option<int>, y: Option<int>) {
    x.Some? ==> y.Some? && x.value <= y.value
  }

  lemma HandleDue(s: State, m: Message, env: Env, d: nat)
    requires m.TreeOffer? ==> m.tree !in s.trees
    ensures AtMost(Due(Handle(s, m, env), d), NextDue(m, d, Due(s, d)))
  {
    hide Settles, FinalizeDrag, FinalizeTree, SettleFailure, Done, RemoveFile, AcceptOffer, OfferInDrag, OfferTree;
    hide OfferInTree, MakeDir;
    hide MkdirAll, Chunk, BeginDrag, EndTree;
    match m
    case TreeFile(tree, i, rel, size) => OfferInTreeEffect(s, tree, i, rel, size, env);
    case DragBegin(drag, count) => BeginDragDue(s, drag, count, env, d);
    case TreeEnd(tree, error) => EndTreeDue(s, tree, error, env, d);
    case FileDone(i, digest) => DoneSettles(s, i, digest, env); SettledDue(s, Done(s, i, digest, env), d);
    case FileCancel(i, why) =>
      if i in s.recv {
        DroppedSettles(s, i, Drop(s, i), why, env);
        SettledDue(s, SettleFailure(Drop(s, i), s.recv[i], i, why, env), d);
      }
    case FileChunk(i, offset, data) => ChunkDue(s, i, offset, data, env, d);
    case DragOffer(drag, i, name, size) => OfferInDragDue(s, drag, i, name, size, env, d);
    case _ =>
  }

  lemma SettledDue(s: State, r: State, d: nat)
    requires Settles(s, r)
    ensures AtMost(Due(r, d), Due(s, d))
  {
  }

  lemma OfferInDragDue(s: State, drag: nat, i: nat, name: string, size: nat, env: Env, d: nat)
    ensures AtMost(Due(OfferInDrag(s, drag, i, name, size, env), d),
                   NextDue(DragOffer(drag, i, name, size), d, Due(s, d)))
  {
    hide OfferInDrag;
  }

  lemma BeginDragDue(s: State, drag: nat, count: nat, env: Env, d: nat)
    ensures AtMost(Due(BeginDrag(s, drag, count, env), d), NextDue(DragBegin(drag, count), d, Due(s, d)))
  {
    hide MkdirAll;
  }

  lemma EndTreeDue(s: State, tree: nat, error: Option<string>, env: Env, d: nat)
    ensures AtMost(Due(EndTree(s, tree, error, env), d), Due(s, d))
  {
    hide FinalizeTree, Settles;
    if tree in s.trees {
      var t := s.trees[tree].(ended := true);
      var s1 := s.WithTree(tree, if error.Some? then t.Fail(FromPeer(error.value)) else t);
      FinalizeTreeSettles(s1, tree, env);
      SettledDue(s1, FinalizeTree(s1, tree, env), d);
    }
  }

  lemma ChunkDue(s: State, i: nat, offset: nat, data: Bytes, env: Env, d: nat)
    ensures AtMost(Due(Chunk(s, i, offset, data, env), d), Due(s, d))
  {
    hide Settles, SettleFailure, RemoveFile;
    if i in s.recv {
      forall w, r: State | r == Drop(s, i).(replies := r.replies)
        ensures AtMost(Due(SettleFailure(r, s.recv[i], i, w, env), d), Due(s, d))
      {
        DroppedSettles(s, i, r, w, env);
        SettledDue(s.(replies := r.replies), SettleFailure(r, s.recv[i], i, w, env), d);
      }
    }
  }
}
