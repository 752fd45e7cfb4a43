/** What one message can change in the receiving state, as far as the sending
    side depends on it. */
module Frames {
  import opened Basics
  import opened Disk
  import opened Receiving
  import opened Ownership
  import Names

  /** What the sender has to know about the receiver: a file is live, a folder is
      known, a folder is waiting for its end, a drag is being held. */
  datatype Aspect = FileLive(id: nat) | TreeKnown(tree: nat) | TreeOpen(tree: nat) | DragHeld(drag: nat)

  predicate Now(a: Aspect, s: State) {
    match a
    case FileLive(id) => id in s.recv
    case TreeKnown(t) => t in s.trees
    case TreeOpen(t) => t in s.trees && !s.trees[t].ended
    case DragHeld(d) => s.DragIs(Some(d)) && !s.drag.value.dropRequested
  }

  /** The file a message offers. */
  function Offers(m: Message): Option<nat> {
    match m
    case FileOffer(id, _, _) => Some(id)
    case DragOffer(_, id, _, _) => Some(id)
    case TreeFile(_, id, _, _) => Some(id)
    case _ => None
  }

  /** The file or folder a message offers. */
  function Announces(m: Message): Option<nat> {
    if m.TreeOffer? then Some(m.tree) else Offers(m)
  }

  /** The file a message ends. */
  function Ends(m: Message): Option<nat> {
    match m
    case FileDone(id, _) => Some(id)
    case FileCancel(id, _) => Some(id)
    case _ => None
  }

  /** Whether aspect `a` can hold after `m`, given whether it can before. */
  predicate Next(a: Aspect, m: Message, x: bool) {
    match a
    case FileLive(id) => Ends(m) != Some(id) && (Offers(m) == Some(id) || x)
    case TreeKnown(t) => (m.TreeOffer? && m.tree == t) || x
    case TreeOpen(t) => !(m.TreeEnd? && m.tree == t) && ((m.TreeOffer? && m.tree == t) || x)
    case DragHeld(d) =>
      if m.DragBegin? then m.drag == d else x && !((m.DragDrop? || m.DragCancel?) && m.drag == d)
  }

  /** `r` came from `s` by settling or discarding items only. */
  ghost predicate Settles(s: State, r: State) {
    && r.recv.Keys <= s.recv.Keys
    && (forall t :: t in r.trees ==> t in s.trees && r.trees[t].ended == s.trees[t].ended)
    && (r.drag.Some? ==>
          && s.drag.Some?
          && var d, d' := s.drag.value, r.drag.value;
          && d'.drag == d.drag && d'.expected == d.expected && d'.offered == d.offered
             && d'.dropRequested == d.dropRequested)
    && r.replies == s.replies
  }

  lemma SettleInDragSettles(s: State, drag: Option<nat>, id: nat, item: Option<Staged>, env: Env)
    ensures Settles(s, SettleInDrag(s, drag, id, item, env))
  {
    hide FinalizeDrag;
  }

  lemma FinalizeTreeSettles(s: State, tree: nat, env: Env)
    ensures Settles(s, FinalizeTree(s, tree, env))
  {
    hide FinalizeDrag, SettleInDrag, FinalizeTree;
  }

  lemma SettlesTrans(a: State, b: State, c: State)
    requires Settles(a, b) && Settles(b, c)
    ensures Settles(a, c)
  {
  }

  lemma SettleFailureSettles(s: State, t: Recv, id: nat, why: Reason, env: Env)
    ensures Settles(s, SettleFailure(s, t, id, why, env))
  {
    hide FinalizeTree, SettleInDrag, Settles;
    match t.tree
    case Some(tree) =>
      SettlesRefl(s);
      if tree in s.trees {
        var s1 := s.WithTree(tree, s.trees[tree].(outstanding := s.trees[tree].outstanding - {id})
          .Fail(InFile(t.name, why)));
        TreeTouched(s, tree, s1);
        FinalizeTreeSettles(s1, tree, env);
        SettlesTrans(s, s1, FinalizeTree(s1, tree, env));
      }
    case None => SettleInDragSettles(s, t.drag, id, None, env);
  }

  lemma SettlesRefl(s: State)
    ensures Settles(s, s)
  {
  }

  lemma TreeTouched(s: State, tree: nat, r: State)
    requires tree in s.trees && tree in r.trees && r.trees == s.trees[tree := r.trees[tree]]
             && r.trees[tree].ended == s.trees[tree].ended
    requires r.recv.Keys <= s.recv.Keys && r.drag == s.drag && r.replies == s.replies
    ensures Settles(s, r)
  {
  }

  lemma DoneSettles(s: State, id: nat, digest: Digest, env: Env)
    ensures Settles(s, Done(s, id, digest, env)) && id !in Done(s, id, digest, env).recv
  {
    hide FinalizeTree, SettleInDrag, Settles, FinishRecv;
    SettlesRefl(s);
    if id in s.recv {
      var t := s.recv[id];
      var (fs, error) := FinishRecv(s.fs, id, t, digest, env);
      var s1 := s.(recv := s.recv - {id}, fs := fs);
      match t.tree
      case Some(tree) =>
        if tree in s.trees {
          var tr := s1.trees[tree].(outstanding := s1.trees[tree].outstanding - {id});
          var tr1 := if error.Some? then tr.Fail(InFile(t.name, error.value))
                     else tr.(doneBytes := tr.doneBytes + t.size, verified := tr.verified + [Verified(id, t.size)]);
          var s2 := s1.WithTree(tree, tr1);
          TreeTouched(s, tree, s2);
          FinalizeTreeSettles(s2, tree, env);
          SettlesTrans(s, s2, FinalizeTree(s2, tree, env));
        } else {
          assert Settles(s, s1) by { FewerFiles(s, s1); }
        }
      case None =>
        var s2 := if error.None? && t.drag.None? then s1.(placed := s1.placed + [Placed(id, false, t.final, None)])
                  else s1;
        var item := if error.None? then Some(Staged(id, t.name, false, t.size, t.final, None)) else None;
        FewerFiles(s, s2);
        SettleInDragSettles(s2, t.drag, id, item, env);
        SettlesTrans(s, s2, SettleInDrag(s2, t.drag, id, item, env));
    }
  }

  lemma FewerFiles(s: State, r: State)
    requires r.recv.Keys <= s.recv.Keys && r.trees == s.trees && r.drag == s.drag && r.replies == s.replies
    ensures Settles(s, r)
  {
  }

  /** A transfer dropped and settled as failed. */
  lemma DroppedSettles(s: State, id: nat, r: State, why: Reason, env: Env)
    requires id in s.recv && r == Drop(s, id).(replies := r.replies)
    ensures var f := SettleFailure(r, s.recv[id], id, why, env);
            Settles(s.(replies := r.replies), f) && id !in f.recv
  {
    hide SettleFailure, Settles, RemoveFile;
    SettleFailureSettles(r, s.recv[id], id, why, env);
    FewerFiles(s.(replies := r.replies), r);
    SettlesTrans(s.(replies := r.replies), r, SettleFailure(r, s.recv[id], id, why, env));
    assert id !in SettleFailure(r, s.recv[id], id, why, env).recv by {
      SettledKeys(r, SettleFailure(r, s.recv[id], id, why, env));
    }
  }

  lemma SettledKeys(s: State, r: State)
    requires Settles(s, r)
    ensures r.recv.Keys <= s.recv.Keys
  {
  }

  lemma SettledAspect(a: Aspect, s: State, r: State)
    requires Settles(s, r) && Now(a, r)
    ensures Now(a, s)
  {
  }

  /** What one message can do to an aspect. */
  lemma HandleRespects(a: Aspect, s: State, m: Message, env: Env)
    requires Now(a, Handle(s, m, env))
    ensures Next(a, m, Now(a, s))
  {
    hide Settles, FinalizeDrag, FinalizeTree, SettleFailure, Done, RemoveFile, AcceptOffer, OfferInDrag, OfferTree;
    hide OfferInTree, MakeDir;
    hide DiscardDrag, MkdirAll;
    var r := Handle(s, m, env);
    match m
    case FileOffer(id, name, size) =>
    case DragBegin(drag, count) => BeginDragRespects(a, s, drag, count, env);
    case DragOffer(drag, id, name, size) => OfferInDragRespects(a, s, drag, id, name, size, env);
    case DragDrop(drag) =>
    case DragCancel(drag) => if s.DragIs(Some(drag)) { DiscardRespects(a, s); }
    case TreeOffer(tree, name, files, bytes, within) =>
    case TreeDir(tree, rel) =>
    case TreeFile(tree, id, rel, size) => OfferInTreeEffect(s, tree, id, rel, size, env);
    case TreeEnd(tree, error) => EndTreeRespects(a, s, tree, error, env);
    case FileChunk(id, offset, data) => ChunkRespects(a, s, id, offset, data, env);
    case FileDone(id, digest) =>
      DoneSettles(s, id, digest, env);
      SettledAspect(a, s, r);
    case FileCancel(id, why) =>
      if id in s.recv {
        DroppedSettles(s, id, Drop(s, id), why, env);
        SettledAspect(a, s, r);
      }
  }

  lemma BeginDragRespects(a: Aspect, s: State, drag: nat, count: nat, env: Env)
    requires Now(a, BeginDrag(s, drag, count, env))
    ensures Next(a, DragBegin(drag, count), Now(a, s))
  {
    hide MkdirAll;
  }

  lemma DiscardRespects(a: Aspect, s: State)
    requires s.drag.Some? && Now(a, DiscardDrag(s.(drag := None), s.drag.value))
    ensures Now(a, s) && a != DragHeld(s.drag.value.drag)
  {
  }

  lemma OfferInDragRespects(a: Aspect, s: State, drag: nat, id: nat, name: string, size: nat, env: Env)
    requires Now(a, OfferInDrag(s, drag, id, name, size, env))
    ensures Next(a, DragOffer(drag, id, name, size), Now(a, s))
  {
    hide OfferInDrag;
  }

  lemma EndTreeRespects(a: Aspect, s: State, tree: nat, error: Option<string>, env: Env)
    requires Now(a, EndTree(s, tree, error, env))
    ensures Next(a, TreeEnd(tree, error), Now(a, s))
  {
    hide FinalizeTree, Settles;
    if tree in s.trees {
      var t := s.trees[tree].(ended := true);
      var s1 := s.WithTree(tree, if error.Some? then t.Fail(FromPeer(error.value)) else t);
      FinalizeTreeSettles(s1, tree, env);
      SettledAspect(a, s1, FinalizeTree(s1, tree, env));
    }
  }

  lemma ChunkRespects(a: Aspect, s: State, id: nat, offset: nat, data: Bytes, env: Env)
    requires Now(a, Chunk(s, id, offset, data, env))
    ensures Now(a, s)
  {
    hide Settles, SettleFailure, RemoveFile;
    if id in s.recv {
      forall w, r: State | r == Drop(s, id).(replies := r.replies) && Now(a, SettleFailure(r, s.recv[id], id, w, env))
        ensures Now(a, s)
      {
        DroppedSettles(s, id, r, w, env);
        SettledAspect(a, s.(replies := r.replies), SettleFailure(r, s.recv[id], id, w, env));
      }
    }
  }

  /* ---- replies ---- */

  /** The reply answers the offer of file `id`. */
  predicate Answers(r: Reply, id: nat) { (r.Accept? || r.Reject?) && r.id == id }

  /** One answer for file `id` was added, and it tells whether the file is live. */
  ghost predicate AnsweredOnce(s: State, id: nat, r: State) {
    && |r.replies| == |s.replies| + 1 && s.replies <= r.replies && Answers(r.replies[|s.replies|], id)
    && (id !in s.recv ==> (r.replies[|s.replies|].Accept? <==> id in r.recv))
  }

  /** Every offer is answered once, at once; a refused or aborted file is not
      live; nothing else is said. */
  lemma HandleReplies(s: State, m: Message, env: Env)
    ensures var r := Handle(s, m, env);
            && s.replies <= r.replies
            && (match Offers(m)
                case Some(id) => AnsweredOnce(s, id, r)
                case None =>
                  || r.replies == s.replies
                  || (|r.replies| == |s.replies| + 1 && r.replies[|s.replies|].Abort?
                      && r.replies[|s.replies|].id in s.recv && r.replies[|s.replies|].id !in r.recv))
  {
    hide Settles, FinalizeDrag, FinalizeTree, SettleFailure, Done, RemoveFile, OfferInDrag, OfferTree, OfferInTree;
    hide MakeDir;
    hide DiscardDrag, MkdirAll, BeginDrag, BeginRecv, Chunk;
    var r := Handle(s, m, env);
    match m
    case FileOffer(id, name, size) =>
    case DragOffer(drag, id, name, size) => OfferInDragReplies(s, drag, id, name, size, env);
    case TreeFile(tree, id, rel, size) => OfferInTreeReplies(s, tree, id, rel, size, env);
    case DragBegin(drag, count) => assert r.replies == s.replies by { BeginDragReplies(s, drag, count, env); }
    case TreeEnd(tree, error) => assert r.replies == s.replies;
    case FileChunk(id, offset, data) => ChunkReplies(s, id, offset, data, env);
    case FileDone(id, digest) => DoneSettles(s, id, digest, env); SettledReplies(s, r);
    case FileCancel(id, why) =>
      if id in s.recv {
        DroppedSettles(s, id, Drop(s, id), why, env);
        SettledReplies(s, r);
      }
    case _ => assert r.replies == s.replies;
  }

  lemma SettledReplies(s: State, r: State)
    requires Settles(s, r)
    ensures r.replies == s.replies
  {
  }

  lemma BeginDragReplies(s: State, drag: nat, count: nat, env: Env)
    ensures BeginDrag(s, drag, count, env).replies == s.replies
  {
    hide MkdirAll, DiscardDrag;
  }

  lemma OfferInDragReplies(s: State, drag: nat, id: nat, name: string, size: nat, env: Env)
    ensures AnsweredOnce(s, id, OfferInDrag(s, drag, id, name, size, env))
  {
    hide BeginRecv, FinalizeDrag;
  }

  lemma OfferInTreeReplies(s: State, tree: nat, id: nat, rel: string, size: nat, env: Env)
    ensures AnsweredOnce(s, id, OfferInTree(s, tree, id, rel, size, env))
  {
    hide OpenInTree, Names.SanitizeRel;
    forall t: Tree, path: Path | tree in s.trees && t.failed.None? && path != []
      ensures AnsweredOnce(s, id, OpenInTree(s, tree, t, id, path, size, env))
    {
      OpenInTreeReplies(s, tree, t, id, path, size, env);
    }
  }

  lemma OpenInTreeReplies(s: State, tree: nat, t: Tree, id: nat, path: Path, size: nat, env: Env)
    requires tree in s.trees && t.failed.None? && path != []
    ensures AnsweredOnce(s, id, OpenInTree(s, tree, t, id, path, size, env))
  {
    hide BeginRecv;
  }

  lemma ChunkReplies(s: State, id: nat, offset: nat, data: Bytes, env: Env)
    ensures var r := Chunk(s, id, offset, data, env);
            || r.replies == s.replies
            || (|r.replies| == |s.replies| + 1 && s.replies <= r.replies && r.replies[|s.replies|].Abort?
                && r.replies[|s.replies|].id == id && id in s.recv && id !in r.recv)
  {
    hide Settles, SettleFailure, RemoveFile;
    if id in s.recv {
      forall w, r: State | r == Drop(s, id).(replies := r.replies)
        ensures SettleFailure(r, s.recv[id], id, w, env).replies == r.replies
        ensures id !in SettleFailure(r, s.recv[id], id, w, env).recv
      {
        DroppedSettles(s, id, r, w, env);
        SettledReplies(s.(replies := r.replies), SettleFailure(r, s.recv[id], id, w, env));
      }
    }
  }
}
