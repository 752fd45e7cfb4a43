/** When a folder is delivered, by the messages alone: it was closed without an error and
    everything offered to it arrived. */
module FolderRuns {
  import opened Basics
  import opened Disk
  import opened Receiving
  import opened Ownership
  import opened Footprints
  import Layout
  import Names

  /** Folder `t` was placed, or is staged for its drag. */
  ghost predicate HandedOver(s: State, t: nat) {
    || (exists p :: p in s.placed && p.folder && p.id == t)
    || (s.drag.Some? && exists x :: x in s.drag.value.done && x.folder && x.id == t)
  }

  /* ---- what one message delivers ---- */

  lemma {:induction false} PlaceAllFrom(fs: Fs, items: seq<Staged>, dest: Path, env: Env)
    ensures forall p :: p in PlaceAll(fs, items, dest, env).1 ==>
              exists x :: x in items && x.id == p.id && x.folder == p.folder
  {
    hide MovePath, FreeDirPath, FreeFilePath;
    if items != [] {
      var front, x := items[..|items| - 1], items[|items| - 1];
      PlaceAllFrom(fs, front, dest, env);
      assert items == front + [x];
      forall p | p in PlaceAll(fs, items, dest, env).1
        ensures exists x :: x in items && x.id == p.id && x.folder == p.folder
      {
        if p !in PlaceAll(fs, front, dest, env).1 {
          assert x in items && x.id == p.id && x.folder == p.folder;
        } else {
          var y :| y in front && y.id == p.id && y.folder == p.folder;
          assert y in items;
        }
      }
    }
  }

  lemma FinalizeDragDelivers(s: State, env: Env, t: nat)
    requires HandedOver(FinalizeDrag(s, env), t)
    ensures HandedOver(s, t)
  {
    hide PlaceAll, MkdirAll, RemoveDir;
    if s.drag.Some? {
      forall fs ensures forall p :: p in PlaceAll(fs, s.drag.value.done, s.DropDir(), env).1 ==>
                          exists x :: x in s.drag.value.done && x.id == p.id && x.folder == p.folder
      {
        PlaceAllFrom(fs, s.drag.value.done, s.DropDir(), env);
      }
    }
  }

  lemma SettleInDragDelivers(s: State, drag: Option<nat>, id: nat, item: Option<Staged>, env: Env, t: nat)
    requires HandedOver(SettleInDrag(s, drag, id, item, env), t)
    ensures HandedOver(s, t) || (item.Some? && item.value.folder && item.value.id == t)
  {
    hide FinalizeDrag;
    if s.DragIs(drag) {
      var d := s.drag.value.(outstanding := s.drag.value.outstanding - {id});
      FinalizeDragDelivers(s.WithDrag(if item.Some? then d.(done := d.done + [item.value]) else d), env, t);
    }
  }

  lemma FinalizeTreeDelivers(s: State, tree: nat, env: Env, t: nat)
    requires HandedOver(FinalizeTree(s, tree, env), t)
    ensures HandedOver(s, t) || (t == tree && t in s.trees && s.trees[t].Settled() && s.trees[t].failed.None?)
  {
    hide SettleInDrag, MkdirAll, MovePath, FreeDirPath, RemoveDir;
    if tree in s.trees && s.trees[tree].Settled() {
      var tr := s.trees[tree];
      forall s': State, item: Option<Staged> |
        s'.drag == s.drag && s'.placed == s.placed && HandedOver(SettleInDrag(s', tr.drag, tree, item, env), t)
        ensures HandedOver(s, t) || (item.Some? && item.value.folder && item.value.id == t)
      {
        SettleInDragDelivers(s', tr.drag, tree, item, env, t);
      }
    }
  }

  lemma SettleFailureDelivers(s: State, x: Recv, id: nat, why: Reason, env: Env, t: nat)
    requires HandedOver(SettleFailure(s, x, id, why, env), t)
    ensures HandedOver(s, t)
  {
    hide FinalizeTree, SettleInDrag;
    match x.tree
    case Some(tree) =>
      if tree in s.trees {
        var tr := s.trees[tree].(outstanding := s.trees[tree].outstanding - {id}).Fail(InFile(x.name, why));
        FinalizeTreeDelivers(s.WithTree(tree, tr), tree, env, t);
      }
    case None => SettleInDragDelivers(s, x.drag, id, None, env, t);
  }

  lemma ChunkDelivers(s: State, id: nat, offset: nat, data: Bytes, env: Env, t: nat)
    requires HandedOver(Chunk(s, id, offset, data, env), t)
    ensures HandedOver(s, t)
  {
    hide SettleFailure, RemoveFile;
    if id in s.recv {
      forall r: State, w | r.drag == s.drag && r.placed == s.placed
          && HandedOver(SettleFailure(r, s.recv[id], id, w, env), t)
        ensures HandedOver(s, t)
      {
        SettleFailureDelivers(r, s.recv[id], id, w, env, t);
      }
    }
  }

  lemma DoneDelivers(s: State, id: nat, digest: Digest, env: Env, t: nat)
    requires HandedOver(Done(s, id, digest, env), t) && !HandedOver(s, t)
    ensures t in s.trees && s.trees[t].ended && s.trees[t].failed.None? && s.trees[t].outstanding <= {id}
    ensures Finishes(s, FileDone(id, digest), env) && s.recv[id].tree == Some(t)
  {
    hide FinalizeTree, SettleInDrag, RenameFile, RemoveFile;
    var x := s.recv[id];
    var (fs, error) := FinishRecv(s.fs, id, x, digest, env);
    var s1 := s.(recv := s.recv - {id}, fs := fs);
    match x.tree
    case Some(tree) =>
      var tr := s1.trees[tree].(outstanding := s1.trees[tree].outstanding - {id});
      var tr1 := if error.Some? then tr.Fail(InFile(x.name, error.value))
                 else tr.(doneBytes := tr.doneBytes + x.size, verified := tr.verified + [Verified(id, x.size)]);
      FinalizeTreeDelivers(s1.WithTree(tree, tr1), tree, env, t);
      RenamedFinishes(s, id, digest, env);
    case None =>
      var s2 := if error.None? && x.drag.None? then s1.(placed := s1.placed + [Placed(id, false, x.final, None)])
                else s1;
      var item := if error.None? then Some(Staged(id, x.name, false, x.size, x.final, None)) else None;
      SettleInDragDelivers(s2, x.drag, id, item, env, t);
      assert false;
  }

  lemma RenamedFinishes(s: State, id: nat, digest: Digest, env: Env)
    requires id in s.recv && FinishRecv(s.fs, id, s.recv[id], digest, env).1.None?
    ensures Finishes(s, FileDone(id, digest), env)
  {
  }

  lemma OfferInDragDelivers(s: State, drag: nat, id: nat, name: string, size: nat, env: Env, t: nat)
    requires HandedOver(OfferInDrag(s, drag, id, name, size, env), t)
    ensures HandedOver(s, t)
  {
    hide AcceptOffer, FinalizeDrag;
    if s.DragIs(Some(drag)) {
      var d := s.drag.value.(offered := s.drag.value.offered + 1);
      var s1 := AcceptOffer(s.WithDrag(d), d.dir, id, name, size, Some(drag), None, env).0;
      if HandedOver(FinalizeDrag(s1, env), t) { FinalizeDragDelivers(s1, env, t); }
    }
  }

  /** The message that delivers folder `t`: it closes it without an error, nothing being
      under way, or it finishes the one file that was, after the folder was closed. */
  ghost predicate Completes(s: State, m: Message, env: Env, t: nat) {
    && t in s.trees && s.trees[t].failed.None? && t !in Handle(s, m, env).trees
    && (|| (m == TreeEnd(t, None) && s.trees[t].outstanding == {})
        || (Finishes(s, m, env) && s.trees[t].ended && s.trees[t].outstanding <= {m.id}))
  }

  lemma NewlyDelivered(s: State, m: Message, env: Env, t: nat)
    requires HandedOver(Handle(s, m, env), t) && !HandedOver(s, t)
    ensures Completes(s, m, env, t)
  {
    hide FinalizeDrag, FinalizeTree, SettleFailure, Done, AcceptOffer, OfferInDrag, OfferInTree, OfferTree, MakeDir;
    hide DiscardDrag, MkdirAll, RemoveFile, Chunk;
    match m
    case DragOffer(drag, id, name, size) => OfferInDragDelivers(s, drag, id, name, size, env, t);
    case DragDrop(drag) =>
      if s.DragIs(Some(drag)) { FinalizeDragDelivers(s.WithDrag(s.drag.value.(dropRequested := true)), env, t); }
    case TreeFile(tree, id, rel, size) => OfferInTreeEffect(s, tree, id, rel, size, env);
    case TreeEnd(tree, error) =>
      var tr := s.trees[tree].(ended := true);
      var tr1 := if error.Some? then tr.Fail(FromPeer(error.value)) else tr;
      FinalizeTreeDelivers(s.WithTree(tree, tr1), tree, env, t);
    case FileChunk(id, offset, data) => ChunkDelivers(s, id, offset, data, env, t);
    case FileDone(id, digest) =>
      DoneDelivers(s, id, digest, env, t);
      DoneGoes(s, id, digest, env, t);
    case FileCancel(id, why) => SettleFailureDelivers(Drop(s, id), s.recv[id], id, why, env, t);
    case _ => assert false;
  }

  lemma DoneGoes(s: State, id: nat, digest: Digest, env: Env, t: nat)
    requires Finishes(s, FileDone(id, digest), env) && s.recv[id].tree == Some(t) && t in s.trees
    requires s.trees[t].ended && s.trees[t].outstanding <= {id}
    ensures t !in Handle(s, FileDone(id, digest), env).trees
  {
    hide FinalizeTree, FinishRecv;
    assert s.trees[t].outstanding - {id} == {};
  }

  /* ---- what one message does to a folder that stays and does not fail ---- */

  /** Nothing that speaks against folder `t`: no error from the peer, its files are under way
      or finish, its directories are made. */
  ghost predicate Serves(s: State, m: Message, env: Env, t: nat) {
    var r := Handle(s, m, env);
    && (m.TreeEnd? && m.tree == t ==> m.error.None?)
    && (m.TreeFile? && m.tree == t ==> t in r.trees && m.id in r.trees[t].outstanding)
    && (m.TreeDir? && m.tree == t ==> DirMade(r, t, m.rel))
  }

  /** The directory at `rel` below folder `t` is there. */
  ghost predicate DirMade(s: State, t: nat, rel: string) {
    var path := Names.SanitizeRel(rel);
    && t in s.trees && path.Some?
    && (s.trees[t].root + path.value != [] ==> IsDirOrRoot(s.fs, s.trees[t].root + path.value))
  }

  /** How the record of a folder goes on that does not fail. */
  ghost predicate GoesOn(s: State, m: Message, env: Env, before: Tree, after: Tree) {
    && before.failed.None?
    && (after.ended ==> before.ended || (m.TreeEnd? && m.error.None?))
    && forall id :: id in before.outstanding && id !in after.outstanding ==> Finishes(s, m, env) && m.id == id
  }

  lemma StaysWell(s: State, m: Message, env: Env, t: nat)
    requires t in s.trees && t in Handle(s, m, env).trees && Handle(s, m, env).trees[t].failed.None?
    ensures GoesOn(s, m, env, s.trees[t], Handle(s, m, env).trees[t]) && Serves(s, m, env, t)
    ensures Handle(s, m, env).trees[t].ended ==> s.trees[t].ended || m == TreeEnd(t, None)
  {
    hide Handle, GoesOn, Serves;
    if m.FileChunk? || m.FileDone? || m.FileCancel? {
      FileStays(s, m, env, t);
    } else if m.TreeOffer? || m.TreeDir? || m.TreeFile? {
      FolderStays(s, m, env, t);
    } else if m.TreeEnd? {
      EndStays(s, m, env, t);
    } else {
      OtherStays(s, m, env, t);
    }
  }

  lemma OtherStays(s: State, m: Message, env: Env, t: nat)
    requires m.FileOffer? || m.DragBegin? || m.DragOffer? || m.DragDrop? || m.DragCancel?
    requires t in s.trees && t in Handle(s, m, env).trees && Handle(s, m, env).trees[t].failed.None?
    ensures GoesOn(s, m, env, s.trees[t], Handle(s, m, env).trees[t]) && Serves(s, m, env, t)
    ensures Handle(s, m, env).trees[t].ended ==> s.trees[t].ended
  {
    hide FinalizeDrag, AcceptOffer, OfferInDrag, DiscardDrag, MkdirAll, Finishes, DirMade;
    match m
    case DragBegin(drag, count) => BeginDragTrees(s, drag, count, env, t);
    case DragCancel(drag) => if s.DragIs(Some(drag)) { DiscardTrees(s, t); }
    case _ =>
  }

  lemma FolderStays(s: State, m: Message, env: Env, t: nat)
    requires m.TreeOffer? || m.TreeDir? || m.TreeFile?
    requires t in s.trees && t in Handle(s, m, env).trees && Handle(s, m, env).trees[t].failed.None?
    ensures GoesOn(s, m, env, s.trees[t], Handle(s, m, env).trees[t]) && Serves(s, m, env, t)
    ensures Handle(s, m, env).trees[t].ended ==> s.trees[t].ended
  {
    hide OfferInTree, OfferTree, MakeDir, Finishes, DirMade;
    match m
    case TreeDir(tree, rel) => DirStays(s, tree, rel, env, t);
    case TreeFile(tree, id, rel, size) => OfferInTreeEffect(s, tree, id, rel, size, env);
    case _ =>
  }

  lemma EndStays(s: State, m: Message, env: Env, t: nat)
    requires m.TreeEnd?
    requires t in s.trees && t in Handle(s, m, env).trees && Handle(s, m, env).trees[t].failed.None?
    ensures GoesOn(s, m, env, s.trees[t], Handle(s, m, env).trees[t]) && Serves(s, m, env, t)
    ensures Handle(s, m, env).trees[t].ended ==> s.trees[t].ended || m == TreeEnd(t, None)
  {
    hide FinalizeTree, Finishes, DirMade, Finishes, Tree.Settled;
    if m.tree in s.trees {
      var end := s.trees[m.tree].(ended := true);
      EndedStays(s, m.tree, if m.error.Some? then end.Fail(FromPeer(m.error.value)) else end, env, t);
    }
  }

  /** Finalizing a folder leaves the records of all that stay. */
  lemma EndedStays(s: State, tree: nat, tr: Tree, env: Env, t: nat)
    requires t in FinalizeTree(s.WithTree(tree, tr), tree, env).trees
    ensures FinalizeTree(s.WithTree(tree, tr), tree, env).trees[t] == s.WithTree(tree, tr).trees[t]
  {
    hide FinalizeTree, Tree.Settled;
  }

  lemma FileStays(s: State, m: Message, env: Env, t: nat)
    requires m.FileChunk? || m.FileDone? || m.FileCancel?
    requires t in s.trees && t in Handle(s, m, env).trees && Handle(s, m, env).trees[t].failed.None?
    ensures GoesOn(s, m, env, s.trees[t], Handle(s, m, env).trees[t]) && Serves(s, m, env, t)
    ensures Handle(s, m, env).trees[t].ended ==> s.trees[t].ended
  {
    hide FinalizeDrag, FinalizeTree, SettleFailure, Done, RemoveFile, Chunk, Finishes, DirMade;
    match m
    case FileChunk(id, offset, data) => ChunkStays(s, id, offset, data, env, t);
    case FileDone(id, digest) => DoneStays(s, id, digest, env, t);
    case FileCancel(id, why) => if id in s.recv { FailureStays(Drop(s, id), s.recv[id], id, why, env, t); }
  }

  lemma FailureStays(s: State, x: Recv, id: nat, why: Reason, env: Env, t: nat)
    requires t in s.trees && t in SettleFailure(s, x, id, why, env).trees
             && SettleFailure(s, x, id, why, env).trees[t].failed.None?
    ensures SettleFailure(s, x, id, why, env).trees[t] == s.trees[t]
  {
    hide FinalizeTree, SettleInDrag;
  }

  lemma ChunkStays(s: State, id: nat, offset: nat, data: Bytes, env: Env, t: nat)
    requires t in s.trees && t in Chunk(s, id, offset, data, env).trees
             && Chunk(s, id, offset, data, env).trees[t].failed.None?
    ensures Chunk(s, id, offset, data, env).trees[t] == s.trees[t]
  {
    hide SettleFailure, RemoveFile;
    if id in s.recv {
      forall r: State, w |
        r.trees == s.trees && t in SettleFailure(r, s.recv[id], id, w, env).trees
        && SettleFailure(r, s.recv[id], id, w, env).trees[t].failed.None?
        ensures SettleFailure(r, s.recv[id], id, w, env).trees[t] == s.trees[t]
      {
        FailureStays(r, s.recv[id], id, w, env, t);
      }
    }
  }

  lemma DoneStays(s: State, id: nat, digest: Digest, env: Env, t: nat)
    requires t in s.trees && t in Done(s, id, digest, env).trees && Done(s, id, digest, env).trees[t].failed.None?
    ensures GoesOn(s, FileDone(id, digest), env, s.trees[t], Done(s, id, digest, env).trees[t])
    ensures Done(s, id, digest, env).trees[t].ended ==> s.trees[t].ended
  {
    hide FinalizeTree, SettleInDrag, FinishRecv, Finishes;
    if id in s.recv && FinishRecv(s.fs, id, s.recv[id], digest, env).1.None? { RenamedFinishes(s, id, digest, env); }
  }

  lemma DirStays(s: State, tree: nat, rel: string, env: Env, t: nat)
    requires t in s.trees && MakeDir(s, tree, rel, env).trees[t].failed.None?
    ensures s.trees[t].failed.None? && (t == tree ==> DirMade(MakeDir(s, tree, rel, env), t, rel))
  {
    hide Names.SanitizeRel;
    if t == tree && Names.SanitizeRel(rel).Some? {
      var p := s.trees[t].root + Names.SanitizeRel(rel).value;
      assert p != [] ==> p in Ancestors(p);
    }
  }

  lemma NewFolder(s: State, m: Message, env: Env, t: nat)
    requires t !in s.trees && t in Handle(s, m, env).trees
    ensures m.TreeOffer? && m.tree == t
    ensures !Handle(s, m, env).trees[t].ended && Handle(s, m, env).trees[t].outstanding == {}
  {
    hide OfferTree, Handle;
    TreeAfter(s, m, env, t);
    Layout.OfferIs(s, m, env);
  }

  /* ---- over a run ---- */

  /** The k-th message offered file `id`, and a later one finished it. */
  ghost predicate FinishedSince(s: State, es: seq<Event>, k: nat, id: nat) {
    exists l :: k < l < |es| && Finishes(Run(s, es[..l]), es[l].m, es[l].env) && es[l].m.id == id
  }

  /** What the k-th message means for folder `t`: an end is one without an error, a file offered to
      it is one of `open` or was finished, a directory was made. */
  ghost predicate Served(s: State, es: seq<Event>, k: nat, t: nat, open: set<nat>)
    requires k < |es|
  {
    var m := es[k].m;
    && (m.TreeEnd? && m.tree == t ==> m.error.None?)
    && (m.TreeFile? && m.tree == t ==> m.id in open || FinishedSince(s, es, k, m.id))
    && (m.TreeDir? && m.tree == t ==> DirMade(Run(s, es[..k + 1]), t, m.rel))
  }

  /** So much for every message after the i-th. */
  ghost predicate AllServed(s: State, es: seq<Event>, i: nat, t: nat, open: set<nat>) {
    forall k :: i < k < |es| ==> Served(s, es, k, t, open)
  }

  /** Folder `t` was offered by the i-th message and is in the table since. */
  ghost predicate Lives(s: State, es: seq<Event>, i: nat, t: nat) {
    && i < |es| && es[i].m.TreeOffer? && es[i].m.tree == t && t !in Run(s, es[..i]).trees
    && forall k :: i < k <= |es| ==> t in Run(s, es[..k]).trees
  }

  ghost predicate ClosedSince(es: seq<Event>, i: nat, t: nat) {
    exists k :: i < k < |es| && es[k].m == TreeEnd(t, None)
  }

  lemma Prefixes(es: seq<Event>, e: Event)
    ensures forall k :: 0 <= k <= |es| ==> (es + [e])[..k] == es[..k]
    ensures forall k :: 0 <= k < |es| ==> (es + [e])[k] == es[k]
    ensures (es + [e])[..|es|] == es && (es + [e])[|es|] == e && es[..|es|] == es
  {
  }

  lemma FinishedStays(s: State, es: seq<Event>, e: Event, k: nat, id: nat)
    ensures FinishedSince(s, es, k, id) ==> FinishedSince(s, es + [e], k, id)
    ensures k < |es| && Finishes(Run(s, es), e.m, e.env) && e.m.id == id ==> FinishedSince(s, es + [e], k, id)
  {
    hide Run;
    Prefixes(es, e);
    var more := es + [e];
    if FinishedSince(s, es, k, id) {
      var l :| k < l < |es| && Finishes(Run(s, es[..l]), es[l].m, es[l].env) && es[l].m.id == id;
      assert Finishes(Run(s, more[..l]), more[l].m, more[l].env) && more[l].m.id == id;
    }
    if k < |es| && Finishes(Run(s, es), e.m, e.env) && e.m.id == id {
      assert Finishes(Run(s, more[..|es|]), more[|es|].m, more[|es|].env) && more[|es|].m.id == id;
    }
  }

  lemma ServedStays(s: State, es: seq<Event>, e: Event, k: nat, t: nat, open: set<nat>, still: set<nat>)
    requires k < |es| && Served(s, es, k, t, open)
    requires forall id :: id in open && id !in still ==> Finishes(Run(s, es), e.m, e.env) && e.m.id == id
    ensures Served(s, es + [e], k, t, still)
  {
    hide Finishes, Run, FinishedSince, DirMade;
    Prefixes(es, e);
    if es[k].m.TreeFile? { FinishedStays(s, es, e, k, es[k].m.id); }
  }

  /** A folder in the table was offered once and is there since; while it has not failed, all
      that was sent for it is under way or went well. */
  lemma {:induction false} LivesWell(s: State, es: seq<Event>, t: nat) returns (i: nat)
    requires IsNew(s) && t in Run(s, es).trees
    ensures Lives(s, es, i, t)
    ensures var tr := Run(s, es).trees[t];
            tr.failed.None? ==>
              && AllServed(s, es, i, t, tr.outstanding)
              && (tr.ended ==> ClosedSince(es, i, t))
  {
    hide Handle, Served, Serves, GoesOn;
    var front, e := es[..|es| - 1], es[|es| - 1];
    assert es == front + [e] && es[..|es|] == es;
    Prefixes(front, e);
    var before := Run(s, front);
    if t in before.trees {
      i := LivesWell(s, front, t);
      LivesOn(s, front, e, i, t);
      if Run(s, es).trees[t].failed.None? { ServedOn(s, front, e, i, t); }
    } else {
      i := |front|;
      NewFolder(before, e.m, e.env, t);
    }
  }

  lemma LivesOn(s: State, es: seq<Event>, e: Event, i: nat, t: nat)
    requires Lives(s, es, i, t) && t in Run(s, es + [e]).trees
    ensures Lives(s, es + [e], i, t)
  {
    hide Run;
    Prefixes(es, e);
    assert (es + [e])[..|es| + 1] == es + [e];
  }

  lemma ServedOn(s: State, es: seq<Event>, e: Event, i: nat, t: nat)
    requires i < |es| && t in Run(s, es).trees && t in Handle(Run(s, es), e.m, e.env).trees
    requires Handle(Run(s, es), e.m, e.env).trees[t].failed.None?
    requires var tr := Run(s, es).trees[t];
             tr.failed.None? ==>
               && AllServed(s, es, i, t, tr.outstanding)
               && (tr.ended ==> ClosedSince(es, i, t))
    ensures var tr := Handle(Run(s, es), e.m, e.env).trees[t];
            && AllServed(s, es + [e], i, t, tr.outstanding)
            && (tr.ended ==> ClosedSince(es + [e], i, t))
  {
    hide Handle, Run, Finishes, Served, DirMade;
    StaysWell(Run(s, es), e.m, e.env, t);
    Prefixes(es, e);
    var more, tr, still := es + [e], Run(s, es).trees[t], Handle(Run(s, es), e.m, e.env).trees[t].outstanding;
    forall k | i < k < |more| ensures Served(s, more, k, t, still) {
      if k < |es| { ServedStays(s, es, e, k, t, tr.outstanding, still); } else { ServedNow(s, es, e, t, still); }
    }
    if ClosedSince(es, i, t) {
      var k :| i < k < |es| && es[k].m == TreeEnd(t, None);
      assert more[k].m == TreeEnd(t, None);
    } else {
      assert more[|es|].m == e.m;
    }
  }

  lemma ServedNow(s: State, es: seq<Event>, e: Event, t: nat, open: set<nat>)
    requires Serves(Run(s, es), e.m, e.env, t) && t in Handle(Run(s, es), e.m, e.env).trees
    requires open == Handle(Run(s, es), e.m, e.env).trees[t].outstanding
    ensures Served(s, es + [e], |es|, t, open)
  {
    hide Handle, DirMade;
    Prefixes(es, e);
    assert (es + [e])[..|es| + 1] == es + [e];
  }

  /** Over any run, whatever the peer sends and the disk does: a folder that was placed, or is
      staged, was offered and then stayed in the table until some message completed it. Up to
      then it was closed, never with an error; every file offered to it was finished, with the
      right size and digest; every directory announced was made. */
  lemma {:induction false} DeliveredAsSent(s: State, es: seq<Event>, t: nat) returns (i: nat, n: nat)
    requires IsNew(s) && HandedOver(Run(s, es), t)
    ensures i < n < |es| && Lives(s, es[..n], i, t) && t !in Run(s, es[..n + 1]).trees
    ensures ClosedSince(es[..n + 1], i, t)
    ensures AllServed(s, es[..n + 1], i, t, {})
  {
    hide Handle, AllServed, Lives, Finishes;
    var front, e := es[..|es| - 1], es[|es| - 1];
    assert es == front + [e];
    Prefixes(front, e);
    var before := Run(s, front);
    if HandedOver(before, t) {
      i, n := DeliveredAsSent(s, front, t);
      assert front[..n] == es[..n] && front[..n + 1] == es[..n + 1];
    } else {
      NewlyDelivered(before, e.m, e.env, t);
      i := CompletedWell(s, front, e, t);
      n := |front|;
      assert es[..n] == front && es[..n + 1] == es;
    }
  }

  lemma CompletedWell(s: State, es: seq<Event>, e: Event, t: nat) returns (i: nat)
    requires IsNew(s) && Completes(Run(s, es), e.m, e.env, t)
    ensures i < |es| && Lives(s, es, i, t) && ClosedSince(es + [e], i, t)
    ensures AllServed(s, es + [e], i, t, {})
  {
    hide Handle, Run, Served, DirMade;
    i := LivesWell(s, es, t);
    Prefixes(es, e);
    var more, tr := es + [e], Run(s, es).trees[t];
    forall k | i < k < |es| ensures Served(s, more, k, t, {}) { ServedStays(s, es, e, k, t, tr.outstanding, {}); }
    assert Served(s, more, |es|, t, {}) by { EndServed(s, es, e, t); }
    if tr.ended {
      var k :| i < k < |es| && es[k].m == TreeEnd(t, None);
      assert more[k].m == TreeEnd(t, None);
    } else {
      assert more[|es|].m == TreeEnd(t, None);
    }
  }

  lemma EndServed(s: State, es: seq<Event>, e: Event, t: nat)
    requires e.m == TreeEnd(t, None) || e.m.FileDone?
    ensures Served(s, es + [e], |es|, t, {})
  {
  }
}
