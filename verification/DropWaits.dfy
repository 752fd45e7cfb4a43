/** A drop waits for all that was announced: when a drag is held, and when it is dropped. */
module DropWaits {
  import opened Basics
  import opened Disk
  import opened Receiving
  import opened Ownership
  import opened Conservation
  import opened Footprints
  import opened DropTime
  import opened Deliveries
  import opened Leftovers
  import Names

  /** The messages that offer an item to drag `d`. */
  function OfferedTo(es: seq<Event>, d: nat): nat {
    if es == [] then 0 else OfferedTo(es[..|es| - 1], d) + One(OffersTo(es[|es| - 1].m, d))
  }

  /** The message offers an item that drag `d` counts; a folder that is known already is no new one. */
  predicate Counts(s: State, m: Message, d: nat) { OffersTo(m, d) && (m.TreeOffer? ==> m.tree !in s.trees) }

  function CountedIn(s: State, es: seq<Event>, d: nat): nat {
    if es == [] then 0
    else CountedIn(s, es[..|es| - 1], d) + One(Counts(Run(s, es[..|es| - 1]), es[|es| - 1].m, d))
  }

  predicate Released(es: seq<Event>, d: nat) { exists k :: 0 <= k < |es| && es[k].m == DragDrop(d) }

  /** No file and no folder of drag `d` is under way. */
  ghost predicate Idle(s: State, d: nat) {
    && (forall id :: id in s.recv ==> s.recv[id].drag != Some(d))
    && (forall t :: t in s.trees && s.trees[t].counted ==> s.trees[t].drag != Some(d))
  }

  /** No message abandons drag `d`. */
  predicate Kept(es: seq<Event>, d: nat) { forall k :: 0 <= k < |es| ==> !Abandons(es[k].m, d) }

  /* ---- one message ---- */

  /** How the record of a drag goes on that is held. */
  ghost predicate HeldOn(s: State, m: Message, r: State)
    requires s.drag.Some? && r.drag.Some?
  {
    var d, d' := s.drag.value, r.drag.value;
    && d'.drag == d.drag && d'.expected == d.expected && d'.offered == d.offered + One(Counts(s, m, d.drag))
    && (d'.dropRequested <==> d.dropRequested || m == DragDrop(d.drag)) && d.done <= d'.done
  }

  /** The drag was released and has all the items it expects. */
  predicate Complete(s: State, m: Message)
    requires s.drag.Some?
  {
    var d := s.drag.value;
    (d.dropRequested || m == DragDrop(d.drag)) && d.offered + One(Counts(s, m, d.drag)) >= d.expected
  }

  /** A drag that is not abandoned is held on, or was complete and is dropped. */
  ghost predicate HeldOrDropped(s: State, m: Message, r: State)
    requires s.drag.Some?
  {
    if r.drag.Some? then HeldOn(s, m, r) else Complete(s, m)
  }

  lemma HeldOrNot(s: State, m: Message, env: Env)
    requires s.drag.Some? && !Abandons(m, s.drag.value.drag)
    ensures HeldOrDropped(s, m, Handle(s, m, env))
  {
    hide FinalizeTree, SettleFailure, Done, AcceptOffer, OfferInTree, OfferTree, MakeDir, DiscardDrag, RemoveFile;
    hide Chunk;
    hide PlaceAll, MkdirAll, RemoveDir;
    match m
    case TreeFile(tree, id, rel, size) => OfferInTreeEffect(s, tree, id, rel, size, env);
    case TreeEnd(tree, error) => if tree in s.trees { TreeSettles(s, tree, error, env); }
    case FileChunk(id, offset, data) => ChunkSettles(s, id, offset, data, env);
    case FileDone(id, digest) => DoneSettles(s, id, digest, env);
    case FileCancel(id, why) => if id in s.recv { FailureSettles(Drop(s, id), s.recv[id], id, why, env); }
    case _ =>
  }

  /** Settling an item counts nothing; it may complete a drop that was requested. */
  ghost predicate SettlesOnly(s: State, r: State)
    requires s.drag.Some?
  {
    var d := s.drag.value;
    if r.drag.Some? then
      var d' := r.drag.value;
      d'.drag == d.drag && d'.expected == d.expected && d'.offered == d.offered && d'.dropRequested == d.dropRequested
      && d.done <= d'.done
    else d.dropRequested && d.offered >= d.expected
  }

  lemma SettleInDragSettles(s: State, drag: Option<nat>, id: nat, item: Option<Staged>, env: Env)
    requires s.drag.Some?
    ensures SettlesOnly(s, SettleInDrag(s, drag, id, item, env))
  {
    hide PlaceAll, MkdirAll, RemoveDir;
  }

  lemma FinalizeTreeSettles(s: State, tree: nat, env: Env)
    requires s.drag.Some?
    ensures SettlesOnly(s, FinalizeTree(s, tree, env))
  {
    hide SettleInDrag, MkdirAll, MovePath, FreeDirPath, RemoveDir;
    if tree in s.trees && s.trees[tree].Settled() {
      forall s': State, item | s'.drag == s.drag
        ensures SettlesOnly(s, SettleInDrag(s', s.trees[tree].drag, tree, item, env))
      {
        SettleInDragSettles(s', s.trees[tree].drag, tree, item, env);
      }
    }
  }

  lemma TreeSettles(s: State, tree: nat, error: Option<string>, env: Env)
    requires s.drag.Some? && tree in s.trees
    ensures SettlesOnly(s, EndTree(s, tree, error, env))
  {
    hide FinalizeTree;
    var t := s.trees[tree].(ended := true);
    FinalizeTreeSettles(s.WithTree(tree, t), tree, env);
    forall w ensures SettlesOnly(s, FinalizeTree(s.WithTree(tree, t.Fail(w)), tree, env)) {
      FinalizeTreeSettles(s.WithTree(tree, t.Fail(w)), tree, env);
    }
  }

  lemma FailureSettles(s: State, x: Recv, id: nat, why: Reason, env: Env)
    requires s.drag.Some?
    ensures SettlesOnly(s, SettleFailure(s, x, id, why, env))
  {
    hide FinalizeTree, SettleInDrag;
    match x.tree
    case Some(tree) =>
      if tree in s.trees {
        var tr := s.trees[tree].(outstanding := s.trees[tree].outstanding - {id}).Fail(InFile(x.name, why));
        FinalizeTreeSettles(s.WithTree(tree, tr), tree, env);
      }
    case None => SettleInDragSettles(s, x.drag, id, None, env);
  }

  lemma ChunkSettles(s: State, id: nat, offset: nat, data: Bytes, env: Env)
    requires s.drag.Some?
    ensures SettlesOnly(s, Receiving.Chunk(s, id, offset, data, env))
  {
    hide SettleFailure, RemoveFile;
    if id in s.recv {
      forall r: State, w | r.drag == s.drag ensures SettlesOnly(s, SettleFailure(r, s.recv[id], id, w, env)) {
        FailureSettles(r, s.recv[id], id, w, env);
      }
    }
  }

  lemma DoneSettles(s: State, id: nat, digest: Digest, env: Env)
    requires s.drag.Some?
    ensures SettlesOnly(s, Done(s, id, digest, env))
  {
    hide FinalizeTree, SettleInDrag, FinishRecv;
    if id in s.recv {
      var x := s.recv[id];
      var (fs, error) := FinishRecv(s.fs, id, x, digest, env);
      var s1 := s.(recv := s.recv - {id}, fs := fs);
      match x.tree
      case Some(tree) =>
        if tree in s.trees {
          var tr := s1.trees[tree].(outstanding := s1.trees[tree].outstanding - {id});
          var tr1 := if error.Some? then tr.Fail(InFile(x.name, error.value))
                     else tr.(doneBytes := tr.doneBytes + x.size, verified := tr.verified + [Verified(id, x.size)]);
          FinalizeTreeSettles(s1.WithTree(tree, tr1), tree, env);
        }
      case None =>
        var s2 := if error.None? && x.drag.None? then s1.(placed := s1.placed + [Placed(id, false, x.final, None)])
                  else s1;
        var item := Staged(id, x.name, false, x.size, x.final, None);
        SettleInDragSettles(s2, x.drag, id, if error.None? then Some(item) else None, env);
    }
  }

  /* ---- what is placed without a drop ---- */

  /** A file or folder that belongs to no drag is placed. */
  ghost predicate PlacesOwn(s: State, m: Message, r: State) {
    || r.placed == s.placed
    || exists x ::
         && r.placed == s.placed + [x]
         && if x.folder then x.id in s.trees && s.trees[x.id].drag.None?
            else x.id in s.recv && IsPlain(s.recv[x.id]) && m.FileDone? && m.id == x.id
  }

  /** Items of a drag are placed only by the message that drops it. */
  lemma PlacedOnlyByDrop(s: State, m: Message, env: Env)
    ensures var r := Handle(s, m, env);
            PlacesOwn(s, m, r) || (s.drag.Some? && r.drag.None? && !Abandons(m, s.drag.value.drag))
  {
    hide FinalizeTree, SettleFailure, Done, AcceptOffer, OfferInTree, OfferTree, MakeDir, DiscardDrag, RemoveFile;
    hide Chunk;
    hide PlaceAll, MkdirAll, RemoveDir;
    match m
    case TreeFile(tree, id, rel, size) => OfferInTreeEffect(s, tree, id, rel, size, env);
    case TreeEnd(tree, error) =>
      if tree in s.trees {
        var t := s.trees[tree].(ended := true);
        var t' := if error.Some? then t.Fail(FromPeer(error.value)) else t;
        TreePlaces(s.WithTree(tree, t'), tree, env);
      }
    case FileChunk(id, offset, data) => ChunkPlaces(s, id, offset, data, env);
    case FileDone(id, digest) => DonePlaces(s, id, digest, env);
    case FileCancel(id, why) => if id in s.recv { FailurePlaces(Drop(s, id), s.recv[id], id, why, env); }
    case _ =>
  }

  /** Unless the drag is dropped nothing is placed, or only the folder `tree`, which belongs to none. */
  ghost predicate Places(s: State, r: State, tree: Option<nat>) {
    || r.placed == s.placed
    || (s.drag.Some? && r.drag.None?)
    || (tree.Some? && tree.value in s.trees && s.trees[tree.value].drag.None?
        && exists x :: r.placed == s.placed + [x] && x.folder && x.id == tree.value)
  }

  lemma SettlePlaces(s: State, drag: Option<nat>, id: nat, item: Option<Staged>, env: Env)
    ensures Places(s, SettleInDrag(s, drag, id, item, env), None)
  {
    hide PlaceAll, MkdirAll, RemoveDir;
  }

  lemma TreePlaces(s: State, tree: nat, env: Env)
    ensures Places(s, FinalizeTree(s, tree, env), Some(tree))
  {
    hide SettleInDrag, MkdirAll, MovePath, FreeDirPath, RemoveDir;
    if tree in s.trees && s.trees[tree].Settled() {
      forall s': State, item | s'.drag == s.drag && s'.placed == s.placed
        ensures Places(s, SettleInDrag(s', s.trees[tree].drag, tree, item, env), None)
      {
        SettlePlaces(s', s.trees[tree].drag, tree, item, env);
      }
    }
  }

  lemma FailurePlaces(s: State, x: Recv, id: nat, why: Reason, env: Env)
    ensures var r := SettleFailure(s, x, id, why, env); r.placed == s.placed || (s.drag.Some? && r.drag.None?)
  {
    hide FinalizeTree, SettleInDrag;
    match x.tree
    case Some(tree) => if tree in s.trees { FailedPlaces(s, tree, id, InFile(x.name, why), env); }
    case None => SettlePlaces(s, x.drag, id, None, env);
  }

  /** A folder that failed is not placed. */
  lemma FailedPlaces(s: State, tree: nat, id: nat, why: Reason, env: Env)
    requires tree in s.trees
    ensures var tr := s.trees[tree].(outstanding := s.trees[tree].outstanding - {id}).Fail(why);
            var r := FinalizeTree(s.WithTree(tree, tr), tree, env);
            r.placed == s.placed || (s.drag.Some? && r.drag.None?)
  {
    hide SettleInDrag, RemoveDir;
    forall s': State, drag | s'.drag == s.drag && s'.placed == s.placed
      ensures Places(s, SettleInDrag(s', drag, tree, None, env), None)
    {
      SettlePlaces(s', drag, tree, None, env);
    }
  }

  lemma ChunkPlaces(s: State, id: nat, offset: nat, data: Bytes, env: Env)
    ensures var r := Receiving.Chunk(s, id, offset, data, env); r.placed == s.placed || (s.drag.Some? && r.drag.None?)
  {
    hide SettleFailure, RemoveFile;
    if id in s.recv {
      forall q: State, w | q.drag == s.drag && q.placed == s.placed
        ensures var r := SettleFailure(q, s.recv[id], id, w, env);
                r.placed == s.placed || (s.drag.Some? && r.drag.None?)
      {
        FailurePlaces(q, s.recv[id], id, w, env);
      }
    }
  }

  lemma DonePlaces(s: State, id: nat, digest: Digest, env: Env)
    ensures var r := Done(s, id, digest, env);
            PlacesOwn(s, FileDone(id, digest), r) || (s.drag.Some? && r.drag.None?)
  {
    hide FinalizeTree, SettleInDrag, FinishRecv;
    if id in s.recv {
      var x := s.recv[id];
      var (fs, error) := FinishRecv(s.fs, id, x, digest, env);
      var s1 := s.(recv := s.recv - {id}, fs := fs);
      match x.tree
      case Some(tree) =>
        if tree in s.trees {
          var tr := s1.trees[tree].(outstanding := s1.trees[tree].outstanding - {id});
          var tr1 := if error.Some? then tr.Fail(InFile(x.name, error.value))
                     else tr.(doneBytes := tr.doneBytes + x.size, verified := tr.verified + [Verified(id, x.size)]);
          TreePlaces(s1.WithTree(tree, tr1), tree, env);
        }
      case None =>
        var own := Placed(id, false, x.final, None);
        var s2 := if error.None? && x.drag.None? then s1.(placed := s1.placed + [own]) else s1;
        var item := Staged(id, x.name, false, x.size, x.final, None);
        SettlePlaces(s2, x.drag, id, if error.None? then Some(item) else None, env);
        if x.drag.None? && error.None? { assert s2.placed == s.placed + [own] && !own.folder; }
    }
  }

  /** Cancelling a drag, or beginning another, places nothing and leaves nothing of it under way. */
  lemma AbandonedIsGone(s: State, m: Message, env: Env)
    requires Owned(s) && s.drag.Some? && Abandons(m, s.drag.value.drag)
    ensures var r, d := Handle(s, m, env), s.drag.value.drag;
            && r.placed == s.placed && Idle(r, d)
            && (r.drag.Some? ==> m.DragBegin? && r.drag.value.done == [] && r.drag.value.outstanding == {})
  {
    hide Doomed, PartsOf, RemoveFiles, RemoveDir, MkdirAll, Owned;
    DiscardRemovesExactly(s);
  }

  /* ---- over a run ---- */

  /** The drag that message `m`, which begins one, leaves: it expects what was announced. */
  lemma Begun(s: State, m: Message, env: Env)
    requires m.DragBegin? && Handle(s, m, env).drag.Some?
    ensures var d := Handle(s, m, env).drag.value;
            d.drag == m.drag && d.expected == m.count && d.offered == 0 && !d.dropRequested && d.done == []
  {
    hide DiscardDrag, MkdirAll;
  }

  /** What a drag that is held since it began records. */
  ghost predicate Records(s: State, es: seq<Event>, d: nat, n: nat) {
    var r := Run(s, es).drag;
    && r.Some? && r.value.drag == d && r.value.expected == n && r.value.offered == CountedIn(s, es, d)
    && (r.value.dropRequested <==> Released(es, d))
  }

  /** All announced items were offered, the drag was released, and nothing of it is under way any more. */
  ghost predicate AllThere(s: State, es: seq<Event>, d: nat, n: nat) {
    Released(es, d) && CountedIn(s, es, d) >= n && Idle(Run(s, es), d)
  }

  lemma OneMore(s: State, es: seq<Event>, e: Event, d: nat)
    ensures CountedIn(s, es + [e], d) == CountedIn(s, es, d) + One(Counts(Run(s, es), e.m, d))
    ensures Released(es + [e], d) <==> Released(es, d) || e.m == DragDrop(d)
    ensures Run(s, es + [e]) == Handle(Run(s, es), e.m, e.env)
    ensures Kept(es + [e], d) <==> Kept(es, d) && !Abandons(e.m, d)
  {
    hide Handle;
    var more := es + [e];
    assert more[..|es|] == es && more[|es|] == e;
    assert forall k :: 0 <= k < |es| ==> more[k] == es[k];
    if Released(es, d) { var k :| 0 <= k < |es| && es[k].m == DragDrop(d); assert more[k].m == DragDrop(d); }
    if Kept(more, d) { forall k | 0 <= k < |es| ensures !Abandons(es[k].m, d) { assert !Abandons(more[k].m, d); } }
  }

  /** A drag that is held is not complete with nothing under way. */
  lemma HeldIsNotReady(s: State, d: nat)
    requires Owned(s) && NothingReady(s) && s.DragIs(Some(d)) && Idle(s, d)
    ensures s.drag.value.dropRequested ==> s.drag.value.offered < s.drag.value.expected
  {
    var out := s.drag.value.outstanding;
    assert LooseOf(s, d) == {} && CountedOf(s, d) == {};
    assert out == {};
  }

  /** Once the drag is gone nothing of it is under way. */
  lemma GoneIsIdle(s: State, d: nat)
    requires Owned(s) && !s.DragIs(Some(d))
    ensures Idle(s, d)
  {
    forall id | id in s.recv ensures s.recv[id].drag != Some(d) { assert FileOwned(s, id); }
    forall t | t in s.trees && s.trees[t].counted ensures s.trees[t].drag != Some(d) { assert TreeOwned(s, t); }
  }

  /** Whatever comes in between: a drag that was begun with `n` items, and is neither cancelled
      nor superseded, is dropped at the first moment at which it was released, `n` items were
      offered, and nothing of it is under way; until then it is held. */
  lemma {:induction false} DroppedExactly(s: State, es: seq<Event>, d: nat, n: nat)
    requires Owned(s) && NothingReady(s) && FreshRun(s, es) && Records(s, [], d, n) && Kept(es, d)
    ensures Run(s, es).DragIs(Some(d)) || Run(s, es).drag == None
    ensures Run(s, es).DragIs(Some(d)) ==> Records(s, es, d, n)
    ensures Run(s, es).DragIs(Some(d)) <==> forall k :: 0 <= k <= |es| ==> !AllThere(s, es[..k], d, n)
  {
    hide Handle, Owned, NothingReady, FreshKind, Abandons, Idle;
    if es == [] {
      assert !AllThere(s, es[..0], d, n);
    } else {
      var front, e := es[..|es| - 1], es[|es| - 1];
      assert es == front + [e] && es[..|es|] == es;
      assert forall k :: 0 <= k <= |front| ==> es[..k] == front[..k];
      OneMore(s, front, e, d);
      DroppedExactly(s, front, d, n);
      RunKeepsOwnership(s, front);
      RunLeavesNothingReady(s, front);
      NextStep(s, front, e, d, n);
    }
  }

  lemma NextStep(s: State, es: seq<Event>, e: Event, d: nat, n: nat)
    requires Owned(Run(s, es)) && NothingReady(Run(s, es)) && FreshKind(Run(s, es), e.m) && !Abandons(e.m, d)
    requires Run(s, es).DragIs(Some(d)) ==> Records(s, es, d, n)
    requires Run(s, es).DragIs(Some(d)) || Run(s, es).drag == None
    ensures var r := Run(s, es + [e]);
            && (Run(s, es).drag == None ==> r.drag == None)
            && (Run(s, es).DragIs(Some(d)) ==>
                  && (r.DragIs(Some(d)) || r.drag == None) && (r.DragIs(Some(d)) ==> Records(s, es + [e], d, n))
                  && (r.DragIs(Some(d)) <==> !AllThere(s, es + [e], d, n)))
  {
    hide Handle, Owned, NothingReady, FreshKind, Idle, Run, CountedIn, Released, Counts;
    OneMore(s, es, e, d);
    var before, r := Run(s, es), Run(s, es + [e]);
    HandleKeepsOwnership(before, e.m, e.env);
    HandleLeavesNothingReady(before, e.m, e.env);
    if before.drag.Some? {
      HeldOrNot(before, e.m, e.env);
      if r.drag.Some? {
        if Idle(r, d) { HeldIsNotReady(r, d); }
      } else {
        GoneIsIdle(r, d);
      }
    } else {
      StaysNone(before, e.m, e.env);
    }
  }

  lemma StaysNone(s: State, m: Message, env: Env)
    requires s.drag.None? && !m.DragBegin?
    ensures Handle(s, m, env).drag.None?
  {
    hide FinalizeTree, SettleFailure, Done, AcceptOffer, OfferInTree, OfferTree, MakeDir, DiscardDrag, RemoveFile;
    hide Chunk;
    hide FinalizeDrag, MkdirAll;
    match m
    case TreeFile(tree, id, rel, size) => OfferInTreeEffect(s, tree, id, rel, size, env);
    case FileChunk(id, offset, data) => ChunkNone(s, id, offset, data, env);
    case FileDone(id, digest) => DoneNone(s, id, digest, env);
    case FileCancel(id, why) => if id in s.recv { FailureNone(Drop(s, id), s.recv[id], id, why, env); }
    case _ =>
  }

  lemma FailureNone(s: State, x: Recv, id: nat, why: Reason, env: Env)
    requires s.drag.None?
    ensures SettleFailure(s, x, id, why, env).drag.None?
  {
    hide FinalizeTree, SettleInDrag;
  }

  lemma ChunkNone(s: State, id: nat, offset: nat, data: Bytes, env: Env)
    requires s.drag.None?
    ensures Receiving.Chunk(s, id, offset, data, env).drag.None?
  {
    hide SettleFailure, RemoveFile;
    if id in s.recv {
      forall r: State, w | r.drag == s.drag ensures SettleFailure(r, s.recv[id], id, w, env).drag.None? {
        FailureNone(r, s.recv[id], id, w, env);
      }
    }
  }

  lemma DoneNone(s: State, id: nat, digest: Digest, env: Env)
    requires s.drag.None?
    ensures Done(s, id, digest, env).drag.None?
  {
    hide FinalizeTree, SettleInDrag, FinishRecv;
  }

  /** In particular the drag is held as long as fewer items than announced were offered to it,
      released or not. */
  lemma {:induction false} WaitsForAll(s0: State, begin: Event, es: seq<Event>, d: nat)
    requires Owned(s0) && NothingReady(s0) && begin.m.DragBegin? && begin.m.drag == d
    requires var s := Handle(s0, begin.m, begin.env);
             s.DragIs(Some(d)) && FreshRun(s, es) && Kept(es, d) && OfferedTo(es, d) < begin.m.count
    ensures var s := Handle(s0, begin.m, begin.env);
            && Run(s, es).DragIs(Some(d))
            && forall k :: 0 <= k < |es| ==> PlacesOwn(Run(s, es[..k]), es[k].m, Run(s, es[..k + 1]))
  {
    hide Handle, Owned, NothingReady, FreshRun, Run, Kept, Idle;
    var s, n := Handle(s0, begin.m, begin.env), begin.m.count;
    Begun(s0, begin.m, begin.env);
    HandleKeepsOwnership(s0, begin.m, begin.env);
    HandleLeavesNothingReady(s0, begin.m, begin.env);
    RunNothing(s);
    DroppedExactly(s, es, d, n);
    forall k | 0 <= k <= |es| ensures !AllThere(s, es[..k], d, n) { FewCounted(s, es, k, d); }
    forall k | 0 <= k < |es| ensures PlacesOwn(Run(s, es[..k]), es[k].m, Run(s, es[..k + 1])) {
      HeldBetween(s, es, k, d, n);
    }
  }

  lemma HeldBetween(s: State, es: seq<Event>, k: nat, d: nat, n: nat)
    requires k < |es| && Owned(s) && NothingReady(s) && FreshRun(s, es) && Records(s, [], d, n) && Kept(es, d)
    requires forall j :: 0 <= j <= |es| ==> !AllThere(s, es[..j], d, n)
    ensures PlacesOwn(Run(s, es[..k]), es[k].m, Run(s, es[..k + 1]))
  {
    hide Handle, Owned, NothingReady, FreshKind, AllThere, PlacesOwn, Records, Run;
    var a, b := es[..k], es[..k + 1];
    assert b == a + [es[k]];
    FreshPrefix(s, es, k);
    FreshPrefix(s, es, k + 1);
    assert forall j :: 0 <= j <= k ==> a[..j] == es[..j];
    assert forall j :: 0 <= j <= k + 1 ==> b[..j] == es[..j];
    DroppedExactly(s, a, d, n);
    DroppedExactly(s, b, d, n);
    OneMore(s, a, es[k], d);
    PlacedOnlyByDrop(Run(s, a), es[k].m, es[k].env);
  }

  lemma {:induction false} FreshPrefix(s: State, es: seq<Event>, k: nat)
    requires k <= |es| && FreshRun(s, es)
    ensures FreshRun(s, es[..k])
    decreases |es|
  {
    hide Run, FreshKind;
    if k == |es| {
      assert es[..k] == es;
    } else {
      FreshPrefix(s, es[..|es| - 1], k);
      assert es[..|es| - 1][..k] == es[..k];
    }
  }

  lemma RunNothing(s: State)
    ensures Run(s, []) == s
  {
  }

  lemma {:induction false} FewCounted(s: State, es: seq<Event>, k: nat, d: nat)
    requires k <= |es|
    ensures CountedIn(s, es[..k], d) <= OfferedTo(es, d)
    decreases |es|
  {
    hide Handle;
    if es != [] {
      var front := es[..|es| - 1];
      if k == |es| {
        assert es[..k] == es;
        FewCounted(s, front, |front|, d);
        assert front[..|front|] == front;
      } else {
        assert front[..k] == es[..k];
        FewCounted(s, front, k, d);
      }
    }
  }
}
