/** Every item a drag verified is delivered: with honest senders over an ordered
    channel, once everything was sent and handled, each item of a released drag was
    placed exactly once, as it was when it was verified. */
module DropDelivery {
  import opened Basics
  import opened Disk
  import opened Receiving
  import opened Ownership
  import opened Frames
  import opened Staging
  import opened Cleanup
  import opened Conservation
  import opened Senders
  import opened DropSystem
  import opened Leftovers
  import opened Footprints
  import opened Layout
  import opened Streams
  import opened Contents
  import opened Drops
  import opened DropTime
  import opened Deliveries
  import opened Losses
  import opened DragNames
  import Names

  /* ---- the messages the receiver handled ---- */

  /** The messages delivered during some steps, with what the machine decided. */
  function Log(start: Sys, steps: seq<Step>): seq<Event> {
    if steps == [] then []
    else
      var front, step := steps[..|steps| - 1], steps[|steps| - 1];
      var before := Play(start, front);
      if before.Some? && step.Deliver? && before.value.chan != [] then
        Log(start, front) + [Event(before.value.chan[0], step.env)]
      else Log(start, front)
  }

  /** The receiver is where those messages take it. */
  lemma {:induction false} LogIsRun(start: Sys, steps: seq<Step>)
    requires IsStart(start) && Play(start, steps).Some?
    ensures Play(start, steps).value.rx == Run(start.rx, Log(start, steps))
    ensures FreshRun(start.rx, Log(start, steps))
  {
    hide Handle, Inv, FreshKind, IsStart;
    if steps != [] {
      var front, step := steps[..|steps| - 1], steps[|steps| - 1];
      LogIsRun(start, front);
      var before := Play(start, front).value;
      if step.Deliver? {
        PlayKeepsInv(start, front);
        HeadTreeIsNew(before);
        assert Log(start, steps)[..|Log(start, front)|] == Log(start, front);
      } else {
        OtherStepsKeepReceiver(before, step);
      }
    }
  }

  lemma OtherStepsKeepReceiver(s: Sys, step: Step)
    requires Enabled(s, step) && !step.Deliver?
    ensures Apply(s, step).rx == s.rx
  {
    if step.StartDrag? {
      ItemsKeepReceiver(s.(drags := s.drags + {s.next}, next := s.next + 1), s.next, step.items);
    }
  }

  lemma {:induction false} ItemsKeepReceiver(s: Sys, d: nat, items: seq<Item>)
    ensures StartItems(s, d, items).rx == s.rx
  {
    if items != [] { ItemsKeepReceiver(s, d, items[..|items| - 1]); }
  }

  lemma {:induction false} RunJoins(s: State, a: seq<Event>, b: seq<Event>)
    ensures Run(s, a + b) == Run(Run(s, a), b)
  {
    hide Handle;
    if b == [] {
      assert a + b == a;
    } else {
      assert (a + b)[..|a + b| - 1] == a + b[..|b| - 1];
      RunJoins(s, a, b[..|b| - 1]);
    }
  }

  lemma {:induction false} GoodRunJoins(s: State, a: seq<Event>, b: seq<Event>)
    requires GoodRun(s, a) && GoodRun(Run(s, a), b)
    ensures GoodRun(s, a + b)
  {
    hide FreshKind, SharesRoot, Run;
    if b == [] {
      assert a + b == a;
    } else {
      var front := b[..|b| - 1];
      assert (a + b)[..|a + b| - 1] == a + front;
      GoodRunJoins(s, a, front);
      RunJoins(s, a, front);
    }
  }

  lemma {:induction false} FreshRunSplits(s: State, a: seq<Event>, b: seq<Event>)
    requires FreshRun(s, a + b)
    ensures FreshRun(s, a) && FreshRun(Run(s, a), b)
  {
    hide FreshKind, Run;
    if b == [] {
      assert a + b == a;
    } else {
      var front := b[..|b| - 1];
      assert (a + b)[..|a + b| - 1] == a + front;
      FreshRunSplits(s, a, front);
      RunJoins(s, a, front);
    }
  }

  /** No folder is given the path of a live folder whose own directory could not be made. */
  ghost predicate RootsApart(s: State, es: seq<Event>) {
    es == [] || (RootsApart(s, es[..|es| - 1]) && !SharesRoot(Run(s, es[..|es| - 1]), es[|es| - 1].m, es[|es| - 1].env))
  }

  lemma {:induction false} GoodIfBoth(s: State, es: seq<Event>)
    requires FreshRun(s, es) && RootsApart(s, es)
    ensures GoodRun(s, es)
  {
    hide FreshKind, SharesRoot, Handle;
    if es != [] { GoodIfBoth(s, es[..|es| - 1]); }
  }

  lemma {:induction false} PlacedGrows(s: State, es: seq<Event>)
    ensures s.placed <= Run(s, es).placed
  {
    hide Handle;
    if es != [] {
      PlacedGrows(s, es[..|es| - 1]);
      PlacedKept(Run(s, es[..|es| - 1]), es[|es| - 1].m, es[|es| - 1].env);
    }
  }

  lemma PlacedKept(s: State, m: Message, env: Env)
    ensures s.placed <= Handle(s, m, env).placed
  {
    hide AcceptOffer, FinalizeDrag, FinalizeTree, SettleInDrag, SettleFailure, Done, Chunk, RemoveFile, MkdirAll;
    hide OfferInDrag, OfferInTree, OfferTree, MakeDir, DiscardDrag;
    match m
    case DragOffer(drag, id, name, size) => OfferInDragPlaces(s, drag, id, name, size, env);
    case DragDrop(drag) => if s.DragIs(Some(drag)) {
      DragPlaces(s.WithDrag(s.drag.value.(dropRequested := true)), env);
    }
    case TreeFile(tree, id, rel, size) => OfferInTreeEffect(s, tree, id, rel, size, env);
    case TreeEnd(tree, error) =>
      if tree in s.trees {
        var t := s.trees[tree].(ended := true);
        TreePlaces(s.WithTree(tree, if error.Some? then t.Fail(FromPeer(error.value)) else t), tree, env);
      }
    case FileChunk(id, offset, data) => ChunkPlaces(s, id, offset, data, env);
    case FileDone(id, digest) => DonePlaces(s, id, digest, env);
    case FileCancel(id, why) => if id in s.recv { FailurePlaces(Drop(s, id), s.recv[id], id, why, env); }
    case _ =>
  }

  lemma DragPlaces(s: State, env: Env)
    ensures s.placed <= FinalizeDrag(s, env).placed
  {
    hide PlaceAll, MkdirAll, RemoveDir;
  }

  lemma InDragPlaces(s: State, drag: Option<nat>, id: nat, item: Option<Staged>, env: Env)
    ensures s.placed <= SettleInDrag(s, drag, id, item, env).placed
  {
    hide FinalizeDrag;
    if s.DragIs(drag) {
      var d := s.drag.value.(outstanding := s.drag.value.outstanding - {id});
      DragPlaces(s.WithDrag(if item.Some? then d.(done := d.done + [item.value]) else d), env);
    }
  }

  lemma TreePlaces(s: State, tree: nat, env: Env)
    ensures s.placed <= FinalizeTree(s, tree, env).placed
  {
    hide SettleInDrag, MovePath, MkdirAll, FreeDirPath, RemoveDir;
    if tree in s.trees {
      forall r: State, item | r.placed == s.placed
        ensures s.placed <= SettleInDrag(r, s.trees[tree].drag, tree, item, env).placed
      {
        InDragPlaces(r, s.trees[tree].drag, tree, item, env);
      }
    }
  }

  lemma FailurePlaces(s: State, t: Recv, id: nat, why: Reason, env: Env)
    ensures s.placed <= SettleFailure(s, t, id, why, env).placed
  {
    hide FinalizeTree, SettleInDrag;
    match t.tree
    case Some(tree) =>
      if tree in s.trees {
        TreePlaces(s.WithTree(tree, s.trees[tree].(outstanding := s.trees[tree].outstanding - {id})
          .Fail(InFile(t.name, why))),
                   tree, env);
      }
    case None => InDragPlaces(s, t.drag, id, None, env);
  }

  lemma ChunkPlaces(s: State, id: nat, offset: nat, data: Bytes, env: Env)
    ensures s.placed <= Chunk(s, id, offset, data, env).placed
  {
    hide SettleFailure, RemoveFile;
    if id in s.recv {
      forall w, r: State | r.placed == s.placed ensures s.placed <= SettleFailure(r, s.recv[id], id, w, env).placed {
        FailurePlaces(r, s.recv[id], id, w, env);
      }
    }
  }

  lemma DonePlaces(s: State, id: nat, digest: Digest, env: Env)
    ensures s.placed <= Done(s, id, digest, env).placed
  {
    hide FinalizeTree, SettleInDrag, FinishRecv;
    if id in s.recv {
      var t := s.recv[id];
      var (fs, error) := FinishRecv(s.fs, id, t, digest, env);
      var s1 := s.(recv := s.recv - {id}, fs := fs);
      match t.tree
      case Some(tree) =>
        if tree in s.trees {
          var tr := s1.trees[tree].(outstanding := s1.trees[tree].outstanding - {id});
          var tr1 := if error.Some? then tr.Fail(InFile(t.name, error.value))
                     else tr.(doneBytes := tr.doneBytes + t.size, verified := tr.verified + [Verified(id, t.size)]);
          TreePlaces(s1.WithTree(tree, tr1), tree, env);
        }
      case None =>
        var s2 := if error.None? && t.drag.None?
          then s1.(placed := s1.placed + [Placed(id, false, t.final, None)]) else s1;
        var item := Staged(id, t.name, false, t.size, t.final, None);
        InDragPlaces(s2, t.drag, id, if error.None? then Some(item) else None, env);
    }
  }

  lemma OfferInDragPlaces(s: State, drag: nat, id: nat, name: string, size: nat, env: Env)
    ensures s.placed <= OfferInDrag(s, drag, id, name, size, env).placed
  {
    hide AcceptOffer, FinalizeDrag;
    if s.DragIs(Some(drag)) {
      var d := s.drag.value.(offered := s.drag.value.offered + 1);
      DragPlaces(AcceptOffer(s.WithDrag(d), d.dir, id, name, size, Some(drag), None, env).0, env);
    }
  }

  /* ---- a run from the moment the drag is held ---- */

  lemma {:induction false} HeldJoins(s: State, a: seq<Event>, b: seq<Event>, d: nat)
    requires HeldThroughout(s, a, d) && HeldThroughout(Run(s, a), b, d)
    ensures HeldThroughout(s, a + b, d)
  {
    hide Handle, Abandons, Holds;
    if b == [] {
      assert a + b == a;
    } else {
      var front := b[..|b| - 1];
      assert (a + b)[..|a + b| - 1] == a + front;
      HeldJoins(s, a, front, d);
      RunJoins(s, a, b);
    }
  }

  lemma {:induction false} UndisturbedSplits(s: State, a: seq<Event>, b: seq<Event>, d: nat)
    requires Undisturbed(s, a + b, d) && HeldThroughout(s, a, d)
    ensures Undisturbed(s, a, d) && Undisturbed(Run(s, a), b, d)
  {
    hide Run, Abandons, Loses, HeldThroughout, SharesRoot;
    if b == [] {
      assert a + b == a;
    } else {
      var front := b[..|b| - 1];
      assert (a + b)[..|a + b| - 1] == a + front;
      UndisturbedSplits(s, a, front, d);
      RunJoins(s, a, front);
      if HeldThroughout(Run(s, a), front, d) { HeldJoins(s, a, front, d); }
    }
  }

  lemma {:induction false} UndisturbedHeld(s: State, es: seq<Event>, d: nat)
    requires Undisturbed(s, es, d) && HeldThroughout(s, es, d)
    ensures NothingLost(s, es)
  {
    hide Handle, Abandons, Loses, SharesRoot;
    if es != [] { UndisturbedHeld(s, es[..|es| - 1], d); }
  }

  /** When drag `d` is dropped, the disk cooperates and the directory to drop into can be made. */
  ghost predicate DropWorks(s: State, es: seq<Event>, d: nat) {
    forall k :: 0 <= k < |es| && HeldThroughout(s, es[..k], d) && Run(s, es[..k + 1]).drag.None? ==>
      AllLucky(es[k].env) && CanMake(BeforeDrop(Run(s, es[..k]), es[k].m, es[k].env).fs, s.DropDir())
  }

  /** The state message `j` of the run leads to, before the drop if it completes one. */
  function At(s: State, es: seq<Event>, j: nat): State
    requires j < |es|
  {
    Reached(Run(s, es[..j]), es[j].m, es[j].env)
  }

  /** Where a drag is dropped: on the desktop, if there is one, else where plain files go. */
  function Place(s: State): Path {
    match s.desktop
    case Some(dir) => dir
    case None => s.fileDir
  }

  /** Item `x`, verified when message `j` was handled, is placed once more and as it was then, by message `k`. */
  ghost predicate PlacedAt(s: State, es: seq<Event>, j: nat, k: nat, x: Staged, p: Placed)
    requires j <= k < |es|
  {
    p in Run(s, es[..k + 1]).placed && Delivered(At(s, es, j).fs, Run(s, es[..k + 1]).fs, Place(s), x, p)
  }

  /** Once a drag that was not disturbed is not held any more, everything it verified
      has been placed, as it was when it was verified. */
  lemma DeliveredInRun(s: State, es: seq<Event>, d: nat, j: nat, x: Staged)
    requires Sound(s) && NothingReady(s) && Intact(s) && FreshRun(s, es) && Undisturbed(s, es, d) && DropWorks(s, es, d)
    requires j < |es| && HeldThroughout(s, es[..j], d) && At(s, es, j).drag.Some? && x in At(s, es, j).drag.value.done
    requires !HeldThroughout(s, es, d)
    ensures exists k, p :: j <= k < |es| && PlacedAt(s, es, j, k, x, p)
  {
    hide Sound, Handle, Loses, FreshKind, SharesRoot, NothingReady, Stays, Intact, CanMake, BeforeDrop, Abandons;
    hide DropWorks, Run, AllLucky, Steady, PlacedAt, HeldThroughout, Undisturbed, FreshRun, Reached;
    var before, e := Run(s, es[..j]), es[j];
    SteadyAt(s, es, d, j);
    HandleKeepsStaged(before, e.m, e.env);
    RunNext(s, es, j);
    ReachedIs(before, e.m, e.env);
    if Handle(before, e.m, e.env).drag.None? {
      DroppedNow(s, es, d, j, x);
    } else {
      StaysHeld(before, Run(s, es[..j + 1]), e.m, e.env, d);
      HeldNext(s, es, d, j);
      HeldAfter(s, es, d, j, x);
    }
  }

  lemma StaysHeld(s: State, r: State, m: Message, env: Env, d: nat)
    requires Stays(s, r) && Steady(s, m, env) && Holds(s, d)
    ensures Intact(r) && Holds(r, d) && !Abandons(m, d)
  {
    hide Sound, FreshKind, SharesRoot, Loses, Abandons, Intact;
  }

  lemma DroppedNow(s: State, es: seq<Event>, d: nat, j: nat, x: Staged)
    requires j < |es| && HeldThroughout(s, es[..j], d) && DropWorks(s, es, d)
    requires Steady(Run(s, es[..j]), es[j].m, es[j].env) && NothingReady(Run(s, es[..j]))
    requires Run(s, es[..j + 1]).drag.None? && Run(s, es[..j + 1]) == Handle(Run(s, es[..j]), es[j].m, es[j].env)
    requires At(s, es, j).drag.Some? && x in At(s, es, j).drag.value.done
    ensures exists k, p :: j <= k < |es| && PlacedAt(s, es, j, k, x, p)
  {
    hide Run, Handle, CanMake, BeforeDrop, AllLucky, HeldThroughout, Steady, NothingReady, Deliveries.Delivered;
    var before, e := Run(s, es[..j]), es[j];
    RunDirs(s, es[..j]);
    DropDelivers(before, e.m, e.env);
    var p :| p in Run(s, es[..j + 1]).placed
      && Delivered(BeforeDrop(before, e.m, e.env).fs, Run(s, es[..j + 1]).fs, s.DropDir(), x, p);
    assert PlacedAt(s, es, j, j, x, p);
  }

  lemma HeldAfter(s: State, es: seq<Event>, d: nat, j: nat, x: Staged)
    requires Sound(s) && NothingReady(s) && FreshRun(s, es) && Undisturbed(s, es, d) && DropWorks(s, es, d)
    requires j < |es| && HeldThroughout(s, es[..j + 1], d) && Intact(Run(s, es[..j + 1])) && !HeldThroughout(s, es, d)
    requires At(s, es, j) == Run(s, es[..j + 1]) && Holds(Run(s, es[..j + 1]), d) && x in At(s, es, j).drag.value.done
    ensures exists k, p :: j <= k < |es| && PlacedAt(s, es, j, k, x, p)
  {
    hide Sound, Run, NothingReady, Stays, Intact, Reached, DropWorks, DroppedAt, PlacedAt, HeldThroughout, Undisturbed;
    hide GoodRun, FreshRun;
    var next, rest := es[..j + 1], es[j + 1..];
    assert es == next + rest;
    var after := Run(s, next);
    FreshRunSplits(s, next, rest);
    UndisturbedSplits(s, next, rest, d);
    UndisturbedIsGood(s, next, d);
    RunKeepsSound(s, next);
    RunLeavesNothingReady(s, next);
    StagedUntilDropped(after, rest, d);
    if HeldThroughout(after, rest, d) {
      HeldJoins(s, next, rest, d);
      assert false;
    }
    var k :| 0 <= k < |rest| && DroppedAt(after, rest, k, d, after.fs, after.drag.value.done);
    DroppedLater(s, es, d, j, k, x);
  }

  lemma HeldLast(s: State, es: seq<Event>, d: nat)
    requires HeldThroughout(s, es, d)
    ensures Holds(Run(s, es), d)
  {
  }

  lemma RunNext(s: State, es: seq<Event>, j: nat)
    requires j < |es|
    ensures Run(s, es[..j + 1]) == Handle(Run(s, es[..j]), es[j].m, es[j].env)
  {
    hide Handle;
    assert es[..j + 1][..j] == es[..j];
  }

  /** As long as the drag is held, each message meets a whole drag and leaves it whole. */
  lemma SteadyAt(s: State, es: seq<Event>, d: nat, j: nat)
    requires Sound(s) && NothingReady(s) && Intact(s) && FreshRun(s, es) && Undisturbed(s, es, d)
    requires j < |es| && HeldThroughout(s, es[..j], d)
    ensures Steady(Run(s, es[..j]), es[j].m, es[j].env) && NothingReady(Run(s, es[..j])) && Holds(Run(s, es[..j]), d)
  {
    hide Sound, Handle, Loses, FreshKind, SharesRoot, NothingReady, Intact, Abandons, Run;
    var front, next := es[..j], es[..j + 1];
    assert es == next + es[j + 1..] && next == front + [es[j]] && next[..|next| - 1] == front;
    FreshRunSplits(s, next, es[j + 1..]);
    UndisturbedPrefix(s, next, es, d);
    UndisturbedIsGood(s, front, d);
    UndisturbedHeld(s, front, d);
    HeldLast(s, front, d);
    RunKeepsSound(s, front);
    RunLeavesNothingReady(s, front);
    WholeExactly(s, front, d);
  }

  lemma {:induction false} UndisturbedPrefix(s: State, a: seq<Event>, es: seq<Event>, d: nat)
    requires a <= es && Undisturbed(s, es, d)
    ensures Undisturbed(s, a, d)
  {
    hide Run, Abandons, Loses, HeldThroughout, SharesRoot;
    if a != es { UndisturbedPrefix(s, a, es[..|es| - 1], d); }
  }

  lemma HeldNext(s: State, es: seq<Event>, d: nat, j: nat)
    requires j < |es| && HeldThroughout(s, es[..j], d) && Holds(Run(s, es[..j + 1]), d) && !Abandons(es[j].m, d)
    ensures HeldThroughout(s, es[..j + 1], d)
  {
    hide Run, Abandons, Holds;
    assert es[..j + 1][..j] == es[..j];
  }

  lemma DroppedLater(s: State, es: seq<Event>, d: nat, j: nat, k: nat, x: Staged)
    requires j < |es| && HeldThroughout(s, es[..j + 1], d) && DropWorks(s, es, d) && k < |es[j + 1..]|
    requires Run(s, es[..j + 1]).drag.Some? && At(s, es, j) == Run(s, es[..j + 1]) && x in At(s, es, j).drag.value.done
    requires var after := Run(s, es[..j + 1]); DroppedAt(after, es[j + 1..], k, d, after.fs, after.drag.value.done)
    ensures exists i, p :: j <= i < |es| && PlacedAt(s, es, j, i, x, p)
  {
    hide Run, CanMake, BeforeDrop, AllLucky, Reached, HeldThroughout;
    var after, rest, i := Run(s, es[..j + 1]), es[j + 1..], j + 1 + k;
    assert es[..j + 1] + rest[..k] == es[..i] && es[..j + 1] + rest[..k + 1] == es[..i + 1] && rest[k] == es[i];
    RunJoins(s, es[..j + 1], rest[..k]);
    RunJoins(s, es[..j + 1], rest[..k + 1]);
    HeldJoins(s, es[..j + 1], rest[..k], d);
    RunDirs(s, es[..j + 1]);
    assert AllDelivered(after.fs, Run(s, es[..i + 1]), after.drag.value.done, s.DropDir());
    var p :| p in Run(s, es[..i + 1]).placed && Delivered(after.fs, Run(s, es[..i + 1]).fs, s.DropDir(), x, p);
    assert PlacedAt(s, es, j, i, x, p);
  }

  /** From the moment a drag was begun to its drop: the drop places everything the drag
      verified, files as files and folders as folders, if and only if no message took
      the place of a staged item. */
  lemma DropsExactly(s: State, es: seq<Event>, d: nat) returns (placed: seq<Placed>)
    requires es != [] && Sound(s) && NothingReady(s) && Intact(s) && GoodRun(s, es)
    requires HeldThroughout(s, es[..|es| - 1], d) && !Abandons(es[|es| - 1].m, d) && Run(s, es).drag.None?
    requires AllLucky(es[|es| - 1].env) && CanMake(AtDrop(s, es).fs, s.DropDir())
    ensures var b, r := AtDrop(s, es), Run(s, es);
            && b.drag.Some? && r.placed == b.placed + placed
            && (NothingLost(s, es) <==>
                  && |placed| == |b.drag.value.done|
                  && forall i :: 0 <= i < |placed| ==> PlacedRight(r.fs, b.drag.value.done[i], placed[i]))
  {
    hide Sound, Handle, Loses, FreshKind, SharesRoot, StagedWhole, NothingReady, BeforeDrop, CanMake, FinalizeDrag;
    var front, e := es[..|es| - 1], es[|es| - 1];
    var before := Run(s, front);
    RunKeepsSound(s, front);
    RunLeavesNothingReady(s, front);
    HeldLast(s, front, d);
    DropIs(before, e.m, e.env);
    WholeAtDrop(s, es, d);
    RunDirs(s, front);
    DropLaid(before, e.m, e.env);
    placed := DropsAll(AtDrop(s, es), e.env);
  }

  lemma DropLaid(s: State, m: Message, env: Env)
    requires Sound(s) && NothingReady(s) && FreshKind(s, m) && !SharesRoot(s, m, env) && s.drag.Some?
    requires !Abandons(m, s.drag.value.drag) && Handle(s, m, env).drag.None?
    ensures var b := BeforeDrop(s, m, env);
            && b.drag.Some? && WellFormed(b.fs) && InDragDir(b.drag.value.dir, b.drag.value.done)
            && b.DropDir() == s.DropDir() && !(b.drag.value.dir <= b.DropDir())
  {
    hide Sound, Handle, FreshKind, SharesRoot, NothingReady, WellFormed, InDragDir;
    DropIs(s, m, env);
    if m.DragDrop? {
      SoundDrag(s);
      DropElsewhere(s);
    } else {
      var u := Undropped(s);
      UndroppedSound(s);
      UndroppedKind(s, m, env);
      SoundAfter(u, m, env);
      DirsSame(u, m, env);
      SoundDrag(Handle(u, m, env));
      DropElsewhere(Handle(u, m, env));
    }
  }

  lemma UndroppedKind(s: State, m: Message, env: Env)
    requires FreshKind(s, m) && !SharesRoot(s, m, env)
    ensures FreshKind(Undropped(s), m) && !SharesRoot(Undropped(s), m, env)
  {
    hide FreshKind;
    SameFreshKind(s, Undropped(s), m);
  }

  /* ---- what the items are ---- */

  lemma LoosePart(s: State, id: nat)
    requires Sound(s) && IsLoose(s, id)
    ensures s.drag.value.dir <= s.recv[id].part && |s.recv[id].part| == |s.drag.value.dir| + 1
  {
    hide Owned, IsStaging, Unstaged, Names.IsClean, TidyFs;
    assert FileLocated(s, id) && FileLaid(s, id);
    DragDir(s);
  }

  /** If other content was put in place of the temporary file of a drag's file, the item
      that brought it is staged there. */
  lemma {:induction false} OverwrittenIsStaged(s: State, es: seq<Event>, id: nat)
    requires IsNew(s) && FreshDisk(s) && GoodRun(s, es) && IsLoose(Run(s, es), id) && Overwritten(s, es, id).Some?
    ensures var r := Run(s, es); exists x :: x in r.drag.value.done && x.path == r.recv[id].part
  {
    hide Sound, Handle, FreshDisk, FreshKind, SharesRoot, NewItem, Holding;
    var front, e := es[..|es| - 1], es[|es| - 1];
    var before, after := Run(s, front), Run(s, es);
    NewIsSoundlyLaid(s);
    RunKeepsSound(s, front);
    RunKeepsSound(s, es);
    TransferAfter(before, e.m, e.env, id);
    StillLoose(before, e.m, e.env, id);
    DragAfter(before, e.m, e.env);
    if Overwrites(before, e.m, e.env, id) {
      LoosePart(before, id);
      FinishingIsLoose(before, e.m.id, before.recv[id].part);
      LooseStaged(before, e.m, e.env);
      var t := before.recv[e.m.id];
      assert Staged(e.m.id, t.name, false, t.size, t.final, None) in after.drag.value.done;
    } else {
      OverwrittenIsStaged(s, front, id);
      var x :| x in before.drag.value.done && x.path == before.recv[id].part;
      assert x in after.drag.value.done;
    }
  }

  lemma StillLoose(s: State, m: Message, env: Env, id: nat)
    requires Sound(s) && Sound(Handle(s, m, env)) && id in s.recv && IsLoose(Handle(s, m, env), id)
    requires s.recv[id].tree == Handle(s, m, env).recv[id].tree && s.recv[id].drag == Handle(s, m, env).recv[id].drag
    ensures IsLoose(s, id) && !m.DragBegin?
  {
    hide Handle, Located, Laid, TreeOwned;
    assert FileOwned(s, id);
    if m.DragBegin? {
      BegunEmpty(s, m, env);
      NoLoose(Handle(s, m, env), id);
      assert false;
    }
  }

  /** A file of the drag that finishes without taking the place of a staged item is
      staged with what it was sent. */
  lemma VerifiedAsSent(s: State, es: seq<Event>, id: nat, digest: Digest, env: Env)
    requires IsNew(s) && FreshDisk(s) && GoodRun(s, es) && NothingReady(Run(s, es)) && IsLoose(Run(s, es), id)
    requires Finishes(Run(s, es), FileDone(id, digest), env) && !Loses(Run(s, es), FileDone(id, digest), env)
    ensures var before, b := Run(s, es), Reached(Run(s, es), FileDone(id, digest), env);
            var x := ItemOf(before, id);
            && b.drag.Some? && x in b.drag.value.done
            && x.path in b.fs && b.fs[x.path] == File(Collected(s, es, id))
  {
    hide Sound, FreshDisk, NothingReady, Reached, Handle, Overwritten, Collected, Loses, Owned, Finishes, Holding, Run;
    hide FinishRecv;
    var before, m := Run(s, es), FileDone(id, digest);
    NewIsSoundlyLaid(s);
    RunKeepsSound(s, es);
    Losses.SoundParts(before);
    VerifiedIsStaged(before, m, env);
    FinishedHolds(s, es, id, digest, env);
    if Overwritten(s, es, id).Some? {
      OverwrittenIsStaged(s, es, id);
      PartLost(before, m, env, id);
      assert false;
    }
    FinishedIsRenamed(before, m, env);
  }

  /** The item that a file of a drag becomes. */
  function ItemOf(s: State, id: nat): Staged
    requires id in s.recv
  {
    var t := s.recv[id];
    Staged(id, t.name, false, t.size, t.final, None)
  }

  lemma FinishedIsRenamed(s: State, m: Message, env: Env)
    requires Finishes(s, m, env)
    ensures FinishedFs(s, m, env) == Renamed(s, m, env)
  {
  }

  lemma PartLost(s: State, m: Message, env: Env, id: nat)
    requires IsLoose(s, id) && Finishes(s, m, env) && m.id == id
    requires exists x :: x in s.drag.value.done && x.path == s.recv[id].part
    ensures Loses(s, m, env)
  {
    var x :| x in s.drag.value.done && x.path == s.recv[id].part;
    assert EmptiesPart(s, m, env, id) && Takes(s, m, env, x.path);
  }

  /** While drag `d` is held, no message cancels it or begins another. */
  ghost predicate Unabandoned(s: State, es: seq<Event>, d: nat) {
    forall k :: 0 <= k < |es| && HeldThroughout(s, es[..k], d) ==> !Abandons(es[k].m, d)
  }

  /** If every item offered to the drag has a name apart from the others, only its
      being cancelled or superseded can disturb it. */
  lemma {:induction false} NamesUndisturbed(s: State, es: seq<Event>, d: nat)
    requires Sound(s) && Intact(s) && DragNames.Named(s, {}) && FreshRun(s, es) && NamesApart(es, d)
             && Unabandoned(s, es, d)
    ensures Undisturbed(s, es, d)
  {
    hide Sound, Intact, DragNames.Named, Run, Loses, Abandons, HeldThroughout, Apart, SharesRoot, FreshKind;
    if es != [] {
      var front := es[..|es| - 1];
      forall k | 0 <= k < |front| && HeldThroughout(s, front[..k], d) ensures !Abandons(front[k].m, d) {
        assert front[..k] == es[..k];
      }
      NamesUndisturbed(s, front, d);
      if HeldThroughout(s, front, d) { NamesKeepAllAtDrop(s, es, d); }
    }
  }

  /* ---- both ends ---- */

  /** Message `b` begins drag `d`, and its directory can be made. */
  ghost predicate BeginsAt(s: State, es: seq<Event>, b: nat, d: nat) {
    b < |es| && es[b].m.DragBegin? && es[b].m.drag == d && Holds(Run(s, es[..b + 1]), d)
  }

  lemma BeginsEmpty(s: State, es: seq<Event>, b: nat, d: nat)
    requires IsNew(s) && FreshDisk(s) && FreshRun(s, es) && BeginsAt(s, es, b, d) && RootsApart(s, es[..b + 1])
    ensures var r := Run(s, es[..b + 1]);
            && Sound(r) && NothingReady(r) && Intact(r) && DragNames.Named(r, {}) && Holds(r, d)
            && FreshRun(r, es[b + 1..]) && GoodRun(s, es[..b + 1])
  {
    hide Sound, Handle, FreshDisk, FreshKind, SharesRoot, NothingReady, Intact, DragNames.Named, Run;
    var front, next := es[..b], es[..b + 1];
    assert next[..|next| - 1] == front && es == next + es[b + 1..];
    FreshRunSplits(s, next, es[b + 1..]);
    GoodIfBoth(s, next);
    NewIsSoundlyLaid(s);
    NewNotReady(s);
    RunKeepsSound(s, front);
    RunLeavesNothingReady(s, next);
    RunNext(s, es, b);
    BegunIsEmpty(Run(s, front), es[b].m, es[b].env);
  }

  lemma NewNotReady(s: State)
    requires IsNew(s)
    ensures NothingReady(s)
  {
  }

  /** From a fresh start, however senders, channel and receiver interleave: for a drag
      that was begun by message `b`, released, and not disturbed while it was held, once
      everything was sent and handled, every item that was verified in it was placed
      exactly once, as it was when it was verified. */
  lemma EveryItemDelivered(start: Sys, steps: seq<Step>, b: nat, d: nat, j: nat, x: Staged)
    requires IsStart(start) && FreshDisk(start.rx) && Play(start, steps).Some? && Quiet(Play(start, steps).value)
    requires Play(start, steps).value.current != Some(d)
    requires BeginsAt(start.rx, Log(start, steps), b, d) && RootsApart(start.rx, Log(start, steps)[..b + 1])
    requires var r, es := Run(start.rx, Log(start, steps)[..b + 1]), Log(start, steps)[b + 1..];
             && Undisturbed(r, es, d) && DropWorks(r, es, d)
             && j < |es| && HeldThroughout(r, es[..j], d) && At(r, es, j).drag.Some?
                && x in At(r, es, j).drag.value.done
    ensures PlacedCount(Play(start, steps).value.rx.placed, x.id) == 1
    ensures var r, es := Run(start.rx, Log(start, steps)[..b + 1]), Log(start, steps)[b + 1..];
            exists k, p :: j <= k < |es| && PlacedAt(r, es, j, k, x, p)
  {
    hide Sound, Handle, FreshDisk, NothingReady, Intact, DragNames.Named, Run, GoodRun, Play, Quiet, IsStart, DropWorks;
    hide RootsApart, FreshRun, At, PlacedAt, HeldThroughout, Undisturbed, Copies;
    var log, end := Log(start, steps), Play(start, steps).value;
    StartIsNew(start);
    LogIsRun(start, steps);
    BeginsEmpty(start.rx, log, b, d);
    var r, es := Run(start.rx, log[..b + 1]), log[b + 1..];
    assert log == log[..b + 1] + es;
    RunJoins(start.rx, log[..b + 1], es);
    NoStrandedDrop(start, steps);
    if HeldThroughout(r, es, d) {
      HeldLast(r, es, d);
      assert false;
    }
    DeliveredInRun(r, es, d, j, x);
    var k, p :| j <= k < |es| && PlacedAt(r, es, j, k, x, p);
    PlacedFor(r, es, j, k, x, p);
    CopiesPlaced(end.rx, x.id);
  }

  lemma StartIsNew(s: Sys)
    requires IsStart(s)
    ensures IsNew(s.rx)
  {
  }

  lemma PlacedFor(s: State, es: seq<Event>, j: nat, k: nat, x: Staged, p: Placed)
    requires j <= k < |es| && PlacedAt(s, es, j, k, x, p)
    ensures PlacedCount(Run(s, es).placed, x.id) >= 1
  {
    hide Run, Handle;
    assert es == es[..k + 1] + es[k + 1..];
    RunJoins(s, es[..k + 1], es[k + 1..]);
    PlacedGrows(Run(s, es[..k + 1]), es[k + 1..]);
    CountedIfIn(Run(s, es).placed, p);
  }

  lemma {:induction false} CountedIfIn(ps: seq<Placed>, p: Placed)
    requires p in ps
    ensures PlacedCount(ps, p.id) >= 1
  {
    if ps[|ps| - 1] != p { CountedIfIn(ps[..|ps| - 1], p); }
  }

  lemma CopiesPlaced(s: State, id: nat)
    ensures PlacedCount(s.placed, id) <= Copies(s, id)
  {
  }

  /** In particular, a drag whose items have names apart from each other, and that is
      neither cancelled nor superseded while it is held, delivers each file it verified
      exactly once, with exactly the data that was sent for it. */
  lemma EveryFileDelivered(start: Sys, steps: seq<Step>, b: nat, d: nat, j: nat, id: nat)
    requires IsStart(start) && FreshDisk(start.rx) && Play(start, steps).Some? && Quiet(Play(start, steps).value)
    requires Play(start, steps).value.current != Some(d)
    requires BeginsAt(start.rx, Log(start, steps), b, d) && RootsApart(start.rx, Log(start, steps)[..b + 1])
    requires var log := Log(start, steps);
             var r, es := Run(start.rx, log[..b + 1]), log[b + 1..];
             && NamesApart(es, d) && Unabandoned(r, es, d) && DropWorks(r, es, d)
             && j < |es| && HeldThroughout(r, es[..j], d)
             && IsLoose(Run(r, es[..j]), id) && es[j].m.FileDone? && es[j].m.id == id
                && Finishes(Run(r, es[..j]), es[j].m, es[j].env)
    ensures PlacedCount(Play(start, steps).value.rx.placed, id) == 1
    ensures var log := Log(start, steps);
            var r, es := Run(start.rx, log[..b + 1]), log[b + 1..];
            var sent := Collected(start.rx, log[..b + 1 + j], id);
            exists k, p :: j <= k < |es| && FileAt(r, es, k, id, sent, p)
  {
    hide Sound, Handle, FreshDisk, NothingReady, Intact, DragNames.Named, Run, GoodRun, Play, Quiet, IsStart, DropWorks;
    hide RootsApart, FreshRun, At, PlacedAt, HeldThroughout, Undisturbed, Copies, Unabandoned, NamesApart;
    hide Finishes, Collected, FileAt, Log;
    var log := Log(start, steps);
    StartIsNew(start);
    LogIsRun(start, steps);
    BeginsEmpty(start.rx, log, b, d);
    var r, es := Run(start.rx, log[..b + 1]), log[b + 1..];
    NamesUndisturbed(r, es, d);
    FileVerifiedAt(start.rx, log, b, d, j, id);
    var x := ItemOf(Run(r, es[..j]), id);
    EveryItemDelivered(start, steps, b, d, j, x);
    var k, p :| j <= k < |es| && PlacedAt(r, es, j, k, x, p);
    ContentAt(r, es, j, k, x, p);
  }

  /** File `id` is placed at `p` by message `k`, with that content. */
  ghost predicate FileAt(s: State, es: seq<Event>, k: nat, id: nat, content: Bytes, p: Placed)
    requires k < |es|
  {
    var r := Run(s, es[..k + 1]);
    && p in r.placed && p.id == id && !p.folder && p.path in r.fs && r.fs[p.path] == File(content)
    && Place(s) <= p.path && |p.path| == |Place(s)| + 1
  }

  lemma ContentAt(s: State, es: seq<Event>, j: nat, k: nat, x: Staged, p: Placed)
    requires j <= k < |es| && PlacedAt(s, es, j, k, x, p) && !x.folder
    requires x.path in At(s, es, j).fs && At(s, es, j).fs[x.path].File?
    ensures FileAt(s, es, k, x.id, At(s, es, j).fs[x.path].content, p)
  {
    hide Run, Reached;
    assert x.path + [] == x.path && p.path + [] == p.path;
  }

  lemma FileVerifiedAt(s: State, log: seq<Event>, b: nat, d: nat, j: nat, id: nat)
    requires IsNew(s) && FreshDisk(s) && FreshRun(s, log) && BeginsAt(s, log, b, d) && RootsApart(s, log[..b + 1])
    requires var r, es := Run(s, log[..b + 1]), log[b + 1..];
             && Undisturbed(r, es, d) && j < |es| && HeldThroughout(r, es[..j], d)
             && IsLoose(Run(r, es[..j]), id) && es[j].m.FileDone? && es[j].m.id == id
                && Finishes(Run(r, es[..j]), es[j].m, es[j].env)
    ensures var r, es := Run(s, log[..b + 1]), log[b + 1..];
            var x, a := ItemOf(Run(r, es[..j]), id), At(r, es, j);
            && a.drag.Some? && x in a.drag.value.done
            && x.path in a.fs && a.fs[x.path] == File(Collected(s, log[..b + 1 + j], id))
  {
    hide Sound, Handle, FreshDisk, NothingReady, Intact, DragNames.Named, Run, GoodRun, HeldThroughout;
    hide Undisturbed, Finishes, Collected, Reached, Loses;
    var r, es, i := Run(s, log[..b + 1]), log[b + 1..], b + 1 + j;
    BeginsEmpty(s, log, b, d);
    SteadyAt(r, es, d, j);
    assert log[..i] == log[..b + 1] + es[..j] && es == es[..j] + es[j..];
    RunJoins(s, log[..b + 1], es[..j]);
    FreshRunSplits(r, es[..j], es[j..]);
    UndisturbedPrefix(r, es[..j], es, d);
    UndisturbedIsGood(r, es[..j], d);
    GoodRunJoins(s, log[..b + 1], es[..j]);
    assert es[j].m == FileDone(id, es[j].m.digest);
    VerifiedAsSent(s, log[..i], id, es[j].m.digest, es[j].env);
  }
}
