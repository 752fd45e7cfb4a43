/** Exactly when a drag loses something it staged. */
module Losses {
  import opened Basics
  import opened Disk
  import opened Receiving
  import opened Ownership
  import opened Frames
  import opened Staging
  import opened Cleanup
  import opened Footprints
  import opened Layout
  import opened Additions
  import opened Streams
  import opened Drops
  import opened DropTime
  import opened Deliveries
  import Names

  /* ---- where a file in the drag's directory can come from ---- */

  /** What is at `q` was there before, or is no file. */
  ghost predicate NoNewFile(fs: Fs, r: Fs, q: Path) { q in r && r[q].File? ==> q in fs && r[q] == fs[q] }

  lemma MkdirNoFile(fs: Fs, p: Path, env: Env, q: Path)
    ensures NoNewFile(fs, OrElse(MkdirAll(fs, p, env), fs), q)
  {
  }

  lemma AcceptNoFile(s: State, dir: Path, id: nat, name: string, size: nat, drag: Option<nat>, tree: Option<nat>,
                     env: Env, q: Path)
    requires WellFormed(s.fs)
    ensures NoNewFile(s.fs, AcceptOffer(s, dir, id, name, size, drag, tree, env).0.fs, q)
  {
    hide BeginRecv, WellFormed, IsStaging, Names.IsClean;
    BeginRecvEffect(s.fs, dir, id, name, size, drag, tree, env);
  }

  lemma LooseNoFile(s: State, drag: nat, id: nat, name: string, size: nat, env: Env, q: Path)
    requires WellFormed(s.fs) && OfferInDrag(s, drag, id, name, size, env).drag.Some?
    ensures NoNewFile(s.fs, OfferInDrag(s, drag, id, name, size, env).fs, q)
  {
    hide AcceptOffer, FinalizeDrag, WellFormed;
    if s.DragIs(Some(drag)) {
      var d := s.drag.value.(offered := s.drag.value.offered + 1);
      AcceptNoFile(s.WithDrag(d), d.dir, id, name, size, Some(drag), None, env, q);
    }
  }

  lemma MemberNoFile(s: State, tree: nat, id: nat, rel: string, size: nat, env: Env, q: Path)
    requires WellFormed(s.fs)
    ensures NoNewFile(s.fs, OfferInTree(s, tree, id, rel, size, env).fs, q)
  {
    hide AcceptOffer, WellFormed, Names.SanitizeRel;
    if tree in s.trees && s.trees[tree].failed.None? {
      var t := s.trees[tree].(entries := s.trees[tree].entries + 1, offered := s.trees[tree].offered + [id]);
      var path := Names.SanitizeRel(rel);
      if path.Some? && path.value != [] {
        var k := |path.value| - 1;
        AcceptNoFile(s.WithTree(tree, t), t.root + path.value[..k], id, path.value[k], size, t.drag, Some(tree), env,
                     q);
      }
    }
  }

  lemma FolderNoFile(s: State, tree: nat, name: string, files: nat, bytes: nat, drag: Option<nat>, env: Env, q: Path)
    ensures NoNewFile(s.fs, OfferTree(s, tree, name, files, bytes, drag, env).fs, q)
  {
    hide MkdirAll, FreeDirPath, Names.Sanitize, RootTree;
    var safe := Names.Sanitize(name);
    var parent := if s.DragIs(drag) then s.drag.value.dir else s.fileDir + [TreeStagingName(tree)];
    if safe.Some? {
      forall s1: State, c, staging | s1.fs == s.fs && tree !in s1.trees
        ensures NoNewFile(s.fs, RootTree(s1, tree, safe.value, files, bytes, drag, c, parent, staging, env).fs, q)
      {
        RootNoFile(s1, tree, safe.value, files, bytes, drag, c, parent, staging, env, q);
      }
    }
  }

  lemma RootNoFile(s: State, tree: nat, name: string, files: nat, bytes: nat, drag: Option<nat>, counted: bool,
                   parent: Path, staging: Option<Path>, env: Env, q: Path)
    requires tree !in s.trees
    ensures NoNewFile(s.fs, RootTree(s, tree, name, files, bytes, drag, counted, parent, staging, env).fs, q)
  {
    hide MkdirAll, FreeDirPath;
    MkdirNoFile(s.fs, parent, env, q);
    if MkdirAll(s.fs, parent, env).Some? {
      var fs := MkdirAll(s.fs, parent, env).value;
      MkdirNoFile(fs, FreeDirPath(fs, parent, name), env, q);
    }
  }

  lemma MakeDirNoFile(s: State, tree: nat, rel: string, env: Env, q: Path)
    ensures NoNewFile(s.fs, MakeDir(s, tree, rel, env).fs, q)
  {
    hide MkdirAll, Names.SanitizeRel;
    if tree in s.trees && s.trees[tree].failed.None? && Names.SanitizeRel(rel).Some? {
      MkdirNoFile(s.fs, s.trees[tree].root + Names.SanitizeRel(rel).value, env, q);
    }
  }

  /** While a drag goes on, a file comes to be in staging only by finishing there. */
  lemma FileFrom(s: State, m: Message, env: Env, q: Path)
    requires Located(s) && BelowStaging(s.fileDir, q) && !m.DragBegin? && s.drag.Some? && Handle(s, m, env).drag.Some?
    ensures NoNewFile(s.fs, Handle(s, m, env).fs, q) || (Finishes(s, m, env) && q == s.recv[m.id].final)
  {
    hide Located, FinalizeDrag, FinalizeTree, SettleFailure, Done, Chunk, DiscardDrag, RemoveFile, WellFormed;
    hide AcceptOffer, OfferInDrag, OfferInTree, OfferTree, MakeDir, BelowStaging, Finishes;
    LocatedTidy(s);
    match m
    case FileOffer(id, name, size) => AcceptNoFile(s, s.fileDir, id, name, size, None, None, env, q);
    case DragOffer(drag, id, name, size) => LooseNoFile(s, drag, id, name, size, env, q);
    case DragDrop(drag) => if s.DragIs(Some(drag)) {
      UndroppedSame(s.WithDrag(s.drag.value.(dropRequested := true)), env);
    }
    case DragCancel(drag) => if s.DragIs(Some(drag)) { DiscardedNone(s); }
    case TreeOffer(tree, name, files, bytes, within) => FolderNoFile(s, tree, name, files, bytes, within, env, q);
    case TreeDir(tree, rel) => MakeDirNoFile(s, tree, rel, env, q);
    case TreeFile(tree, id, rel, size) => MemberNoFile(s, tree, id, rel, size, env, q);
    case TreeEnd(tree, error) =>
      if tree in s.trees {
        var t := s.trees[tree].(ended := true);
        MemberAdds(s, s, tree, if error.Some? then t.Fail(FromPeer(error.value)) else t, env, q);
      }
    case FileChunk(id, offset, data) =>
      if id in s.recv { ChunkAdds(s, id, offset, data, env, q); } else { UnknownSame(s, id, offset, data, [], env); }
    case FileDone(id, digest) =>
      if id in s.recv { DoneAdds(s, id, digest, env, q); } else { UnknownSame(s, id, 0, [], digest, env); }
    case FileCancel(id, why) => if id in s.recv { DropAdds(s, Drop(s, id), id, why, env, q); }
  }

  /* ---- an item that is lost stays lost ---- */

  /** The staged item is a file, and there is no file at its place. */
  predicate FileGone(fs: Fs, x: Staged) { !x.folder && !(x.path in fs && fs[x.path].File?) }

  /** Two staged items have one place, or a staged file is gone. */
  predicate Spoiled(s: State) {
    s.drag.Some? && (!PathsDiffer(s.drag.value.done) || exists x :: x in s.drag.value.done && FileGone(s.fs, x))
  }

  lemma SpoiledNotWhole(s: State)
    requires Spoiled(s)
    ensures !StagedWhole(s)
  {
  }

  lemma SamePathTwice(xs: seq<Staged>, ys: seq<Staged>)
    requires xs <= ys && PathsDiffer(ys)
    ensures PathsDiffer(xs)
  {
  }

  /** A file that finishes where the drag stages is one of its own. */
  lemma FinishingIsLoose(s: State, id: nat, p: Path)
    requires Sound(s) && s.drag.Some? && id in s.recv && s.recv[id].final == p
    requires s.drag.value.dir <= p && |p| == |s.drag.value.dir| + 1
    ensures s.recv[id].tree.None? && s.DragIs(s.recv[id].drag)
  {
    hide Owned, Located, Laid;
    if s.recv[id].tree.Some? {
      FinalInside(s, id);
    } else {
      LooseDepth(s, id);
    }
  }

  lemma FinalInside(s: State, id: nat)
    requires Sound(s) && s.drag.Some? && id in s.recv && s.recv[id].tree.Some?
    ensures |s.recv[id].final| > |s.drag.value.dir| + 1 && |s.recv[id].part| > |s.drag.value.dir| + 1
  {
    hide IsStaging, Unstaged, Names.IsClean, TidyFs, FilesOf, LooseOf, CountedOf;
    MemberPlace(s, id);
    assert FileLocated(s, id);
  }

  /** Finishing a file at the place of a staged item gives two items one place. */
  lemma SamePlaceSpoils(s: State, m: Message, env: Env, x: Staged)
    requires Sound(s) && s.drag.Some? && x in s.drag.value.done && Finishes(s, m, env) && s.recv[m.id].final == x.path
    requires Handle(s, m, env).drag.Some?
    ensures Spoiled(Handle(s, m, env))
  {
    hide Sound, Handle, ItemThere;
    ItemPlace(s, x);
    FinishingIsLoose(s, m.id, x.path);
    LooseStaged(s, m, env);
    var done := s.drag.value.done;
    var i :| 0 <= i < |done| && done[i] == x;
    var t := s.recv[m.id];
    var more := done + [Staged(m.id, t.name, false, t.size, t.final, None)];
    assert more[i].path == more[|done|].path;
  }

  lemma StillSpoiled(s: State, m: Message, env: Env)
    requires Sound(s) && Spoiled(s) && !m.DragBegin? && Handle(s, m, env).drag.Some?
    ensures Spoiled(Handle(s, m, env))
  {
    hide Sound, Handle, NewItem, PathsDiffer, FileGone;
    var r := Handle(s, m, env);
    DragAfter(s, m, env);
    if !PathsDiffer(s.drag.value.done) {
      if PathsDiffer(r.drag.value.done) { SamePathTwice(s.drag.value.done, r.drag.value.done); }
    } else {
      var x :| x in s.drag.value.done && FileGone(s.fs, x);
      if Finishes(s, m, env) && x.path == s.recv[m.id].final {
        SamePlaceSpoils(s, m, env, x);
      } else {
        StillGone(s, m, env, x);
        assert x in r.drag.value.done;
      }
    }
  }

  lemma StillGone(s: State, m: Message, env: Env, x: Staged)
    requires Sound(s) && s.drag.Some? && x in s.drag.value.done && FileGone(s.fs, x) && !m.DragBegin?
    requires Handle(s, m, env).drag.Some? && !(Finishes(s, m, env) && x.path == s.recv[m.id].final)
    ensures FileGone(Handle(s, m, env).fs, x)
  {
    hide Sound, Handle, Finishes;
    ItemPlace(s, x);
    ItemStaged(s, x);
    SoundParts(s);
    FileFrom(s, m, env, x.path);
  }

  lemma SoundParts(s: State)
    requires Sound(s)
    ensures Owned(s) && Located(s) && Laid(s)
  {
  }

  lemma ItemStaged(s: State, x: Staged)
    requires Sound(s) && s.drag.Some? && x in s.drag.value.done
    ensures BelowStaging(s.fileDir, x.path)
  {
    hide Owned, Laid, TidyFs, IsStaging, Names.IsClean;
    ItemPlace(s, x);
    DragDir(s);
    StagingNames(s.drag.value.drag, 0);
    PrefixAt(s.fileDir, DragStagingName(s.drag.value.drag), x.path);
  }

  /* ---- a loss spoils ---- */

  /** A transfer that is ended leaves nothing at its temporary path. */
  lemma EmptiedPart(s: State, m: Message, env: Env, id: nat)
    requires Sound(s) && s.drag.Some? && id in s.recv && EmptiesPart(s, m, env, id) && Handle(s, m, env).drag.Some?
    requires BelowStaging(s.fileDir, s.recv[id].part)
    requires s.recv[id].tree.None? && s.DragIs(s.recv[id].drag)
    ensures s.recv[id].part !in Handle(s, m, env).fs
  {
    hide Located, Owned, FinalizeDrag, FinalizeTree, SettleFailure, Done, Chunk, RemoveFile, WellFormed, BelowStaging;
    hide FileLaid, CanRename;
    var q := s.recv[id].part;
    assert q in s.fs && !s.fs[q].Dir? && s.recv[id].part != s.recv[id].final by {
      assert FileLaid(s, id);
      LaidPart(s, id);
    }
    LocatedTidy(s);
    match m
    case FileChunk(i, offset, data) => ChunkEmpties(s, id, offset, data, env);
    case FileDone(i, digest) =>
      RenamedAway(s, id, digest, env);
      DoneSettlingAdds(s, id, digest, env, q);
    case FileCancel(i, why) => DropEmpties(s, Drop(s, id), id, why, env);
  }

  lemma LaidPart(s: State, id: nat)
    requires id in s.recv && FileLaid(s, id)
    ensures s.recv[id].part in s.fs && !s.fs[s.recv[id].part].Dir? && s.recv[id].part != s.recv[id].final
  {
  }

  lemma RenamedAway(s: State, id: nat, digest: Digest, env: Env)
    requires id in s.recv && s.recv[id].part != s.recv[id].final && s.recv[id].part in s.fs
             && !s.fs[s.recv[id].part].Dir?
    requires !Stuck(s, FileDone(id, digest), env, id)
    ensures s.recv[id].part !in FinishRecv(s.fs, id, s.recv[id], digest, env).0
  {
  }

  lemma DropEmpties(s: State, r: State, id: nat, why: Reason, env: Env)
    requires Located(s) && id in s.recv && r == Drop(s, id).(replies := r.replies)
             && BelowStaging(s.fileDir, s.recv[id].part)
    requires s.recv[id].part in s.fs && !s.fs[s.recv[id].part].Dir? && WellFormed(s.fs)
    requires SettleFailure(r, s.recv[id], id, why, env).drag.Some?
    ensures s.recv[id].part !in SettleFailure(r, s.recv[id], id, why, env).fs
  {
    hide Located, WellFormed, SettleFailure, BelowStaging;
    RemoveFilesEffect(s.fs, {s.recv[id].part});
    SettleFailureAdds(s, r, id, why, env, s.recv[id].part);
  }

  lemma ChunkEmpties(s: State, id: nat, offset: nat, data: Bytes, env: Env)
    requires Located(s) && id in s.recv && BelowStaging(s.fileDir, s.recv[id].part)
    requires s.recv[id].part in s.fs && !s.fs[s.recv[id].part].Dir? && WellFormed(s.fs)
    requires EmptiesPart(s, FileChunk(id, offset, data), env, id) && Chunk(s, id, offset, data, env).drag.Some?
    ensures s.recv[id].part !in Chunk(s, id, offset, data, env).fs
  {
    hide Located, WellFormed, SettleFailure, RemoveFile, BelowStaging;
    forall w, r: State | r == Drop(s, id).(replies := r.replies) && SettleFailure(r, s.recv[id], id, w, env).drag.Some?
      ensures s.recv[id].part !in SettleFailure(r, s.recv[id], id, w, env).fs
    {
      DropEmpties(s, r, id, w, env);
    }
  }

  /** A message that loses a staged item while the drag goes on spoils what is staged. */
  lemma LossSpoils(s: State, m: Message, env: Env)
    requires Sound(s) && Intact(s) && Loses(s, m, env) && !m.DragBegin? && Handle(s, m, env).drag.Some?
    ensures Spoiled(Handle(s, m, env))
  {
    hide Sound, Handle, PathsDiffer, EmptiesPart, BelowStaging, NewItem;
    var x :| x in s.drag.value.done && Takes(s, m, env, x.path);
    if Finishes(s, m, env) && s.recv[m.id].final == x.path {
      SamePlaceSpoils(s, m, env, x);
    } else {
      var id :| id in s.recv && s.recv[id].part == x.path && EmptiesPart(s, m, env, id);
      PartIsLoose(s, id, x);
      ItemStaged(s, x);
      EmptiedPart(s, m, env, id);
      DragAfter(s, m, env);
      assert x in Handle(s, m, env).drag.value.done && FileGone(Handle(s, m, env).fs, x);
    }
  }

  lemma PartIsLoose(s: State, id: nat, x: Staged)
    requires Sound(s) && Intact(s) && s.drag.Some? && x in s.drag.value.done && id in s.recv
             && s.recv[id].part == x.path
    ensures s.recv[id].tree.None? && s.DragIs(s.recv[id].drag) && !x.folder
  {
    hide Owned, Located;
    ItemPlace(s, x);
    if s.recv[id].tree.Some? { FinalInside(s, id); } else { LooseDepth(s, id); }
    assert ItemThere(s.fs, x);
    LaidPart(s, id);
  }

  /* ---- exactly ---- */

  /** No message of the run loses a staged item. */
  ghost predicate NothingLost(s: State, es: seq<Event>) {
    es == [] || (NothingLost(s, es[..|es| - 1]) && !Loses(Run(s, es[..|es| - 1]), es[|es| - 1].m, es[|es| - 1].env))
  }

  /** As long as a drag is held, what it staged is whole, every item at a place of its
      own, if and only if no message of the run took the place of a staged item. */
  lemma {:induction false} WholeExactly(s: State, es: seq<Event>, d: nat)
    requires Sound(s) && Intact(s) && GoodRun(s, es) && HeldThroughout(s, es, d)
    ensures NothingLost(s, es) ==> Intact(Run(s, es))
    ensures !NothingLost(s, es) ==> Spoiled(Run(s, es))
    ensures StagedWhole(Run(s, es)) <==> NothingLost(s, es)
  {
    hide Sound, Handle, Loses, FreshKind, SharesRoot, StagedWhole, Spoiled;
    if es != [] {
      var front, e := es[..|es| - 1], es[|es| - 1];
      var before := Run(s, front);
      WholeExactly(s, front, d);
      RunKeepsSound(s, front);
      if NothingLost(s, front) {
        if Loses(before, e.m, e.env) { LossSpoils(before, e.m, e.env); } else { SteadyStays(before, e.m, e.env); }
      } else {
        StillSpoiled(before, e.m, e.env);
      }
    }
    if Spoiled(Run(s, es)) { SpoiledNotWhole(Run(s, es)); }
  }

  /** The state just before the drop that the last message of the run completes. */
  ghost function AtDrop(s: State, es: seq<Event>): State
    requires es != []
  {
    BeforeDrop(Run(s, es[..|es| - 1]), es[|es| - 1].m, es[|es| - 1].env)
  }

  /** And so it is when the drop comes. */
  lemma WholeAtDrop(s: State, es: seq<Event>, d: nat)
    requires es != [] && Sound(s) && NothingReady(s) && Intact(s) && GoodRun(s, es)
    requires HeldThroughout(s, es[..|es| - 1], d) && !Abandons(es[|es| - 1].m, d) && Run(s, es).drag.None?
    ensures StagedWhole(AtDrop(s, es)) <==> NothingLost(s, es)
  {
    hide Sound, Handle, Loses, FreshKind, SharesRoot, StagedWhole, Spoiled, NothingReady, BeforeDrop;
    var front, e := es[..|es| - 1], es[|es| - 1];
    var before := Run(s, front);
    WholeExactly(s, front, d);
    HeldNow(s, front, d);
    RunKeepsSound(s, front);
    RunLeavesNothingReady(s, front);
    DropIs(before, e.m, e.env);
    if NothingLost(s, es) {
      BeforeDropStays(before, e.m, e.env);
      IntactIsWhole(AtDrop(s, es));
    } else {
      SpoiledAtDrop(s, es, d);
      SpoiledNotWhole(AtDrop(s, es));
    }
  }

  lemma HeldNow(s: State, es: seq<Event>, d: nat)
    requires HeldThroughout(s, es, d)
    ensures Holds(Run(s, es), d)
  {
  }

  lemma IntactIsWhole(s: State)
    requires Intact(s)
    ensures StagedWhole(s)
  {
  }

  lemma SpoiledAtDrop(s: State, es: seq<Event>, d: nat)
    requires es != [] && Sound(s) && NothingReady(s) && Intact(s) && GoodRun(s, es) && !NothingLost(s, es)
    requires HeldThroughout(s, es[..|es| - 1], d) && !Abandons(es[|es| - 1].m, d) && Run(s, es).drag.None?
    requires Sound(Run(s, es[..|es| - 1])) && NothingReady(Run(s, es[..|es| - 1]))
    ensures Spoiled(AtDrop(s, es))
  {
    hide Sound, Handle, Loses, FreshKind, SharesRoot, StagedWhole, NothingReady, Spoiled;
    var front, e := es[..|es| - 1], es[|es| - 1];
    var before := Run(s, front);
    WholeExactly(s, front, d);
    HeldNow(s, front, d);
    DropIs(before, e.m, e.env);
    if e.m.DragDrop? {
      DropLosesNone(before, e.m, e.env);
      DroppingSpoiled(before);
    } else {
      var u := Undropped(before);
      UndroppedSound(before);
      UndroppedSpoiled(before);
      if NothingLost(s, front) {
        SameLoss(before, e.m, e.env);
        UndroppedIntact(before);
        LossSpoils(u, e.m, e.env);
      } else {
        StillSpoiled(u, e.m, e.env);
      }
      DroppingSpoiled(Handle(u, e.m, e.env));
    }
  }

  lemma DropLosesNone(s: State, m: Message, env: Env)
    requires m.DragDrop?
    ensures !Loses(s, m, env)
  {
  }

  lemma DroppingSpoiled(s: State)
    requires s.drag.Some?
    ensures Spoiled(Dropping(s)) <==> Spoiled(s)
  {
  }

  lemma UndroppedSpoiled(s: State)
    ensures Spoiled(Undropped(s)) <==> Spoiled(s)
  {
  }

  lemma UndroppedIntact(s: State)
    requires Intact(s)
    ensures Intact(Undropped(s))
  {
  }

  lemma SameLoss(s: State, m: Message, env: Env)
    ensures Loses(Undropped(s), m, env) <==> Loses(s, m, env)
  {
    forall p ensures Takes(Undropped(s), m, env, p) <==> Takes(s, m, env, p) { SameTakes(s, m, env, p); }
  }

  lemma SameTakes(s: State, m: Message, env: Env, p: Path)
    ensures Takes(Undropped(s), m, env, p) <==> Takes(s, m, env, p)
  {
    forall id | id in s.recv ensures EmptiesPart(Undropped(s), m, env, id) <==> EmptiesPart(s, m, env, id) {}
  }

  /** What is at the place of a dropped item is what the item was. */
  predicate PlacedRight(r: Fs, x: Staged, p: Placed) {
    p.path in r && if x.folder then r[p.path].Dir? else r[p.path].File?
  }

  /** So a drop that can make its directory on a disk that cooperates places every item,
      files as files and folders as folders, if and only if what was staged is whole;
      by the lemma above, if and only if no message took the place of a staged item. */
  lemma DropsAll(s: State, env: Env) returns (placed: seq<Placed>)
    requires s.drag.Some? && s.drag.value.dropRequested && s.drag.value.Settled() && AllLucky(env)
    requires WellFormed(s.fs) && !(s.drag.value.dir <= s.DropDir()) && InDragDir(s.drag.value.dir, s.drag.value.done)
    requires CanMake(s.fs, s.DropDir())
    ensures var items, r := s.drag.value.done, FinalizeDrag(s, env);
            && r.placed == s.placed + placed
            && (StagedWhole(s) <==>
                  |placed| == |items| && forall i :: 0 <= i < |items| ==> PlacedRight(r.fs, items[i], placed[i]))
  {
    hide FinalizeDrag, WellFormed, CanMake, InDragDir, PathsDiffer;
    placed := DropPlaces(s, env);
    var items, r := s.drag.value.done, FinalizeDrag(s, env);
    if AllThere(s.fs, items) && PathsDiffer(items) {
      forall i | 0 <= i < |items| ensures PlacedRight(r.fs, items[i], placed[i]) <==> ItemThere(s.fs, items[i]) {
        assert ItemPlaced(s.fs, r.fs, s.DropDir(), items[i], placed[i]);
        assert items[i].path + [] == items[i].path && placed[i].path + [] == placed[i].path;
      }
      assert StagedWhole(s) <==> forall i :: 0 <= i < |items| ==> ItemThere(s.fs, items[i]);
    } else if StagedWhole(s) {
      forall i | 0 <= i < |items| ensures items[i].path in s.fs { assert ItemThere(s.fs, items[i]); }
      assert false;
    }
  }
}
