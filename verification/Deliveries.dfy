/** Nothing staged is lost: what a drag has verified stays where it is staged, as it
    was, until a drop places it, unless the drag is cancelled or superseded, or its
    place is taken by another file. */
module Deliveries {
  import opened Basics
  import opened Disk
  import opened Receiving
  import opened Ownership
  import opened Frames
  import opened Staging
  import opened Cleanup
  import opened Footprints
  import opened Layout
  import opened Additions
  import opened Streams
  import opened Drops
  import opened DropTime
  import Names

  /* ---- the staged items on the disk ---- */

  predicate ItemThere(fs: Fs, x: Staged) { x.path in fs && if x.folder then fs[x.path].Dir? else fs[x.path].File? }

  /** The staged items are there, each at a place of its own. */
  predicate StagedWhole(s: State) {
    s.drag.Some? ==>
      && PathsDiffer(s.drag.value.done)
      && forall x :: x in s.drag.value.done ==> ItemThere(s.fs, x)
  }

  /** Folder `t` does not have the place of staged item `x`; only a file can have got the
      place of a folder that failed. */
  predicate Beside(s: State, x: Staged, t: nat)
    requires t in s.trees
  {
    s.trees[t].root != x.path || (!x.folder && s.trees[t].failed.Some?)
  }

  /** And no live folder has the place of a staged item. */
  ghost predicate Intact(s: State) {
    && StagedWhole(s)
    && (s.drag.Some? ==> forall x, t :: x in s.drag.value.done && t in s.trees ==> Beside(s, x, t))
  }

  /** What is at and below `p` is the same. */
  ghost predicate SameBelow(fs: Fs, r: Fs, p: Path) {
    forall q :: p <= q ==> (q in r <==> q in fs) && (q in fs ==> r[q] == fs[q])
  }

  lemma SameBelowTrans(a: Fs, b: Fs, c: Fs, p: Path)
    requires SameBelow(a, b, p) && SameBelow(b, c, p)
    ensures SameBelow(a, c, p)
  {
  }

  /* ---- what can lose a staged item ---- */

  /** The message ends transfer `id`, and its temporary path is empty afterwards: it
      is cancelled, sent wrong data, or finished without getting stuck. */
  predicate EmptiesPart(s: State, m: Message, env: Env, id: nat)
    requires id in s.recv
  {
    var t := s.recv[id];
    match m
    case FileCancel(i, _) => i == id
    case FileChunk(i, offset, data) =>
      && i == id
      && (|data| > CHUNK_SIZE || t.received + |data| > t.size || offset != t.received || !env.lucky(OpWrite(t.part)))
    case FileDone(i, _) => i == id && !Stuck(s, m, env, id)
    case _ => false
  }

  /** The message replaces or removes the file of a staged item: it finishes a file
      whose final path is the item's, or it ends a transfer whose temporary path is. */
  predicate Loses(s: State, m: Message, env: Env) {
    s.drag.Some? && exists x :: x in s.drag.value.done && Takes(s, m, env, x.path)
  }

  predicate Takes(s: State, m: Message, env: Env, p: Path) {
    || (Finishes(s, m, env) && s.recv[m.id].final == p)
    || (exists id :: id in s.recv && s.recv[id].part == p && EmptiesPart(s, m, env, id))
  }

  /** The drag's staging ends: it is cancelled, or another drag begins. */
  predicate Abandons(m: Message, d: nat) { m.DragBegin? || m == DragCancel(d) }

  /** A transfer that ends while the drag goes on is the message's own, or belongs to
      no staged place. */
  lemma OnlyOwnEnds(s: State, m: Message, env: Env, id: nat)
    requires id in s.recv && id !in Handle(s, m, env).recv && !m.DragBegin? && !m.DragCancel?
    ensures EmptiesPart(s, m, env, id) || Stuck(s, m, env, id)
  {
    hide FinalizeDrag, FinalizeTree, SettleFailure, Done, RemoveFile, AcceptOffer, OfferInDrag, OfferTree, OfferInTree;
    hide MakeDir, Stuck;
    match m
    case TreeFile(tree, i, rel, size) => OfferInTreeEffect(s, tree, i, rel, size, env);
    case FileChunk(i, offset, data) => ChunkEnds(s, i, offset, data, env);
    case FileDone(i, digest) => DoneEnds(s, i, digest, env);
    case FileCancel(i, why) => if i in s.recv { SettleFailureEnds(Drop(s, i), s.recv[i], i, why, env); }
    case _ =>
  }

  lemma ChunkEnds(s: State, id: nat, offset: nat, data: Bytes, env: Env)
    ensures var r := Chunk(s, id, offset, data, env);
            && (forall i :: i in s.recv && i != id ==> i in r.recv)
            && (id in s.recv && !EmptiesPart(s, FileChunk(id, offset, data), env, id) ==> id in r.recv)
  {
    hide SettleFailure, RemoveFile;
    if id in s.recv {
      forall w, r: State ensures SettleFailure(r, s.recv[id], id, w, env).recv == r.recv {
        SettleFailureEnds(r, s.recv[id], id, w, env);
      }
    }
  }

  /* ---- a message while the drag goes on ---- */

  /** `r` still holds the drag of `s`, and what was staged is as it was. */
  ghost predicate Stays(s: State, r: State) {
    && s.drag.Some? && r.drag.Some?
    && r.drag.value.drag == s.drag.value.drag && r.drag.value.dir == s.drag.value.dir
    && s.drag.value.done <= r.drag.value.done
    && Intact(r) && forall x :: x in s.drag.value.done ==> SameBelow(s.fs, r.fs, x.path)
  }

  /** The premises of a message handled while the drag goes on. */
  ghost predicate Steady(s: State, m: Message, env: Env) {
    && Sound(s) && FreshKind(s, m) && !SharesRoot(s, m, env) && s.drag.Some? && Intact(s)
    && !Abandons(m, s.drag.value.drag) && !Loses(s, m, env)
  }

  lemma ItemPlace(s: State, x: Staged)
    requires Sound(s) && s.drag.Some? && x in s.drag.value.done
    ensures s.drag.value.dir <= x.path && |x.path| == |s.drag.value.dir| + 1
  {
    hide Owned, IsStaging, Unstaged, Names.IsClean, TidyFs;
    assert ItemLocated(s, s.drag.value.drag, x);
  }

  /** No transfer has its temporary or final file below a staged item. */
  lemma NotBelowItem(s: State, id: nat, x: Staged)
    requires Sound(s) && Intact(s) && id in s.recv && s.drag.Some? && x in s.drag.value.done
    ensures x.path <= s.recv[id].part ==> s.recv[id].part == x.path
    ensures x.path <= s.recv[id].final ==> s.recv[id].final == x.path
  {
    hide Owned, Located, Laid, StagedWhole;
    ItemPlace(s, x);
    var t := s.recv[id];
    if t.tree.Some? {
      MemberPlace(s, id);
      MemberBeside(s, id, x);
      NotUnder(x.path, s.trees[t.tree.value].root, t.part);
      NotUnder(x.path, s.trees[t.tree.value].root, t.final);
    } else {
      LooseDepth(s, id);
    }
  }

  /** A file that is still coming is in no folder whose place a staged file got. */
  lemma MemberBeside(s: State, id: nat, x: Staged)
    requires Sound(s) && Intact(s) && id in s.recv && s.drag.Some? && x in s.drag.value.done && s.recv[id].tree.Some?
    requires s.recv[id].tree.value in s.trees
    ensures s.trees[s.recv[id].tree.value].root != x.path
  {
    hide Owned, IsStaging, Unstaged, Names.IsClean, TidyPath;
    var root := s.trees[s.recv[id].tree.value].root;
    assert FileLocated(s, id) && FileLaid(s, id) && ItemThere(s.fs, x) && Beside(s, x, s.recv[id].tree.value);
    ItemPlace(s, x);
    assert s.recv[id].part[..|root|] == root;
  }

  lemma NotUnder(p: Path, root: Path, q: Path)
    requires |p| == |root| && p != root && root <= q
    ensures !(p <= q)
  {
    if p <= q { SameDepth(p, root, q); }
  }

  lemma MemberPlace(s: State, id: nat)
    requires Sound(s) && id in s.recv && s.recv[id].tree.Some? && s.drag.Some?
    ensures var t := s.recv[id].tree.value;
            && t in s.trees && s.trees[t].root <= s.recv[id].part && s.trees[t].root <= s.recv[id].final
            && |s.trees[t].root| == |s.drag.value.dir| + 1
  {
    hide IsStaging, Unstaged, Names.IsClean, TidyFs, FilesOf, LooseOf, CountedOf;
    var t := s.recv[id].tree.value;
    assert FileOwned(s, id) && FileLocated(s, id) && RootLaid(s, t);
    DragDir(s);
  }

  lemma LooseDepth(s: State, id: nat)
    requires Sound(s) && id in s.recv && s.recv[id].tree.None? && s.drag.Some?
    ensures |s.recv[id].part| == |s.recv[id].final| <= |s.drag.value.dir| + 1
    ensures |s.recv[id].part| == |s.drag.value.dir| + 1 ==> s.DragIs(s.recv[id].drag)
  {
    hide IsStaging, Unstaged, Names.IsClean, TidyFs, FilesOf, LooseOf, CountedOf;
    assert FileOwned(s, id) && FileLaid(s, id);
    DragDir(s);
  }

  /** What is staged stays as it is while the drag goes on. */
  lemma ItemStays(s: State, m: Message, env: Env, x: Staged)
    requires Steady(s, m, env) && Handle(s, m, env).drag.Some? && x in s.drag.value.done
    ensures SameBelow(s.fs, Handle(s, m, env).fs, x.path)
  {
    hide Sound, Handle, Loses, FreshKind, SharesRoot, Finishes, StagedWhole, PathsDiffer;
    ItemPlace(s, x);
    forall q | x.path <= q
      ensures q in s.fs ==> q in Handle(s, m, env).fs && Handle(s, m, env).fs[q] == s.fs[q]
      ensures q in Handle(s, m, env).fs ==> q in s.fs
    {
      ItemPathKept(s, m, env, x, q);
      ItemPathOld(s, m, env, x, q);
    }
  }

  lemma CancelsNone(s: State, m: Message, env: Env)
    requires s.drag.Some? && !Abandons(m, s.drag.value.drag) && m.DragCancel?
    ensures Handle(s, m, env) == s
  {
  }

  lemma ItemPathKept(s: State, m: Message, env: Env, x: Staged, q: Path)
    requires Steady(s, m, env) && Handle(s, m, env).drag.Some? && x in s.drag.value.done && x.path <= q
    ensures Kept(s.fs, Handle(s, m, env).fs, q)
  {
    hide Sound, Handle, FreshKind, SharesRoot, Finishes, StagedWhole, EmptiesPart, Stuck;
    if m.DragCancel? {
      CancelsNone(s, m, env);
    } else {
      ItemPlace(s, x);
      forall id | id in s.recv && id !in Handle(s, m, env).recv && !Stuck(s, m, env, id) ensures s.recv[id].part != q {
        NotBelowItem(s, id, x);
        OnlyOwnEnds(s, m, env, id);
      }
      if Finishes(s, m, env) { FinishingNotBelow(s, m, env, x, q); }
      if x.folder || q == x.path {
        ItemsFile(s, x);
        SparedInDrag(s, m, env, x.path, q);
        KeptIfSpared(s, m, env, q);
      } else {
        NothingInFile(s, x, q);
      }
    }
  }

  /** A failed folder at the place of a staged item means that the item is a file. */
  lemma ItemsFile(s: State, x: Staged)
    requires Intact(s) && s.drag.Some? && x in s.drag.value.done
    ensures forall u :: u in s.trees ==> s.trees[u].root != x.path || (FileInstead(s, u, x.path) && !x.folder)
  {
    assert ItemThere(s.fs, x);
    forall u | u in s.trees ensures s.trees[u].root != x.path || (FileInstead(s, u, x.path) && !x.folder) {
      assert Beside(s, x, u);
    }
  }

  lemma NothingInFile(s: State, x: Staged, q: Path)
    requires Sound(s) && Intact(s) && s.drag.Some? && x in s.drag.value.done && !x.folder && x.path <= q && q != x.path
    ensures q !in s.fs
  {
    hide Owned, Laid, TidyPath;
    ItemPlace(s, x);
    assert ItemThere(s.fs, x);
    assert q[..|x.path|] == x.path;
  }

  lemma KeptIfSpared(s: State, m: Message, env: Env, q: Path)
    requires Sound(s) && Spared(s, m, env, q)
    ensures Kept(s.fs, Handle(s, m, env).fs, q)
  {
    hide Owned, Located, Laid, Handle, Spared;
    HandleKeepsPath(s, m, env, q);
  }

  lemma FinishingNotBelow(s: State, m: Message, env: Env, x: Staged, q: Path)
    requires Sound(s) && Intact(s) && s.drag.Some? && x in s.drag.value.done && x.path <= q && !Loses(s, m, env)
    requires Finishes(s, m, env)
    ensures s.recv[m.id].final != q
  {
    hide Sound, Intact;
    NotBelowItem(s, m.id, x);
  }

  lemma ItemPathOld(s: State, m: Message, env: Env, x: Staged, q: Path)
    requires Steady(s, m, env) && Handle(s, m, env).drag.Some? && x in s.drag.value.done && x.path <= q
    ensures Old(s.fs, Handle(s, m, env).fs, q)
  {
    hide Sound, Handle, FreshKind, SharesRoot, Finishes, EmptiesPart, PathsDiffer, StartsAt, RootsAt, Loses;
    ItemPlace(s, x);
    ItemsFile(s, x);
    HandleAdds(s, m, env, x.path, q);
    if Finishes(s, m, env) { FinishingNotBelow(s, m, env, x, q); }
    if StartsAt(s, m, env, x.path) { StartsOnFree(s, m, env, x.path); }
    if RootsAt(s, m, env, x.path) { RootsOnFree(s, m, env, x.path); }
  }

  lemma StartsOnFree(s: State, m: Message, env: Env, p: Path)
    requires Sound(s) && StartsAt(s, m, env, p)
    ensures p !in s.fs
  {
    hide Owned, Located, Laid, Handle;
    NewTransfer(s, m, env, m.id);
  }

  lemma RootsOnFree(s: State, m: Message, env: Env, p: Path)
    requires Sound(s) && RootsAt(s, m, env, p) && p != []
    ensures p !in s.fs
  {
    hide Owned, Located, Laid, Handle, SharesRoot;
    NewTree(s, m, env, m.tree);
  }

  /* ---- what becomes staged ---- */

  /** An item staged just now is there, at a place no other item or folder has. */
  lemma NewItemThere(s: State, m: Message, env: Env, x: Staged)
    requires Steady(s, m, env) && NewItem(s, m, env, x)
    ensures ItemThere(Handle(s, m, env).fs, x) && x.path !in Paths(s.drag.value.done)
    ensures forall t :: t in s.trees && t in Handle(s, m, env).trees ==> Beside(s, x, t)
    ensures x.path in s.fs || Finishes(s, m, env)
  {
    hide Owned, Handle, FreshKind, SharesRoot, WellFormed, IsStaging, Unstaged, Names.IsClean, TidyFs, EmptiesPart;
    var done := s.drag.value.done;
    if x.folder {
      FolderThere(s, m, env, x);
    } else {
      FileThere(s, m, env, x);
      forall i | 0 <= i < |done| ensures done[i].path != x.path { assert !Takes(s, m, env, done[i].path); }
    }
  }

  lemma FileThere(s: State, m: Message, env: Env, x: Staged)
    requires Sound(s) && s.drag.Some? && NewItem(s, m, env, x) && !x.folder
    ensures ItemThere(Handle(s, m, env).fs, x)
    ensures forall t :: t in s.trees ==> Beside(s, x, t)
    ensures Finishes(s, m, env)
  {
    hide Owned, Located, Handle, FileLaid;
    LaidFile(s, x.id);
    forall t | t in s.trees ensures Beside(s, x, t) {
      if s.trees[t].failed.None? {
        assert RootLaid(s, t);
        FolderRooted(s, t);
      }
    }
  }

  lemma LaidFile(s: State, id: nat)
    requires Laid(s) && id in s.recv
    ensures s.recv[id].part in s.fs && (s.fs[s.recv[id].part] == Part(id) || s.fs[s.recv[id].part].File?)
  {
    assert FileLaid(s, id);
  }

  lemma FolderThere(s: State, m: Message, env: Env, x: Staged)
    requires Steady(s, m, env) && NewItem(s, m, env, x) && x.folder
    ensures ItemThere(Handle(s, m, env).fs, x) && x.path !in Paths(s.drag.value.done)
    ensures forall t :: t in s.trees && t in Handle(s, m, env).trees ==> Beside(s, x, t)
    ensures x.path in s.fs
  {
    hide Owned, Located, Handle, FreshKind, SharesRoot, Loses, StagedWhole;
    var done := s.drag.value.done;
    assert RootLaid(s, x.id);
    FolderRooted(s, x.id);
    if m.FileDone? && m.id in s.recv {
      assert FileLaid(s, m.id);
      RenameSparesDirs(s, m, env, x.path);
    }
    forall i | 0 <= i < |done| ensures done[i].path != x.path { assert done[i] in done; }
  }

  lemma FolderRooted(s: State, t: nat)
    requires Located(s) && t in s.trees && s.trees[t].failed.None?
    ensures s.trees[t].root != []
  {
    hide Located;
    RootKnown(s, t);
  }

  lemma RenameSparesDirs(s: State, m: Message, env: Env, p: Path)
    requires m.FileDone? && m.id in s.recv && p in s.fs && s.fs[p].Dir?
    requires s.recv[m.id].part in s.fs && !s.fs[s.recv[m.id].part].Dir?
    ensures p in FinishedFs(s, m, env) && FinishedFs(s, m, env)[p].Dir?
  {
  }

  /** While the drag goes on, everything staged stays as it is, and what comes is
      staged at a place of its own. */
  lemma SteadyStays(s: State, m: Message, env: Env)
    requires Steady(s, m, env) && Handle(s, m, env).drag.Some?
    ensures Stays(s, Handle(s, m, env))
  {
    hide Sound, Handle, FreshKind, SharesRoot, Loses, SameBelow, NewItem, Intact;
    var r := Handle(s, m, env);
    DragAfter(s, m, env);
    forall x | x in s.drag.value.done ensures SameBelow(s.fs, r.fs, x.path) { ItemStays(s, m, env, x); }
    if r.drag.value.done == s.drag.value.done {
      IntactAfter(s, m, env, s.drag.value.done);
    } else {
      var x :| r.drag.value.done == s.drag.value.done + [x] && NewItem(s, m, env, x);
      NewItemThere(s, m, env, x);
      IntactMore(s, m, env, x);
    }
  }

  lemma OldItemsThere(s: State, r: State)
    requires s.drag.Some? && StagedWhole(s) && forall x :: x in s.drag.value.done ==> SameBelow(s.fs, r.fs, x.path)
    ensures forall x :: x in s.drag.value.done ==> ItemThere(r.fs, x) && x.path in s.fs
  {
    forall x | x in s.drag.value.done ensures ItemThere(r.fs, x) && x.path in s.fs {
      assert ItemThere(s.fs, x) && x.path <= x.path;
    }
  }

  lemma BesideAfter(s: State, m: Message, env: Env, x: Staged, t: nat)
    requires Sound(s) && Owned(Handle(s, m, env)) && t in Handle(s, m, env).trees && x.path != []
    requires t in s.trees ==> Beside(s, x, t)
    requires x.path in s.fs || !m.TreeOffer?
    ensures Beside(Handle(s, m, env), x, t)
  {
    hide Owned, Located, Laid, Handle, SharesRoot;
    TreeAfter(s, m, env, t);
    if t !in s.trees { NewTree(s, m, env, t); }
  }

  lemma SoundAfter(s: State, m: Message, env: Env)
    requires Sound(s) && FreshKind(s, m) && !SharesRoot(s, m, env)
    ensures Sound(Handle(s, m, env)) && Owned(Handle(s, m, env))
  {
    hide Owned, Located, Laid, Handle, SharesRoot, FreshKind;
    HandleKeepsSound(s, m, env);
  }

  lemma IntactAfter(s: State, m: Message, env: Env, done: seq<Staged>)
    requires Steady(s, m, env) && Handle(s, m, env).drag.Some?
             && done == s.drag.value.done == Handle(s, m, env).drag.value.done
    requires forall x :: x in done ==> SameBelow(s.fs, Handle(s, m, env).fs, x.path)
    ensures Intact(Handle(s, m, env))
  {
    hide Sound, Handle, FreshKind, SharesRoot, Loses, SameBelow, PathsDiffer, ItemThere;
    var r := Handle(s, m, env);
    OldItemsThere(s, r);
    SoundAfter(s, m, env);
    forall x, t | x in done && t in r.trees ensures Beside(r, x, t) {
      ItemPlace(s, x);
      BesideAfter(s, m, env, x, t);
    }
  }

  lemma IntactMore(s: State, m: Message, env: Env, x: Staged)
    requires Steady(s, m, env) && Handle(s, m, env).drag.Some? && NewItem(s, m, env, x)
    requires Handle(s, m, env).drag.value.done == s.drag.value.done + [x]
    requires ItemThere(Handle(s, m, env).fs, x) && x.path !in Paths(s.drag.value.done)
    requires forall t :: t in s.trees && t in Handle(s, m, env).trees ==> Beside(s, x, t)
    requires x.path in s.fs || Finishes(s, m, env)
    requires forall y :: y in s.drag.value.done ==> SameBelow(s.fs, Handle(s, m, env).fs, y.path)
    ensures Intact(Handle(s, m, env))
  {
    hide Sound, Handle, FreshKind, SharesRoot, Loses, SameBelow, PathsDiffer, ItemThere, NewItem;
    var r, done := Handle(s, m, env), s.drag.value.done;
    OldItemsThere(s, r);
    SoundAfter(s, m, env);
    OneMore(r.fs, done, x);
    NewItemLaid(s, m, env, x);
    forall y, t | y in r.drag.value.done && t in r.trees ensures Beside(r, y, t) {
      if y in done { ItemPlace(s, y); }
      TreeAfter(s, m, env, t);
      BesideAfter(s, m, env, y, t);
    }
  }

  /* ---- the drop ---- */

  lemma UndroppedSteady(s: State, m: Message, env: Env)
    requires Steady(s, m, env)
    ensures Steady(Undropped(s), m, env)
  {
    hide Sound, FreshKind;
    UndroppedSound(s);
    SameFreshKind(s, Undropped(s), m);
  }

  lemma UndroppedSound(s: State)
    requires Sound(s) && s.drag.Some?
    ensures Sound(Undropped(s))
  {
    hide Owned, Located, RootLaid, FileLaid;
    var u := Undropped(s);
    SameOwnership(s, u);
    DragRecordLocated(s, u.drag.value);
    forall t | t in s.trees ensures RootLaid(u, t) { SameRootLaid(s, u, t); }
    forall id | id in s.recv ensures FileLaid(u, id) { SameFileLaid(s, u, id); }
  }

  lemma SameRootLaid(s: State, u: State, t: nat)
    requires t in s.trees && RootLaid(s, t) && u.trees == s.trees && u.fs == s.fs && u.fileDir == s.fileDir
    ensures RootLaid(u, t)
  {
  }

  lemma SameFileLaid(s: State, u: State, id: nat)
    requires id in s.recv && FileLaid(s, id) && u.recv == s.recv && u.trees == s.trees && u.fs == s.fs
             && u.fileDir == s.fileDir
    ensures FileLaid(u, id)
  {
  }

  lemma SameFreshKind(s: State, u: State, m: Message)
    requires FreshKind(s, m) && u.recv == s.recv && u.trees == s.trees
    ensures FreshKind(u, m)
  {
  }

  /** Up to the moment of the drop everything staged is as it was. */
  lemma BeforeDropStays(s: State, m: Message, env: Env)
    requires Steady(s, m, env) && NothingReady(s) && Handle(s, m, env).drag.None?
    ensures var b := BeforeDrop(s, m, env);
            && Stays(s, b) && WellFormed(b.fs) && b.fileDir == s.fileDir && b.desktop == s.desktop
            && InDragDir(b.drag.value.dir, b.drag.value.done)
  {
    hide Sound, Handle, Loses, FreshKind, SharesRoot, NothingReady, Stays, WellFormed;
    DropIs(s, m, env);
    var b := BeforeDrop(s, m, env);
    if m.DragDrop? {
      StaysItself(s, b);
      SoundDrag(s);
    } else {
      var u := Undropped(s);
      UndroppedSteady(s, m, env);
      SteadyStays(u, m, env);
      SoundAfter(u, m, env);
      DirsSame(u, m, env);
      SoundDrag(Handle(u, m, env));
      StaysThrough(s, u, Handle(u, m, env), b);
    }
  }

  lemma SoundDrag(s: State)
    requires Sound(s) && s.drag.Some?
    ensures WellFormed(s.fs) && InDragDir(s.drag.value.dir, s.drag.value.done)
  {
    hide Owned, Located;
    LocatedTidy(s);
    forall i | 0 <= i < |s.drag.value.done| ensures s.drag.value.dir <= s.drag.value.done[i].path {
      ItemPlace(s, s.drag.value.done[i]);
    }
  }

  lemma StaysItself(s: State, b: State)
    requires s.drag.Some? && b == Dropping(s) && Intact(s)
    ensures Stays(s, b)
  {
  }

  lemma StaysThrough(s: State, u: State, r: State, b: State)
    requires s.drag.Some? && u == Undropped(s) && Stays(u, r) && b == Dropping(r)
    ensures Stays(s, b)
  {
  }

  /** What `x` was in `fs` is at `p` in `r`, directly in `dest`. */
  ghost predicate Delivered(fs: Fs, r: Fs, dest: Path, x: Staged, p: Placed) {
    && p.id == x.id && p.folder == x.folder
    && dest <= p.path && |p.path| == |dest| + 1 && Drops.Arrived(fs, r, x.path, p.path)
  }

  /** Each of `xs` was placed, whole and as it was in `fs`, directly in `dest`. */
  ghost predicate AllDelivered(fs: Fs, r: State, xs: seq<Staged>, dest: Path) {
    forall x :: x in xs ==> exists p :: p in r.placed && Delivered(fs, r.fs, dest, x, p)
  }

  /** The state after the message, before the drop if the message completes one. */
  function Reached(s: State, m: Message, env: Env): State {
    if Handle(s, m, env).drag.Some? then Handle(s, m, env) else BeforeDrop(s, m, env)
  }

  /** A message that does not abandon the drag leaves all it staged as it was, dropped or not. */
  lemma HandleKeepsStaged(s: State, m: Message, env: Env)
    requires Steady(s, m, env) && NothingReady(s)
    ensures Stays(s, Reached(s, m, env))
  {
    hide Sound, Handle, Loses, FreshKind, SharesRoot, NothingReady, Stays, BeforeDrop;
    if Handle(s, m, env).drag.Some? { SteadyStays(s, m, env); } else { BeforeDropStays(s, m, env); }
  }

  /** The drop places every staged item, one that the message itself completed too, if
      the disk cooperates and the directory to drop into can be made. */
  lemma DropDelivers(s: State, m: Message, env: Env)
    requires Steady(s, m, env) && NothingReady(s) && Handle(s, m, env).drag.None? && AllLucky(env)
    requires CanMake(BeforeDrop(s, m, env).fs, s.DropDir())
    ensures var b := BeforeDrop(s, m, env);
            b.drag.Some? && AllDelivered(b.fs, Handle(s, m, env), b.drag.value.done, s.DropDir())
    ensures AllDelivered(s.fs, Handle(s, m, env), s.drag.value.done, s.DropDir())
  {
    hide Sound, Handle, Loses, FreshKind, SharesRoot, NothingReady, Intact, WellFormed, AllPlaced, CanMake, BeforeDrop;
    hide SameBelow, FinalizeDrag, AllThere, PathsDiffer, Movable, InDragDir;
    var b, r, dest := BeforeDrop(s, m, env), Handle(s, m, env), s.DropDir();
    DropIs(s, m, env);
    BeforeDropStays(s, m, env);
    DropElsewhere(s);
    var placed := DropPlaces(b, env);
    IntactMovable(b);
    forall x | x in b.drag.value.done ensures exists p :: p in r.placed && Delivered(b.fs, r.fs, dest, x, p) {
      var i :| 0 <= i < |b.drag.value.done| && b.drag.value.done[i] == x;
      SameBelowItself(b.fs, x.path);
      ItemDelivered(b.fs, b.fs, r.fs, dest, b.drag.value.done, placed, i);
      assert placed[i] in r.placed;
    }
    DeliveredThrough(s, b, r);
  }

  lemma SameBelowItself(fs: Fs, p: Path)
    ensures SameBelow(fs, fs, p)
  {
  }

  lemma IntactMovable(s: State)
    requires s.drag.Some? && Intact(s)
    ensures AllThere(s.fs, s.drag.value.done) && PathsDiffer(s.drag.value.done)
  {
    forall i | 0 <= i < |s.drag.value.done| ensures s.drag.value.done[i].path in s.fs {
      assert ItemThere(s.fs, s.drag.value.done[i]);
    }
  }

  lemma DropElsewhere(s: State)
    requires Sound(s) && s.drag.Some?
    ensures !(s.drag.value.dir <= s.DropDir())
  {
    hide Owned, Laid, TidyFs, IsStaging, Unstaged, ItemLocated;
    DragDir(s);
    StagingNames(s.drag.value.drag, 0);
    if s.drag.value.dir <= s.DropDir() { StagedPath(s.fileDir, DragStagingName(s.drag.value.drag), s.DropDir()); }
  }

  lemma ItemDelivered(fs: Fs, b: Fs, r: Fs, dest: Path, xs: seq<Staged>, ps: seq<Placed>, i: nat)
    requires AllPlaced(b, r, dest, xs, ps) && i < |xs| && SameBelow(fs, b, xs[i].path)
    ensures i < |ps| && Delivered(fs, r, dest, xs[i], ps[i])
  {
    assert ItemPlaced(b, r, dest, xs[i], ps[i]);
    var x, p := xs[i], ps[i];
    forall q: Path
      ensures (p.path + q in r <==> x.path + q in fs) && (x.path + q in fs ==> r[p.path + q] == fs[x.path + q])
    {
      assert x.path <= x.path + q;
    }
  }

  /* ---- the directory to drop into ---- */

  /** A directory outside staging is never removed. */
  lemma DirStays(s: State, m: Message, env: Env, p: Path)
    requires Sound(s) && Unstaged(p) && p in s.fs && s.fs[p].Dir?
    ensures p in Handle(s, m, env).fs && Handle(s, m, env).fs[p].Dir?
  {
    hide Sound, Handle, Unstaged, Spared;
    UnstagedOutside(s, m, env, p);
    DirNotTransfers(s, m, env, p);
    SparedIf(s, m, env, p);
    KeptIfSpared(s, m, env, p);
  }

  lemma DirNotTransfers(s: State, m: Message, env: Env, p: Path)
    requires Sound(s) && p in s.fs && s.fs[p].Dir?
    ensures NotATransfers(s, m, env, p)
  {
    hide Owned, Located, Laid, Handle;
    DirNotATransfers(s, m, env, p);
  }

  lemma SoundPlain(s: State)
    requires Sound(s)
    ensures PlainDirs(s) && WellFormed(s.fs)
  {
    hide Owned, Laid, Located;
    LocatedTidy(s);
  }

  /** If the directory to drop into is there, or is the receive folder, it can be made at the drop. */
  lemma DropDirReady(s: State, m: Message, env: Env)
    requires Steady(s, m, env) && NothingReady(s) && Handle(s, m, env).drag.None?
    requires s.desktop.Some? ==> IsDirOrRoot(s.fs, s.desktop.value)
    ensures CanMake(BeforeDrop(s, m, env).fs, s.DropDir())
  {
    hide Sound, Handle, Loses, FreshKind, SharesRoot, NothingReady, WellFormed, Unstaged, IsStaging;
    var b := BeforeDrop(s, m, env);
    SoundPlain(s);
    DropIs(s, m, env);
    BeforeDropStays(s, m, env);
    if s.desktop.Some? && s.desktop.value != [] {
      if !m.DragDrop? {
        UndroppedSteady(s, m, env);
        DirStays(Undropped(s), m, env, s.desktop.value);
      }
      ExistingCanMake(b.fs, s.desktop.value);
    } else if s.desktop.None? {
      DragDirThere(s, m, env);
    }
  }

  lemma ExistingCanMake(fs: Fs, p: Path)
    requires WellFormed(fs) && IsDirOrRoot(fs, p)
    ensures CanMake(fs, p)
  {
    if !CanMake(fs, p) { NoParent(fs, p); }
  }

  lemma DragDirThere(s: State, m: Message, env: Env)
    requires Steady(s, m, env) && NothingReady(s) && Handle(s, m, env).drag.None?
    ensures CanMake(BeforeDrop(s, m, env).fs, s.fileDir)
  {
    hide Sound, Handle, Loses, FreshKind, SharesRoot, NothingReady, WellFormed;
    DropIs(s, m, env);
    BeforeDropStays(s, m, env);
    if m.DragDrop? {
      SoundHome(s);
    } else {
      UndroppedSteady(s, m, env);
      SoundAfter(Undropped(s), m, env);
      DirsSame(Undropped(s), m, env);
      SoundHome(Handle(Undropped(s), m, env));
    }
  }

  lemma SoundHome(s: State)
    requires Sound(s) && s.drag.Some?
    ensures CanMake(s.fs, s.fileDir)
  {
    hide Owned, RootLaid, FileLaid, IsStaging, Unstaged, Names.IsClean;
    DragDir(s);
    LocatedTidy(s);
    AncestorsAreDirs(s.fs, s.drag.value.dir);
    var dir := s.drag.value.dir;
    forall q | q in Ancestors(s.fileDir) && q in s.fs ensures s.fs[q].Dir? { assert q == dir[..|q|]; }
  }

  /* ---- whole runs ---- */

  predicate Holds(s: State, d: nat) { s.DragIs(Some(d)) }

  /** Drag `d` is held all along the run. */
  ghost predicate HeldThroughout(s: State, es: seq<Event>, d: nat) {
    && Holds(s, d)
    && (es == [] || (HeldThroughout(s, es[..|es| - 1], d) && Holds(Run(s, es), d) && !Abandons(es[|es| - 1].m, d)))
  }

  /** While drag `d` is held, no message of the run abandons it, loses what it staged, or
      gives a folder the path of another. */
  ghost predicate Undisturbed(s: State, es: seq<Event>, d: nat) {
    es == []
    || (&& Undisturbed(s, es[..|es| - 1], d)
        && var before, e := Run(s, es[..|es| - 1]), es[|es| - 1];
           HeldThroughout(s, es[..|es| - 1], d) ==>
             !Abandons(e.m, d) && !Loses(before, e.m, e.env) && !SharesRoot(before, e.m, e.env))
  }

  lemma {:induction false} UndisturbedIsGood(s: State, es: seq<Event>, d: nat)
    requires FreshRun(s, es) && Undisturbed(s, es, d) && HeldThroughout(s, es, d)
    ensures GoodRun(s, es)
  {
    hide Handle, Abandons, Loses, FreshKind, SharesRoot;
    if es != [] { UndisturbedIsGood(s, es[..|es| - 1], d); }
  }

  /** Message `k` of the run drops drag `d`, held until then, and if the disk cooperates
      and the directory to drop into can be made, each of `xs` is placed, as it was in `fs`. */
  ghost predicate DroppedAt(s: State, es: seq<Event>, k: nat, d: nat, fs: Fs, xs: seq<Staged>)
    requires k < |es|
  {
    var before, after, e := Run(s, es[..k]), Run(s, es[..k + 1]), es[k];
    && HeldThroughout(s, es[..k], d) && after.drag.None?
    && (AllLucky(e.env) && CanMake(BeforeDrop(before, e.m, e.env).fs, s.DropDir()) ==>
          AllDelivered(fs, after, xs, s.DropDir()))
  }

  /** What is staged stays staged, in place and as it is, over any run that does not
      disturb the drag, until a drop places all of it. */
  lemma {:induction false} StagedUntilDropped(s: State, es: seq<Event>, d: nat)
    requires Sound(s) && NothingReady(s) && Intact(s) && Holds(s, d) && FreshRun(s, es) && Undisturbed(s, es, d)
    ensures || (HeldThroughout(s, es, d) && Stays(s, Run(s, es)))
            || exists k :: 0 <= k < |es| && DroppedAt(s, es, k, d, s.fs, s.drag.value.done)
  {
    hide Sound, Handle, Loses, FreshKind, SharesRoot, NothingReady, Stays, Intact, DroppedAt;
    if es == [] {
      StaysTrivially(s);
    } else {
      var front := es[..|es| - 1];
      StagedUntilDropped(s, front, d);
      if HeldThroughout(s, front, d) && Stays(s, Run(s, front)) {
        UndisturbedIsGood(s, front, d);
        RunKeepsSound(s, front);
        RunLeavesNothingReady(s, front);
        NextMessage(s, es, d);
      } else {
        var k :| 0 <= k < |front| && DroppedAt(s, front, k, d, s.fs, s.drag.value.done);
        DroppedEarlier(s, front, es, k, d);
      }
    }
  }

  lemma StaysTrivially(s: State)
    requires s.drag.Some? && Intact(s)
    ensures Stays(s, s)
  {
  }

  lemma DroppedEarlier(s: State, front: seq<Event>, es: seq<Event>, k: nat, d: nat)
    requires s.drag.Some? && front <= es && k < |front| && DroppedAt(s, front, k, d, s.fs, s.drag.value.done)
    ensures DroppedAt(s, es, k, d, s.fs, s.drag.value.done)
  {
    hide Run;
    assert front[..k] == es[..k] && front[..k + 1] == es[..k + 1];
  }

  lemma RunDirs(s: State, es: seq<Event>)
    ensures Run(s, es).DropDir() == s.DropDir()
  {
    hide Handle;
    if es != [] {
      RunDirs(s, es[..|es| - 1]);
      DirsSame(Run(s, es[..|es| - 1]), es[|es| - 1].m, es[|es| - 1].env);
    }
  }

  lemma NextMessage(s: State, es: seq<Event>, d: nat)
    requires es != [] && FreshRun(s, es) && Undisturbed(s, es, d)
    requires HeldThroughout(s, es[..|es| - 1], d) && Stays(s, Run(s, es[..|es| - 1]))
    requires Sound(Run(s, es[..|es| - 1])) && NothingReady(Run(s, es[..|es| - 1]))
    ensures (HeldThroughout(s, es, d) && Stays(s, Run(s, es))) || DroppedAt(s, es, |es| - 1, d, s.fs, s.drag.value.done)
  {
    hide Sound, Handle, Loses, FreshKind, SharesRoot, NothingReady, Intact, CanMake, SameBelow, BeforeDrop;
    var before, e := Run(s, es[..|es| - 1]), es[|es| - 1];
    assert es[..|es| - 1 + 1] == es;
    if Handle(before, e.m, e.env).drag.Some? {
      SteadyStays(before, e.m, e.env);
      StaysTrans(s, before, Handle(before, e.m, e.env));
    } else {
      RunDirs(s, es[..|es| - 1]);
      if AllLucky(e.env) && CanMake(BeforeDrop(before, e.m, e.env).fs, s.DropDir()) {
        DropDelivers(before, e.m, e.env);
        DeliveredThrough(s, before, Handle(before, e.m, e.env));
      }
    }
  }

  lemma StaysTrans(a: State, b: State, c: State)
    requires Stays(a, b) && Stays(b, c)
    ensures Stays(a, c)
  {
    hide Intact;
    forall x | x in a.drag.value.done ensures SameBelow(a.fs, c.fs, x.path) {
      assert x in b.drag.value.done;
      SameBelowTrans(a.fs, b.fs, c.fs, x.path);
    }
  }

  lemma DeliveredThrough(s: State, before: State, after: State)
    requires Stays(s, before) && AllDelivered(before.fs, after, before.drag.value.done, s.DropDir())
    ensures AllDelivered(s.fs, after, s.drag.value.done, s.DropDir())
  {
    forall x | x in s.drag.value.done
      ensures exists p :: p in after.placed && Delivered(s.fs, after.fs, s.DropDir(), x, p)
    {
      assert x in before.drag.value.done;
      var p :| p in after.placed && Delivered(before.fs, after.fs, s.DropDir(), x, p);
      forall q: Path
        ensures (p.path + q in after.fs <==> x.path + q in s.fs)
                && (x.path + q in s.fs ==> after.fs[p.path + q] == s.fs[x.path + q])
      {
        assert x.path <= x.path + q;
      }
      assert Delivered(s.fs, after.fs, s.DropDir(), x, p);
    }
  }

  /* ---- what is verified is staged ---- */

  /** A file of the drag that finishes is staged behind the others, whether or not the
      drop comes at once, and its content is at its place. */
  lemma VerifiedIsStaged(s: State, m: Message, env: Env)
    requires Owned(s) && NothingReady(s) && Finishes(s, m, env)
    requires s.recv[m.id].tree.None? && s.recv[m.id].drag.Some?
    ensures var t, b := s.recv[m.id], Reached(s, m, env);
            && s.DragIs(t.drag) && b.drag.Some? && b.drag.value.drag == s.drag.value.drag
            && b.drag.value.done == s.drag.value.done + [Staged(m.id, t.name, false, t.size, t.final, None)]
            && b.fs == FinishedFs(s, m, env) && t.final in b.fs
            && b.fs[t.final] == if s.fs[t.part] == Part(m.id) then File(t.written) else s.fs[t.part]
  {
    hide Handle, BeforeDrop, NothingReady, Owned, Reached;
    LooseInDrag(s, m.id);
    if Handle(s, m, env).drag.Some? {
      LooseStaged(s, m, env);
    } else {
      DropIs(s, m, env);
      LooseStaged(Undropped(s), m, env);
    }
    ReachedIs(s, m, env);
  }

  lemma ReachedIs(s: State, m: Message, env: Env)
    ensures Reached(s, m, env) == if Handle(s, m, env).drag.Some? then Handle(s, m, env) else BeforeDrop(s, m, env)
  {
    hide Handle, BeforeDrop;
  }

  lemma LooseStaged(s: State, m: Message, env: Env)
    requires Finishes(s, m, env) && s.recv[m.id].tree.None? && s.DragIs(s.recv[m.id].drag)
    ensures var t, r := s.recv[m.id], Handle(s, m, env);
            r.drag.Some? ==>
              && r.drag.value.drag == s.drag.value.drag
              && r.drag.value.done == s.drag.value.done + [Staged(m.id, t.name, false, t.size, t.final, None)]
              && r.fs == FinishedFs(s, m, env)
  {
    hide FinalizeDrag, RemoveFile;
  }

  /** A folder of the drag that ends with nothing outstanding and no failure is staged
      behind the others, as it is. */
  lemma FolderIsStaged(s: State, m: Message, env: Env)
    requires Owned(s) && NothingReady(s) && m.TreeEnd? && m.error.None? && m.tree in s.trees
    requires var t := s.trees[m.tree]; t.drag.Some? && t.failed.None? && t.outstanding == {}
    ensures var t, b := s.trees[m.tree], Reached(s, m, env);
            && s.DragIs(t.drag) && b.drag.Some? && b.drag.value.drag == s.drag.value.drag
            && b.drag.value.done ==
                 s.drag.value.done + [Staged(m.tree, t.name, true, t.total, t.root, Some(t.(ended := true)))]
            && b.fs == s.fs
  {
    hide Handle, BeforeDrop, NothingReady, Owned, Reached;
    WholeInDrag(s, m.tree);
    if Handle(s, m, env).drag.Some? {
      EndedStaged(s, m, env);
    } else {
      DropIs(s, m, env);
      EndedStaged(Undropped(s), m, env);
    }
    ReachedIs(s, m, env);
  }

  lemma WholeInDrag(s: State, t: nat)
    requires Owned(s) && t in s.trees && s.trees[t].failed.None? && s.trees[t].drag.Some?
    ensures s.DragIs(s.trees[t].drag)
  {
    assert TreeOwned(s, t);
  }

  lemma EndedStaged(s: State, m: Message, env: Env)
    requires m.TreeEnd? && m.error.None? && m.tree in s.trees && s.DragIs(s.trees[m.tree].drag)
    requires s.trees[m.tree].failed.None? && s.trees[m.tree].outstanding == {}
    ensures var t, r := s.trees[m.tree], Handle(s, m, env);
            r.drag.Some? ==>
              && r.drag.value.drag == s.drag.value.drag
              && r.drag.value.done ==
                   s.drag.value.done + [Staged(m.tree, t.name, true, t.total, t.root, Some(t.(ended := true)))]
              && r.fs == s.fs
  {
    hide FinalizeDrag;
  }
}
