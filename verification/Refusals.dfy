/** Why an offer is turned down, a transfer aborted, a folder failed: what the sender and the
    user are told. */
module Refusals {
  import opened Basics
  import opened Disk
  import opened Receiving
  import opened Ownership
  import opened Frames
  import opened Footprints
  import Names

  /* ---- answers to offers ---- */

  /** Where the file of an offer would be created, and under which name, if it gets that far. */
  function Target(s: State, m: Message): Option<(Path, string)> {
    match m
    case FileOffer(_, name, _) => Some((s.fileDir, name))
    case DragOffer(drag, _, name, _) => if s.DragIs(Some(drag)) then Some((s.drag.value.dir, name)) else None
    case TreeFile(tree, _, rel, _) =>
      var path := Names.SanitizeRel(rel);
      if tree in s.trees && s.trees[tree].failed.None? && s.trees[tree].entries < MAX_TREE_ENTRIES
         && path.Some? && path.value != []
      then Some((s.trees[tree].root + path.value[..|path.value| - 1], path.value[|path.value| - 1])) else None
    case _ => None
  }

  /** The answer says which obstacle came first: no such drag or folder, a failed or full folder, a
      path that is refused, an id in use, a name that is refused, a file that cannot be created. */
  ghost predicate RightAnswer(s: State, m: Message, env: Env, a: Reply)
    requires Offers(m).Some?
  {
    var id, to := Offers(m).value, Target(s, m);
    && a.id == id
    && (a.Accept? <==> to.Some? && id !in s.recv && CanBegin(s.fs, to.value.0, to.value.1, env))
    && (to.Some? && a.Reject? ==>
          && (a.why == IdInUse <==> id in s.recv)
          && (a.why == BadName <==> id !in s.recv && Names.Sanitize(to.value.1).None?)
          && (a.why == CannotCreate <==> id !in s.recv && Names.Sanitize(to.value.1).Some?))
    && (to.None? && m.DragOffer? ==> a == Reject(id, NoDrag))
    && (to.None? && m.TreeFile? ==>
          && a.Reject?
          && (a.why == NoTree <==> m.tree !in s.trees)
          && (m.tree in s.trees && s.trees[m.tree].failed.Some? ==> a.why == TreeFailed(s.trees[m.tree].failed.value))
          && (m.tree in s.trees && s.trees[m.tree].failed.None? ==>
                a.why == if s.trees[m.tree].entries >= MAX_TREE_ENTRIES then TooManyEntries else BadPath))
    && !a.Abort?
  }

  lemma AcceptAnswers(s: State, dir: Path, id: nat, name: string, size: nat, drag: Option<nat>, tree: Option<nat>,
                      env: Env)
    ensures var (r, accepted) := AcceptOffer(s, dir, id, name, size, drag, tree, env);
            && r.replies == s.replies + [if accepted then Accept(id)
                                         else Reject(id, if id in s.recv then IdInUse
                                                         else if Names.Sanitize(name).None? then BadName
                                                         else CannotCreate)]
            && (accepted <==> id !in s.recv && CanBegin(s.fs, dir, name, env))
  {
    hide BeginRecv, CanBegin, Names.Sanitize;
    if id !in s.recv { AcceptedIfCan(s, dir, id, name, size, drag, tree, env); }
  }

  /** Every offer is answered, with the reason if it is turned down. */
  lemma OffersAnswered(s: State, m: Message, env: Env)
    requires Offers(m).Some?
    ensures var r := Handle(s, m, env);
            |r.replies| == |s.replies| + 1 && r.replies[..|s.replies|] == s.replies
            && RightAnswer(s, m, env, r.replies[|s.replies|])
  {
    hide AcceptOffer, FinalizeDrag, CanBegin, Names.Sanitize, Names.SanitizeRel;
    match m
    case FileOffer(id, name, size) => AcceptAnswers(s, s.fileDir, id, name, size, None, None, env);
    case DragOffer(drag, id, name, size) =>
      if s.DragIs(Some(drag)) {
        var d := s.drag.value.(offered := s.drag.value.offered + 1);
        AcceptAnswers(s.WithDrag(d), d.dir, id, name, size, Some(drag), None, env);
      }
    case TreeFile(tree, id, rel, size) => FileInTreeAnswered(s, tree, id, rel, size, env);
  }

  lemma FileInTreeAnswered(s: State, tree: nat, id: nat, rel: string, size: nat, env: Env)
    ensures var r := OfferInTree(s, tree, id, rel, size, env);
            |r.replies| == |s.replies| + 1 && r.replies[..|s.replies|] == s.replies
            && RightAnswer(s, TreeFile(tree, id, rel, size), env, r.replies[|s.replies|])
  {
    hide AcceptOffer, CanBegin, Names.Sanitize, Names.SanitizeRel;
    if tree in s.trees && s.trees[tree].failed.None? {
      var t := s.trees[tree].(entries := s.trees[tree].entries + 1, offered := s.trees[tree].offered + [id]);
      var path := Names.SanitizeRel(rel);
      if t.entries <= MAX_TREE_ENTRIES && path.Some? && path.value != [] {
        var k := |path.value| - 1;
        AcceptAnswers(s.WithTree(tree, t), t.root + path.value[..k], id, path.value[k], size, t.drag, Some(tree), env);
      }
    }
  }

  /** What an accepted offer comes to: a transfer of that size under the cleaned name, whose two paths lie in
      the directory of the offer, unused until then; the name is kept unless it is taken, and the temporary
      file is called after it. */
  lemma AcceptedOffer(s: State, m: Message, env: Env)
    requires WellFormed(s.fs) && Offers(m).Some? && Offers(m).value !in s.recv
    requires Offers(m).value in Handle(s, m, env).recv
    ensures var r := Handle(s, m, env);
            && Target(s, m).Some?
            && Begun(s.fs, r.fs, r.recv, Target(s, m).value.0, Target(s, m).value.1, Offers(m).value, m.size)
  {
    hide AcceptOffer, FinalizeDrag, CanBegin, Names.Sanitize, Names.SanitizeRel, Begun, WellFormed;
    TakenUpUnlessTurnedDown(s, m, env);
    match m
    case FileOffer(id, name, size) => OfferBegins(s, s.fileDir, id, name, size, None, None, env);
    case DragOffer(drag, id, name, size) =>
      var d := s.drag.value.(offered := s.drag.value.offered + 1);
      OfferBegins(s.WithDrag(d), d.dir, id, name, size, Some(drag), None, env);
    case TreeFile(tree, id, rel, size) =>
      var t, path := s.trees[tree], Names.SanitizeRel(rel).value;
      var t1 := t.(entries := t.entries + 1, offered := t.offered + [id]);
      var k := |path| - 1;
      OfferBegins(s.WithTree(tree, t1), t.root + path[..k], id, path[k], size, t.drag, Some(tree), env);
  }

  ghost predicate Begun(fs: Fs, r: Fs, recv: map<nat, Recv>, dir: Path, offered: string, id: nat, size: nat) {
    && id in recv && Names.Sanitize(offered).Some?
    && var t := recv[id];
    && t.name == Names.Sanitize(offered).value && t.size == size && t.received == 0
    && Unused(fs, dir, t.name, t.final)
    && Unused(fs, dir, t.final[|dir|] + ".vylopart", t.part) && t.part in r && r[t.part] == Part(id)
  }

  /** `p` was not used in `dir`, and is the name wanted if that was not either. */
  ghost predicate Unused(fs: Fs, dir: Path, name: string, p: Path) {
    dir <= p && |p| == |dir| + 1 && p !in fs && (dir + [name] !in fs ==> p == dir + [name])
  }

  /** Making the directory uses no name in it. */
  lemma FreeFile(fs: Fs, dir: Path, name: string, made: Fs)
    requires forall q :: q in made && q !in fs ==> q <= dir
    requires forall q :: q in fs ==> q in made
    ensures Unused(fs, dir, name, FreeFilePath(made, dir, name))
  {
    var (stem, ext) := SplitExt(name);
    PlacementIsFresh(made, dir, stem, ext);
  }

  lemma OfferBegins(s: State, dir: Path, id: nat, name: string, size: nat, drag: Option<nat>, tree: Option<nat>,
                    env: Env)
    requires WellFormed(s.fs) && AcceptOffer(s, dir, id, name, size, drag, tree, env).1
    ensures var r := AcceptOffer(s, dir, id, name, size, drag, tree, env).0;
            Begun(s.fs, r.fs, r.recv, dir, name, id, size)
  {
    hide Names.Sanitize, FreeFilePath, MkdirAll, WellFormed, Unused, BeginRecv;
    var (fs, t) := BeginRecv(s.fs, dir, id, name, size, drag, tree, env);
    RecvBegins(s.fs, dir, id, name, size, drag, tree, env);
  }

  lemma RecvBegins(fs: Fs, dir: Path, id: nat, name: string, size: nat, drag: Option<nat>, tree: Option<nat>, env: Env)
    requires WellFormed(fs) && BeginRecv(fs, dir, id, name, size, drag, tree, env).1.Some?
    ensures var (r, begun) := BeginRecv(fs, dir, id, name, size, drag, tree, env);
            var t := begun.value;
            && Names.Sanitize(name) == Some(t.name) && t.size == size && t.received == 0
            && Unused(fs, dir, t.name, t.final) && |t.final| > |dir|
            && Unused(fs, dir, t.final[|dir|] + ".vylopart", t.part) && t.part in r && r[t.part] == Part(id)
  {
    hide Names.Sanitize, FreeFilePath, MkdirAll, WellFormed, Unused;
    var made, safe := MkdirAll(fs, dir, env).value, Names.Sanitize(name).value;
    MkdirAllEffect(fs, dir, env);
    var final := FreeFilePath(made, dir, safe);
    FreeFile(fs, dir, safe, made);
    UnusedShape(fs, dir, safe, final);
    assert final[|final| - 1] == final[|dir|];
    FreeFile(fs, dir, final[|dir|] + ".vylopart", made);
  }

  lemma UnusedShape(fs: Fs, dir: Path, name: string, p: Path)
    requires Unused(fs, dir, name, p)
    ensures |p| == |dir| + 1
  {
  }

  /* ---- folders that are offered ---- */

  /** A folder fails at once if its drag is gone, its name is refused or its directory cannot be made;
      otherwise it has a directory of its own, below the drag's or below one that is only for it. */
  lemma FolderBegun(s: State, m: Message, env: Env)
    requires WellFormed(s.fs) && m.TreeOffer? && m.tree !in s.trees
    ensures var r := Handle(s, m, env);
            && m.tree in r.trees
            && var t, lost := r.trees[m.tree], m.within.Some? && !s.DragIs(m.within);
            && t.files == m.files && t.total == m.bytes && t.drag == m.within && t.doneBytes == 0 && !t.ended
            && (t.failed == Some(NoDrag) <==> lost)
            && (t.failed == Some(BadName) <==> !lost && Names.Sanitize(m.name).None?)
            && (t.failed.Some? && !lost && Names.Sanitize(m.name).Some? ==> t.failed == Some(CannotCreate))
            && (t.failed.None? ==>
                  && Names.Sanitize(m.name) == Some(t.name)
                  && var parent := if m.within.Some? then s.drag.value.dir
                     else s.fileDir + [".vylo-tree-" + Decimal(m.tree)];
                  HasRoot(t, r.fs, parent) && t.staging == if m.within.Some? then None else Some(parent))
  {
    hide Names.Sanitize, WellFormed, RootTree;
    var counted, safe := m.within.Some?, Names.Sanitize(m.name);
    if safe.Some? && (counted ==> s.DragIs(m.within)) {
      var s1 := if counted then
        var d := s.drag.value;
        s.WithDrag(d.(offered := d.offered + 1, outstanding := d.outstanding + {m.tree}))
      else s;
      var parent := if counted then s.drag.value.dir else s.fileDir + [TreeStagingName(m.tree)];
      RootBegun(s1, m.tree, safe.value, m.files, m.bytes, m.within, counted, parent,
                if counted then None else Some(parent), env);
    }
  }

  ghost predicate HasRoot(t: Tree, fs: Fs, parent: Path) {
    |t.root| == |parent| + 1 && parent <= t.root && t.root in fs && fs[t.root].Dir?
  }

  lemma RootBegun(s: State, tree: nat, name: string, files: nat, bytes: nat, drag: Option<nat>, counted: bool,
                  parent: Path, staging: Option<Path>, env: Env)
    requires WellFormed(s.fs) && tree !in s.trees
    ensures var r := RootTree(s, tree, name, files, bytes, drag, counted, parent, staging, env);
            var t := r.trees[tree];
            && t.name == name && t.files == files && t.total == bytes && t.doneBytes == 0 && !t.ended
            && (t.failed.None? || t.failed == Some(CannotCreate))
            && (t.failed.None? ==> HasRoot(t, r.fs, parent) && t.staging == staging)
  {
    hide WellFormed;
    var fs := MkdirAll(s.fs, parent, env);
    if fs.Some? {
      MkdirAllEffect(s.fs, parent, env);
      var root := FreeDirPath(fs.value, parent, name);
      if MkdirAll(fs.value, root, env).Some? { MkdirAllEffect(fs.value, root, env); }
    }
  }

  /* ---- why a transfer fails ---- */

  /** What is wrong with a chunk, if anything: its size before its place before the disk. */
  ghost predicate ChunkFault(t: Recv, m: Message, env: Env, why: Reason)
    requires m.FileChunk?
  {
    var big := |m.data| > CHUNK_SIZE || t.received + |m.data| > t.size;
    && (why == TooLarge ==> big)
    && (why == OutOfOrder ==> !big && m.offset != t.received)
    && (why == WriteFailed ==> !big && m.offset == t.received && !env.lucky(OpWrite(t.part)))
    && (why == TooLarge || why == OutOfOrder || why == WriteFailed)
  }

  /** What is wrong with a finished file: its content before its length before the disk. */
  ghost predicate FinishFault(s: State, t: Recv, m: Message, env: Env, why: Reason)
    requires m.FileDone?
  {
    var same := env.sha(t.hashed) == m.digest;
    && (why == Mismatch ==> !same)
    && (why == Incomplete ==> same && t.received != t.size)
    && (why == CannotRename ==> same && t.received == t.size && !CanRename(s.fs, t.part, t.final, env))
    && (why == Mismatch || why == Incomplete || why == CannotRename)
  }

  /** A chunk is refused with the first thing that is wrong with it. */
  lemma ChunkAborted(s: State, m: Message, env: Env)
    requires m.FileChunk? && m.id in s.recv
    ensures var r := Handle(s, m, env);
            || r.replies == s.replies
            || exists why :: r.replies == s.replies + [Abort(m.id, why)] && ChunkFault(s.recv[m.id], m, env, why)
  {
    hide FinalizeTree, SettleInDrag, RemoveFile, ChunkFault;
    var t := s.recv[m.id];
    if |m.data| > CHUNK_SIZE || t.received + |m.data| > t.size {
      assert ChunkFault(t, m, env, TooLarge) by { Faults(t, m, env); }
    }
    else if m.offset != t.received { assert ChunkFault(t, m, env, OutOfOrder) by { Faults(t, m, env); } }
    else if !env.lucky(OpWrite(t.part)) { assert ChunkFault(t, m, env, WriteFailed) by { Faults(t, m, env); } }
  }

  lemma Faults(t: Recv, m: Message, env: Env)
    requires m.FileChunk?
    ensures var big := |m.data| > CHUNK_SIZE || t.received + |m.data| > t.size;
            && (big ==> ChunkFault(t, m, env, TooLarge))
            && (!big && m.offset != t.received ==> ChunkFault(t, m, env, OutOfOrder))
            && (!big && m.offset == t.received && !env.lucky(OpWrite(t.part)) ==> ChunkFault(t, m, env, WriteFailed))
  {
  }

  /* ---- why a folder fails ---- */

  /** A folder that failed keeps the reason it failed for first. */
  lemma FirstReasonStays(s: State, m: Message, env: Env, t: nat)
    requires t in s.trees && s.trees[t].failed.Some? && t in Handle(s, m, env).trees
    ensures Handle(s, m, env).trees[t].failed == s.trees[t].failed
  {
    hide FinalizeDrag, FinalizeTree, SettleFailure, Done, AcceptOffer, OfferInDrag, OfferInTree, OfferTree, MakeDir;
    hide DiscardDrag, MkdirAll, RemoveFile, Chunk;
    match m
    case DragBegin(drag, count) => BeginDragTrees(s, drag, count, env, t);
    case DragCancel(drag) => if s.DragIs(Some(drag)) { DiscardTrees(s, t); }
    case TreeFile(tree, id, rel, size) => OfferInTreeEffect(s, tree, id, rel, size, env);
    case FileChunk(id, offset, data) => ChunkReason(s, id, offset, data, env, t);
    case FileDone(id, digest) => DoneReason(s, id, digest, env, t);
    case FileCancel(id, why) => if id in s.recv { FailureReason(Drop(s, id), s.recv[id], id, why, env, t); }
    case _ =>
  }

  lemma FailureReason(s: State, x: Recv, id: nat, why: Reason, env: Env, t: nat)
    requires t in s.trees && t in SettleFailure(s, x, id, why, env).trees
    ensures var r := SettleFailure(s, x, id, why, env).trees[t];
            r.failed == if x.tree == Some(t) && s.trees[t].failed.None? then Some(InFile(x.name, why))
                        else s.trees[t].failed
  {
    hide FinalizeTree, SettleInDrag;
  }

  lemma ChunkReason(s: State, id: nat, offset: nat, data: Bytes, env: Env, t: nat)
    requires t in s.trees && t in Receiving.Chunk(s, id, offset, data, env).trees
    ensures var r := Receiving.Chunk(s, id, offset, data, env).trees[t];
            && (s.trees[t].failed.Some? ==> r.failed == s.trees[t].failed)
            && (s.trees[t].failed.None? && r.failed.Some? ==>
                  && id in s.recv && s.recv[id].tree == Some(t)
                  && exists why :: r.failed == Some(InFile(s.recv[id].name, why))
                                   && ChunkFault(s.recv[id], FileChunk(id, offset, data), env, why))
  {
    hide SettleFailure, RemoveFile, ChunkFault;
    if id in s.recv {
      Faults(s.recv[id], FileChunk(id, offset, data), env);
      forall w, r: State | r.trees == s.trees && t in SettleFailure(r, s.recv[id], id, w, env).trees
        ensures SettleFailure(r, s.recv[id], id, w, env).trees[t].failed ==
                if s.recv[id].tree == Some(t) && s.trees[t].failed.None? then Some(InFile(s.recv[id].name, w))
                else s.trees[t].failed
      {
        FailureReason(r, s.recv[id], id, w, env, t);
      }
    }
  }

  lemma DoneReason(s: State, id: nat, digest: Digest, env: Env, t: nat)
    requires t in s.trees && t in Done(s, id, digest, env).trees
    ensures var r := Done(s, id, digest, env).trees[t];
            && (s.trees[t].failed.Some? ==> r.failed == s.trees[t].failed)
            && (s.trees[t].failed.None? && r.failed.Some? ==>
                  && id in s.recv && s.recv[id].tree == Some(t)
                  && exists why :: r.failed == Some(InFile(s.recv[id].name, why))
                                   && FinishFault(s, s.recv[id], FileDone(id, digest), env, why))
  {
    hide FinalizeTree, SettleInDrag, FinishRecv, FinishFault;
    if id in s.recv && FinishRecv(s.fs, id, s.recv[id], digest, env).1.Some? {
      var why := FinishRecv(s.fs, id, s.recv[id], digest, env).1.value;
      FinishFaults(s, id, digest, env);
      assert FinishFault(s, s.recv[id], FileDone(id, digest), env, why);
    }
  }

  lemma FinishFaults(s: State, id: nat, digest: Digest, env: Env)
    requires id in s.recv && FinishRecv(s.fs, id, s.recv[id], digest, env).1.Some?
    ensures FinishFault(s, s.recv[id], FileDone(id, digest), env, FinishRecv(s.fs, id, s.recv[id], digest, env).1.value)
  {
  }

  /** What made the folder fail. */
  ghost predicate Cause(s: State, m: Message, env: Env, t: nat, why: Reason)
    requires t in s.trees
  {
    match m
    case TreeEnd(tree, error) => tree == t && error.Some? && why == FromPeer(error.value)
    case TreeDir(tree, rel) =>
      var path := Names.SanitizeRel(rel);
      && tree == t
      && why == if s.trees[t].entries >= MAX_TREE_ENTRIES then TooManyEntries
         else if path.None? then BadPath else CannotCreate
    case TreeFile(tree, id, rel, _) =>
      var path := Names.SanitizeRel(rel);
      && tree == t
      && why == if s.trees[t].entries >= MAX_TREE_ENTRIES then TooManyEntries
         else if path.None? || path.value == [] then BadPath else NotReceived
    case FileCancel(id, w) => id in s.recv && s.recv[id].tree == Some(t) && why == InFile(s.recv[id].name, w)
    case FileChunk(id, _, _) =>
      && id in s.recv && s.recv[id].tree == Some(t)
      && exists w :: why == InFile(s.recv[id].name, w) && ChunkFault(s.recv[id], m, env, w)
    case FileDone(id, _) =>
      && id in s.recv && s.recv[id].tree == Some(t)
      && exists w :: why == InFile(s.recv[id].name, w) && FinishFault(s, s.recv[id], m, env, w)
    case _ => false
  }

  /** A folder fails for the reason that it then reports. */
  lemma FailsForCause(s: State, m: Message, env: Env, t: nat)
    requires t in s.trees && s.trees[t].failed.None? && t in Handle(s, m, env).trees
    requires Handle(s, m, env).trees[t].failed.Some?
    ensures Cause(s, m, env, t, Handle(s, m, env).trees[t].failed.value)
  {
    hide Handle, Cause;
    if m.FileChunk? || m.FileDone? || m.FileCancel? {
      FileCause(s, m, env, t);
    } else if m.TreeOffer? || m.TreeDir? {
      FolderCause(s, m, env, t);
    } else if m.TreeFile? {
      InFolderCause(s, m, env, t);
    } else if m.TreeEnd? {
      EndCause(s, m, env, t);
    } else {
      NoCause(s, m, env, t);
    }
  }

  /** Other messages fail no folder. */
  lemma NoCause(s: State, m: Message, env: Env, t: nat)
    requires m.FileOffer? || m.DragBegin? || m.DragOffer? || m.DragDrop? || m.DragCancel?
    requires t in s.trees && t in Handle(s, m, env).trees
    ensures Handle(s, m, env).trees[t].failed == s.trees[t].failed
  {
    hide FinalizeDrag, AcceptOffer, OfferInDrag, DiscardDrag, MkdirAll;
    match m
    case DragBegin(drag, count) => BeginDragTrees(s, drag, count, env, t);
    case DragCancel(drag) => if s.DragIs(Some(drag)) { DiscardTrees(s, t); }
    case _ =>
  }

  lemma FolderCause(s: State, m: Message, env: Env, t: nat)
    requires m.TreeOffer? || m.TreeDir?
    requires t in s.trees && s.trees[t].failed.None? && t in Handle(s, m, env).trees
    requires Handle(s, m, env).trees[t].failed.Some?
    ensures Cause(s, m, env, t, Handle(s, m, env).trees[t].failed.value)
  {
    hide OfferTree, MkdirAll, Names.SanitizeRel;
  }

  lemma InFolderCause(s: State, m: Message, env: Env, t: nat)
    requires m.TreeFile?
    requires t in s.trees && s.trees[t].failed.None? && t in Handle(s, m, env).trees
    requires Handle(s, m, env).trees[t].failed.Some?
    ensures Cause(s, m, env, t, Handle(s, m, env).trees[t].failed.value)
  {
    hide AcceptOffer, OpenInTree, Names.SanitizeRel;
    if m.tree in s.trees && s.trees[m.tree].failed.None? {
      var tr := s.trees[m.tree].(entries := s.trees[m.tree].entries + 1, offered := s.trees[m.tree].offered + [m.id]);
      var path := Names.SanitizeRel(m.rel);
      if path.Some? && path.value != [] { OpenReason(s, m.tree, tr, m.id, path.value, m.size, env); }
    }
  }

  lemma OpenReason(s: State, tree: nat, t: Tree, id: nat, path: Path, size: nat, env: Env)
    requires tree in s.trees && t.failed.None? && path != []
    ensures var r := OpenInTree(s, tree, t, id, path, size, env);
            r.trees[tree].failed.None? || r.trees[tree].failed == Some(NotReceived)
  {
    hide AcceptOffer;
  }

  lemma EndCause(s: State, m: Message, env: Env, t: nat)
    requires m.TreeEnd?
    requires t in s.trees && s.trees[t].failed.None? && t in Handle(s, m, env).trees
    requires Handle(s, m, env).trees[t].failed.Some?
    ensures Cause(s, m, env, t, Handle(s, m, env).trees[t].failed.value)
  {
    hide FinalizeTree;
  }

  lemma FileCause(s: State, m: Message, env: Env, t: nat)
    requires m.FileChunk? || m.FileDone? || m.FileCancel?
    requires t in s.trees && s.trees[t].failed.None? && t in Handle(s, m, env).trees
    requires Handle(s, m, env).trees[t].failed.Some?
    ensures Cause(s, m, env, t, Handle(s, m, env).trees[t].failed.value)
  {
    hide FinalizeTree, SettleFailure, Done, ChunkFault, FinishFault, RemoveFile, Receiving.Chunk;
    match m
    case FileChunk(id, offset, data) => ChunkReason(s, id, offset, data, env, t);
    case FileDone(id, digest) => DoneReason(s, id, digest, env, t);
    case FileCancel(id, why) => if id in s.recv { FailureReason(Drop(s, id), s.recv[id], id, why, env, t); }
  }

  /** A directory fails its folder exactly if the folder is full, the path is refused or the
      directory cannot be made. */
  lemma DirFailsExactly(s: State, tree: nat, rel: string, env: Env)
    requires tree in s.trees && s.trees[tree].failed.None?
    ensures var r, path := Handle(s, TreeDir(tree, rel), env), Names.SanitizeRel(rel);
            && tree in r.trees && r.trees[tree].entries == s.trees[tree].entries + 1
            && (r.trees[tree].failed.Some? <==>
                  || s.trees[tree].entries >= MAX_TREE_ENTRIES || path.None?
                  || MkdirAll(s.fs, s.trees[tree].root + path.value, env).None?)
  {
    hide MkdirAll, Names.SanitizeRel;
  }
}
