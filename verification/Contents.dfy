/** What a finished file holds: the chunks it was sent, unless another file was
    put where its temporary file was. */
module Contents {
  import opened Basics
  import opened Disk
  import opened Receiving
  import opened Ownership
  import opened Staging
  import opened Leftovers
  import opened Footprints
  import opened Cleanup
  import opened Layout
  import opened Streams
  import opened FolderIntact
  import opened Deliveries
  import Names

  /** The message finishes another transfer whose final path is the temporary file of `id`. */
  predicate Overwrites(s: State, m: Message, env: Env, id: nat)
    requires id in s.recv
  {
    Finishes(s, m, env) && m.id != id && s.recv[m.id].final == s.recv[id].part
  }

  /** The content put in place of the temporary file of transfer `id` since it was
      accepted, if any was. */
  function Overwritten(s: State, es: seq<Event>, id: nat): Option<Bytes>
    decreases |es|, 0
  {
    if es == [] then None
    else
      var front, e := es[..|es| - 1], es[|es| - 1];
      var before := Run(s, front);
      if id !in before.recv then None
      else if Overwrites(before, e.m, e.env, id) then Some(Holding(s, front, e.m.id))
      else Overwritten(s, front, id)
  }

  /** What transfer `id` would put at its final path if it finished now. */
  function Holding(s: State, es: seq<Event>, id: nat): Bytes
    decreases |es|, 1
  {
    var other := Overwritten(s, es, id);
    if other.Some? then other.value else Collected(s, es, id)
  }

  lemma NewIsSoundlyLaid(s: State)
    requires IsNew(s) && FreshDisk(s)
    ensures Sound(s)
  {
    hide Owned, Located;
    NewIsSound(s);
  }

  /** What is at the temporary path of transfer `id`. */
  ghost predicate HoldsPart(s: State, es: seq<Event>, id: nat) {
    var r, other := Run(s, es), Overwritten(s, es, id);
    id in r.recv ==>
      && r.recv[id].part in r.fs
      && r.fs[r.recv[id].part] == if other.None? then Part(id) else File(other.value)
  }

  /** At the temporary path of a live transfer there is its own file, or else what was
      put there by the transfer that overwrote it last. */
  lemma {:induction false} PartHolds(s: State, es: seq<Event>, id: nat)
    requires IsNew(s) && FreshDisk(s) && GoodRun(s, es)
    ensures HoldsPart(s, es, id)
    decreases |es|
  {
    hide Sound, Handle, FreshDisk, FreshKind, SharesRoot, HoldsPart, Finishes;
    if es == [] {
      NothingHeld(s, id);
    } else {
      var front, e := es[..|es| - 1], es[|es| - 1];
      NewIsSoundlyLaid(s);
      RunKeepsSound(s, front);
      RunKeepsSound(s, es);
      PartHolds(s, front, id);
      PartHolds(s, front, if e.m.FileDone? then e.m.id else id);
      PartHoldsNext(s, es, id);
    }
  }

  lemma NothingHeld(s: State, id: nat)
    requires IsNew(s)
    ensures HoldsPart(s, [], id)
  {
  }

  lemma PartHoldsNext(s: State, es: seq<Event>, id: nat)
    requires IsNew(s) && es != [] && Sound(Run(s, es[..|es| - 1])) && Sound(Run(s, es))
    requires var m := es[|es| - 1].m;
             HoldsPart(s, es[..|es| - 1], id) && HoldsPart(s, es[..|es| - 1], if m.FileDone? then m.id else id)
    ensures HoldsPart(s, es, id)
  {
    hide Sound, Handle, Collected, Owned, Located, Laid, Finishes, Started, SharesRoot;
    var front, e := es[..|es| - 1], es[|es| - 1];
    var before := Run(s, front);
    SoundParts(before);
    SoundParts(Run(s, es));
    if id in Run(s, es).recv {
      if id in before.recv {
        PartStays(before, e.m, e.env, id);
        TransferAfter(before, e.m, e.env, id);
        if Finishes(before, e.m, e.env) {
          FinishingGone(before, e.m, e.env);
          WrittenIsCollected(s, front, e.m.id);
          assert HoldsPart(s, front, e.m.id);
          assert Overwrites(before, e.m, e.env, id) <==> before.recv[e.m.id].final == before.recv[id].part;
        } else {
          assert !Overwrites(before, e.m, e.env, id);
        }
        assert Overwritten(s, es, id) == if Overwrites(before, e.m, e.env, id) then Some(Holding(s, front, e.m.id))
                                         else Overwritten(s, front, id);
        assert HoldsPart(s, front, id);
      } else {
        NewPart(before, e.m, e.env, id);
      }
    }
  }

  lemma NewPart(s: State, m: Message, env: Env, id: nat)
    requires Owned(s) && Located(s) && id !in s.recv && id in Handle(s, m, env).recv
    ensures var r := Handle(s, m, env); r.recv[id].part in r.fs && r.fs[r.recv[id].part] == Part(id)
  {
    hide Owned, Located, Handle;
    NewTransfer(s, m, env, id);
  }

  lemma SoundParts(s: State)
    requires Sound(s)
    ensures Owned(s) && Located(s) && Laid(s)
  {
  }

  lemma FinishingGone(s: State, m: Message, env: Env)
    requires Finishes(s, m, env)
    ensures m.FileDone? && m.id in s.recv && m.id !in Handle(s, m, env).recv
  {
    hide Done;
    DoneEnds(s, m.id, m.digest, env);
  }

  /** The disk right after the last rename of a finishing file. */
  function Renamed(s: State, m: Message, env: Env): Fs
    requires Finishes(s, m, env)
  {
    FinishRecv(s.fs, m.id, s.recv[m.id], m.digest, env).0
  }

  /** Over any run: a file finishes exactly if what it was sent has the offered size
      and the digest the sender sent, and the last rename gets through; and it then
      holds, at its final path, what it was sent, unless other content was put in
      place of its temporary file meanwhile, and then that. */
  lemma FinishedHolds(s: State, es: seq<Event>, id: nat, digest: Digest, env: Env)
    requires IsNew(s) && FreshDisk(s) && GoodRun(s, es) && id in Run(s, es).recv
    ensures var before, m := Run(s, es), FileDone(id, digest);
            var t, sent := before.recv[id], Collected(s, es, id);
            && (Finishes(before, m, env) <==>
                  |sent| == t.size && env.sha(sent) == digest && CanRename(before.fs, t.part, t.final, env))
            && (Finishes(before, m, env) ==>
                  && t.final in Renamed(before, m, env)
                  && Renamed(before, m, env)[t.final] == File(Holding(s, es, id))
                  && (Renamed(before, m, env)[t.final] == File(sent) <==>
                        Overwritten(s, es, id).None? || Overwritten(s, es, id) == Some(sent)))
  {
    hide Sound, Handle, Collected, Overwritten, FreshDisk;
    PartHolds(s, es, id);
    WrittenIsCollected(s, es, id);
  }

  /** So a plain file that finishes is placed, and what is placed is what was sent if
      and only if its temporary file was left alone or replaced by the same content. */
  lemma PlainFileHolds(s: State, es: seq<Event>, id: nat, digest: Digest, env: Env)
    requires IsNew(s) && FreshDisk(s) && GoodRun(s, es) && id in Run(s, es).recv && IsPlain(Run(s, es).recv[id])
    requires Finishes(Run(s, es), FileDone(id, digest), env)
    ensures var before, r := Run(s, es), Handle(Run(s, es), FileDone(id, digest), env);
            var final, sent := before.recv[id].final, Collected(s, es, id);
            && r.placed == before.placed + [Placed(id, false, final, None)]
            && final in r.fs && r.fs[final] == File(Holding(s, es, id))
            && (r.fs[final] == File(sent) <==> Overwritten(s, es, id).None? || Overwritten(s, es, id) == Some(sent))
  {
    hide Collected, Overwritten, Holding, FreshDisk;
    FinishedHolds(s, es, id, digest, env);
    PlainDone(Run(s, es), id, digest, env);
  }

  lemma PlainDone(s: State, id: nat, digest: Digest, env: Env)
    requires id in s.recv && IsPlain(s.recv[id]) && Finishes(s, FileDone(id, digest), env)
    ensures var r := Handle(s, FileDone(id, digest), env);
            && r.fs == Renamed(s, FileDone(id, digest), env)
            && r.placed == s.placed + [Placed(id, false, s.recv[id].final, None)]
  {
    hide FinalizeDrag;
  }

  /** From source to destination: if the chunks that arrived for a plain file are
      those its sender streamed, and the message that closes it is the sender's too,
      then the file is placed exactly if the source kept the offered size and the
      last rename gets through; and it is the source file, unless other content was
      put in place of its temporary file. */
  lemma SourceArrives(s: State, es: seq<Event>, ms: seq<Message>, end: Ending, id: nat, content: Bytes, env: Env)
    requires IsNew(s) && FreshDisk(s) && GoodRun(s, es) && id in Run(s, es).recv && IsPlain(Run(s, es).recv[id])
    requires Streamed(ms, end, id, Run(s, es).recv[id].size, content, env.sha) && !end.Stopped?
    requires Arrived(s, es, id) == ms[..|ms| - 1]
    ensures var before, last := Run(s, es), ms[|ms| - 1];
            var t, r := before.recv[id], Handle(Run(s, es), ms[|ms| - 1], env);
            && (Finishes(before, last, env) <==> end.Sent? && CanRename(before.fs, t.part, t.final, env))
            && (Finishes(before, last, env) ==>
                  && r.placed == before.placed + [Placed(id, false, t.final, None)]
                  && t.final in r.fs
                  && (r.fs[t.final] == File(content) <==>
                        Overwritten(s, es, id).None? || Overwritten(s, es, id) == Some(content)))
  {
    hide Collected, Overwritten, Holding, FreshDisk, Joined, Handle, IsPlain, Streams.Arrived;
    CollectedIsJoined(s, es, id);
    if end.Sent? {
      FinishedHolds(s, es, id, env.sha(content), env);
      if Finishes(Run(s, es), ms[|ms| - 1], env) { PlainFileHolds(s, es, id, env.sha(content), env); }
    }
  }

  /* ---- what was delivered ---- */

  /** The message ends a plain transfer whose temporary file is at `p`, and empties that place. */
  ghost predicate TakesPart(s: State, m: Message, env: Env, p: Path) {
    exists id :: id in s.recv && IsPlain(s.recv[id]) && s.recv[id].part == p && EmptiesPart(s, m, env, id)
  }

  /** A file outside staging, delivered or not, is taken away by a message if and only if
      the message ends a plain transfer that has its temporary file there; and it
      changes at most when a file is put in its place. */
  lemma TakenExactly(s: State, m: Message, env: Env, p: Path)
    requires Sound(s) && p in s.fs && !s.fs[p].Dir? && Unstaged(p)
    ensures var r := Handle(s, m, env);
            && (p !in r.fs <==> TakesPart(s, m, env, p))
            && (p in r.fs && r.fs[p] != s.fs[p] ==>
                  Finishes(s, m, env) && s.recv[m.id].final == p && r.fs == Renamed(s, m, env))
  {
    hide Owned, Located, Laid, Handle, Unstaged, Hidden, IsPlain, EmptiesPart;
    if id :| id in s.recv && IsPlain(s.recv[id]) && s.recv[id].part == p && EmptiesPart(s, m, env, id) {
      PlainEnds(s, m, env, id);
    } else if Finishes(s, m, env) && s.recv[m.id].final == p {
      FinalPlain(s, m.id);
      PlainDone(s, m.id, m.digest, env);
    } else {
      FileSpared(s, m, env, p);
      HandleKeepsPath(s, m, env, p);
    }
  }

  lemma PlainEnds(s: State, m: Message, env: Env, id: nat)
    requires Sound(s) && id in s.recv && IsPlain(s.recv[id]) && EmptiesPart(s, m, env, id)
    ensures s.recv[id].part !in Handle(s, m, env).fs
  {
    hide Owned, Located, FinalizeDrag;
    assert FileLaid(s, id);
  }

  /** A plain transfer ends with a message of its own. */
  lemma PlainOwnEnds(s: State, m: Message, env: Env, id: nat)
    requires Owned(s) && id in s.recv && IsPlain(s.recv[id]) && id !in Handle(s, m, env).recv
    ensures EmptiesPart(s, m, env, id) || Stuck(s, m, env, id)
  {
    hide Owned, DiscardDrag, EmptiesPart, Stuck, MkdirAll;
    if m.DragBegin? || m.DragCancel? {
      if s.drag.Some? { DiscardRemovesExactly(s); }
    } else {
      OnlyOwnEnds(s, m, env, id);
    }
  }

  lemma FinalPlain(s: State, id: nat)
    requires Sound(s) && id in s.recv && Unstaged(s.recv[id].final)
    ensures IsPlain(s.recv[id])
  {
    hide Laid, Unstaged, Hidden;
    if !IsPlain(s.recv[id]) {
      FileHidden(s, id);
      BelowHidden(s.fileDir, s.recv[id].final, s.recv[id].final);
    }
  }

  lemma FileSpared(s: State, m: Message, env: Env, p: Path)
    requires Sound(s) && Unstaged(p) && !TakesPart(s, m, env, p)
    requires !(Finishes(s, m, env) && s.recv[m.id].final == p)
    ensures Spared(s, m, env, p)
  {
    hide Owned, Located, Laid, Handle, Unstaged, Hidden, IsPlain, EmptiesPart, Stuck;
    forall id | id in s.recv && !IsPlain(s.recv[id]) ensures s.recv[id].part != p {
      FileHidden(s, id);
      if s.recv[id].part == p { BelowHidden(s.fileDir, p, p); }
    }
    forall id | id in s.recv && IsPlain(s.recv[id]) && id !in Handle(s, m, env).recv && !Stuck(s, m, env, id)
      ensures s.recv[id].part != p
    {
      PlainOwnEnds(s, m, env, id);
    }
    forall t | t in s.trees ensures !InFolder(s, t, p) {
      TreeHidden(s, t);
      if InFolder(s, t, p) {
        var top := if s.trees[t].staging.Some? && s.trees[t].staging.value <= p then s.trees[t].staging.value
                   else s.trees[t].root;
        BelowHidden(s.fileDir, top, p);
      }
    }
    if s.drag.Some? {
      DragDir(s);
      StagingNames(s.drag.value.drag, 0);
      InsideHidden(s.fileDir, DragStagingName(s.drag.value.drag), s.drag.value.dir);
      if s.drag.value.dir <= p { BelowHidden(s.fileDir, s.drag.value.dir, p); }
    }
  }

  /* ---- the files of a folder ---- */

  /** Below the directory of a folder are only files of its own. */
  lemma FileInTree(s: State, id: nat, t: nat, q: Path)
    requires Sound(s) && id in s.recv && t in s.trees && s.trees[t].root != [] && s.trees[t].root < q
    requires q == s.recv[id].part || q == s.recv[id].final
    ensures s.recv[id].tree == Some(t)
  {
    hide IsStaging, Unstaged, Names.IsClean, TidyFs, TreeOwned;
    var r, root := s.recv[id], s.trees[t].root;
    assert FileLaid(s, id) && RootLaid(s, t) && FileLocated(s, id) && FileOwned(s, id);
    match r.tree
    case None => if r.drag.Some? { DragDir(s); }
    case Some(u) =>
      assert RootLaid(s, u);
      assert q[..|root|] == root == s.trees[u].root;
  }

  /** A transfer of a folder that goes on ends with a message of its own. */
  lemma MemberOwnEnds(s: State, m: Message, env: Env, id: nat, t: nat)
    requires Owned(s) && id in s.recv && s.recv[id].tree == Some(t) && t in Handle(s, m, env).trees
    requires FreshKind(s, m) && id !in Handle(s, m, env).recv
    ensures EmptiesPart(s, m, env, id) || Stuck(s, m, env, id)
  {
    hide DiscardDrag, EmptiesPart, Stuck, MkdirAll, TreeOwned, AcceptOffer, OfferInDrag, OfferInTree, OfferTree;
    hide MakeDir;
    hide FinalizeDrag, FinalizeTree, SettleFailure, Done;
    if m.DragBegin? || m.DragCancel? {
      assert FileOwned(s, id);
      if s.drag.Some? { DiscardRemovesExactly(s); }
    } else {
      OnlyOwnEnds(s, m, env, id);
    }
  }

  lemma MemberEnds(s: State, m: Message, env: Env, id: nat, t: nat)
    requires Sound(s) && id in s.recv && s.recv[id].tree == Some(t) && t in Handle(s, m, env).trees
    requires EmptiesPart(s, m, env, id)
    ensures s.recv[id].part !in Handle(s, m, env).fs
  {
    hide Owned, Located, FinalizeTree;
    assert FileLaid(s, id);
  }

  lemma MemberFinished(s: State, m: Message, env: Env, t: nat)
    requires Finishes(s, m, env) && s.recv[m.id].tree == Some(t) && t in s.trees && t in Handle(s, m, env).trees
    ensures Handle(s, m, env).fs == Renamed(s, m, env)
  {
    hide FinalizeTree;
  }

  /** A file below the directory of a folder that goes on is taken away if and only if the
      message ends a transfer that has its temporary file there; and it changes at most
      when a file is put in its place. */
  lemma FolderFileTaken(s: State, m: Message, env: Env, t: nat, p: Path)
    requires Sound(s) && FreshKind(s, m) && t in s.trees && t in Handle(s, m, env).trees
    requires s.trees[t].root != [] && s.trees[t].root < p && p in s.fs && !s.fs[p].Dir?
    ensures var r := Handle(s, m, env);
            && (p !in r.fs <==> exists id :: id in s.recv && s.recv[id].part == p && EmptiesPart(s, m, env, id))
            && (p in r.fs && r.fs[p] != s.fs[p] ==> Finishes(s, m, env) && s.recv[m.id].final == p)
  {
    hide Owned, Located, Laid, Handle, EmptiesPart, Stuck;
    if id :| id in s.recv && s.recv[id].part == p && EmptiesPart(s, m, env, id) {
      FileInTree(s, id, t, p);
      MemberEnds(s, m, env, id, t);
    } else if Finishes(s, m, env) && s.recv[m.id].final == p {
      FileInTree(s, m.id, t, p);
      MemberFinished(s, m, env, t);
    } else {
      forall id | id in s.recv && id !in Handle(s, m, env).recv && !Stuck(s, m, env, id) ensures s.recv[id].part != p {
        if s.recv[id].part == p {
          FileInTree(s, id, t, p);
          MemberOwnEnds(s, m, env, id, t);
        }
      }
      HandleKeepsOwnership(s, m, env);
      SparedInTree(s, m, env, t, p);
      HandleKeepsPath(s, m, env, p);
    }
  }

  /** After the first j messages folder `t` is there all along, and no message takes what is at `p`. */
  ghost predicate LeftAlone(s: State, es: seq<Event>, j: nat, t: nat, p: Path) {
    && t in Run(s, es).trees
    && (|es| > j ==>
          var front, e := es[..|es| - 1], es[|es| - 1];
          LeftAlone(s, front, j, t, p) && !Takes(Run(s, front), e.m, e.env, p))
  }

  /** Over any run: a file of a folder that finished is still at its final path, with
      what it was sent, as long as the folder goes on and no message takes its place;
      so that is what a folder hands to its drag or moves to its own place. */
  lemma {:induction false} FolderFileHolds(s: State, es: seq<Event>, j: nat, id: nat, t: nat)
    requires IsNew(s) && FreshDisk(s) && GoodRun(s, es) && 0 < j <= |es|
    requires var before, e := Run(s, es[..j - 1]), es[j - 1];
             && Finishes(before, e.m, e.env) && e.m.id == id && before.recv[id].tree == Some(t)
             && LeftAlone(s, es, j, t, before.recv[id].final)
    ensures var front, r := es[..j - 1], Run(s, es);
            var p, sent, other := Run(s, front).recv[id].final, Collected(s, front, id), Overwritten(s, front, id);
            && r.trees[t].root != [] && r.trees[t].root < p
            && p in r.fs && r.fs[p] == File(Holding(s, front, id))
            && (r.fs[p] == File(sent) <==> other.None? || other == Some(sent))
    decreases |es|
  {
    hide Sound, Handle, FreshDisk, Collected, Overwritten, Holding, FreshKind, SharesRoot, Takes;
    var front, e := es[..|es| - 1], es[|es| - 1];
    NewIsSoundlyLaid(s);
    RunKeepsSound(s, front);
    TreeAfter(Run(s, front), e.m, e.env, t);
    if |es| == j {
      assert es[..j - 1] == front;
      FileBelow(Run(s, front), e.m, e.env, t);
      FinishedHolds(s, front, id, e.m.digest, e.env);
      MemberFinished(Run(s, front), e.m, e.env, t);
    } else {
      assert front[..j - 1] == es[..j - 1] && front[j - 1] == es[j - 1];
      FolderFileHolds(s, front, j, id, t);
      NotTaken(Run(s, front), e.m, e.env, t, Run(s, es[..j - 1]).recv[id].final);
    }
  }

  lemma FileBelow(s: State, m: Message, env: Env, t: nat)
    requires Sound(s) && Finishes(s, m, env) && s.recv[m.id].tree == Some(t)
    ensures t in s.trees && s.trees[t].root != [] && s.trees[t].root < s.recv[m.id].final
  {
    hide IsStaging, Unstaged, Names.IsClean, TidyFs, TreeOwned, Laid, FilesOf, LooseOf, CountedOf;
    assert FileLocated(s, m.id) && FileOwned(s, m.id);
  }

  lemma NotTaken(s: State, m: Message, env: Env, t: nat, p: Path)
    requires Sound(s) && FreshKind(s, m) && t in s.trees && t in Handle(s, m, env).trees && !Takes(s, m, env, p)
    requires s.trees[t].root != [] && s.trees[t].root < p && p in s.fs && !s.fs[p].Dir?
    ensures Kept(s.fs, Handle(s, m, env).fs, p)
  {
    hide Sound, Handle, FreshKind, EmptiesPart, Finishes;
    FolderFileTaken(s, m, env, t, p);
  }

  /* ---- a file called like another's temporary file ---- */

  function PlainRecv(s: State, name: string, part: string, size: nat): Recv {
    Recv(name, size, 0, s.fileDir + [part], s.fileDir + [name], [], [], None, None)
  }

  /** The receive folder is there. */
  ghost predicate Ready(s: State) { WellFormed(s.fs) && s.fileDir in s.fs && s.fs[s.fileDir].Dir? }

  lemma OfferedPlain(s: State, id: nat, name: string, part: string, size: nat, env: Env)
    requires Ready(s) && AllLucky(env) && id !in s.recv && Names.IsClean(name) && s.fileDir + [name] !in s.fs
    requires FreeFilePath(s.fs, s.fileDir, name + ".vylopart") == s.fileDir + [part] && s.fileDir + [part] !in s.fs
    ensures var r := Handle(s, FileOffer(id, name, size), env);
            && r == s.(fs := s.fs[s.fileDir + [part] := Part(id)], recv := s.recv[id := PlainRecv(s, name, part, size)],
                       replies := r.replies)
            && Ready(r)
  {
    hide WellFormed, MkdirAll, FreeFilePath, Names.IsClean, Names.Sanitize;
    Names.CleanIsFixed(name);
    MkdirExisting(s.fs, s.fileDir, env);
    FreeAsNamed(s.fs, s.fileDir, name);
    assert Lucky(env, OpCreate(s.fileDir + [part]));
    assert (s.fileDir + [part])[..|s.fileDir + [part]| - 1] == s.fileDir;
    PartWellFormed(s.fs, s.fileDir + [part], id);
  }

  /** A plain file arrives: what is at its temporary path is put at its final one. */
  lemma StreamedPlain(s: State, id: nat, name: string, part: string, content: Bytes, env: Env)
    requires AllLucky(env) && |content| <= CHUNK_SIZE && s.fileDir in s.fs && s.fs[s.fileDir].Dir?
    requires id in s.recv && s.recv[id] == PlainRecv(s, name, part, |content|)
    requires s.fileDir + [part] in s.fs && !s.fs[s.fileDir + [part]].Dir?
    requires s.fileDir + [name] in s.fs ==> !s.fs[s.fileDir + [name]].Dir?
    ensures var r := Handle(Handle(s, FileChunk(id, 0, content), env), FileDone(id, env.sha(content)), env);
            var src, dst := s.fileDir + [part], s.fileDir + [name];
            r == s.(fs := (s.fs - {src})[dst := if s.fs[src] == Part(id) then File(content) else s.fs[src]],
                    recv := s.recv - {id}, placed := s.placed + [Placed(id, false, dst, None)])
  {
    var src, dst := s.fileDir + [part], s.fileDir + [name];
    assert Lucky(env, OpWrite(src)) && Lucky(env, OpRename(src, dst));
    assert [] + content == content;
    var s1 := Handle(s, FileChunk(id, 0, content), env);
    assert s1 == s.(recv := s.recv[id := s.recv[id].(received := |content|, hashed := content, written := content)]);
    assert dst[..|dst| - 1] == s.fileDir;
    assert s1.recv - {id} == s.recv - {id};
  }

  /** The plain files `n` and `n.vylopart`, the second offered first: the temporary
      file of `n` is then `n.vylopart` itself. The second file is delivered there, and
      when `n` finishes it is taken away again and placed under the name `n`; if `n`
      is cancelled instead, the delivered file is removed. */
  lemma PlainClash(s: State, i: nat, j: nat, n: string, a: Bytes, b: Bytes, env: Env)
    requires Ready(s) && AllLucky(env) && i !in s.recv && j !in s.recv && i != j
    requires forall p :: p != [] ==> s.fileDir + p !in s.fs
    requires |a| <= CHUNK_SIZE && |b| <= CHUNK_SIZE && Names.IsClean(n) && Names.IsClean(n + ".vylopart")
    ensures var v := n + ".vylopart";
            var s1 := Handle(s, FileOffer(j, v, |b|), env);
            var s2 := Handle(s1, FileOffer(i, n, |a|), env);
            var s3 := Handle(Handle(s2, FileChunk(j, 0, b), env), FileDone(j, env.sha(b)), env);
            var s4 := Handle(Handle(s3, FileChunk(i, 0, a), env), FileDone(i, env.sha(a)), env);
            var s5 := Handle(s3, FileCancel(i, NoDrag), env);
            var x, y := s.fileDir + [n], s.fileDir + [v];
            && s4.placed == s.placed + [Placed(j, false, y, None), Placed(i, false, x, None)]
            && y !in s4.fs && x in s4.fs && s4.fs[x] == File(b)
            && y in s3.fs && s3.fs[y] == File(b) && y !in s5.fs && s5.placed == s3.placed
  {
    hide Handle, WellFormed, Names.IsClean, FreeFilePath;
    var dir, v := s.fileDir, n + ".vylopart";
    var w := v + ".vylopart";
    assert |v| == |n| + 9 && |w| == |v| + 9;
    SamePrefix(dir, [n], [v]);
    SamePrefix(dir, [n], [w]);
    SamePrefix(dir, [v], [w]);
    assert [n] != [v] && [n] != [w] && [v] != [w] by {
      assert [n][0] != [v][0] && [n][0] != [w][0] && [v][0] != [w][0];
    }
    assert dir + [n] != dir && dir + [v] != dir && dir + [w] != dir;
    FreeAsNamed(s.fs, dir, w);
    OfferedPlain(s, j, v, w, |b|, env);
    var s1 := Handle(s, FileOffer(j, v, |b|), env);
    FreeAsNamed(s1.fs, dir, v);
    OfferedPlain(s1, i, n, v, |a|, env);
    var s2 := Handle(s1, FileOffer(i, n, |a|), env);
    StreamedPlain(s2, j, v, w, b, env);
    var s3 := Handle(Handle(s2, FileChunk(j, 0, b), env), FileDone(j, env.sha(b)), env);
    StreamedPlain(s3, i, n, v, a, env);
    CancelledPlain(s3, i, env);
  }

  lemma CancelledPlain(s: State, id: nat, env: Env)
    requires id in s.recv && IsPlain(s.recv[id]) && s.recv[id].part in s.fs && !s.fs[s.recv[id].part].Dir?
    ensures var r := Handle(s, FileCancel(id, NoDrag), env); s.recv[id].part !in r.fs && r.placed == s.placed
  {
    hide FinalizeDrag;
  }
}
