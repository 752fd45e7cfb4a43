/** A folder that is delivered was sent whole: as many directories and files as it had when its
    task began, three files at a time. */
module WholeFolders {
  import opened Basics
  import opened Disk
  import opened Receiving
  import opened Ownership
  import opened Conservation
  import opened Senders
  import opened DropSystem
  import opened DropDelivery
  import opened FolderRuns
  import opened Announcements
  import opened HonestFiles

  /* ---- what of a folder was sent ---- */

  /** The file tasks of folder `t`. */
  function TasksOf(s: Sys, t: nat): set<nat> { set id | id in s.files && s.files[id].home == InTree(t) }

  function DirsSent(ms: seq<Message>, t: nat): nat {
    if ms == [] then 0
    else
      var m := ms[|ms| - 1];
      DirsSent(ms[..|ms| - 1], t) + if m.TreeDir? && m.tree == t then 1 else 0
  }

  lemma {:induction false} DirsJoin(a: seq<Message>, b: seq<Message>, t: nat)
    ensures DirsSent(a + b, t) == DirsSent(a, t) + DirsSent(b, t)
  {
    if b == [] {
      assert a + b == a;
    } else {
      assert (a + b)[..|a + b| - 1] == a + b[..|b| - 1];
      DirsJoin(a, b[..|b| - 1], t);
    }
  }

  lemma DirsOne(m: Message, t: nat)
    ensures DirsSent([m], t) == (if m.TreeDir? && m.tree == t then 1 else 0) && DirsSent([], t) == 0
  {
    assert [m][..0] == [];
  }

  predicate IsOffer(m: Message, t: nat, id: nat) { m.TreeFile? && m.tree == t && m.id == id }

  predicate WasOffered(ms: seq<Message>, t: nat, id: nat) { exists k :: 0 <= k < |ms| && IsOffer(ms[k], t, id) }

  lemma OfferedMore(a: seq<Message>, b: seq<Message>, t: nat, id: nat)
    ensures WasOffered(a, t, id) || (exists m :: m in b && IsOffer(m, t, id)) ==> WasOffered(a + b, t, id)
  {
    if k :| 0 <= k < |a| && IsOffer(a[k], t, id) { assert (a + b)[k] == a[k]; }
    if m :| m in b && IsOffer(m, t, id) {
      var k :| 0 <= k < |b| && b[k] == m;
      assert (a + b)[|a| + k] == m;
    }
  }

  /** Of a folder that had some directories and files: those sent, and those left, of which none is left
      once it was closed without an error. */
  ghost predicate OnItsWay(s: Sys, ms: seq<Message>, t: nat, dirs: nat, files: nat) {
    && t in s.folders
    && var f := s.folders[t];
    && DirsSent(ms, t) + f.dirs == dirs
    && |TasksOf(s, t)| + |f.files| == files
    && (f.phase == Filling ==> f.dirs == 0)
    && (forall id :: id in TasksOf(s, t) && s.files[id].offered ==> WasOffered(ms, t, id))
    && (!f.error ==> forall id :: id in TasksOf(s, t) && s.files[id].phase == Over ==> s.files[id].offered)
    && (TreeEnd(t, None) in ms ==> f.phase == Closed && !f.error && AllSent(s, t))
  }

  /** Nothing of the folder is left to send. */
  ghost predicate AllSent(s: Sys, t: nat)
    requires t in s.folders
  {
    && s.folders[t].dirs == 0 && s.folders[t].files == []
    && forall id :: id in TasksOf(s, t) ==> s.files[id].phase == Over
  }

  /* ---- one step ---- */

  /** The folder and its tasks as before; no news of them is sent. */
  lemma Unmoved(s: Sys, r: Sys, ms: seq<Message>, new_: seq<Message>, t: nat, dirs: nat, files: nat)
    requires OnItsWay(s, ms, t, dirs, files)
    requires t in r.folders && r.folders[t] == s.folders[t] && TasksOf(r, t) == TasksOf(s, t)
    requires forall id :: id in TasksOf(s, t) ==>
               && (r.files[id].offered ==> s.files[id].offered || exists m :: m in new_ && IsOffer(m, t, id))
               && (s.files[id].offered ==> r.files[id].offered)
               && (s.files[id].phase == Over ==> r.files[id].phase == Over)
               && (r.files[id].phase == Over && s.files[id].phase != Over ==>
                     s.folders[t].error || r.files[id].offered)
    requires forall m :: m in new_ ==> !(m.TreeDir? && m.tree == t) && m != TreeEnd(t, None)
    requires |new_| <= 1
    ensures OnItsWay(r, ms + new_, t, dirs, files)
  {
    hide WasOffered, IsOffer;
    DirsJoin(ms, new_, t);
    assert DirsSent(new_, t) == 0 by {
      if new_ != [] {
        DirsOne(new_[0], t);
        assert new_ == [new_[0]];
      }
    }
    forall id | id in TasksOf(r, t) && r.files[id].offered ensures WasOffered(ms + new_, t, id) {
      OfferedMore(ms, new_, t, id);
    }
  }

  /** The folder has an error now, at the latest. */
  lemma Erred(s: Sys, r: Sys, ms: seq<Message>, new_: seq<Message>, t: nat, dirs: nat, files: nat)
    requires OnItsWay(s, ms, t, dirs, files) && s.folders[t].phase != Closed
    requires t in r.folders && r.folders[t] == s.folders[t].(error := true) && TasksOf(r, t) == TasksOf(s, t)
    requires forall id :: id in TasksOf(s, t) ==> r.files[id].offered == s.files[id].offered
    requires forall m :: m in new_ ==> !(m.TreeDir? && m.tree == t) && m != TreeEnd(t, None)
    requires |new_| <= 1
    ensures OnItsWay(r, ms + new_, t, dirs, files)
  {
    hide WasOffered, IsOffer;
    DirsJoin(ms, new_, t);
    assert DirsSent(new_, t) == 0 by {
      if new_ != [] {
        DirsOne(new_[0], t);
        assert new_ == [new_[0]];
      }
    }
    forall id | id in TasksOf(r, t) && r.files[id].offered ensures WasOffered(ms + new_, t, id) {
      OfferedMore(ms, new_, t, id);
    }
  }

  /** The folder's own task goes on; the tasks of its files do not. */
  lemma FolderMoves(s: Sys, r: Sys, ms: seq<Message>, new_: seq<Message>, t: nat, dirs: nat, files: nat)
    requires OnItsWay(s, ms, t, dirs, files) && r.files == s.files && t in r.folders && s.folders[t].phase != Closed
    requires var f, f' := s.folders[t], r.folders[t];
             && f'.files == f.files && f'.error == f.error && f'.dirs + DirsSent(new_, t) == f.dirs
             && (f'.phase == Filling ==> f'.dirs == 0)
             && (TreeEnd(t, None) in new_ ==> f'.phase == Closed && !f'.error && AllSent(r, t))
    ensures OnItsWay(r, ms + new_, t, dirs, files)
  {
    hide WasOffered, IsOffer, AllSent;
    DirsJoin(ms, new_, t);
    assert TasksOf(r, t) == TasksOf(s, t);
    forall id | id in TasksOf(r, t) && r.files[id].offered ensures WasOffered(ms + new_, t, id) {
      OfferedMore(ms, new_, t, id);
    }
  }

  lemma FileStarts(s: Sys, ms: seq<Message>, t: nat, dirs: nat, files: nat)
    requires Inv(s) && Enabled(s, StartFile(t)) && OnItsWay(s, ms, t, dirs, files)
    ensures OnItsWay(Apply(s, StartFile(t)), ms, t, dirs, files)
  {
    hide Inv, WasOffered, Sys.Running;
    var r := Apply(s, StartFile(t));
    NextIsNew(s);
    assert TasksOf(r, t) == TasksOf(s, t) + {s.next} && s.next !in TasksOf(s, t);
    assert forall id :: id in TasksOf(s, t) ==> r.files[id] == s.files[id];
  }

  /** A step of the folder's own task. */
  lemma OwnStep(s: Sys, ms: seq<Message>, step: Step, t: nat, dirs: nat, files: nat)
    requires Inv(s) && Enabled(s, step) && IsFolderStep(step) && step.tree == t && OnItsWay(s, ms, t, dirs, files)
    ensures OnItsWay(Apply(s, step), ms + Posted(s, step), t, dirs, files)
  {
    hide Inv, OnItsWay, Apply, Posted, Sys.Running;
    var r, new_ := Apply(s, step), Posted(s, step);
    if step.StartFile? {
      NothingPosted(s, t);
      assert ms + [] == ms;
      FileStarts(s, ms, t, dirs, files);
    } else {
      FillingHasNoDirs(s, ms, t, dirs, files);
      OwnShape(s, step);
      FolderMoves(s, r, ms, new_, t, dirs, files);
    }
  }

  lemma FillingHasNoDirs(s: Sys, ms: seq<Message>, t: nat, dirs: nat, files: nat)
    requires OnItsWay(s, ms, t, dirs, files)
    ensures t in s.folders && (s.folders[t].phase == Filling ==> s.folders[t].dirs == 0)
  {
  }

  lemma NothingPosted(s: Sys, t: nat)
    requires Enabled(s, StartFile(t))
    ensures Posted(s, StartFile(t)) == []
  {
    hide Sys.Running;
  }

  lemma OwnShape(s: Sys, step: Step)
    requires Enabled(s, step) && IsFolderStep(step) && !step.StartFile?
    requires step.CloseFolder? ==> s.folders[step.tree].dirs == 0
    ensures var r, new_, t := Apply(s, step), Posted(s, step), step.tree;
            && r.files == s.files && t in s.folders && t in r.folders && s.folders[t].phase != Closed
            && var f, f' := s.folders[t], r.folders[t];
            && f'.files == f.files && f'.error == f.error && f'.dirs + DirsSent(new_, t) == f.dirs
            && (f'.phase == Filling ==> f'.dirs == 0)
            && (TreeEnd(t, None) in new_ ==> f'.phase == Closed && !f'.error && AllSent(r, t))
  {
    hide AllSent, DirsSent, Posted;
    var t := step.tree;
    match step
    case Walked(_, name, count, bytes) => SaysOne(s, step, TreeOffer(t, name, count, bytes, s.folders[t].drag));
    case WalkFails(_, name) => SaysOne(s, step, TreeOffer(t, name, 0, 0, s.folders[t].drag));
    case CloseUnreadable(_, text) => SaysOne(s, step, TreeEnd(t, Some(text)));
    case SendDir(_, rel) => SaysOne(s, step, TreeDir(t, rel));
    case StartFiles(_) =>
      assert s.chan == s.chan + [];
      PostedAre(s, step, []);
      DirsOne(DragDrop(0), t);
    case CloseFolder(_, text) =>
      SaysOne(s, step, TreeEnd(t, if s.folders[t].error then Some(text) else None));
      if !s.folders[t].error { ClosedIsSent(s, step); }
  }

  lemma SaysOne(s: Sys, step: Step, m: Message)
    requires Enabled(s, step) && IsFolderStep(step) && Apply(s, step).chan == s.chan + [m]
    ensures Posted(s, step) == [m]
    ensures DirsSent(Posted(s, step), step.tree) == (if m.TreeDir? && m.tree == step.tree then 1 else 0)
  {
    hide Posted, DirsSent, Apply;
    PostedAre(s, step, [m]);
    DirsOne(m, step.tree);
  }

  lemma ClosedIsSent(s: Sys, step: Step)
    requires Enabled(s, step) && step.CloseFolder? && !s.folders[step.tree].error && s.folders[step.tree].dirs == 0
    ensures AllSent(Apply(s, step), step.tree)
  {
    forall id | id in TasksOf(s, step.tree) ensures s.files[id].phase == Over { assert id !in s.Running(step.tree); }
  }

  /** Folder `t` and the tasks of its files are as they were, and the message is not about its structure. */
  ghost predicate Aside(s: Sys, r: Sys, new_: seq<Message>, t: nat) {
    && t in s.folders && t in r.folders && r.folders[t] == s.folders[t] && TasksOf(r, t) == TasksOf(s, t)
    && (forall id :: id in TasksOf(s, t) ==> r.files[id] == s.files[id])
    && (forall m :: m in new_ ==> !(m.TreeDir? && m.tree == t) && m != TreeEnd(t, None))
    && |new_| <= 1
  }

  lemma AsideUnmoved(s: Sys, r: Sys, ms: seq<Message>, new_: seq<Message>, t: nat, dirs: nat, files: nat)
    requires OnItsWay(s, ms, t, dirs, files) && Aside(s, r, new_, t)
    ensures OnItsWay(r, ms + new_, t, dirs, files)
  {
    hide OnItsWay, IsOffer;
    Unmoved(s, r, ms, new_, t, dirs, files);
  }

  lemma {:induction false} ItemsAside(s: Sys, d: nat, items: seq<Item>, t: nat)
    requires Inv(s) && d in s.drags && t in s.folders
    ensures Aside(s, StartItems(s, d, items), [], t)
  {
    hide Inv;
    if items != [] {
      var front := items[..|items| - 1];
      ItemsAside(s, d, front, t);
      ItemsStarted(s, d, front);
      OneItemAside(StartItems(s, d, front), d, items[|items| - 1], t);
    }
  }

  lemma OneItemAside(s: Sys, d: nat, item: Item, t: nat)
    requires Inv(s) && t in s.folders
    ensures Aside(s, match item
                     case OneFile(length) => StartTask(s, InDrag(d), length)
                     case OneFolder(dirs, files) => StartFolder(s, Some(d), dirs, files), [], t)
  {
    hide Inv;
    NextIsNew(s);
  }

  /** A step that is neither the folder's own nor a task's. */
  lemma OtherAside(s: Sys, step: Step, t: nat)
    requires Inv(s) && Enabled(s, step) && t in s.folders && !IsTaskStep(step) && !step.DeliverReply?
    requires IsFolderStep(step) ==> step.tree != t
    ensures Aside(s, Apply(s, step), Posted(s, step), t)
  {
    hide Inv, Handle, StartItems, Sys.Running, Posted, Aside;
    var r, new_ := Apply(s, step), Posted(s, step);
    FewPosted(s, step);
    NextIsNew(s);
    PostedAside(s, step, t);
    match step
    case StartDrag(items) => DrawnAside(s, items, t);
    case SendPlain(_) => NewAside(s, r, new_, t, s.next);
    case SendFolder(_, _) => OtherFolderAside(s, r, new_, t, s.next);
    case StartFile(u) => NewAside(s, r, new_, t, s.next);
    case Walked(u, _, _, _) => OtherFolderAside(s, r, new_, t, u);
    case WalkFails(u, _) => OtherFolderAside(s, r, new_, t, u);
    case CloseUnreadable(u, _) => OtherFolderAside(s, r, new_, t, u);
    case SendDir(u, _) => OtherFolderAside(s, r, new_, t, u);
    case StartFiles(u) => OtherFolderAside(s, r, new_, t, u);
    case CloseFolder(u, _) => OtherFolderAside(s, r, new_, t, u);
    case _ => OtherFolderAside(s, r, new_, t, t);
  }

  /** What is sent is about another folder, if about one. */
  lemma PostedAside(s: Sys, step: Step, t: nat)
    requires Enabled(s, step) && !IsTaskStep(step) && (IsFolderStep(step) ==> step.tree != t)
    ensures forall m :: m in Posted(s, step) ==> !(m.TreeDir? && m.tree == t) && m != TreeEnd(t, None)
  {
    hide Handle, StartItems, Sys.Running, Answer;
    if !step.Deliver? { PostedIsAppended(s, step); }
    if step.StartDrag? {
      ItemsKeepChannel(s.(drags := s.drags + {s.next}, next := s.next + 1), s.next, step.items);
    }
    if step.DeliverReply? { AnswerKeepsChannel(s); }
  }

  lemma AnswerKeepsChannel(s: Sys)
    requires s.answered < |s.rx.replies|
    ensures Apply(s, DeliverReply).chan == s.chan
  {
  }

  lemma OtherFolderAside(s: Sys, r: Sys, new_: seq<Message>, t: nat, u: nat)
    requires t in s.folders && r.files == s.files
    requires r.folders == s.folders || (u != t && u in r.folders && r.folders == s.folders[u := r.folders[u]])
    requires |new_| <= 1 && forall m :: m in new_ ==> !(m.TreeDir? && m.tree == t) && m != TreeEnd(t, None)
    ensures Aside(s, r, new_, t)
  {
  }

  lemma NewAside(s: Sys, r: Sys, new_: seq<Message>, t: nat, id: nat)
    requires t in s.folders && t in r.folders && r.folders[t] == s.folders[t]
    requires id !in s.files && id in r.files && r.files == s.files[id := r.files[id]] && r.files[id].home != InTree(t)
    requires |new_| <= 1 && forall m :: m in new_ ==> !(m.TreeDir? && m.tree == t) && m != TreeEnd(t, None)
    ensures Aside(s, r, new_, t)
  {
  }

  lemma DrawnAside(s: Sys, items: seq<Item>, t: nat)
    requires Inv(s) && items != [] && t in s.folders
    ensures Aside(s, Apply(s, StartDrag(items)), Posted(s, StartDrag(items)), t)
  {
    hide Inv, StartItems, Posted;
    DragAnnounced(s, items, s.next);
    DragDrawn(s);
    ItemsAside(s.(drags := s.drags + {s.next}, next := s.next + 1), s.next, items, t);
  }

  /** A file of the folder fails, or one that is not the folder's. */
  lemma FailMoves(s: Sys, q: Sys, id: nat, ms: seq<Message>, new_: seq<Message>, t: nat, dirs: nat, files: nat)
    requires OnItsWay(s, ms, t, dirs, files) && q.files == s.files && q.folders == s.folders && id in s.files
    requires s.files[id].home == InTree(t) ==> s.folders[t].phase != Closed
    requires |new_| <= 1 && forall m :: m in new_ ==> m.FileCancel?
    ensures OnItsWay(q.Fail(id), ms + new_, t, dirs, files)
  {
    hide OnItsWay, IsOffer;
    KnownFolder(s, ms, t, dirs, files);
    var r := q.Fail(id);
    assert TasksOf(r, t) == TasksOf(s, t);
    if s.files[id].home == InTree(t) {
      Erred(s, r, ms, new_, t, dirs, files);
    } else {
      Unmoved(s, r, ms, new_, t, dirs, files);
    }
  }

  lemma KnownFolder(s: Sys, ms: seq<Message>, t: nat, dirs: nat, files: nat)
    requires OnItsWay(s, ms, t, dirs, files)
    ensures t in s.folders
  {
  }

  lemma TaskAt(s: Sys, id: nat)
    requires Inv(s) && id in s.files
    ensures var task := s.files[id];
            && (task.phase == Waiting || task.phase == Streaming ==> task.offered)
            && (task.home.InTree? && task.phase != Over ==>
                  task.home.tree in s.folders && s.folders[task.home.tree].phase == Filling)
  {
    hide Owned, NothingReady, Named, FolderOk, DragOk, Copies, Fate, Announced, Answered, RepliesOk;
    assert TaskOk(s, id);
  }

  /** One task goes on without failing. */
  lemma OneTask(s: Sys, r: Sys, id: nat, ms: seq<Message>, new_: seq<Message>, t: nat, dirs: nat, files: nat)
    requires OnItsWay(s, ms, t, dirs, files) && id in s.files && r.folders == s.folders
    requires id in r.files && r.files == s.files[id := r.files[id]] && r.files[id].home == s.files[id].home
    requires s.files[id].offered ==> r.files[id].offered
    requires s.files[id].phase == Over ==> r.files[id].phase == Over
    requires r.files[id].phase == Over && s.files[id].phase != Over ==> r.files[id].offered
    requires r.files[id].offered && !s.files[id].offered && s.files[id].home == InTree(t) ==>
               exists m :: m in new_ && IsOffer(m, t, id)
    requires |new_| <= 1 && forall m :: m in new_ ==> !m.TreeDir? && !m.TreeEnd?
    ensures OnItsWay(r, ms + new_, t, dirs, files)
  {
    hide OnItsWay, IsOffer;
    KnownFolder(s, ms, t, dirs, files);
    assert TasksOf(r, t) == TasksOf(s, t);
    Unmoved(s, r, ms, new_, t, dirs, files);
  }

  lemma TaskStepMoves(s: Sys, ms: seq<Message>, step: Step, t: nat, dirs: nat, files: nat)
    requires Inv(s) && Enabled(s, step) && IsTaskStep(step) && OnItsWay(s, ms, t, dirs, files)
    ensures OnItsWay(Apply(s, step), ms + Posted(s, step), t, dirs, files)
  {
    hide Inv, OnItsWay, Posted, Sys.Fail;
    IdOfTask(s, step);
    var id, r := step.id, Apply(s, step);
    TaskAt(s, id);
    match step
    case OpenFile(_, _, _) => OpenMoves(s, ms, step, t, dirs, files);
    case OpenFails(_, _) => OpenMoves(s, ms, step, t, dirs, files);
    case CancelUnopened(_, why) => CancelMoves(s, ms, step, why, t, dirs, files);
    case ReadFails(_, why) => CancelMoves(s, ms, step, why, t, dirs, files);
    case SendChunk(_, data) =>
      PostedAre(s, step, [FileChunk(id, s.files[id].offset, data)]);
      OneTask(s, r, id, ms, [FileChunk(id, s.files[id].offset, data)], t, dirs, files);
    case Finish(_, digest, why) =>
      if s.files[id].offset == s.files[id].size {
        PostedAre(s, step, [FileDone(id, digest)]);
        OneTask(s, r, id, ms, [FileDone(id, digest)], t, dirs, files);
      } else {
        CancelMoves(s, ms, step, why, t, dirs, files);
      }
    case StopAborted(_) =>
      FailGoesOn(s, id);
      PostedAre(s, step, []);
      FailMoves(s, s, id, ms, [], t, dirs, files);
  }

  lemma CancelMoves(s: Sys, ms: seq<Message>, step: Step, why: Reason, t: nat, dirs: nat, files: nat)
    requires Inv(s) && Enabled(s, step) && IsTaskStep(step) && OnItsWay(s, ms, t, dirs, files)
    requires step.id in s.files && s.files[step.id].phase != Over
    requires Apply(s, step) == s.Send(FileCancel(step.id, why)).Fail(step.id)
    ensures OnItsWay(Apply(s, step), ms + Posted(s, step), t, dirs, files)
  {
    hide Inv, OnItsWay, Posted, Sys.Fail, Apply;
    var m := FileCancel(step.id, why);
    TaskAt(s, step.id);
    CancelGoesOn(s, step.id, why);
    PostedAre(s, step, [m]);
    FailMoves(s, s.Send(m), step.id, ms, [m], t, dirs, files);
  }

  lemma OpenMoves(s: Sys, ms: seq<Message>, step: Step, t: nat, dirs: nat, files: nat)
    requires Inv(s) && Enabled(s, step) && (step.OpenFile? || step.OpenFails?) && OnItsWay(s, ms, t, dirs, files)
    ensures OnItsWay(Apply(s, step), ms + Posted(s, step), t, dirs, files)
  {
    hide Inv, OnItsWay, Posted, Sys.Fail;
    var id, r := step.id, Apply(s, step);
    TaskAt(s, id);
    if step.OpenFails? && !s.files[id].home.InDrag? {
      FailGoesOn(s, id);
      PostedAre(s, step, []);
      FailMoves(s, s, id, ms, [], t, dirs, files);
    } else {
      var m := if step.OpenFile? then OfferOf(s.files[id].home, id, step.name, step.size)
               else DragOffer(s.files[id].home.drag, id, step.name, 0);
      PostedAre(s, step, [m]);
      assert s.files[id].home == InTree(t) ==> m in [m] && IsOffer(m, t, id);
      OneTask(s, r, id, ms, [m], t, dirs, files);
    }
  }

  lemma ReplyMoves(s: Sys, ms: seq<Message>, t: nat, dirs: nat, files: nat)
    requires Inv(s) && Enabled(s, DeliverReply) && OnItsWay(s, ms, t, dirs, files)
    ensures OnItsWay(Apply(s, DeliverReply), ms + Posted(s, DeliverReply), t, dirs, files)
  {
    hide Inv, OnItsWay, Posted, Sys.Fail;
    var r, reply, q := Apply(s, DeliverReply), s.rx.replies[s.answered], s.(answered := s.answered + 1);
    AnswerTalks(s);
    assert r.chan == s.chan + [];
    PostedAre(s, DeliverReply, []);
    if reply.id !in s.files {
      KnownFolder(s, ms, t, dirs, files);
      AsideUnmoved(s, r, ms, [], t, dirs, files);
    } else {
      TaskAt(s, reply.id);
      if reply.Reject? && s.files[reply.id].phase == Waiting {
        FailMoves(s, q, reply.id, ms, [], t, dirs, files);
      } else {
        assert s.files == s.files[reply.id := s.files[reply.id]];
        OneTask(s, r, reply.id, ms, [], t, dirs, files);
      }
    }
  }

  lemma StepMoves(s: Sys, ms: seq<Message>, step: Step, t: nat, dirs: nat, files: nat)
    requires Inv(s) && Enabled(s, step) && OnItsWay(s, ms, t, dirs, files)
    ensures OnItsWay(Apply(s, step), ms + Posted(s, step), t, dirs, files)
  {
    hide Inv, OnItsWay, Apply, Posted, Aside;
    KnownFolder(s, ms, t, dirs, files);
    if IsTaskStep(step) {
      TaskStepMoves(s, ms, step, t, dirs, files);
    } else if step.DeliverReply? {
      ReplyMoves(s, ms, t, dirs, files);
    } else if IsFolderStep(step) && step.tree == t {
      OwnStep(s, ms, step, t, dirs, files);
    } else {
      OtherAside(s, step, t);
      AsideUnmoved(s, Apply(s, step), ms, Posted(s, step), t, dirs, files);
    }
  }

  /* ---- from its beginning to its end ---- */

  /** A directory is announced only of a folder that has a task. */
  ghost predicate DirsKnown(s: Sys, ms: seq<Message>) {
    forall k :: 0 <= k < |ms| && ms[k].TreeDir? ==> ms[k].tree in s.folders
  }

  lemma {:induction false} DirsAreKnown(start: Sys, steps: seq<Step>)
    requires IsStart(start) && Play(start, steps).Some?
    ensures DirsKnown(Play(start, steps).value, Sent(start, steps))
  {
    hide Inv, Enabled, Apply, IsStart, Sent, Posted;
    if steps == [] {
      NothingSent(start);
    } else {
      var front, step := steps[..|steps| - 1], steps[|steps| - 1];
      var s := Play(start, front).value;
      SentGrows(start, steps);
      PlayKeepsInv(start, front);
      DirsAreKnown(start, front);
      StepKeepsErrors(s, step);
      PostedDirs(s, step);
      KnownMore(s, Apply(s, step), Sent(start, front), Posted(s, step));
    }
  }

  lemma KnownMore(s: Sys, r: Sys, ms: seq<Message>, new_: seq<Message>)
    requires DirsKnown(s, ms) && ErrorsStay(s, r) && forall m :: m in new_ && m.TreeDir? ==> m.tree in s.folders
    ensures DirsKnown(r, ms + new_)
  {
    var more := ms + new_;
    forall k | 0 <= k < |more| && more[k].TreeDir? ensures more[k].tree in r.folders {
      if k >= |ms| { assert new_[k - |ms|] in new_; }
    }
  }

  lemma PostedDirs(s: Sys, step: Step)
    requires Enabled(s, step)
    ensures forall m :: m in Posted(s, step) && m.TreeDir? ==> m.tree in s.folders
  {
    hide Handle, StartItems, Sys.Running;
    if !step.Deliver? { PostedIsAppended(s, step); }
    if step.StartDrag? {
      ItemsKeepChannel(s.(drags := s.drags + {s.next}, next := s.next + 1), s.next, step.items);
    }
  }

  ghost predicate NewFolders(s: Sys, r: Sys) {
    forall t :: t in r.folders && t !in s.folders ==> r.folders[t].phase == Walking && !r.folders[t].error
  }

  lemma {:induction false} ItemsNew(s: Sys, d: nat, items: seq<Item>)
    ensures NewFolders(s, StartItems(s, d, items))
  {
    if items != [] { ItemsNew(s, d, items[..|items| - 1]); }
  }

  lemma StepNew(s: Sys, step: Step)
    requires Enabled(s, step)
    ensures NewFolders(s, Apply(s, step))
    ensures step.SendFolder? || step.StartDrag? || Apply(s, step).folders.Keys == s.folders.Keys
  {
    hide Handle, StartItems, Sys.Running;
    if step.StartDrag? { ItemsNew(s.(drags := s.drags + {s.next}, next := s.next + 1), s.next, step.items); }
  }

  /** A folder that was just taken on. */
  lemma Taken(start: Sys, steps: seq<Step>, t: nat)
    requires IsStart(start) && steps != [] && Play(start, steps).Some?
    requires t in Play(start, steps).value.folders && t !in Play(start, steps[..|steps| - 1]).value.folders
    ensures var f := Play(start, steps).value.folders[t];
            OnItsWay(Play(start, steps).value, Sent(start, steps), t, f.dirs, |f.files|)
  {
    hide Inv, Enabled, Apply, IsStart, Sent, Posted, WasOffered;
    var front, step := steps[..|steps| - 1], steps[|steps| - 1];
    var s, r, ms := Play(start, front).value, Play(start, steps).value, Sent(start, steps);
    SentGrows(start, steps);
    PlayKeepsInv(start, front);
    PlayKeepsInv(start, steps);
    StepNew(s, step);
    DirsAreKnown(start, front);
    FolderPosts(s, step);
    NoDirs(s, Sent(start, front), Posted(s, step), t);
    NoTasks(r, t);
    EndsStayOk(start, steps);
    forall k | 0 <= k < |ms| ensures ms[k] != TreeEnd(t, None) { assert EndOk(r, ms, Unlisted(steps), k); }
  }

  lemma FolderPosts(s: Sys, step: Step)
    requires Enabled(s, step) && (step.SendFolder? || step.StartDrag?)
    ensures forall m :: m in Posted(s, step) ==> m.DragBegin?
  {
    hide StartItems;
    PostedIsAppended(s, step);
    if step.StartDrag? {
      ItemsKeepChannel(s.(drags := s.drags + {s.next}, next := s.next + 1), s.next, step.items);
    }
  }

  lemma NoDirs(s: Sys, ms: seq<Message>, new_: seq<Message>, t: nat)
    requires DirsKnown(s, ms) && t !in s.folders && forall m :: m in new_ ==> m.DragBegin?
    ensures DirsSent(ms + new_, t) == 0
  {
    forall k | 0 <= k < |ms + new_| ensures !((ms + new_)[k].TreeDir? && (ms + new_)[k].tree == t) {
      if k >= |ms| { assert new_[k - |ms|] in new_; }
    }
    NoneSent(ms + new_, t);
  }

  lemma {:induction false} NoneSent(ms: seq<Message>, t: nat)
    requires forall k :: 0 <= k < |ms| ==> !(ms[k].TreeDir? && ms[k].tree == t)
    ensures DirsSent(ms, t) == 0
  {
    if ms != [] { NoneSent(ms[..|ms| - 1], t); }
  }

  lemma HomeAt(s: Sys, id: nat)
    requires Inv(s) && id in s.files
    ensures var home := s.files[id].home;
            home.InTree? ==> FolderIs(s, home.tree, Filling) || FolderIs(s, home.tree, Closed)
  {
    hide Owned, NothingReady, Named, FolderOk, DragOk, Copies, Fate, Announced, Answered, RepliesOk;
    assert TaskOk(s, id);
  }

  lemma NoTasks(s: Sys, t: nat)
    requires Inv(s) && FolderIs(s, t, Walking)
    ensures TasksOf(s, t) == {}
  {
    hide Inv;
    forall id | id in s.files ensures id !in TasksOf(s, t) { HomeAt(s, id); }
    assert forall id :: id !in TasksOf(s, t);
  }

  lemma {:induction false} GoesItsWay(start: Sys, steps: seq<Step>, k: nat, t: nat)
    requires IsStart(start) && Play(start, steps).Some? && k < |steps| && TakenOn(start, steps, k, t)
    ensures var f := Play(start, steps[..k + 1]).value.folders[t];
            OnItsWay(Play(start, steps).value, Sent(start, steps), t, f.dirs, |f.files|)
  {
    hide Inv, Enabled, Apply, IsStart, Sent, Posted, OnItsWay;
    if k + 1 == |steps| {
      assert steps[..k + 1] == steps;
      Taken(start, steps, t);
    } else {
      var front, step := steps[..|steps| - 1], steps[|steps| - 1];
      assert front[..k] == steps[..k] && front[..k + 1] == steps[..k + 1];
      GoesItsWay(start, front, k, t);
      SentGrows(start, steps);
      PlayKeepsInv(start, front);
      var f := Play(start, steps[..k + 1]).value.folders[t];
      StepMoves(Play(start, front).value, Sent(start, front), step, t, f.dirs, |f.files|);
    }
  }

  /** Step `k` takes on folder `t`. */
  predicate TakenOn(start: Sys, steps: seq<Step>, k: nat, t: nat)
    requires k < |steps|
  {
    && Play(start, steps[..k]).Some? && Play(start, steps[..k + 1]).Some?
    && t !in Play(start, steps[..k]).value.folders && t in Play(start, steps[..k + 1]).value.folders
  }

  /** However senders, channel and receiver interleave: of a folder that was placed or staged all
      directories it had when it was taken on were announced, and all files offered, each by a task
      of its own that is over. */
  lemma DeliveredEntirely(start: Sys, steps: seq<Step>, k: nat, t: nat)
    requires IsStart(start) && Play(start, steps).Some? && k < |steps| && TakenOn(start, steps, k, t)
    requires HandedOver(Play(start, steps).value.rx, t)
    ensures var f, s, ms := Play(start, steps[..k + 1]).value.folders[t], Play(start, steps).value, Sent(start, steps);
            && DirsSent(ms, t) == f.dirs && |TasksOf(s, t)| == |f.files|
            && forall id :: id in TasksOf(s, t) ==> s.files[id].phase == Over && WasOffered(ms, t, id)
  {
    hide Play, Sent, HandedOver, WasOffered, TasksOf;
    GoesItsWay(start, steps, k, t);
    var n := HandedOverIsClosed(start, steps, t);
    assert TreeEnd(t, None) in Sent(start, steps);
  }

  /* ---- three at a time ---- */

  lemma RunningStep(s: Sys, step: Step, t: nat)
    requires Inv(s) && Enabled(s, step) && t in s.folders
    ensures Apply(s, step).Running(t) <= s.Running(t)
            || (step == StartFile(t) && Apply(s, step).Running(t) == s.Running(t) + {s.next})
  {
    hide Inv, OnItsWay, Aside, Posted, Apply;
    NextIsNew(s);
    var r := Apply(s, step);
    if step == StartFile(t) {
      StartRuns(s, t);
    } else if IsTaskStep(step) || step.DeliverReply? {
      TaskRuns(s, step, t);
    } else if IsFolderStep(step) && step.tree == t {
      OwnRuns(s, step);
    } else {
      OtherAside(s, step, t);
      AsideRuns(s, r, Posted(s, step), t);
    }
  }

  lemma AsideRuns(s: Sys, r: Sys, new_: seq<Message>, t: nat)
    requires Aside(s, r, new_, t)
    ensures r.Running(t) <= s.Running(t)
  {
    forall id | id in r.Running(t) ensures id in s.Running(t) { assert id in TasksOf(r, t); }
  }

  lemma StartRuns(s: Sys, t: nat)
    requires Enabled(s, StartFile(t)) && s.next !in s.files
    ensures Apply(s, StartFile(t)).Running(t) == s.Running(t) + {s.next}
  {
  }

  lemma OwnRuns(s: Sys, step: Step)
    requires Enabled(s, step) && IsFolderStep(step) && !step.StartFile?
    ensures Apply(s, step).files == s.files
  {
    hide Sys.Running;
  }

  lemma TaskRuns(s: Sys, step: Step, t: nat)
    requires Enabled(s, step) && (IsTaskStep(step) || step.DeliverReply?)
    ensures Apply(s, step).Running(t) <= s.Running(t)
  {
  }

  /** Of each folder at most three files are under way at the sender at any time. */
  lemma {:induction false} ThreeAtATime(start: Sys, steps: seq<Step>, t: nat)
    requires IsStart(start) && Play(start, steps).Some?
    ensures |Play(start, steps).value.Running(t)| <= 3
  {
    hide Inv, Apply;
    if steps == [] {
      assert start.Running(t) == {} by { EmptyStart(start); }
    } else {
      var front, step := steps[..|steps| - 1], steps[|steps| - 1];
      var s := Play(start, front).value;
      var r := Apply(s, step);
      PlayKeepsInv(start, front);
      PlayKeepsInv(start, steps);
      ThreeAtATime(start, front, t);
      if t in s.folders {
        RunningStep(s, step, t);
        if r.Running(t) <= s.Running(t) { Fewer(r.Running(t), s.Running(t)); }
      } else {
        NoneRunning(s, step, t);
      }
    }
  }

  lemma EmptyStart(start: Sys)
    requires IsStart(start)
    ensures start.files == map[]
  {
  }

  lemma Fewer(a: set<nat>, b: set<nat>)
    requires a <= b
    ensures |a| <= |b|
  {
    assert b == a + (b - a);
  }

  lemma NoneRunning(s: Sys, step: Step, t: nat)
    requires Enabled(s, step) && Inv(Apply(s, step)) && t !in s.folders
    ensures Apply(s, step).Running(t) == {}
  {
    hide Apply;
    var r := Apply(s, step);
    StepNew(s, step);
    if t in r.folders {
      NoTasks(r, t);
      assert r.Running(t) <= TasksOf(r, t);
    } else {
      UnknownTasks(r, t);
    }
  }

  lemma UnknownTasks(s: Sys, t: nat)
    requires Inv(s) && t !in s.folders
    ensures s.Running(t) == {}
  {
    hide Inv;
    forall id | id in s.files ensures id !in s.Running(t) { HomeAt(s, id); }
    assert forall id :: id !in s.Running(t);
  }
}
