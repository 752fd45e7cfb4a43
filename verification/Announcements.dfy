/** What the senders put on the channel, all in all: each drag gets as many offers as it
    announced, and each folder one end, with an error if anything went wrong with it. So no
    item of a drag comes too late, and no folder that went wrong is delivered. */
module Announcements {
  import opened Basics
  import opened Disk
  import opened Receiving
  import opened Ownership
  import opened Frames
  import opened Conservation
  import opened Senders
  import opened DropSystem
  import opened Deliveries
  import opened DropDelivery
  import opened DropWaits
  import opened FolderRuns
  import Footprints
  import Names

  /* ---- all that was sent ---- */

  function Messages(es: seq<Event>): seq<Message> { seq(|es|, i requires 0 <= i < |es| => es[i].m) }

  /** The messages that were handled, followed by those under way. */
  function Sent(start: Sys, steps: seq<Step>): seq<Message>
    requires Play(start, steps).Some?
  {
    Messages(Log(start, steps)) + Play(start, steps).value.chan
  }

  /** What a step puts on the channel. */
  function Posted(s: Sys, step: Step): seq<Message>
    requires Enabled(s, step)
  {
    var r := Apply(s, step);
    if step.Deliver? || |r.chan| < |s.chan| then [] else r.chan[|s.chan|..]
  }

  lemma {:induction false} ItemsKeepChannel(s: Sys, d: nat, items: seq<Item>)
    ensures StartItems(s, d, items).chan == s.chan
  {
    if items != [] { ItemsKeepChannel(s, d, items[..|items| - 1]); }
  }

  lemma PostedIsAppended(s: Sys, step: Step)
    requires Enabled(s, step) && !step.Deliver?
    ensures Apply(s, step).chan == s.chan + Posted(s, step) && |Posted(s, step)| <= 1
  {
    hide Handle, Sys.Running;
    if step.StartDrag? {
      ItemsKeepChannel(s.(drags := s.drags + {s.next}, next := s.next + 1), s.next, step.items);
    }
  }

  lemma SentGrows(start: Sys, steps: seq<Step>)
    requires steps != [] && Play(start, steps).Some?
    ensures var front, step := steps[..|steps| - 1], steps[|steps| - 1];
            && Play(start, front).Some? && Enabled(Play(start, front).value, step)
            && Play(start, steps).value == Apply(Play(start, front).value, step)
            && Sent(start, steps) == Sent(start, front) + Posted(Play(start, front).value, step)
  {
    hide Handle, Apply;
    var front, step := steps[..|steps| - 1], steps[|steps| - 1];
    var s := Play(start, front).value;
    if step.Deliver? {
      Delivered1(s, step);
      var log := Log(start, front);
      assert Messages(log + [Event(s.chan[0], step.env)]) == Messages(log) + [s.chan[0]];
      assert s.chan == [s.chan[0]] + s.chan[1..];
    } else {
      PostedIsAppended(s, step);
    }
  }

  lemma Delivered1(s: Sys, step: Step)
    requires Enabled(s, step) && step.Deliver?
    ensures Apply(s, step).chan == s.chan[1..] && Posted(s, step) == []
  {
  }

  /* ---- ends of folders ---- */

  /** The folders whose listing failed. */
  function Unlisted(steps: seq<Step>): set<nat> {
    if steps == [] then {}
    else
      var step := steps[|steps| - 1];
      Unlisted(steps[..|steps| - 1]) + if step.WalkFails? then {step.tree} else {}
  }

  /** The k-th message, if it ends a folder, is the last of a folder that is closed, and has an
      error if the folder could not be listed or one of its files failed. */
  ghost predicate EndOk(s: Sys, ms: seq<Message>, bad: set<nat>, k: nat)
    requires k < |ms|
  {
    ms[k].TreeEnd? ==>
      && FolderIs(s, ms[k].tree, Closed)
      && (ms[k].error.None? ==> !s.folders[ms[k].tree].error && ms[k].tree !in bad)
  }

  ghost predicate EndsOk(s: Sys, ms: seq<Message>, bad: set<nat>) {
    && (forall k :: 0 <= k < |ms| ==> EndOk(s, ms, bad, k))
    && (forall t :: t in bad ==> FolderIs(s, t, Unreadable) || FolderIs(s, t, Closed))
  }

  /** The folders go on: a closed one does not change, and one that could not be listed is only closed. */
  ghost predicate FoldersGoOn(s: Sys, r: Sys) {
    && (forall t :: FolderIs(s, t, Closed) ==> FolderIs(r, t, Closed) && r.folders[t] == s.folders[t])
    && (forall t :: FolderIs(s, t, Unreadable) ==> FolderIs(r, t, Unreadable) || FolderIs(r, t, Closed))
  }

  lemma GoOnTrans(s: Sys, q: Sys, r: Sys)
    requires FoldersGoOn(s, q) && FoldersGoOn(q, r)
    ensures FoldersGoOn(s, r)
  {
  }

  /** Another folder, or another phase of a folder that is not closed. */
  lemma FolderSet(s: Sys, r: Sys, t: nat, f: Folder)
    requires r.folders == s.folders[t := f]
    requires t in s.folders ==> s.folders[t].phase != Closed && (s.folders[t].phase == Unreadable ==> f.phase == Closed)
    ensures FoldersGoOn(s, r)
  {
  }

  lemma FoldersSame(s: Sys, r: Sys)
    requires r.folders == s.folders
    ensures FoldersGoOn(s, r)
  {
  }

  lemma {:induction false} ItemsKeepFolders(s: Sys, d: nat, items: seq<Item>)
    requires Inv(s) && d in s.drags
    ensures FoldersGoOn(s, StartItems(s, d, items))
  {
    hide Inv, FoldersGoOn;
    FoldersSame(s, s);
    if items != [] {
      var rest, r := StartItems(s, d, items[..|items| - 1]), StartItems(s, d, items);
      ItemsKeepFolders(s, d, items[..|items| - 1]);
      ItemsStarted(s, d, items[..|items| - 1]);
      NextIsNew(rest);
      match items[|items| - 1] {
        case OneFile(_) => FoldersSame(rest, r);
        case OneFolder(dirs, files) => FolderSet(rest, r, rest.next, Folder(Some(d), Walking, false, dirs, files));
      }
      GoOnTrans(s, rest, r);
    }
  }

  lemma FailKeepsClosed(s: Sys, id: nat)
    requires Inv(s) && id in s.files && s.files[id].phase != Over
    ensures FoldersGoOn(s, s.Fail(id))
  {
    hide Owned, NothingReady, Named, FolderOk, DragOk, Copies, Fate, Announced, Answered, RepliesOk;
    assert TaskOk(s, id);
  }

  lemma FoldersKept(s: Sys, step: Step)
    requires Inv(s) && Enabled(s, step)
    ensures FoldersGoOn(s, Apply(s, step))
  {
    hide Inv, Handle, Sys.Fail, StartItems, Answer, Sys.Running, FoldersGoOn, Apply;
    match step
    case SendFolder(dirs, files) => OwnFolderStarts(s, dirs, files);
    case Walked(_, _, _, _) => FolderSteps(s, step, step.tree);
    case WalkFails(_, _) => FolderSteps(s, step, step.tree);
    case CloseUnreadable(_, _) => FolderSteps(s, step, step.tree);
    case SendDir(_, _) => FolderSteps(s, step, step.tree);
    case StartFiles(_) => FolderSteps(s, step, step.tree);
    case StartFile(_) => FolderSteps(s, step, step.tree);
    case CloseFolder(_, _) => FolderSteps(s, step, step.tree);
    case _ => OtherSteps(s, step);
  }

  lemma OwnFolderStarts(s: Sys, dirs: nat, files: seq<nat>)
    requires Inv(s)
    ensures FoldersGoOn(s, Apply(s, SendFolder(dirs, files)))
  {
    hide Inv, FoldersGoOn;
    NextIsNew(s);
    FolderSet(s, Apply(s, SendFolder(dirs, files)), s.next, Folder(None, Walking, false, dirs, files));
  }

  predicate IsFolderStep(step: Step) {
    step.Walked? || step.WalkFails? || step.CloseUnreadable? || step.SendDir? || step.StartFiles? || step.StartFile?
    || step.CloseFolder?
  }

  lemma FolderSteps(s: Sys, step: Step, t: nat)
    requires Enabled(s, step) && IsFolderStep(step) && step.tree == t
    ensures FoldersGoOn(s, Apply(s, step))
  {
    hide Handle, Sys.Running, FoldersGoOn;
    FolderSet(s, Apply(s, step), t, Apply(s, step).folders[t]);
  }

  lemma OtherSteps(s: Sys, step: Step)
    requires Inv(s) && Enabled(s, step) && !IsFolderStep(step) && !step.SendFolder?
    ensures FoldersGoOn(s, Apply(s, step))
  {
    hide Inv, Handle, Sys.Fail, StartItems, Answer, FoldersGoOn;
    var r := Apply(s, step);
    if r.folders == s.folders { FoldersSame(s, r); }
    match step
    case StartDrag(items) => DrawnKeepsFolders(s, items);
    case OpenFails(id, name) => if !s.files[id].home.InDrag? { FailKeepsClosed(s, id); }
    case CancelUnopened(id, why) => SentFails(s, FileCancel(id, why), id);
    case ReadFails(id, why) => SentFails(s, FileCancel(id, why), id);
    case Finish(id, digest, why) => if s.files[id].offset != s.files[id].size { SentFails(s, FileCancel(id, why), id); }
    case StopAborted(id) => FailKeepsClosed(s, id);
    case DeliverReply => ReadKeepsFolders(s);
    case _ =>
  }

  lemma DrawnKeepsFolders(s: Sys, items: seq<Item>)
    requires Inv(s) && items != []
    ensures FoldersGoOn(s, Apply(s, StartDrag(items)))
  {
    hide Inv, StartItems, FoldersGoOn;
    DragDrawn(s);
    var s0 := s.(drags := s.drags + {s.next}, next := s.next + 1);
    ItemsKeepFolders(s0, s.next, items);
    FoldersSame(s, s0);
    GoOnTrans(s, s0, StartItems(s0, s.next, items));
    FoldersSame(StartItems(s0, s.next, items), Apply(s, StartDrag(items)));
    GoOnTrans(s, StartItems(s0, s.next, items), Apply(s, StartDrag(items)));
  }

  lemma SentFails(s: Sys, m: Message, id: nat)
    requires Inv(s) && id in s.files && s.files[id].phase != Over
    ensures FoldersGoOn(s, s.Send(m).Fail(id))
  {
    hide Inv;
    FailKeepsClosed(s, id);
  }

  lemma ReadKeepsFolders(s: Sys)
    requires Inv(s) && s.answered < |s.rx.replies|
    ensures FoldersGoOn(s, Answer(s.(answered := s.answered + 1), s.rx.replies[s.answered]))
  {
    hide Inv, Sys.Fail;
    var r := s.rx.replies[s.answered];
    if r.id in s.files && s.files[r.id].phase != Over { FailKeepsClosed(s, r.id); }
    assert s.(answered := s.answered + 1).files == s.files;
    if r.Reject? && r.id in s.files && s.files[r.id].phase == Waiting { FailedSame(s, s.answered + 1, r.id); }
  }

  lemma FailedSame(s: Sys, n: nat, id: nat)
    requires id in s.files
    ensures s.(answered := n).Fail(id).folders == s.Fail(id).folders
  {
  }

  lemma StepKeepsEnds(s: Sys, ms: seq<Message>, bad: set<nat>, step: Step)
    requires Inv(s) && Enabled(s, step) && EndsOk(s, ms, bad)
    ensures EndsOk(Apply(s, step), ms + Posted(s, step), bad + if step.WalkFails? then {step.tree} else {})
  {
    hide Inv, Handle, Sys.Fail, StartItems, Answer, Apply;
    FoldersKept(s, step);
    var r, more := Apply(s, step), ms + Posted(s, step);
    var bad' := bad + if step.WalkFails? then {step.tree} else {};
    NewEnd(s, step, bad);
    forall k | 0 <= k < |more| ensures EndOk(r, more, bad', k) {
      if k < |ms| { assert EndOk(s, ms, bad, k) && more[k] == ms[k]; }
    }
  }

  lemma NewEnd(s: Sys, step: Step, bad: set<nat>)
    requires Inv(s) && Enabled(s, step) && forall t :: t in bad ==> FolderIs(s, t, Unreadable) || FolderIs(s, t, Closed)
    ensures var r := Apply(s, step);
            && (forall m :: m in Posted(s, step) && m.TreeEnd? ==>
                  && FolderIs(r, m.tree, Closed)
                  && (m.error.None? ==> !r.folders[m.tree].error && m.tree !in bad))
            && (step.WalkFails? ==> FolderIs(r, step.tree, Unreadable) && FolderIs(s, step.tree, Walking))
  {
    hide Inv, Handle, StartItems, Sys.Running;
    if !step.Deliver? { PostedIsAppended(s, step); }
    if step.StartDrag? {
      ItemsKeepChannel(s.(drags := s.drags + {s.next}, next := s.next + 1), s.next, step.items);
    }
  }

  lemma {:induction false} EndsStayOk(start: Sys, steps: seq<Step>)
    requires IsStart(start) && Play(start, steps).Some?
    ensures EndsOk(Play(start, steps).value, Sent(start, steps), Unlisted(steps))
  {
    hide Inv, Enabled, Apply, IsStart, EndsOk, Sent;
    if steps == [] {
      NothingSent(start);
    } else {
      var front, step := steps[..|steps| - 1], steps[|steps| - 1];
      SentGrows(start, steps);
      PlayKeepsInv(start, front);
      EndsStayOk(start, front);
      StepKeepsEnds(Play(start, front).value, Sent(start, front), Unlisted(front), step);
    }
  }

  lemma NothingSent(start: Sys)
    requires IsStart(start)
    ensures Sent(start, []) == [] && EndsOk(start, [], {})
  {
  }

  /** A folder that is handed over was closed without an error. */
  lemma HandedOverIsClosed(start: Sys, steps: seq<Step>, t: nat) returns (k: nat)
    requires IsStart(start) && Play(start, steps).Some? && HandedOver(Play(start, steps).value.rx, t)
    ensures k < |Sent(start, steps)| && Sent(start, steps)[k] == TreeEnd(t, None)
  {
    hide Handle, Apply, Enabled, Lives, AllServed, FreshRun;
    var log := Log(start, steps);
    LogIsRun(start, steps);
    StartIsNew(start);
    var i, n := DeliveredAsSent(start.rx, log, t);
    k :| i < k < |log[..n + 1]| && log[..n + 1][k].m == TreeEnd(t, None);
  }

  /** The step makes folder `t` go wrong: it cannot be listed, or one of its files cannot be opened or
      read, is not as long as it was offered, is turned down or aborted. */
  predicate GoesWrong(s: Sys, step: Step, t: nat) {
    match step
    case WalkFails(tree, _) => tree == t
    case OpenFails(id, _) => id in s.files && s.files[id].home == InTree(t)
    case ReadFails(id, _) => id in s.files && s.files[id].home == InTree(t)
    case StopAborted(id) => id in s.files && s.files[id].home == InTree(t)
    case Finish(id, _, _) =>
      id in s.files && s.files[id].home == InTree(t) && s.files[id].offset != s.files[id].size
    case DeliverReply =>
      && s.answered < |s.rx.replies|
      && var r := s.rx.replies[s.answered];
      && r.Reject? && r.id in s.files && s.files[r.id].home == InTree(t) && s.files[r.id].phase == Waiting
    case _ => false
  }

  predicate WentWrong(start: Sys, steps: seq<Step>, t: nat) {
    exists k :: 0 <= k < |steps| && GoneWrongAt(start, steps, k, t)
  }

  predicate GoneWrongAt(start: Sys, steps: seq<Step>, k: nat, t: nat)
    requires k < |steps|
  {
    Play(start, steps[..k]).Some? && GoesWrong(Play(start, steps[..k]).value, steps[k], t)
  }

  /** Folders stay, and so do their errors. */
  ghost predicate ErrorsStay(s: Sys, r: Sys) {
    forall t :: t in s.folders ==> t in r.folders && (s.folders[t].error ==> r.folders[t].error)
  }

  lemma OneFolderSet(s: Sys, r: Sys, t: nat, f: Folder)
    requires r.folders == s.folders[t := f] && (t in s.folders && s.folders[t].error ==> f.error)
    ensures ErrorsStay(s, r)
  {
  }

  lemma SameErrors(s: Sys, r: Sys)
    requires r.folders == s.folders
    ensures ErrorsStay(s, r)
  {
  }

  lemma FailKeepsErrors(s: Sys, q: Sys, id: nat)
    requires id in q.files && q.folders == s.folders
    ensures ErrorsStay(s, q.Fail(id))
  {
  }

  lemma {:induction false} ItemsKeepErrors(s: Sys, d: nat, items: seq<Item>)
    requires Inv(s) && d in s.drags
    ensures ErrorsStay(s, StartItems(s, d, items))
  {
    hide Inv;
    if items != [] {
      ItemsKeepErrors(s, d, items[..|items| - 1]);
      ItemsStarted(s, d, items[..|items| - 1]);
      NextIsNew(StartItems(s, d, items[..|items| - 1]));
    }
  }

  lemma StepKeepsErrors(s: Sys, step: Step)
    requires Inv(s) && Enabled(s, step)
    ensures ErrorsStay(s, Apply(s, step))
  {
    hide Inv, Handle, StartItems, Sys.Running, Sys.Fail, ErrorsStay;
    var r := Apply(s, step);
    if IsFolderStep(step) {
      OneFolderSet(s, r, step.tree, r.folders[step.tree]);
    } else {
      OtherStepErrors(s, step);
    }
  }

  lemma OtherStepErrors(s: Sys, step: Step)
    requires Inv(s) && Enabled(s, step) && !IsFolderStep(step)
    ensures ErrorsStay(s, Apply(s, step))
  {
    hide Inv, Handle, StartItems, Sys.Running, Sys.Fail, ErrorsStay;
    var r := Apply(s, step);
    if r.folders == s.folders { SameErrors(s, r); }
    match step
    case StartDrag(items) => DrawnKeepsErrors(s, items);
    case SendFolder(dirs, files) => OneFolderSet(s, r, s.next, r.folders[s.next]) by { NextIsNew(s); }
    case OpenFails(id, _) => if !s.files[id].home.InDrag? { FailKeepsErrors(s, s, id); }
    case CancelUnopened(id, why) => FailKeepsErrors(s, s.Send(FileCancel(id, why)), id);
    case ReadFails(id, why) => FailKeepsErrors(s, s.Send(FileCancel(id, why)), id);
    case StopAborted(id) => FailKeepsErrors(s, s, id);
    case Finish(id, _, why) =>
      if s.files[id].offset != s.files[id].size { FailKeepsErrors(s, s.Send(FileCancel(id, why)), id); }
    case DeliverReply =>
      var q := s.(answered := s.answered + 1);
      if s.rx.replies[s.answered].id in s.files { FailKeepsErrors(s, q, s.rx.replies[s.answered].id); }
    case _ =>
  }

  lemma DrawnKeepsErrors(s: Sys, items: seq<Item>)
    requires Inv(s) && items != []
    ensures ErrorsStay(s, Apply(s, StartDrag(items)))
  {
    hide Inv, StartItems;
    DragDrawn(s);
    ItemsKeepErrors(s.(drags := s.drags + {s.next}, next := s.next + 1), s.next, items);
  }

  lemma WrongIsMarked(s: Sys, step: Step, t: nat)
    requires Inv(s) && Enabled(s, step) && GoesWrong(s, step, t) && !step.WalkFails?
    ensures t in Apply(s, step).folders && Apply(s, step).folders[t].error
  {
    hide Owned, NothingReady, Named, FolderOk, DragOk, Copies, Fate, Announced, Answered, RepliesOk, Handle;
    hide Sys.Running;
    var id := if step.DeliverReply? then s.rx.replies[s.answered].id else step.id;
    assert TaskOk(s, id);
  }

  /** What went wrong with a folder is not forgotten. */
  lemma {:induction false} WrongStays(start: Sys, steps: seq<Step>, k: nat, t: nat)
    requires IsStart(start) && Play(start, steps).Some? && k < |steps| && GoneWrongAt(start, steps, k, t)
    ensures var s := Play(start, steps).value;
            t in Unlisted(steps) || (t in s.folders && s.folders[t].error)
  {
    hide Inv, Enabled, Apply, IsStart, GoesWrong;
    var front, step := steps[..|steps| - 1], steps[|steps| - 1];
    var s := Play(start, front).value;
    PlayKeepsInv(start, front);
    if k == |front| {
      if step.WalkFails? { WrongIsListed(s, step, t); } else { WrongIsMarked(s, step, t); }
    } else {
      assert front[..k] == steps[..k] && front[k] == steps[k];
      WrongStays(start, front, k, t);
      StepKeepsErrors(s, step);
    }
  }

  lemma WrongIsListed(s: Sys, step: Step, t: nat)
    requires GoesWrong(s, step, t) && step.WalkFails?
    ensures step.tree == t
  {
  }

  /** However senders, channel and receiver interleave: a folder that could not be listed, or one
      of whose files failed at either end, is never placed and never staged. */
  lemma TroubledNotDelivered(start: Sys, steps: seq<Step>, t: nat)
    requires IsStart(start) && Play(start, steps).Some? && WentWrong(start, steps, t)
    ensures !HandedOver(Play(start, steps).value.rx, t)
  {
    hide Play, Sent, HandedOver, GoneWrongAt;
    var s, sent := Play(start, steps).value, Sent(start, steps);
    var n :| 0 <= n < |steps| && GoneWrongAt(start, steps, n, t);
    WrongStays(start, steps, n, t);
    EndsStayOk(start, steps);
    forall k | 0 <= k < |sent| ensures sent[k] != TreeEnd(t, None) { assert EndOk(s, sent, Unlisted(steps), k); }
    if HandedOver(s.rx, t) { var k := HandedOverIsClosed(start, steps, t); }
  }

  /* ---- offers to drags ---- */

  function OfferCount(ms: seq<Message>, d: nat): nat {
    if ms == [] then 0 else OfferCount(ms[..|ms| - 1], d) + One(OffersTo(ms[|ms| - 1], d))
  }

  lemma {:induction false} OfferCountJoins(a: seq<Message>, b: seq<Message>, d: nat)
    ensures OfferCount(a + b, d) == OfferCount(a, d) + OfferCount(b, d)
  {
    if b == [] {
      assert a + b == a;
    } else {
      assert (a + b)[..|a + b| - 1] == a + b[..|b| - 1];
      OfferCountJoins(a, b[..|b| - 1], d);
    }
  }

  lemma OfferCountOne(m: Message, d: nat)
    ensures OfferCount([m], d) == One(OffersTo(m, d)) && OfferCount([], d) == 0
  {
    assert [m][..0] == [];
  }

  /** The same tasks and folders are still to be offered. */
  lemma UnofferedStays(s: Sys, r: Sys, d: nat)
    requires forall id :: id in r.files && r.files[id].home == InDrag(d) && !r.files[id].offered <==>
                            id in s.files && s.files[id].home == InDrag(d) && !s.files[id].offered
    requires forall t :: t in r.folders && r.folders[t].drag == Some(d) && r.folders[t].phase == Walking <==>
                           t in s.folders && s.folders[t].drag == Some(d) && s.folders[t].phase == Walking
    ensures Unoffered(r, d) == Unoffered(s, d)
  {
  }

  lemma OneLess(a: set<nat>, x: nat)
    requires x in a
    ensures |a - {x}| == |a| - 1
  {
  }

  /** What a step offers to drag `d` it takes off the items still to be offered. */
  ghost predicate Balanced(s: Sys, step: Step, d: nat)
    requires Enabled(s, step)
  {
    OfferCount(Posted(s, step), d) + |Unoffered(Apply(s, step), d)| == |Unoffered(s, d)|
  }

  lemma PostedIs(s: Sys, step: Step, m: Message)
    requires Enabled(s, step) && !step.Deliver? && Apply(s, step).chan == s.chan + [m]
    ensures Posted(s, step) == [m]
  {
    hide Apply;
  }

  lemma OpenShape(s: Sys, step: Step) returns (m: Message, task: Task)
    requires Enabled(s, step) && (step.OpenFile? || (step.OpenFails? && s.files[step.id].home.InDrag?))
    ensures Apply(s, step) == s.Send(m).WithFile(step.id, task)
    ensures task.home == s.files[step.id].home && task.offered
    ensures !m.DragBegin? && forall d :: OffersTo(m, d) <==> task.home == InDrag(d)
  {
    var t := s.files[step.id];
    if step.OpenFile? {
      m, task := OfferOf(t.home, step.id, step.name, step.size),
          t.(phase := Waiting, size := step.size, offered := true);
    } else {
      m, task := DragOffer(t.home.drag, step.id, step.name, 0), t.(phase := Failing, offered := true);
    }
  }

  lemma FileTakenOff(s: Sys, m: Message, id: nat, task: Task, d: nat)
    requires id in s.files && id !in s.folders && !s.files[id].offered && task.offered && task.home == s.files[id].home
    ensures var r := s.Send(m).WithFile(id, task);
            |Unoffered(r, d)| + One(task.home == InDrag(d)) == |Unoffered(s, d)|
  {
    var r := s.Send(m).WithFile(id, task);
    if task.home == InDrag(d) {
      assert Unoffered(r, d) == Unoffered(s, d) - {id};
      OneLess(Unoffered(s, d), id);
    } else {
      UnofferedStays(s, r, d);
    }
  }

  lemma FileOffered(s: Sys, step: Step, d: nat)
    requires Inv(s) && Enabled(s, step) && (step.OpenFile? || (step.OpenFails? && s.files[step.id].home.InDrag?))
    ensures Balanced(s, step, d)
  {
    hide Inv, Apply, Posted, Unoffered, OffersTo;
    var m, task := OpenShape(s, step);
    PostedIs(s, step, m);
    OfferCountOne(m, d);
    ReadyTask(s, step.id);
    FileTakenOff(s, m, step.id, task, d);
  }

  lemma ReadyTask(s: Sys, id: nat)
    requires Inv(s) && PhaseIs(s, id, Ready)
    ensures !s.files[id].offered && id !in s.folders
  {
    hide Owned, NothingReady, Named, FolderOk, DragOk, Copies, Fate, Announced, Answered, RepliesOk;
    assert TaskOk(s, id);
  }

  lemma FolderShape(s: Sys, step: Step) returns (m: Message, f: Folder)
    requires Enabled(s, step) && (step.Walked? || step.WalkFails?)
    ensures Apply(s, step) == s.Send(m).WithFolder(step.tree, f)
    ensures f.drag == s.folders[step.tree].drag && f.phase != Walking
    ensures m.TreeOffer? && m.tree == step.tree && m.within == f.drag
  {
    var f0 := s.folders[step.tree];
    if step.Walked? {
      m, f := TreeOffer(step.tree, step.name, step.count, step.bytes, f0.drag), f0.(phase := Listing);
    } else {
      m, f := TreeOffer(step.tree, step.name, 0, 0, f0.drag), f0.(phase := Unreadable);
    }
  }

  lemma FolderTakenOff(s: Sys, m: Message, t: nat, f: Folder, d: nat)
    requires FolderIs(s, t, Walking) && t !in s.files && f.drag == s.folders[t].drag && f.phase != Walking
    ensures var r := s.Send(m).WithFolder(t, f); |Unoffered(r, d)| + One(f.drag == Some(d)) == |Unoffered(s, d)|
  {
    var r := s.Send(m).WithFolder(t, f);
    if f.drag == Some(d) {
      assert Unoffered(r, d) == Unoffered(s, d) - {t};
      OneLess(Unoffered(s, d), t);
    } else {
      UnofferedStays(s, r, d);
    }
  }

  lemma FolderAnnounced(s: Sys, step: Step, d: nat)
    requires Inv(s) && Enabled(s, step) && (step.Walked? || step.WalkFails?)
    ensures Balanced(s, step, d)
  {
    hide Inv, Apply, Posted, Unoffered;
    var m, f := FolderShape(s, step);
    PostedIs(s, step, m);
    OfferCountOne(m, d);
    NoTask(s, step.tree);
    FolderTakenOff(s, m, step.tree, f, d);
  }

  lemma NoTask(s: Sys, t: nat)
    requires Inv(s) && t in s.folders
    ensures t !in s.files
  {
    hide Owned, NothingReady, Named, FolderOk, DragOk, TaskOk;
    if t in s.files { TaskNoFolder(s, t); }
  }

  /** The steps that offer nothing to a drag and start no task. */
  predicate Bystands(s: Sys, step: Step)
    requires Enabled(s, step)
  {
    && !step.OpenFile? && !(step.OpenFails? && s.files[step.id].home.InDrag?) && !step.Walked? && !step.WalkFails?
    && !step.SendPlain? && !step.SendFolder? && !step.StartDrag? && !step.StartFile?
  }

  /** Nothing is offered, and the records of tasks and folders say the same about offers. */
  ghost predicate SameOffers(s: Sys, r: Sys) {
    && r.files.Keys == s.files.Keys && r.folders.Keys == s.folders.Keys
    && (forall id :: id in s.files ==>
          r.files[id].home == s.files[id].home && r.files[id].offered == s.files[id].offered)
    && (forall t :: t in s.folders ==>
          r.folders[t].drag == s.folders[t].drag && (r.folders[t].phase == Walking <==> s.folders[t].phase == Walking))
  }

  lemma SameOffersStay(s: Sys, r: Sys, d: nat)
    requires SameOffers(s, r)
    ensures Unoffered(r, d) == Unoffered(s, d)
  {
    UnofferedStays(s, r, d);
  }

  lemma TaskSame(s: Sys, r: Sys, id: nat)
    requires id in s.files && id in r.files && r.files == s.files[id := r.files[id]] && r.folders == s.folders
    requires r.files[id].home == s.files[id].home && r.files[id].offered == s.files[id].offered
    ensures SameOffers(s, r)
  {
  }

  lemma FolderSame(s: Sys, r: Sys, t: nat)
    requires t in s.folders && t in r.folders && r.folders == s.folders[t := r.folders[t]] && r.files == s.files
    requires r.folders[t].drag == s.folders[t].drag
    requires r.folders[t].phase == Walking <==> s.folders[t].phase == Walking
    ensures SameOffers(s, r)
  {
  }

  lemma NothingSame(s: Sys, r: Sys)
    requires r.files == s.files && r.folders == s.folders
    ensures SameOffers(s, r)
  {
  }

  lemma BystandersSame(s: Sys, step: Step)
    requires Enabled(s, step) && Bystands(s, step)
    ensures SameOffers(s, Apply(s, step))
  {
    hide Handle, Sys.Running, SameOffers, Sys.Fail, Answer;
    var r := Apply(s, step);
    match step
    case DeliverReply =>
      AnswerSame(s.(answered := s.answered + 1), s.rx.replies[s.answered]);
      SameFor(s, s.answered + 1, r);
    case OpenFails(id, _) => FailSame(s, id);
    case CancelUnopened(id, why) => SentFailSame(s, FileCancel(id, why), id);
    case ReadFails(id, why) => SentFailSame(s, FileCancel(id, why), id);
    case Finish(id, digest, why) =>
      if s.files[id].offset == s.files[id].size {
        TaskSame(s, r, id);
      } else {
        SentFailSame(s, FileCancel(id, why), id);
      }
    case StopAborted(id) => FailSame(s, id);
    case SendChunk(id, _) => TaskSame(s, r, id);
    case CloseUnreadable(t, _) => FolderSame(s, r, t);
    case SendDir(t, _) => FolderSame(s, r, t);
    case StartFiles(t) => FolderSame(s, r, t);
    case CloseFolder(t, _) => FolderSame(s, r, t);
    case ReleaseDrag => NothingSame(s, r);
    case CancelDrag => NothingSame(s, r);
    case Deliver(_) => NothingSame(s, r);
  }

  lemma SameFor(s: Sys, n: nat, r: Sys)
    requires SameOffers(s.(answered := n), r)
    ensures SameOffers(s, r)
  {
  }

  lemma SentFailSame(s: Sys, m: Message, id: nat)
    requires id in s.files
    ensures SameOffers(s, s.Send(m).Fail(id))
  {
    FailSame(s.Send(m), id);
  }

  lemma FailSame(s: Sys, id: nat)
    requires id in s.files
    ensures SameOffers(s, s.Fail(id))
  {
  }

  lemma AnswerSame(s: Sys, r: Reply)
    ensures SameOffers(s, Answer(s, r))
  {
    hide Sys.Fail;
    if r.id in s.files { FailSame(s, r.id); }
  }

  lemma BystandersPost(s: Sys, step: Step, d: nat)
    requires Enabled(s, step) && Bystands(s, step)
    ensures OfferCount(Posted(s, step), d) == 0
    ensures forall m :: m in Posted(s, step) ==> !m.DragBegin? && !OffersTo(m, d)
  {
    hide Handle, Sys.Running;
    if !step.Deliver? { PostedIsAppended(s, step); }
    if Posted(s, step) != [] {
      assert Posted(s, step) == [Posted(s, step)[0]];
      OfferCountOne(Posted(s, step)[0], d);
    }
  }

  lemma {:induction false} ItemsElse(s: Sys, d: nat, items: seq<Item>, e: nat)
    requires Inv(s) && d in s.drags && e in s.drags && e != d
    ensures |Unoffered(StartItems(s, d, items), e)| == |Unoffered(s, e)|
  {
    hide Inv, Unoffered;
    if items != [] {
      var front := items[..|items| - 1];
      ItemsElse(s, d, front, e);
      ItemsStarted(s, d, front);
      match items[|items| - 1]
      case OneFile(length) => TaskStarted(StartItems(s, d, front), InDrag(d), length);
      case OneFolder(dirs, files) => FolderStarted(StartItems(s, d, front), Some(d), dirs, files);
    }
  }

  /** A drag starts with as many items to be offered as it announces; other drags are not affected. */
  lemma DragAnnounced(s: Sys, items: seq<Item>, d: nat)
    requires Inv(s) && items != []
    ensures Posted(s, StartDrag(items)) == [DragBegin(s.next, |items|)]
    ensures |Unoffered(Apply(s, StartDrag(items)), s.next)| == |items|
    ensures d in s.drags ==> Balanced(s, StartDrag(items), d)
  {
    hide Inv, Unoffered, StartItems, Posted;
    var s0 := s.(drags := s.drags + {s.next}, next := s.next + 1);
    DragDrawn(s);
    ItemsStarted(s0, s.next, items);
    var s1, r, m := StartItems(s0, s.next, items), Apply(s, StartDrag(items)), DragBegin(s.next, |items|);
    UnofferedSame(s1, r, s.next);
    PostedIs(s, StartDrag(items), m);
    OfferCountOne(m, d);
    if d in s.drags {
      NextIsNew(s);
      ItemsElse(s0, s.next, items, d);
      UnofferedSame(s1, r, d);
      UnofferedSame(s, s0, d);
    }
  }

  lemma TasksBalanced(s: Sys, step: Step, d: nat)
    requires Inv(s) && Enabled(s, step) && (step.SendPlain? || step.SendFolder? || step.StartFile?) && d in s.drags
    ensures Balanced(s, step, d) && Posted(s, step) == []
  {
    hide Inv, Unoffered, Handle, Sys.Running;
    assert [] == Posted(s, step);
    match step
    case SendPlain(length) => TaskStarted(s, Plain, length);
    case SendFolder(dirs, files) => FolderStarted(s, None, dirs, files);
    case StartFile(t) => FileOfFolder(s, t, d);
  }

  lemma FileOfFolder(s: Sys, t: nat, d: nat)
    requires Inv(s) && Enabled(s, StartFile(t)) && d in s.drags
    ensures |Unoffered(Apply(s, StartFile(t)), d)| == |Unoffered(s, d)|
  {
    hide Inv, Unoffered, Sys.Running;
    NextIsNew(s);
    var f := s.folders[t];
    var s1 := s.WithFolder(t, f.(files := f.files[1..]));
    SameOffersStay(s, s1, d);
    TaskUnoffered(s1, InTree(t), f.files[0], d);
  }

  /** Every step takes what it offers to a drag off the items still to be offered. */
  lemma StepBalanced(s: Sys, step: Step, d: nat)
    requires Inv(s) && Enabled(s, step) && d in s.drags
    ensures Balanced(s, step, d)
    ensures forall m :: m in Posted(s, step) && m.DragBegin? ==> step.StartDrag? && m == DragBegin(s.next, |step.items|)
  {
    hide Inv, Unoffered, Apply, Posted;
    if step.OpenFile? || (step.OpenFails? && s.files[step.id].home.InDrag?) {
      FileOffered(s, step, d);
      var m, task := OpenShape(s, step);
      PostedIs(s, step, m);
    } else if step.Walked? || step.WalkFails? {
      FolderAnnounced(s, step, d);
      var m, f := FolderShape(s, step);
      PostedIs(s, step, m);
    } else if step.StartDrag? {
      DragAnnounced(s, step.items, d);
    } else if step.SendPlain? || step.SendFolder? || step.StartFile? {
      TasksBalanced(s, step, d);
    } else {
      BystandersPost(s, step, d);
      BystandersSame(s, step);
      SameOffersStay(s, Apply(s, step), d);
    }
  }

  /* ---- every drag gets what it announced ---- */

  /** The k-th message begins a drag: it is the only one that does, what it announces was offered
      since or is still to be offered, and nothing was offered before. */
  ghost predicate BeginOk(s: Sys, ms: seq<Message>, k: nat)
    requires k < |ms| && ms[k].DragBegin?
  {
    var d := ms[k].drag;
    && d in s.drags && OfferCount(ms, d) + |Unoffered(s, d)| == ms[k].count
    && (forall j :: 0 <= j < k ==> !OffersTo(ms[j], d))
    && (forall j :: 0 <= j < |ms| && j != k && ms[j].DragBegin? ==> ms[j].drag != d)
  }

  /** The message offers what its task or folder is for. */
  predicate OfferOk(s: Sys, m: Message) {
    && (m.DragOffer? ==> m.drag in s.drags && m.id in s.files && s.files[m.id].home == InDrag(m.drag))
    && (m.TreeOffer? ==> m.tree in s.folders && s.folders[m.tree].drag == m.within
                         && (m.within.Some? ==> m.within.value in s.drags))
  }

  ghost predicate AnnouncedOk(s: Sys, ms: seq<Message>) {
    && (forall k :: 0 <= k < |ms| && ms[k].DragBegin? ==> BeginOk(s, ms, k))
    && (forall k :: 0 <= k < |ms| ==> OfferOk(s, ms[k]))
  }

  lemma {:induction false} NoneOffered(ms: seq<Message>, d: nat)
    requires forall j :: 0 <= j < |ms| ==> !OffersTo(ms[j], d)
    ensures OfferCount(ms, d) == 0
  {
    if ms != [] { NoneOffered(ms[..|ms| - 1], d); }
  }

  /** Tasks, folders and drags keep what they are for. */
  ghost predicate PurposesStay(s: Sys, r: Sys) {
    && s.drags <= r.drags
    && (forall id :: id in s.files ==> id in r.files && r.files[id].home == s.files[id].home)
    && (forall t :: t in s.folders ==> t in r.folders && r.folders[t].drag == s.folders[t].drag)
  }

  lemma PurposesTrans(s: Sys, q: Sys, r: Sys)
    requires PurposesStay(s, q) && PurposesStay(q, r)
    ensures PurposesStay(s, r)
  {
  }

  /** A task or a folder that is started is a new one. */
  lemma StartedPurposes(s: Sys, home: Home, drag: Option<nat>, dirs: nat, files: seq<nat>, length: nat)
    requires s.next !in s.files && s.next !in s.folders
    ensures PurposesStay(s, StartTask(s, home, length)) && PurposesStay(s, StartFolder(s, drag, dirs, files))
    ensures PurposesStay(s, s)
  {
  }

  lemma {:induction false} ItemsPurposes(s: Sys, d: nat, items: seq<Item>)
    requires Inv(s) && d in s.drags
    ensures PurposesStay(s, StartItems(s, d, items))
  {
    hide Inv, PurposesStay, StartTask, StartFolder;
    if items == [] {
      NextIsNew(s);
      StartedPurposes(s, InDrag(d), Some(d), 0, [], 0);
    } else {
      var front, last := items[..|items| - 1], items[|items| - 1];
      ItemsPurposes(s, d, front);
      ItemsStarted(s, d, front);
      var q := StartItems(s, d, front);
      NextIsNew(q);
      StartedPurposes(q, InDrag(d), Some(d), if last.OneFolder? then last.dirs else 0,
                      if last.OneFolder? then last.files else [], if last.OneFile? then last.length else 0);
      PurposesTrans(s, q, StartItems(s, d, items));
    }
  }

  lemma StepPurposes(s: Sys, step: Step)
    requires Inv(s) && Enabled(s, step)
    ensures PurposesStay(s, Apply(s, step))
  {
    hide Inv, Apply, SameOffers, Sys.Running;
    if step.StartDrag? {
      DragPurposes(s, step.items);
    } else if step.SendPlain? || step.SendFolder? || step.StartFile? {
      TaskPurposes(s, step);
    } else if step.OpenFile? || (step.OpenFails? && s.files[step.id].home.InDrag?) {
      var m, task := OpenShape(s, step);
    } else if step.Walked? || step.WalkFails? {
      var m, f := FolderShape(s, step);
    } else {
      BystandersSame(s, step);
      DragsStay(s, step);
      SamePurposes(s, Apply(s, step));
    }
  }

  lemma SamePurposes(s: Sys, r: Sys)
    requires SameOffers(s, r) && s.drags <= r.drags
    ensures PurposesStay(s, r)
  {
  }

  lemma DragsStay(s: Sys, step: Step)
    requires Enabled(s, step) && !step.StartDrag?
    ensures Apply(s, step).drags == s.drags
  {
    hide Handle, Sys.Running;
  }

  lemma TaskPurposes(s: Sys, step: Step)
    requires Inv(s) && Enabled(s, step) && (step.SendPlain? || step.SendFolder? || step.StartFile?)
    ensures PurposesStay(s, Apply(s, step))
  {
    hide Inv, Handle, Sys.Running;
    NextIsNew(s);
  }

  lemma DragPurposes(s: Sys, items: seq<Item>)
    requires Inv(s) && items != []
    ensures PurposesStay(s, Apply(s, StartDrag(items)))
  {
    hide Inv, StartItems;
    DragDrawn(s);
    var s0 := s.(drags := s.drags + {s.next}, next := s.next + 1);
    ItemsPurposes(s0, s.next, items);
    ItemsStarted(s0, s.next, items);
  }

  lemma OfferStaysOk(s: Sys, r: Sys, m: Message)
    requires PurposesStay(s, r) && OfferOk(s, m)
    ensures OfferOk(r, m)
  {
  }

  lemma NewOfferOk(s: Sys, step: Step, m: Message)
    requires Inv(s) && Enabled(s, step) && m in Posted(s, step)
    ensures OfferOk(Apply(s, step), m)
  {
    hide Inv, Apply, Posted;
    if step.OpenFile? || (step.OpenFails? && s.files[step.id].home.InDrag?) {
      var n, task := OpenShape(s, step);
      PostedIs(s, step, n);
      OpenedOk(s, step, n, task);
    } else if step.Walked? || step.WalkFails? {
      var n, f := FolderShape(s, step);
      PostedIs(s, step, n);
      KnownDrag(s, step.tree);
    } else if step.StartDrag? {
      DragAnnounced(s, step.items, s.next);
    } else if step.SendPlain? || step.SendFolder? || step.StartFile? {
      TasksPost(s, step);
    } else {
      BystandersOffer(s, step, m);
    }
  }

  lemma TasksPost(s: Sys, step: Step)
    requires Inv(s) && Enabled(s, step) && (step.SendPlain? || step.SendFolder? || step.StartFile?)
    ensures Posted(s, step) == []
  {
    hide Inv, Handle, Sys.Running;
  }

  lemma BystandersOffer(s: Sys, step: Step, m: Message)
    requires Enabled(s, step) && Bystands(s, step) && m in Posted(s, step)
    ensures !m.DragOffer? && !m.TreeOffer?
  {
    hide Handle, Sys.Running;
    if !step.Deliver? { PostedIsAppended(s, step); }
  }

  lemma OpenedOk(s: Sys, step: Step, m: Message, task: Task)
    requires Inv(s) && Enabled(s, step) && (step.OpenFile? || (step.OpenFails? && s.files[step.id].home.InDrag?))
    requires Apply(s, step) == s.Send(m).WithFile(step.id, task) && task.home == s.files[step.id].home
    ensures OfferOk(Apply(s, step), m)
  {
    hide Owned, NothingReady, Named, FolderOk, DragOk, Copies, Fate, Announced, Answered, RepliesOk;
    assert TaskOk(s, step.id);
    assert m == Apply(s, step).chan[|s.chan|];
  }

  lemma KnownDrag(s: Sys, t: nat)
    requires Inv(s) && t in s.folders
    ensures s.folders[t].drag.Some? ==> s.folders[t].drag.value in s.drags
  {
    hide Owned, NothingReady, Named, TaskOk, DragOk, Copies, Fate, Announced;
    assert FolderOk(s, t);
  }

  lemma BeginStaysOk(s: Sys, ms: seq<Message>, step: Step, k: nat)
    requires Inv(s) && Enabled(s, step) && k < |ms| && ms[k].DragBegin? && BeginOk(s, ms, k)
    ensures BeginOk(Apply(s, step), ms + Posted(s, step), k)
  {
    hide Inv, Apply, Posted, Unoffered, Bystands;
    var d, new_, more := ms[k].drag, Posted(s, step), ms + Posted(s, step);
    StepBalanced(s, step, d);
    StepPurposes(s, step);
    OfferCountJoins(ms, new_, d);
    NextIsNew(s);
    forall j | 0 <= j < |more| && j != k && more[j].DragBegin? ensures more[j].drag != d {
      if j >= |ms| { assert more[j] in new_; }
    }
  }

  lemma StepKeepsAnnounced(s: Sys, ms: seq<Message>, step: Step)
    requires Inv(s) && Enabled(s, step) && AnnouncedOk(s, ms)
    ensures AnnouncedOk(Apply(s, step), ms + Posted(s, step))
  {
    hide Inv, Apply, Posted, BeginOk, OfferOk;
    var new_, more, r := Posted(s, step), ms + Posted(s, step), Apply(s, step);
    StepPurposes(s, step);
    forall k | 0 <= k < |more| ensures OfferOk(r, more[k]) {
      if k < |ms| { OfferStaysOk(s, r, ms[k]); } else { assert more[k] in new_; NewOfferOk(s, step, more[k]); }
    }
    forall k | 0 <= k < |more| && more[k].DragBegin? ensures BeginOk(r, more, k) {
      if k < |ms| { BeginStaysOk(s, ms, step, k); } else { NewBeginOk(s, ms, step, k); }
    }
  }

  lemma NewBeginOk(s: Sys, ms: seq<Message>, step: Step, k: nat)
    requires Inv(s) && Enabled(s, step) && AnnouncedOk(s, ms)
    requires |ms| <= k < |ms + Posted(s, step)| && (ms + Posted(s, step))[k].DragBegin?
    ensures BeginOk(Apply(s, step), ms + Posted(s, step), k)
  {
    hide Inv, Posted, Unoffered, StartItems, Apply;
    var new_, more := Posted(s, step), ms + Posted(s, step);
    var d := more[k].drag;
    assert more[k] in new_;
    OnlyStartBegins(s, step, more[k]);
    DragAnnounced(s, step.items, d);
    NextIsNew(s);
    forall j | 0 <= j < |ms| ensures !OffersTo(ms[j], d) && (ms[j].DragBegin? ==> ms[j].drag != d) {
      assert OfferOk(s, ms[j]);
      if ms[j].DragBegin? { assert BeginOk(s, ms, j); }
    }
    NoneOffered(ms, d);
    OfferCountJoins(ms, new_, d);
    OfferCountOne(more[k], d);
    StartedDrags(s, step.items);
  }

  lemma StartedDrags(s: Sys, items: seq<Item>)
    requires Inv(s) && items != []
    ensures s.next in Apply(s, StartDrag(items)).drags
  {
    hide Inv, StartItems;
    DragDrawn(s);
    ItemsStarted(s.(drags := s.drags + {s.next}, next := s.next + 1), s.next, items);
  }

  lemma OnlyStartBegins(s: Sys, step: Step, m: Message)
    requires Inv(s) && Enabled(s, step) && m in Posted(s, step) && m.DragBegin?
    ensures step.StartDrag? && m == DragBegin(s.next, |step.items|)
  {
    hide Inv, Apply, Posted, Unoffered;
    if step.OpenFile? || (step.OpenFails? && s.files[step.id].home.InDrag?) {
      var n, task := OpenShape(s, step);
      PostedIs(s, step, n);
    } else if step.Walked? || step.WalkFails? {
      var n, f := FolderShape(s, step);
      PostedIs(s, step, n);
    } else if step.StartDrag? {
      DragAnnounced(s, step.items, s.next);
    } else if step.SendPlain? || step.SendFolder? || step.StartFile? {
      TasksPost(s, step);
    } else {
      BystandersPost(s, step, 0);
    }
  }

  lemma {:induction false} AllAnnounced(start: Sys, steps: seq<Step>)
    requires IsStart(start) && Play(start, steps).Some?
    ensures AnnouncedOk(Play(start, steps).value, Sent(start, steps))
  {
    hide Inv, Enabled, Apply, IsStart, AnnouncedOk, Sent;
    if steps == [] {
      NothingAnnounced(start);
    } else {
      var front, step := steps[..|steps| - 1], steps[|steps| - 1];
      SentGrows(start, steps);
      PlayKeepsInv(start, front);
      AllAnnounced(start, front);
      StepKeepsAnnounced(Play(start, front).value, Sent(start, front), step);
    }
  }

  lemma NothingAnnounced(start: Sys)
    requires IsStart(start)
    ensures Sent(start, []) == [] && AnnouncedOk(start, [])
  {
  }

  lemma {:induction false} SameCount(es: seq<Event>, d: nat)
    ensures OfferedTo(es, d) == OfferCount(Messages(es), d)
  {
    if es != [] {
      SameCount(es[..|es| - 1], d);
      assert Messages(es)[..|es| - 1] == Messages(es[..|es| - 1]);
    }
  }

  /** Of the items that a drag announced fewer were offered before an offer to it than announced. */
  lemma FewerBefore(start: Sys, steps: seq<Step>, b: nat, d: nat, k: nat)
    requires IsStart(start) && Play(start, steps).Some?
    requires var log := Log(start, steps);
             b < |log| && log[b].m.DragBegin? && log[b].m.drag == d && k < |log| && OffersTo(log[k].m, d)
    ensures b < k && OfferedTo(Log(start, steps)[b + 1..k], d) < Log(start, steps)[b].m.count
  {
    hide Play, IsStart, Log, Unoffered;
    AllAnnounced(start, steps);
    var log, ms := Log(start, steps), Sent(start, steps);
    assert ms[b] == log[b].m && ms[k] == log[k].m;
    assert BeginOk(Play(start, steps).value, ms, b);
    var mid := Messages(log[b + 1..k]);
    assert ms == ms[..b + 1] + mid + [ms[k]] + ms[k + 1..];
    OfferCountJoins(ms[..b + 1] + mid + [ms[k]], ms[k + 1..], d);
    OfferCountJoins(ms[..b + 1] + mid, [ms[k]], d);
    OfferCountJoins(ms[..b + 1], mid, d);
    OfferCountOne(ms[k], d);
    SameCount(log[b + 1..k], d);
  }

  /** However senders, channel and receiver interleave, and whenever the drag is released: every
      offer to a drag that was begun, and is neither cancelled nor superseded, finds it held. */
  lemma NeverTooLate(start: Sys, steps: seq<Step>, b: nat, d: nat, k: nat)
    requires IsStart(start) && Play(start, steps).Some?
    requires BeginsAt(start.rx, Log(start, steps), b, d) && Kept(Log(start, steps)[b + 1..], d)
    requires k < |Log(start, steps)| && OffersTo(Log(start, steps)[k].m, d)
    ensures Run(start.rx, Log(start, steps)[..k]).DragIs(Some(d))
  {
    hide Play, IsStart, Log, Handle, Owned, NothingReady, Run, FreshKind, Abandons;
    var s, log := start.rx, Log(start, steps);
    FewerBefore(start, steps, b, d, k);
    LogIsRun(start, steps);
    StartIsNew(start);
    var s0, es := Run(s, log[..b]), log[b + 1..k];
    FreshPrefix(s, log, b);
    NewOwned(s);
    RunKeepsOwnership(s, log[..b]);
    RunLeavesNothingReady(s, log[..b]);
    RunNext(s, log, b);
    FreshPrefix(s, log, k);
    assert log[..k] == log[..b + 1] + es;
    FreshRunSplits(s, log[..b + 1], es);
    RunJoins(s, log[..b + 1], es);
    assert forall j :: 0 <= j < |es| ==> es[j] == log[b + 1..][j];
    WaitsForAll(s0, log[b], es, d);
  }

  lemma NewOwned(s: State)
    requires IsNew(s)
    ensures Owned(s) && NothingReady(s)
  {
  }

  /* ---- what is refused for want of its drag ---- */

  /** The k-th message offered file `id` to a drag that was not there. */
  ghost predicate TooLate(s: State, es: seq<Event>, k: nat, id: nat)
    requires k < |es|
  {
    var m := es[k].m;
    && (m.DragOffer? ==> m.id == id && !Run(s, es[..k]).DragIs(Some(m.drag)))
    && (m.TreeOffer? ==> m.tree == id && m.within.Some? && !Run(s, es[..k]).DragIs(m.within))
    && (m.DragOffer? || m.TreeOffer?)
  }

  lemma RefusedNow(s: State, m: Message, env: Env, id: nat)
    requires Reject(id, NoDrag) in Handle(s, m, env).replies && Reject(id, NoDrag) !in s.replies
    ensures m.DragOffer? && m.id == id && !s.DragIs(Some(m.drag))
  {
    hide FinalizeDrag, FinalizeTree, Done, BeginRecv, OfferTree, MakeDir, MkdirAll, DiscardDrag, SettleInDrag;
    hide Names.SanitizeRel;
    match m
    case TreeFile(tree, i, rel, size) => InTreeSays(s, tree, i, rel, size, env);
    case FileChunk(i, offset, data) => ChunkSays(s, i, offset, data, env);
    case FileDone(i, digest) => DoneSays(s, i, digest, env);
    case _ =>
  }

  lemma ChunkSays(s: State, i: nat, offset: nat, data: Bytes, env: Env)
    ensures forall r :: r in Receiving.Chunk(s, i, offset, data, env).replies && r !in s.replies ==> r.Abort?
  {
    hide FinalizeTree, SettleInDrag, RemoveFile;
  }

  lemma DoneSays(s: State, i: nat, digest: Digest, env: Env)
    ensures Done(s, i, digest, env).replies == s.replies
  {
    hide FinalizeTree, SettleInDrag, FinishRecv;
  }

  lemma InTreeSays(s: State, tree: nat, i: nat, rel: string, size: nat, env: Env)
    ensures forall id :: Reject(id, NoDrag) in OfferInTree(s, tree, i, rel, size, env).replies ==>
                           Reject(id, NoDrag) in s.replies
  {
    hide BeginRecv, Names.SanitizeRel;
  }

  lemma {:induction false} RefusedMeans(s: State, es: seq<Event>, id: nat) returns (k: nat)
    requires IsNew(s) && Reject(id, NoDrag) in Run(s, es).replies
    ensures k < |es| && es[k].m.DragOffer? && TooLate(s, es, k, id)
  {
    hide Handle;
    var front, e := es[..|es| - 1], es[|es| - 1];
    if Reject(id, NoDrag) in Run(s, front).replies {
      k := RefusedMeans(s, front, id);
      assert front[..k] == es[..k];
    } else {
      RefusedNow(Run(s, front), e.m, e.env, id);
      k := |front|;
    }
  }

  lemma {:induction false} UncountedMeans(s: State, es: seq<Event>, t: nat) returns (k: nat)
    requires IsNew(s) && t in Run(s, es).trees && Run(s, es).trees[t].drag.Some? && !Run(s, es).trees[t].counted
    ensures k < |es| && es[k].m.TreeOffer? && TooLate(s, es, k, t)
  {
    hide Handle;
    var front, e := es[..|es| - 1], es[|es| - 1];
    Footprints.TreeAfter(Run(s, front), e.m, e.env, t);
    if t in Run(s, front).trees {
      k := UncountedMeans(s, front, t);
      assert front[..k] == es[..k];
    } else {
      CountedOffer(Run(s, front), e.m, e.env, t);
      k := |front|;
    }
  }

  lemma CountedOffer(s: State, m: Message, env: Env, t: nat)
    requires m.TreeOffer? && m.tree == t && t !in s.trees && t in Handle(s, m, env).trees
    ensures Handle(s, m, env).trees[t].drag == m.within && (Handle(s, m, env).trees[t].counted <==> s.DragIs(m.within))
  {
    hide OfferTree;
  }

  /** So no item of such a drag, file or folder, is ever turned down because the drag is gone. */
  lemma NoItemTurnedDown(start: Sys, steps: seq<Step>, b: nat, d: nat)
    requires IsStart(start) && Play(start, steps).Some?
    requires BeginsAt(start.rx, Log(start, steps), b, d) && Kept(Log(start, steps)[b + 1..], d)
    ensures var s := Play(start, steps).value;
            && (forall id :: id in s.files && s.files[id].home == InDrag(d) ==> Reject(id, NoDrag) !in s.rx.replies)
            && (forall t :: t in s.folders && s.folders[t].drag == Some(d) && t in s.rx.trees ==> s.rx.trees[t].counted)
  {
    hide Inv, Handle, Apply, Enabled, BeginsAt, Kept, FreshRun, Log, IsStart;
    var s, log := Play(start, steps).value, Log(start, steps);
    LogIsRun(start, steps);
    StartIsNew(start);
    forall k | 0 <= k < |log| && OffersTo(log[k].m, d) ensures Run(start.rx, log[..k]).DragIs(Some(d)) {
      NeverTooLate(start, steps, b, d, k);
    }
    forall id | id in s.files && s.files[id].home == InDrag(d) ensures Reject(id, NoDrag) !in s.rx.replies {
      if Reject(id, NoDrag) in s.rx.replies {
        var k := RefusedMeans(start.rx, log, id);
        OfferedFor(start, steps, k);
      }
    }
    forall t | t in s.folders && s.folders[t].drag == Some(d) && t in s.rx.trees ensures s.rx.trees[t].counted {
      FolderFor(start, steps, t);
      if !s.rx.trees[t].counted {
        var k := UncountedMeans(start.rx, log, t);
        OfferedFor(start, steps, k);
      }
    }
  }

  lemma OfferedFor(start: Sys, steps: seq<Step>, k: nat)
    requires IsStart(start) && Play(start, steps).Some? && k < |Log(start, steps)|
    ensures OfferOk(Play(start, steps).value, Log(start, steps)[k].m)
  {
    hide Play, IsStart, Log, OfferOk;
    AllAnnounced(start, steps);
    assert Sent(start, steps)[k] == Log(start, steps)[k].m;
  }

  /** The receiver records a folder for the drag its sender has in mind. */
  lemma FolderFor(start: Sys, steps: seq<Step>, t: nat)
    requires IsStart(start) && Play(start, steps).Some? && t in Play(start, steps).value.rx.trees
    ensures t in Play(start, steps).value.folders
    ensures Play(start, steps).value.rx.trees[t].drag == Play(start, steps).value.folders[t].drag
  {
    hide Play, IsStart, Log, OfferOk, Handle, FreshRun;
    LogIsRun(start, steps);
    StartIsNew(start);
    var k := OfferedAs(start.rx, Log(start, steps), t);
    OfferedFor(start, steps, k);
    assert OfferOk(Play(start, steps).value, Log(start, steps)[k].m);
    ForFolder(Play(start, steps).value, Log(start, steps)[k].m);
  }

  lemma ForFolder(s: Sys, m: Message)
    requires m.TreeOffer? && OfferOk(s, m)
    ensures m.tree in s.folders && s.folders[m.tree].drag == m.within
  {
  }

  lemma {:induction false} OfferedAs(s: State, es: seq<Event>, t: nat) returns (k: nat)
    requires IsNew(s) && t in Run(s, es).trees
    ensures k < |es| && es[k].m.TreeOffer? && es[k].m.tree == t && es[k].m.within == Run(s, es).trees[t].drag
  {
    hide Handle;
    var front, e := es[..|es| - 1], es[|es| - 1];
    Footprints.TreeAfter(Run(s, front), e.m, e.env, t);
    if t in Run(s, front).trees {
      k := OfferedAs(s, front, t);
    } else {
      CountedOffer(Run(s, front), e.m, e.env, t);
      k := |front|;
    }
  }
}
