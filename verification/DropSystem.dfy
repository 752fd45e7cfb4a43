/** No drop is stranded: under every interleaving of senders, channel and
    receiver, once everything was sent and handled, nothing is left live at the
    receiver and every released drag was placed. */
module DropSystem {
  import opened Basics
  import opened Disk
  import opened Receiving
  import opened Ownership
  import opened Frames
  import opened Conservation
  import opened Senders

  /* ---- what the messages under way will do ---- */

  /** Whether aspect `a` can hold once the messages `ms` are handled. */
  predicate Fate(a: Aspect, ms: seq<Message>, x: bool) {
    if ms == [] then x else Fate(a, ms[1..], Next(a, ms[0], x))
  }

  /** How many items drag `d` will at most still be owed then. */
  function FateDue(d: nat, ms: seq<Message>, x: Option<int>): Option<int> {
    if ms == [] then x else FateDue(d, ms[1..], NextDue(ms[0], d, x))
  }

  /** How many of the messages offer item `id`. */
  function Announced(ms: seq<Message>, id: nat): nat {
    if ms == [] then 0 else One(Announces(ms[0]) == Some(id)) + Announced(ms[1..], id)
  }

  /** How many of the replies answer the offer of file `id`. */
  function Answered(rs: seq<Reply>, id: nat): nat {
    if rs == [] then 0 else Answered(rs[..|rs| - 1], id) + One(Answers(rs[|rs| - 1], id))
  }

  lemma {:induction false} FateAppend(a: Aspect, ms: seq<Message>, m: Message, x: bool)
    ensures Fate(a, ms + [m], x) == Next(a, m, Fate(a, ms, x))
  {
    if ms == [] {
      assert [m][1..] == [];
    } else {
      assert (ms + [m])[1..] == ms[1..] + [m];
      FateAppend(a, ms[1..], m, Next(a, ms[0], x));
    }
  }

  lemma {:induction false} FateMono(a: Aspect, ms: seq<Message>, x: bool, y: bool)
    requires (x ==> y) && Fate(a, ms, x)
    ensures Fate(a, ms, y)
  {
    if ms != [] {
      FateMono(a, ms[1..], Next(a, ms[0], x), Next(a, ms[0], y));
    }
  }

  /** A file that is not live stays so unless it is offered. */
  lemma {:induction false} NotOfferedStaysDead(ms: seq<Message>, id: nat)
    requires Announced(ms, id) == 0
    ensures !Fate(FileLive(id), ms, false)
  {
    if ms != [] {
      NotOfferedStaysDead(ms[1..], id);
    }
  }

  lemma {:induction false} FateDueAppend(d: nat, ms: seq<Message>, m: Message, x: Option<int>)
    ensures FateDue(d, ms + [m], x) == NextDue(m, d, FateDue(d, ms, x))
  {
    if ms == [] {
      assert [m][1..] == [];
    } else {
      assert (ms + [m])[1..] == ms[1..] + [m];
      FateDueAppend(d, ms[1..], m, NextDue(ms[0], d, x));
    }
  }

  lemma {:induction false} FateDueMono(d: nat, ms: seq<Message>, x: Option<int>, y: Option<int>)
    requires AtMost(x, y)
    ensures AtMost(FateDue(d, ms, x), FateDue(d, ms, y))
  {
    if ms != [] {
      FateDueMono(d, ms[1..], NextDue(ms[0], d, x), NextDue(ms[0], d, y));
    }
  }

  lemma {:induction false} AnnouncedAppend(ms: seq<Message>, m: Message, id: nat)
    ensures Announced(ms + [m], id) == Announced(ms, id) + One(Announces(m) == Some(id))
  {
    if ms == [] {
      assert [m][1..] == [];
    } else {
      assert (ms + [m])[1..] == ms[1..] + [m];
      AnnouncedAppend(ms[1..], m, id);
    }
  }

  lemma {:induction false} AnsweredPrefix(rs: seq<Reply>, n: nat, id: nat)
    requires n <= |rs|
    ensures Answered(rs[..n], id) <= Answered(rs, id)
    ensures forall k :: n <= k < |rs| && Answers(rs[k], id) ==> Answered(rs[..n], id) < Answered(rs, id)
    decreases |rs|
  {
    if n < |rs| {
      assert rs[..|rs| - 1][..n] == rs[..n];
      AnsweredPrefix(rs[..|rs| - 1], n, id);
    } else {
      assert rs[..n] == rs;
    }
  }

  /* ---- the invariant ---- */

  /** What replies about file `id` mean: refused or aborted files will not be live. */
  ghost predicate RepliesOk(s: Sys, id: nat) {
    forall k :: 0 <= k < |s.rx.replies| && s.rx.replies[k].id == id ==>
      && Answered(s.rx.replies, id) > 0
      && (!s.rx.replies[k].Accept? ==> !Fate(FileLive(id), s.chan, id in s.rx.recv))
  }

  /** File `id` is offered at most once and answered once; it is nowhere twice; and
      when its task is over, nothing will be live under its id. */
  ghost predicate TaskOk(s: Sys, id: nat)
    requires id in s.files
  {
    var t := s.files[id];
    && id < s.next && id !in s.folders
    && (t.phase == Ready ==> !t.offered)
    && (t.phase == Failing || t.phase == Waiting || t.phase == Streaming || (t.home.InDrag? && t.phase == Over) ==>
          t.offered)
    && Announced(s.chan, id) + Answered(s.rx.replies, id) == One(t.offered)
    && (id in s.rx.recv || t.aborted ==> Answered(s.rx.replies, id) > 0)
    && Copies(s.rx, id) + Announced(s.chan, id) <= One(t.offered)
    && (t.phase == Over || t.aborted ==> !Fate(FileLive(id), s.chan, id in s.rx.recv))
    && (t.phase == Waiting && s.answered <= |s.rx.replies| ==> Answered(s.rx.replies[..s.answered], id) == 0)
    && RepliesOk(s, id)
    && (t.home.InDrag? ==> t.home.drag in s.drags)
    && (t.home.InTree? ==>
          && t.home.tree in s.folders
          && (s.folders[t.home.tree].phase == Filling || (s.folders[t.home.tree].phase == Closed && t.phase == Over)))
  }

  /** Folder `t` is offered at most once, and once closed it will be ended. */
  ghost predicate FolderOk(s: Sys, t: nat)
    requires t in s.folders
  {
    var f := s.folders[t];
    && t < s.next
    && Copies(s.rx, t) + Announced(s.chan, t) <= One(f.phase != Walking)
    && (f.phase == Closed ==> !Fate(TreeOpen(t), s.chan, Now(TreeOpen(t), s.rx)))
    && (f.drag.Some? ==> f.drag.value in s.drags)
  }

  /** The items of drag `d` whose offer was not sent yet. */
  ghost function Unoffered(s: Sys, d: nat): set<nat> {
    UnofferedFiles(s, d) + UnofferedFolders(s, d)
  }

  ghost function UnofferedFiles(s: Sys, d: nat): set<nat> {
    set id | id in s.files && s.files[id].home == InDrag(d) && !s.files[id].offered
  }

  ghost function UnofferedFolders(s: Sys, d: nat): set<nat> {
    set t | t in s.folders && s.folders[t].drag == Some(d) && s.folders[t].phase == Walking
  }

  /** Drag `d` is owed no more items than will be offered, and unless it is the
      one not resolved yet, its release or end is under way or was handled. */
  ghost predicate DragOk(s: Sys, d: nat) {
    && d < s.next
    && AtMost(FateDue(d, s.chan, Due(s.rx, d)), Some(|Unoffered(s, d)|))
    && (s.current != Some(d) ==> !Fate(DragHeld(d), s.chan, Now(DragHeld(d), s.rx)))
  }

  /** Everything the channel and the receiver name is the sender's. */
  ghost predicate Named(s: Sys) {
    && (forall k :: 0 <= k < |s.chan| ==> MessageNamed(s, s.chan[k]))
    && s.rx.recv.Keys <= s.files.Keys
    && s.rx.trees.Keys <= s.folders.Keys
    && (s.rx.drag.Some? ==> s.rx.drag.value.drag in s.drags)
    && (s.current.Some? ==> s.current.value in s.drags)
    && s.answered <= |s.rx.replies|
    && (forall k :: 0 <= k < |s.rx.replies| ==> s.rx.replies[k].id in s.files)
    && (forall id :: id !in s.files && id !in s.folders ==> Copies(s.rx, id) + Announced(s.chan, id) == 0)
  }

  predicate MessageNamed(s: Sys, m: Message) {
    && (Offers(m).Some? ==> Offers(m).value in s.files)
    && (m.TreeOffer? ==> m.tree in s.folders)
    && (m.DragBegin? ==> m.drag in s.drags)
  }

  ghost predicate Inv(s: Sys) {
    && Owned(s.rx) && NothingReady(s.rx) && Named(s)
    && (forall id :: id in s.files ==> TaskOk(s, id))
    && (forall t :: t in s.folders ==> FolderOk(s, t))
    && (forall d :: d in s.drags ==> DragOk(s, d))
  }

  /* ---- handling a message ---- */

  lemma AnnouncedHead(ms: seq<Message>, id: nat)
    requires ms != []
    ensures Announced(ms, id) == One(Announces(ms[0]) == Some(id)) + Announced(ms[1..], id)
  {
  }

  lemma TaskDelivered(s: Sys, env: Env, id: nat)
    requires Inv(s) && s.chan != [] && id in s.files
    ensures TaskOk(Apply(s, Deliver(env)), id)
  {
    hide Handle, Owned, NothingReady, Copies, FolderOk, DragOk, Fate, RepliesOk, Announced, Answered;
    var m, r := s.chan[0], Apply(s, Deliver(env));
    assert TaskOk(s, id) && MessageNamed(s, m);
    AnnouncedHead(s.chan, id);
    HandleReplies(s.rx, m, env);
    HandleCopies(s.rx, m, env, id);
    FateDelivered(s, env, FileLive(id));
    if id in r.rx.recv { HandleRespects(FileLive(id), s.rx, m, env); }
    AnsweredGrows(s.rx.replies, r.rx.replies, id);
    assert Announces(m) == Some(id) ==> Offers(m) == Some(id);
    assert r.rx.replies[..s.answered] == s.rx.replies[..s.answered];
    RepliesDelivered(s, env, id);
  }

  /** What could not hold once the channel is empty still cannot. */
  lemma FateDelivered(s: Sys, env: Env, a: Aspect)
    requires s.chan != []
    ensures var r := Apply(s, Deliver(env)); Fate(a, r.chan, Now(a, r.rx)) ==> Fate(a, s.chan, Now(a, s.rx))
  {
    hide Handle, Now, Next;
    var m, r := s.chan[0], Apply(s, Deliver(env));
    if Now(a, r.rx) { HandleRespects(a, s.rx, m, env); }
    if Fate(a, r.chan, Now(a, r.rx)) { FateMono(a, r.chan, Now(a, r.rx), Next(a, m, Now(a, s.rx))); }
  }

  /** Appending at most one reply. */
  lemma AnsweredGrows(rs: seq<Reply>, qs: seq<Reply>, id: nat)
    requires rs <= qs && |qs| <= |rs| + 1
    ensures Answered(qs, id) == Answered(rs, id) + One(|qs| > |rs| && Answers(qs[|rs|], id))
  {
    if |qs| > |rs| { assert qs[..|qs| - 1] == rs; } else { assert qs == rs; }
  }

  lemma RepliesDelivered(s: Sys, env: Env, id: nat)
    requires Inv(s) && s.chan != [] && id in s.files
    ensures RepliesOk(Apply(s, Deliver(env)), id)
  {
    hide Handle, Owned, NothingReady, Copies, FolderOk, DragOk, Fate, Answered, Announced;
    var m, r := s.chan[0], Apply(s, Deliver(env));
    assert TaskOk(s, id) && MessageNamed(s, m);
    AnnouncedHead(s.chan, id);
    HandleReplies(s.rx, m, env);
    AnsweredGrows(s.rx.replies, r.rx.replies, id);
    FateDelivered(s, env, FileLive(id));
    forall k | 0 <= k < |r.rx.replies| && r.rx.replies[k].id == id
      ensures Answered(r.rx.replies, id) > 0
      ensures !r.rx.replies[k].Accept? ==> !Fate(FileLive(id), r.chan, id in r.rx.recv)
    {
      if k < |s.rx.replies| {
        assert s.rx.replies[k] == r.rx.replies[k];
      } else {
        assert Announced(r.chan, id) == 0;
        NotOfferedStaysDead(r.chan, id);
      }
    }
  }

  lemma FolderDelivered(s: Sys, env: Env, t: nat)
    requires Inv(s) && s.chan != [] && t in s.folders
    ensures FolderOk(Apply(s, Deliver(env)), t)
  {
    hide Handle, Owned, NothingReady, Copies, TaskOk, DragOk;
    var m, r := s.chan[0], Apply(s, Deliver(env));
    assert FolderOk(s, t);
    HandleCopies(s.rx, m, env, t);
    FateDelivered(s, env, TreeOpen(t));
  }

  lemma DragDelivered(s: Sys, env: Env, d: nat)
    requires Inv(s) && s.chan != [] && d in s.drags
    ensures DragOk(Apply(s, Deliver(env)), d)
  {
    hide Handle, Owned, NothingReady, TaskOk, FolderOk, Named, Unoffered, Fate, Due, NextDue, AtMost, FreshKind;
    var m, r := s.chan[0], Apply(s, Deliver(env));
    assert DragOk(s, d);
    HeadTreeIsNew(s);
    HandleDue(s.rx, m, env, d);
    FateDueMono(d, r.chan, Due(r.rx, d), NextDue(m, d, Due(s.rx, d)));
    AtMostTrans(FateDue(d, r.chan, Due(r.rx, d)), FateDue(d, s.chan, Due(s.rx, d)), Some(|Unoffered(s, d)|));
    UnofferedSame(s, r, d);
    FateDelivered(s, env, DragHeld(d));
  }

  lemma AtMostTrans(x: Option<int>, y: Option<int>, z: Option<int>)
    requires AtMost(x, y) && AtMost(y, z)
    ensures AtMost(x, z)
  {
  }

  lemma NamesDelivered(s: Sys, env: Env)
    requires Inv(s) && s.chan != []
    ensures Named(Apply(s, Deliver(env)))
  {
    hide Handle, Owned, NothingReady, TaskOk, FolderOk, DragOk, Copies, Announced;
    var m, r := s.chan[0], Apply(s, Deliver(env));
    assert MessageNamed(s, m);
    forall id | id !in s.files && id !in s.folders ensures Copies(r.rx, id) + Announced(r.chan, id) == 0 {
      UnknownDelivered(s, env, id);
    }
    forall k | 0 <= k < |r.chan| ensures MessageNamed(r, r.chan[k]) { assert MessageNamed(s, s.chan[k + 1]); }
    forall id | id in r.rx.recv ensures id in s.files { HandleRespects(FileLive(id), s.rx, m, env); }
    forall t | t in r.rx.trees ensures t in s.folders { HandleRespects(TreeKnown(t), s.rx, m, env); }
    HandleReplies(s.rx, m, env);
    forall k | 0 <= k < |r.rx.replies| ensures r.rx.replies[k].id in s.files {
      if k < |s.rx.replies| { assert s.rx.replies[k] == r.rx.replies[k]; }
    }
    DragNamed(s, env);
  }

  lemma UnknownDelivered(s: Sys, env: Env, id: nat)
    requires Named(s) && s.chan != [] && id !in s.files && id !in s.folders
    ensures Copies(Apply(s, Deliver(env)).rx, id) + Announced(s.chan[1..], id) == 0
  {
    hide Handle, Copies;
    assert MessageNamed(s, s.chan[0]);
    HandleCopies(s.rx, s.chan[0], env, id);
  }

  lemma DragNamed(s: Sys, env: Env)
    requires Inv(s) && s.chan != []
    ensures var d := Apply(s, Deliver(env)).rx.drag; d.Some? ==> d.value.drag in s.drags
  {
    hide Handle, Owned, NothingReady, TaskOk, FolderOk, DragOk, Copies, Announced;
    var m, r := s.chan[0], Apply(s, Deliver(env));
    assert MessageNamed(s, m);
    if r.rx.drag.Some? {
      HeadTreeIsNew(s);
      HandleDue(s.rx, m, env, r.rx.drag.value.drag);
    }
  }

  lemma HeadTreeIsNew(s: Sys)
    requires Inv(s) && s.chan != []
    ensures s.chan[0].TreeOffer? ==> s.chan[0].tree !in s.rx.trees
    ensures FreshKind(s.rx, s.chan[0])
  {
    hide Owned, NothingReady, DragOk;
    var m := s.chan[0];
    assert MessageNamed(s, m);
    if m.TreeOffer? { assert FolderOk(s, m.tree); }
    forall id | id in s.files ensures id !in s.folders { assert TaskOk(s, id); }
    if Offers(m).Some? { assert TaskOk(s, Offers(m).value); }
  }

  lemma HeadHandled(s: Sys, env: Env)
    requires Inv(s) && s.chan != []
    ensures Inv(Apply(s, Deliver(env)))
  {
    hide Handle, Owned, NothingReady, TaskOk, FolderOk, DragOk, Named, FreshKind, Fate, FateDue, Announced;
    var r := Apply(s, Deliver(env));
    HeadTreeIsNew(s);
    HandleKeepsOwnership(s.rx, s.chan[0], env);
    HandleLeavesNothingReady(s.rx, s.chan[0], env);
    NamesDelivered(s, env);
    forall id | id in r.files ensures TaskOk(r, id) { TaskDelivered(s, env, id); }
    forall t | t in r.folders ensures FolderOk(r, t) { FolderDelivered(s, env, t); }
    forall d | d in r.drags ensures DragOk(r, d) { DragDelivered(s, env, d); }
  }

  /* ---- the sender's steps ---- */

  /** A message that offers nothing. */
  lemma SentOther(s: Sys, m: Message)
    requires Inv(s) && Announces(m) == None && !m.DragBegin?
    ensures Inv(s.Send(m))
  {
    hide Owned, NothingReady, TaskOk, FolderOk, DragOk, Named;
    var r := s.Send(m);
    forall id | id in r.files ensures TaskOk(r, id) { SentTask(s, m, id); }
    forall t | t in r.folders ensures FolderOk(r, t) { SentFolder(s, m, t); }
    forall d | d in r.drags ensures DragOk(r, d) { SentDragOther(s, m, d); }
    SentNamed(s, m);
  }

  lemma SentDragOther(s: Sys, m: Message, d: nat)
    requires DragOk(s, d) && Announces(m) == None && !m.DragBegin?
    ensures DragOk(s.Send(m), d)
  {
    hide Fate, FateDue, Unoffered;
    FateAppend(DragHeld(d), s.chan, m, Now(DragHeld(d), s.rx));
    FateDueAppend(d, s.chan, m, Due(s.rx, d));
    UnofferedSame(s, s.Send(m), d);
  }

  lemma SentNamed(s: Sys, m: Message)
    requires Named(s) && MessageNamed(s, m)
    ensures Named(s.Send(m))
  {
    hide Copies, Announced;
    var r := s.Send(m);
    forall k | 0 <= k < |r.chan|
      ensures MessageNamed(r, r.chan[k])
    {
      if k < |s.chan| { assert MessageNamed(s, s.chan[k]); }
    }
    forall id | id !in s.files && id !in s.folders ensures Copies(r.rx, id) + Announced(r.chan, id) == 0 {
      AnnouncedAppend(s.chan, m, id);
    }
  }

  /** `r` is `s` with other task and folder records, but for the same ids. */
  ghost predicate SameTraffic(s: Sys, r: Sys) {
    r == s.(files := r.files, folders := r.folders) && r.files.Keys == s.files.Keys && r.folders.Keys == s.folders.Keys
  }

  lemma TrafficNamed(s: Sys, r: Sys)
    requires Named(s) && SameTraffic(s, r)
    ensures Named(r)
  {
    hide Copies, Announced;
    assert forall m :: MessageNamed(s, m) ==> MessageNamed(r, m);
  }

  lemma TrafficTask(s: Sys, r: Sys, id: nat)
    requires SameTraffic(s, r) && id in s.files && TaskOk(s, id) && r.files[id] == s.files[id]
    requires s.files[id].home.InTree? ==>
               var t := s.files[id].home.tree;
               t in s.folders ==>
                     r.folders[t].phase == s.folders[t].phase
                         || (r.folders[t].phase == Closed && s.files[id].phase == Over)
    ensures TaskOk(r, id)
  {
    hide Copies, Fate, Announced, Answered;
    assert RepliesOk(r, id);
  }

  lemma TrafficDrag(s: Sys, r: Sys, d: nat)
    requires SameTraffic(s, r) && DragOk(s, d)
    requires forall id :: id in s.files ==>
               r.files[id].home == s.files[id].home && r.files[id].offered == s.files[id].offered
    requires forall t :: t in s.folders ==>
               r.folders[t].drag == s.folders[t].drag
                   && (r.folders[t].phase == Walking <==> s.folders[t].phase == Walking)
    ensures DragOk(r, d)
  {
    hide Fate, FateDue;
    assert Unoffered(r, d) == Unoffered(s, d);
  }

  /** A task moves on without having offered anything new. */
  lemma Moved(s: Sys, id: nat, task: Task)
    requires Inv(s) && id in s.files && task.home == s.files[id].home && task.offered == s.files[id].offered
    requires TaskOk(s.WithFile(id, task), id)
    ensures Inv(s.WithFile(id, task))
  {
    hide Owned, NothingReady, Copies, Fate, FateDue, Announced, Answered, TaskOk, DragOk, Named;
    var r := s.WithFile(id, task);
    forall i | i in r.files ensures TaskOk(r, i) { if i != id { TrafficTask(s, r, i); } }
    forall t | t in r.folders ensures FolderOk(r, t) { assert FolderOk(s, t); }
    forall d | d in r.drags ensures DragOk(r, d) { TrafficDrag(s, r, d); }
    TrafficNamed(s, r);
  }

  /** A folder moves on without having been offered. */
  lemma FolderMoved(s: Sys, t: nat, f: Folder)
    requires Inv(s) && t in s.folders && f.drag == s.folders[t].drag
             && (f.phase == Walking <==> s.folders[t].phase == Walking)
    requires f.phase == Closed ==> !Fate(TreeOpen(t), s.chan, Now(TreeOpen(t), s.rx))
    requires f.phase != s.folders[t].phase && s.folders[t].phase == Filling ==> f.phase == Closed && s.Running(t) == {}
    requires s.folders[t].phase == Closed ==> f.phase == Closed
    ensures Inv(s.WithFolder(t, f))
  {
    hide Owned, NothingReady, Copies, Fate, FateDue, Announced, Answered, TaskOk, DragOk, Named;
    var r := s.WithFolder(t, f);
    forall i | i in r.files ensures TaskOk(r, i) {
      assert i !in s.Running(t) ==> s.files[i].home != InTree(t) || s.files[i].phase == Over;
      ChildPhase(s, i);
      TrafficTask(s, r, i);
    }
    forall u | u in r.folders ensures FolderOk(r, u) { assert FolderOk(s, u); }
    forall d | d in r.drags ensures DragOk(r, d) { TrafficDrag(s, r, d); }
    TrafficNamed(s, r);
  }

  lemma ChildPhase(s: Sys, id: nat)
    requires id in s.files && TaskOk(s, id)
    ensures s.files[id].home.InTree? && s.files[id].home.tree in s.folders ==>
              var p := s.folders[s.files[id].home.tree].phase;
              p == Filling || (p == Closed && s.files[id].phase == Over)
  {
  }

  /** A task gives up: nothing is or will be live under its id. */
  lemma Failed(s: Sys, id: nat)
    requires Inv(s) && id in s.files && !Fate(FileLive(id), s.chan, id in s.rx.recv)
    requires s.files[id].home.InDrag? ==> s.files[id].offered
    ensures Inv(s.Fail(id))
  {
    hide Owned, NothingReady, Copies, Fate, FateDue, Announced, Answered, FolderOk, DragOk, Named;
    var t := s.files[id];
    assert TaskOk(s, id) && RepliesOk(s, id);
    var s1 := s.WithFile(id, t.(phase := Over));
    assert RepliesOk(s1, id);
    Moved(s, id, t.(phase := Over));
    if t.home.InTree? && t.home.tree in s.folders {
      var f := s.folders[t.home.tree];
      assert f.phase == Closed ==> FolderOk(s1, t.home.tree);
      assert FolderOk(s1, t.home.tree) ==>
            f.phase == Closed ==> !Fate(TreeOpen(t.home.tree), s1.chan, Now(TreeOpen(t.home.tree), s1.rx))
        by { FolderEnds(s1, t.home.tree); }
      FolderMoved(s1, t.home.tree, f.(error := true));
    }
  }

  lemma FolderEnds(s: Sys, t: nat)
    requires t in s.folders && FolderOk(s, t)
    ensures s.folders[t].phase == Closed ==> !Fate(TreeOpen(t), s.chan, Now(TreeOpen(t), s.rx))
  {
  }

  /** What sending `m` leaves alone. */
  lemma SendKeeps(s: Sys, m: Message)
    ensures forall a: Aspect, x :: Fate(a, (s.chan + [m]), x) == Next(a, m, Fate(a, s.chan, x))
    ensures forall id: nat :: Announced(s.chan + [m], id) == Announced(s.chan, id) + One(Announces(m) == Some(id))
  {
    forall a: Aspect, x
      ensures Fate(a, s.chan + [m], x) == Next(a, m, Fate(a, s.chan, x))
    {
      FateAppend(a, s.chan, m, x);
    }
    forall id: nat ensures Announced(s.chan + [m], id) == Announced(s.chan, id) + One(Announces(m) == Some(id)) {
      AnnouncedAppend(s.chan, m, id);
    }
  }

  lemma SentTask(s: Sys, m: Message, i: nat)
    requires i in s.files && TaskOk(s, i) && Announces(m) != Some(i)
    ensures TaskOk(s.Send(m), i)
  {
    hide Copies, Fate, Announced, Answered;
    SendKeeps(s, m);
    assert RepliesOk(s.Send(m), i);
  }

  lemma SentFolder(s: Sys, m: Message, t: nat)
    requires t in s.folders && FolderOk(s, t) && Announces(m) != Some(t)
    ensures FolderOk(s.Send(m), t)
  {
    hide Copies, Fate, Announced;
    SendKeeps(s, m);
  }

  /** Offering an item takes it off the items still to be offered. */
  lemma SentDrag(s: Sys, r: Sys, m: Message, d: nat, i: nat)
    requires DragOk(s, d) && !m.DragBegin? && Announces(m) == Some(i)
    requires r == s.Send(m).(files := r.files, folders := r.folders)
    requires if OffersTo(m, d) then i in Unoffered(s, d) && Unoffered(r, d) == Unoffered(s, d) - {i}
             else Unoffered(r, d) == Unoffered(s, d)
    ensures DragOk(r, d)
  {
    hide Unoffered, Fate, FateDue;
    FateAppend(DragHeld(d), s.chan, m, Now(DragHeld(d), s.rx));
    FateDueAppend(d, s.chan, m, Due(s.rx, d));
  }

  predicate IsOffer(s: Sys, id: nat, m: Message)
    requires id in s.files
  {
    && Offers(m) == Some(id) && !m.DragBegin?
    && (m.DragOffer? <==> s.files[id].home.InDrag?) && (m.DragOffer? ==> m.drag == s.files[id].home.drag)
  }

  lemma Offered(s: Sys, id: nat, m: Message, task: Task)
    requires Inv(s) && PhaseIs(s, id, Ready) && IsOffer(s, id, m)
    requires task.home == s.files[id].home && task.offered && task.aborted == s.files[id].aborted
    requires task.phase == Waiting || task.phase == Failing
    ensures Inv(s.Send(m).WithFile(id, task))
  {
    hide Owned, NothingReady, Copies, Fate, FateDue, Announced, Answered, FolderOk, DragOk, Named;
    var s1 := s.Send(m);
    var r := s1.WithFile(id, task);
    OfferedTask(s, id, m, task);
    forall i | i in r.files && i != id ensures TaskOk(r, i) {
      SentTask(s, m, i);
      TrafficTask(s1, r, i);
    }
    forall t | t in r.folders ensures FolderOk(r, t) {
      assert TaskOk(s, id);
      SentFolder(s, m, t);
      FolderTraffic(s1, r, t);
    }
    forall d | d in r.drags ensures DragOk(r, d) {
      assert TaskOk(s, id);
      assert Unoffered(r, d) == if OffersTo(m, d) then Unoffered(s, d) - {id} else Unoffered(s, d);
      SentDrag(s, r, m, d, id);
    }
    SentNamed(s, m);
    TrafficNamed(s1, r);
  }

  lemma FolderTraffic(s: Sys, r: Sys, t: nat)
    requires SameTraffic(s, r) && t in s.folders && FolderOk(s, t) && r.folders[t] == s.folders[t]
    ensures FolderOk(r, t)
  {
    hide Copies, Fate, Announced;
  }

  lemma OfferedTask(s: Sys, id: nat, m: Message, task: Task)
    requires Inv(s) && PhaseIs(s, id, Ready) && IsOffer(s, id, m)
    requires task.home == s.files[id].home && task.offered && task.aborted == s.files[id].aborted
    requires task.phase == Waiting || task.phase == Failing
    ensures TaskOk(s.Send(m).WithFile(id, task), id)
  {
    hide Owned, NothingReady, Copies, Fate, FateDue, Announced, Answered, FolderOk, DragOk;
    var r := s.Send(m).WithFile(id, task);
    assert TaskOk(s, id);
    SendKeeps(s, m);
    if s.answered <= |s.rx.replies| { AnsweredPrefix(s.rx.replies, s.answered, id); }
    assert RepliesOk(r, id);
  }

  lemma FolderOffered(s: Sys, t: nat, m: Message, f: Folder)
    requires Inv(s) && FolderIs(s, t, Walking) && m.TreeOffer? && m.tree == t && m.within == s.folders[t].drag
    requires f.drag == s.folders[t].drag && (f.phase == Listing || f.phase == Unreadable)
    ensures Inv(s.Send(m).WithFolder(t, f))
  {
    hide Owned, NothingReady, Copies, Fate, FateDue, Announced, Answered, TaskOk, DragOk, Named;
    var s1 := s.Send(m);
    var r := s1.WithFolder(t, f);
    assert FolderOk(s, t);
    SendKeeps(s, m);
    forall i | i in r.files ensures TaskOk(r, i) {
      TaskNoFolder(s, i);
      SentTask(s, m, i);
      ChildPhase(s, i);
      TrafficTask(s1, r, i);
    }
    forall u | u in r.folders ensures FolderOk(r, u) {
      if u != t { SentFolder(s, m, u); FolderTraffic(s1, r, u); }
    }
    forall d | d in r.drags ensures DragOk(r, d) {
      assert Unoffered(r, d) == if OffersTo(m, d) then Unoffered(s, d) - {t} else Unoffered(s, d)
        by { if t in s.files { TaskNoFolder(s, t); } }
      SentDrag(s, r, m, d, t);
    }
    SentNamed(s, m);
    TrafficNamed(s1, r);
  }

  lemma TaskNoFolder(s: Sys, id: nat)
    requires id in s.files && TaskOk(s, id)
    ensures id !in s.folders && id < s.next
  {
  }

  /* ---- new tasks ---- */

  /** An id that was not drawn yet is used nowhere. */
  lemma NextIsNew(s: Sys)
    requires Inv(s)
    ensures s.next !in s.files && s.next !in s.folders && s.next !in s.drags
    ensures Copies(s.rx, s.next) == Announced(s.chan, s.next) == Answered(s.rx.replies, s.next) == 0
    ensures forall k :: 0 <= k < |s.rx.replies| ==> s.rx.replies[k].id != s.next
  {
    hide Owned, NothingReady, Copies, Announced, DragOk, FolderOk, TaskOk;
    if s.next in s.files { TaskNoFolder(s, s.next); assert false; }
    if s.next in s.folders { assert FolderOk(s, s.next); FolderBelow(s, s.next); assert false; }
    if s.next in s.drags { assert DragOk(s, s.next); DragBelow(s, s.next); assert false; }
    NoneAnswered(s.rx.replies, s.next);
  }

  lemma FolderBelow(s: Sys, t: nat)
    requires t in s.folders && FolderOk(s, t)
    ensures t < s.next
  {
  }

  lemma DragBelow(s: Sys, d: nat)
    requires DragOk(s, d)
    ensures d < s.next
  {
  }

  lemma {:induction false} NoneAnswered(rs: seq<Reply>, id: nat)
    requires forall k :: 0 <= k < |rs| ==> rs[k].id != id
    ensures Answered(rs, id) == 0
  {
    if rs != [] {
      NoneAnswered(rs[..|rs| - 1], id);
    }
  }

  lemma TaskStarted(s: Sys, home: Home, length: nat)
    requires Inv(s)
    requires home.InTree? ==> FolderIs(s, home.tree, Filling)
    requires home.InDrag? ==> home.drag in s.drags
    ensures Inv(StartTask(s, home, length))
    ensures forall d :: d in s.drags ==>
              |Unoffered(StartTask(s, home, length), d)| == |Unoffered(s, d)| + One(home == InDrag(d))
  {
    hide Owned, NothingReady, Copies, Fate, FateDue, Announced, Answered, TaskOk, FolderOk, DragOk, Named, Unoffered;
    var r := StartTask(s, home, length);
    NextIsNew(s);
    forall i | i in r.files ensures TaskOk(r, i) {
      if i == s.next { FirstTaskOk(s, home, length); } else { OlderTask(s, r, i); }
    }
    forall t | t in r.folders ensures FolderOk(r, t) { OlderFolder(s, r, t); }
    forall d | d in r.drags ensures DragOk(r, d) && |Unoffered(r, d)| == |Unoffered(s, d)| + One(home == InDrag(d)) {
      TaskUnoffered(s, home, length, d);
      OlderDrag(s, r, d);
    }
    NamedExtends(s, r);
  }

  lemma SameFolders(s: Sys, r: Sys, d: nat)
    requires r.folders == s.folders
    ensures UnofferedFolders(r, d) == UnofferedFolders(s, d)
  {
  }

  lemma TaskUnoffered(s: Sys, home: Home, length: nat, d: nat)
    requires s.next !in s.files && s.next !in s.folders
    ensures |Unoffered(StartTask(s, home, length), d)| == |Unoffered(s, d)| + One(home == InDrag(d))
  {
    var r := StartTask(s, home, length);
    SameFolders(s, r, d);
    hide UnofferedFolders;
    if home == InDrag(d) {
      assert UnofferedFiles(r, d) == UnofferedFiles(s, d) + {s.next};
      OneMore(UnofferedFiles(s, d), UnofferedFolders(s, d), s.next);
    } else {
      assert UnofferedFiles(r, d) == UnofferedFiles(s, d);
    }
  }

  lemma OneMore(a: set<nat>, b: set<nat>, x: nat)
    requires x !in a && x !in b
    ensures |a + {x} + b| == |a + b| + 1 && |b + (a + {x})| == |b + a| + 1
  {
    assert a + {x} + b == a + b + {x} && b + (a + {x}) == b + a + {x};
  }

  lemma SameFiles(s: Sys, r: Sys, d: nat)
    requires r.files == s.files
    ensures UnofferedFiles(r, d) == UnofferedFiles(s, d)
  {
  }

  lemma FolderUnoffered(s: Sys, drag: Option<nat>, dirs: nat, files: seq<nat>, d: nat)
    requires s.next !in s.files && s.next !in s.folders
    ensures |Unoffered(StartFolder(s, drag, dirs, files), d)| == |Unoffered(s, d)| + One(drag == Some(d))
  {
    var r := StartFolder(s, drag, dirs, files);
    SameFiles(s, r, d);
    hide UnofferedFiles;
    if drag == Some(d) {
      assert UnofferedFolders(r, d) == UnofferedFolders(s, d) + {s.next};
      OneMore(UnofferedFolders(s, d), UnofferedFiles(s, d), s.next);
    } else {
      assert UnofferedFolders(r, d) == UnofferedFolders(s, d);
    }
  }

  /** `r` has all that `s` has, and more tasks. */
  ghost predicate Extends(s: Sys, r: Sys) {
    && r == s.(files := r.files, folders := r.folders, next := r.next) && s.next <= r.next
    && (forall i :: i in s.files ==> i in r.files && r.files[i] == s.files[i])
    && (forall t :: t in s.folders ==> t in r.folders && r.folders[t] == s.folders[t])
    && (forall t :: t in r.folders && t !in s.folders ==> t >= s.next)
  }

  lemma OlderTask(s: Sys, r: Sys, i: nat)
    requires Extends(s, r) && i in s.files && TaskOk(s, i)
    ensures TaskOk(r, i)
  {
    hide Copies, Fate, Announced, Answered;
    assert RepliesOk(r, i);
  }

  lemma OlderFolder(s: Sys, r: Sys, t: nat)
    requires Extends(s, r) && t in s.folders && FolderOk(s, t)
    ensures FolderOk(r, t)
  {
    hide Copies, Fate, Announced;
  }

  lemma OlderDrag(s: Sys, r: Sys, d: nat)
    requires Extends(s, r) && DragOk(s, d) && |Unoffered(r, d)| >= |Unoffered(s, d)|
    ensures DragOk(r, d)
  {
    hide Fate, FateDue, Unoffered;
  }

  lemma NamedExtends(s: Sys, r: Sys)
    requires Extends(s, r) && Named(s)
    ensures Named(r)
  {
    hide Copies, Announced;
    assert forall m :: MessageNamed(s, m) ==> MessageNamed(r, m);
  }

  lemma FirstTaskOk(s: Sys, home: Home, length: nat)
    requires Inv(s)
    requires home.InTree? ==> FolderIs(s, home.tree, Filling)
    requires home.InDrag? ==> home.drag in s.drags
    ensures TaskOk(StartTask(s, home, length), s.next)
  {
    hide Owned, NothingReady, Fate, FateDue, Announced, Answered, FolderOk, DragOk;
    NextIsNew(s);
    var r := StartTask(s, home, length);
    assert RepliesOk(r, s.next);
    assert Copies(s.rx, s.next) == 0 ==> s.next !in s.rx.recv;
  }

  lemma FolderStarted(s: Sys, drag: Option<nat>, dirs: nat, files: seq<nat>)
    requires Inv(s) && (drag.Some? ==> drag.value in s.drags)
    ensures Inv(StartFolder(s, drag, dirs, files))
    ensures forall d :: d in s.drags ==>
              |Unoffered(StartFolder(s, drag, dirs, files), d)| == |Unoffered(s, d)| + One(drag == Some(d))
  {
    hide Owned, NothingReady, Copies, Fate, FateDue, Announced, Answered, TaskOk, DragOk, Named, Unoffered;
    var r := StartFolder(s, drag, dirs, files);
    NextIsNew(s);
    forall i | i in r.files ensures TaskOk(r, i) { OlderTask(s, r, i); }
    forall t | t in r.folders ensures FolderOk(r, t) { if t != s.next { OlderFolder(s, r, t); } }
    forall d | d in r.drags ensures DragOk(r, d) && |Unoffered(r, d)| == |Unoffered(s, d)| + One(drag == Some(d)) {
      FolderUnoffered(s, drag, dirs, files, d);
      OlderDrag(s, r, d);
    }
    NamedExtends(s, r);
  }

  lemma {:induction false} ItemsStarted(s: Sys, d: nat, items: seq<Item>)
    requires Inv(s) && d in s.drags
    ensures var r := StartItems(s, d, items);
            && Inv(r) && r.drags == s.drags && r.chan == s.chan && r.rx == s.rx && r.current == s.current
            && |Unoffered(r, d)| == |Unoffered(s, d)| + |items|
  {
    hide Inv, Unoffered;
    if items != [] {
      ItemsStarted(s, d, items[..|items| - 1]);
      var front := StartItems(s, d, items[..|items| - 1]);
      match items[|items| - 1]
      case OneFile(length) => TaskStarted(front, InDrag(d), length);
      case OneFolder(dirs, files) => FolderStarted(front, Some(d), dirs, files);
    }
  }

  /** A drag id just drawn, before anything is announced for it. */
  lemma DragDrawn(s: Sys)
    requires Inv(s)
    ensures var r := s.(drags := s.drags + {s.next}, next := s.next + 1);
            Inv(r) && Unoffered(r, s.next) == {} && FateDue(s.next, s.chan, Due(s.rx, s.next)) == None
  {
    hide Owned, NothingReady, Copies, Announced, Answered, TaskOk, FolderOk, DragOk, Fate, FateDue;
    var d, r := s.next, s.(drags := s.drags + {s.next}, next := s.next + 1);
    NextIsNew(s);
    forall i | i in r.files ensures TaskOk(r, i) { DragsGrow(s, r); TaskDrags(s, r, i); }
    forall t | t in r.folders ensures FolderOk(r, t) { FolderDrags(s, r, t); }
    forall k | 0 <= k < |s.chan|
      ensures !(s.chan[k].DragBegin? && s.chan[k].drag == d)
    {
      assert MessageNamed(s, s.chan[k]);
    }
    NotBegun(d, s.chan);
    HeldNever(d, s.chan);
    assert Unoffered(r, d) == {} by {
      forall i | i in s.files ensures s.files[i].home != InDrag(d) { TaskDrags(s, r, i); }
      forall t | t in s.folders ensures s.folders[t].drag != Some(d) { FolderDrags(s, r, t); }
    }
    assert DragOk(r, d) by { FirstDragOk(s, r); }
    forall e | e in s.drags ensures DragOk(r, e) { OlderDragOk(s, r, e); }
    NamedDrags(s, r);
  }

  lemma FirstDragOk(s: Sys, r: Sys)
    requires r == s.(drags := s.drags + {s.next}, next := s.next + 1) && Due(s.rx, s.next) == None
    requires FateDue(s.next, s.chan, None) == None && !Fate(DragHeld(s.next), s.chan, false)
    ensures DragOk(r, s.next)
  {
    hide Fate, FateDue;
  }

  lemma OlderDragOk(s: Sys, r: Sys, e: nat)
    requires r == s.(drags := s.drags + {s.next}, next := s.next + 1) && DragOk(s, e)
    ensures DragOk(r, e)
  {
    hide Fate, FateDue;
    UnofferedSame(s, r, e);
  }

  lemma NamedDrags(s: Sys, r: Sys)
    requires r == s.(drags := s.drags + {s.next}, next := s.next + 1) && Named(s)
    ensures Named(r)
  {
    hide Copies, Announced;
    assert forall m :: MessageNamed(s, m) ==> MessageNamed(r, m);
  }

  lemma DragsGrow(s: Sys, r: Sys)
    requires r == s.(drags := s.drags + {s.next}, next := s.next + 1)
    ensures s.drags <= r.drags
  {
  }

  lemma TaskDrags(s: Sys, r: Sys, i: nat)
    requires r == s.(drags := s.drags + {s.next}, next := s.next + 1) && i in s.files && TaskOk(s, i)
             && s.next !in s.drags
    ensures TaskOk(r, i) && s.files[i].home != InDrag(s.next)
  {
    hide Copies, Fate, Announced, Answered;
    assert RepliesOk(r, i);
  }

  lemma FolderDrags(s: Sys, r: Sys, t: nat)
    requires r == s.(drags := s.drags + {s.next}, next := s.next + 1) && t in s.folders && FolderOk(s, t)
             && s.next !in s.drags
    ensures FolderOk(r, t) && s.folders[t].drag != Some(s.next)
  {
    hide Copies, Fate, Announced;
  }

  lemma {:induction false} NotBegun(d: nat, ms: seq<Message>)
    requires forall k :: 0 <= k < |ms| ==> !(ms[k].DragBegin? && ms[k].drag == d)
    ensures FateDue(d, ms, None) == None
  {
    if ms != [] {
      NotBegun(d, ms[1..]);
    }
  }

  lemma {:induction false} HeldNever(d: nat, ms: seq<Message>)
    requires forall k :: 0 <= k < |ms| ==> !(ms[k].DragBegin? && ms[k].drag == d)
    ensures !Fate(DragHeld(d), ms, false)
  {
    if ms != [] {
      HeldNever(d, ms[1..]);
    }
  }

  lemma DragStarted(s: Sys, items: seq<Item>)
    requires Inv(s) && items != []
    ensures Inv(Apply(s, StartDrag(items)))
  {
    hide Owned, NothingReady, Copies, Announced, Answered, TaskOk, FolderOk, StartItems, Unoffered;
    var d := s.next;
    var s0 := s.(drags := s.drags + {d}, next := d + 1);
    DragDrawn(s);
    ItemsStarted(s0, d, items);
    var s1 := StartItems(s0, d, items);
    var m := DragBegin(d, |items|);
    var s2 := s1.Send(m);
    var r := s2.(current := Some(d));
    forall i | i in r.files ensures TaskOk(r, i) { SentTask(s1, m, i); TaskCurrent(s2, i, Some(d)); }
    forall t | t in r.folders ensures FolderOk(r, t) { SentFolder(s1, m, t); FolderCurrent(s2, t, Some(d)); }
    forall e | e in r.drags ensures DragOk(r, e) {
      assert DragOk(s1, e);
      FateAppend(DragHeld(e), s1.chan, m, Now(DragHeld(e), s1.rx));
      FateDueAppend(e, s1.chan, m, Due(s1.rx, e));
      UnofferedSame(s1, r, e);
    }
    SentNamed(s1, m);
    CurrentNamed(s2, Some(d));
  }

  lemma UnofferedSame(s: Sys, r: Sys, d: nat)
    requires r.files == s.files && r.folders == s.folders
    ensures Unoffered(r, d) == Unoffered(s, d)
  {
  }

  lemma TaskCurrent(s: Sys, i: nat, current: Option<nat>)
    requires i in s.files && TaskOk(s, i)
    ensures TaskOk(s.(current := current), i)
  {
    hide Copies, Fate, Announced, Answered;
    assert RepliesOk(s.(current := current), i);
  }

  lemma FolderCurrent(s: Sys, t: nat, current: Option<nat>)
    requires t in s.folders && FolderOk(s, t)
    ensures FolderOk(s.(current := current), t)
  {
    hide Copies, Fate, Announced;
  }

  lemma CurrentNamed(s: Sys, current: Option<nat>)
    requires Named(s) && (current.Some? ==> current.value in s.drags)
    ensures Named(s.(current := current))
  {
    hide Copies, Announced;
    var r := s.(current := current);
    assert forall m :: MessageNamed(s, m) ==> MessageNamed(r, m);
  }

  /* ---- every step ---- */

  /** The drag not resolved yet is released or cancelled. */
  lemma Resolved(s: Sys, m: Message)
    requires Inv(s) && s.current.Some? && (m == DragDrop(s.current.value) || m == DragCancel(s.current.value))
    ensures Inv(s.Send(m).(current := None))
  {
    hide Owned, NothingReady, Copies, Fate, FateDue, Announced, Answered, TaskOk, FolderOk, Named;
    SentOther(s, m);
    var s1 := s.Send(m);
    var r := s1.(current := None);
    forall i | i in r.files ensures TaskOk(r, i) { TaskCurrent(s1, i, None); }
    forall t | t in r.folders ensures FolderOk(r, t) { FolderCurrent(s1, t, None); }
    forall d | d in r.drags ensures DragOk(r, d) {
      assert DragOk(s1, d);
      UnofferedSame(s1, r, d);
      FateAppend(DragHeld(d), s.chan, m, Now(DragHeld(d), s.rx));
    }
    CurrentNamed(s1, None);
  }

  /** The sender reads a reply that its task is not waiting for. */
  lemma ReplyRead(s: Sys)
    requires Inv(s) && s.answered < |s.rx.replies|
    requires var r := s.rx.replies[s.answered]; Answers(r, r.id) && r.id in s.files ==> s.files[r.id].phase != Waiting
    ensures Inv(s.(answered := s.answered + 1))
  {
    hide Owned, NothingReady, Copies, Fate, FateDue, Announced, FolderOk, Named;
    var r := s.(answered := s.answered + 1);
    var reply := s.rx.replies[s.answered];
    assert r.rx.replies[..r.answered][..s.answered] == s.rx.replies[..s.answered];
    forall i | i in r.files ensures TaskOk(r, i) { assert TaskOk(s, i) && RepliesOk(r, i); }
    forall t | t in r.folders ensures FolderOk(r, t) { FolderRead(s, t); }
    forall d | d in r.drags ensures DragOk(r, d) { assert DragOk(s, d); UnofferedSame(s, r, d); }
    NamedRead(s);
  }

  lemma FolderRead(s: Sys, t: nat)
    requires t in s.folders && FolderOk(s, t)
    ensures FolderOk(s.(answered := s.answered + 1), t)
  {
    hide Copies, Fate, Announced;
  }

  lemma NamedRead(s: Sys)
    requires Named(s) && s.answered < |s.rx.replies|
    ensures Named(s.(answered := s.answered + 1))
  {
    hide Copies, Announced;
    assert forall m :: MessageNamed(s, m) ==> MessageNamed(s.(answered := s.answered + 1), m);
  }

  /** A task that got past waiting. */
  lemma NoLongerWaiting(s: Sys, id: nat)
    requires Inv(s) && PhaseIs(s, id, Waiting)
    ensures Inv(s.WithFile(id, s.files[id].(phase := Streaming)))
  {
    hide Owned, NothingReady, Copies, Fate, FateDue, Announced, Answered, FolderOk, DragOk, Named;
    assert TaskOk(s, id);
    var r := s.WithFile(id, s.files[id].(phase := Streaming));
    assert RepliesOk(r, id);
    Moved(s, id, s.files[id].(phase := Streaming));
  }

  /** What a reply tells about its file. */
  lemma ReplyMeans(s: Sys, k: nat)
    requires Inv(s) && k < |s.rx.replies|
    ensures var r := s.rx.replies[k];
            && r.id in s.files && Answered(s.rx.replies, r.id) > 0
            && s.files[r.id].offered
            && (!r.Accept? ==> !Fate(FileLive(r.id), s.chan, r.id in s.rx.recv))
  {
    hide Owned, NothingReady, Copies, Fate, FateDue, Announced, Answered, FolderOk, DragOk;
    assert TaskOk(s, s.rx.replies[k].id);
  }

  lemma ReplyDelivered(s: Sys)
    requires Inv(s) && s.answered < |s.rx.replies|
    ensures Inv(Apply(s, DeliverReply))
  {
    hide Inv, TaskOk, Fate, Answered;
    var reply, id := s.rx.replies[s.answered], s.rx.replies[s.answered].id;
    ReplyMeans(s, s.answered);
    var next := s.answered + 1;
    if reply.Abort? {
      ReplyRead(s);
      Aborted(s.(answered := next), id);
    } else if s.files[id].phase == Waiting {
      NoLongerWaiting(s, id);
      var s1 := s.WithFile(id, s.files[id].(phase := Streaming));
      ReplyRead(s1);
      if reply.Accept? {
        assert Apply(s, DeliverReply) == s1.(answered := next);
      } else {
        Failed(s1.(answered := next), id);
        assert s1.files[id := s.files[id].(phase := Over)] == s.files[id := s.files[id].(phase := Over)];
      }
    } else {
      ReplyRead(s);
    }
  }

  lemma Aborted(s: Sys, id: nat)
    requires Inv(s) && id in s.files && Answered(s.rx.replies, id) > 0 && !Fate(FileLive(id), s.chan, id in s.rx.recv)
    ensures Inv(s.WithFile(id, s.files[id].(aborted := true)))
  {
    hide Owned, NothingReady, Copies, Fate, FateDue, Announced, Answered, FolderOk, DragOk, Named;
    assert TaskOk(s, id);
    var r := s.WithFile(id, s.files[id].(aborted := true));
    assert RepliesOk(r, id);
    Moved(s, id, s.files[id].(aborted := true));
  }

  lemma FileStep(s: Sys, step: Step)
    requires Inv(s) && Enabled(s, step)
    requires step.OpenFile? || step.OpenFails? || step.CancelUnopened? || step.SendChunk? || step.ReadFails?
             || step.Finish? || step.StopAborted?
    ensures Inv(Apply(s, step))
  {
    hide Inv, Fate, RepliesOk, Copies, Announced, Answered;
    var id := step.id;
    assert TaskOk(s, id) by { TaskIsOk(s, id); }
    match step
    case OpenFile(_, name, size) =>
      Offered(s, id, OfferOf(s.files[id].home, id, name, size),
              s.files[id].(phase := Waiting, size := size, offered := true));
    case OpenFails(_, name) =>
      if s.files[id].home.InDrag? {
        Offered(s, id, DragOffer(s.files[id].home.drag, id, name, 0), s.files[id].(phase := Failing, offered := true));
      } else {
        NeverOffered(s, id);
        Failed(s, id);
      }
    case CancelUnopened(_, why) => Cancelling(s, id, why);
    case ReadFails(_, why) => Cancelling(s, id, why);
    case Finish(_, digest, why) =>
      if s.files[id].offset == s.files[id].size { Finished(s, id, digest); } else { Cancelling(s, id, why); }
    case StopAborted(_) => Failed(s, id);
    case SendChunk(_, data) =>
      var t := s.files[id];
      var s1 := s.Send(FileChunk(id, t.offset, data));
      SentOther(s, FileChunk(id, t.offset, data));
      TaskIsOk(s1, id);
      var task := t.(offset := t.offset + |data|, left := t.left - |data|);
      var r := s1.WithFile(id, task);
      assert RepliesOk(r, id) by { RepliesSame(s1, r, id); }
      Moved(s1, id, task);
  }

  lemma TaskIsOk(s: Sys, id: nat)
    requires Inv(s) && id in s.files
    ensures TaskOk(s, id)
  {
    hide Owned, NothingReady, Named, TaskOk, FolderOk, DragOk;
  }

  lemma RepliesSame(s: Sys, r: Sys, id: nat)
    requires RepliesOk(s, id) && r.rx == s.rx && r.chan == s.chan
    ensures RepliesOk(r, id)
  {
    hide Fate, Answered;
  }

  /** A file that was never offered is not live. */
  lemma NeverOffered(s: Sys, id: nat)
    requires id in s.files && TaskOk(s, id) && !s.files[id].offered
    ensures !Fate(FileLive(id), s.chan, id in s.rx.recv)
  {
    hide Fate;
    NotOfferedStaysDead(s.chan, id);
  }

  lemma Cancelling(s: Sys, id: nat, why: Reason)
    requires Inv(s) && id in s.files && s.files[id].offered
    ensures Inv(s.Send(FileCancel(id, why)).Fail(id))
  {
    hide Inv, Fate;
    var m := FileCancel(id, why);
    SentOther(s, m);
    FateAppend(FileLive(id), s.chan, m, id in s.rx.recv);
    Failed(s.Send(m), id);
  }

  lemma Finished(s: Sys, id: nat, digest: Digest)
    requires Inv(s) && id in s.files && s.files[id].offered
    ensures Inv(s.Send(FileDone(id, digest)).WithFile(id, s.files[id].(phase := Over)))
  {
    hide Inv, Fate, RepliesOk, Copies, Announced, Answered;
    var m := FileDone(id, digest);
    var s1 := s.Send(m);
    SentOther(s, m);
    FateAppend(FileLive(id), s.chan, m, id in s.rx.recv);
    TaskIsOk(s1, id);
    var r := s1.WithFile(id, s.files[id].(phase := Over));
    assert RepliesOk(r, id) by { RepliesSame(s1, r, id); }
    Moved(s1, id, s.files[id].(phase := Over));
  }

  lemma FolderStep(s: Sys, step: Step)
    requires Inv(s) && Enabled(s, step)
    requires step.Walked? || step.WalkFails? || step.CloseUnreadable? || step.SendDir? || step.StartFiles?
             || step.StartFile? || step.CloseFolder?
    ensures Inv(Apply(s, step))
  {
    hide Inv, Fate;
    var t := step.tree;
    var f := s.folders[t];
    match step
    case Walked(_, name, count, bytes) =>
      FolderOffered(s, t, TreeOffer(t, name, count, bytes, f.drag), f.(phase := Listing));
    case WalkFails(_, name) => FolderOffered(s, t, TreeOffer(t, name, 0, 0, f.drag), f.(phase := Unreadable));
    case CloseUnreadable(_, text) => Closing(s, t, Some(text));
    case SendDir(_, rel) =>
      SentOther(s, TreeDir(t, rel));
      FolderMoved(s.Send(TreeDir(t, rel)), t, f.(dirs := f.dirs - 1));
    case StartFiles(_) => FolderMoved(s, t, f.(phase := Filling));
    case StartFile(_) =>
      FolderMoved(s, t, f.(files := f.files[1..]));
      TaskStarted(s.WithFolder(t, f.(files := f.files[1..])), InTree(t), f.files[0]);
    case CloseFolder(_, text) => Closing(s, t, if f.error then Some(text) else None);
  }

  lemma Closing(s: Sys, t: nat, error: Option<string>)
    requires Inv(s) && t in s.folders && s.folders[t].phase != Walking
    requires s.folders[t].phase == Filling ==> s.Running(t) == {}
    ensures Inv(s.Send(TreeEnd(t, error)).WithFolder(t, s.folders[t].(phase := Closed)))
  {
    hide Inv, Fate;
    var m := TreeEnd(t, error);
    SentOther(s, m);
    FateAppend(TreeOpen(t), s.chan, m, Now(TreeOpen(t), s.rx));
    assert s.Send(m).Running(t) == s.Running(t);
    FolderMoved(s.Send(m), t, s.folders[t].(phase := Closed));
  }

  lemma StepKeepsInv(s: Sys, step: Step)
    requires Inv(s) && Enabled(s, step)
    ensures Inv(Apply(s, step))
  {
    hide Inv, Handle;
    match step
    case SendPlain(length) => TaskStarted(s, Plain, length);
    case SendFolder(dirs, files) => FolderStarted(s, None, dirs, files);
    case StartDrag(items) => DragStarted(s, items);
    case ReleaseDrag => Resolved(s, DragDrop(s.current.value));
    case CancelDrag => Resolved(s, DragCancel(s.current.value));
    case Deliver(env) => HeadHandled(s, env);
    case DeliverReply => ReplyDelivered(s);
    case _ =>
      if step.OpenFile? || step.OpenFails? || step.CancelUnopened? || step.SendChunk? || step.ReadFails?
          || step.Finish? || step.StopAborted? {
        FileStep(s, step);
      } else {
        FolderStep(s, step);
      }
  }

  lemma StartIsSound(s: Sys)
    requires IsStart(s)
    ensures Inv(s)
  {
  }

  lemma {:induction false} PlayKeepsInv(s: Sys, steps: seq<Step>)
    requires IsStart(s) && Play(s, steps).Some?
    ensures Inv(Play(s, steps).value)
  {
    hide Inv, Apply;
    if steps == [] {
      StartIsSound(s);
    } else {
      PlayKeepsInv(s, steps[..|steps| - 1]);
      StepKeepsInv(Play(s, steps[..|steps| - 1]).value, steps[|steps| - 1]);
    }
  }

  /* ---- the theorems ---- */

  lemma QuietEndsFiles(s: Sys)
    requires Inv(s) && Quiet(s)
    ensures s.rx.recv == map[]
  {
    hide Owned, NothingReady, FolderOk, DragOk;
    forall id | id in s.files ensures id !in s.rx.recv { assert TaskOk(s, id); }
  }

  lemma QuietSettlesFolders(s: Sys)
    requires Inv(s) && Quiet(s) && s.rx.recv == map[]
    ensures forall t :: t in s.rx.trees ==> s.rx.trees[t].Settled()
  {
    hide NothingReady, TaskOk, DragOk;
    forall t | t in s.rx.trees ensures s.rx.trees[t].Settled() {
      assert FolderOk(s, t) && TreeOwned(s.rx, t);
      assert FilesOf(s.rx, t) == {};
    }
  }

  lemma QuietEmptiesReceiver(s: Sys)
    requires Inv(s) && Quiet(s)
    ensures s.rx.recv == map[] && s.rx.trees == map[]
  {
    QuietEndsFiles(s);
    QuietSettlesFolders(s);
  }

  lemma QuietResolvesDrag(s: Sys)
    requires Inv(s) && Quiet(s) && s.rx.drag.Some?
    ensures s.current == Some(s.rx.drag.value.drag)
  {
    QuietEmptiesReceiver(s);
    var d := s.rx.drag.value;
    assert DragOk(s, d.drag);
    forall id | id in s.files
      ensures !(s.files[id].home == InDrag(d.drag) && !s.files[id].offered)
    {
      assert TaskOk(s, id);
    }
    assert Unoffered(s, d.drag) == {};
    assert LooseOf(s.rx, d.drag) == {} && CountedOf(s.rx, d.drag) == {};
  }

  /** Whatever files, folders and drags are sent, whatever cannot be read, is
      refused or breaks off, and however the two ends and the channel interleave:
      once every task is through and every message handled, no transfer and no
      folder is left at the receiver, and no drag but one the user is still
      holding. Nothing was delivered twice. */
  lemma NoStrandedDrop(start: Sys, steps: seq<Step>)
    requires IsStart(start) && Play(start, steps).Some? && Quiet(Play(start, steps).value)
    ensures var s := Play(start, steps).value;
            && s.rx.recv == map[] && s.rx.trees == map[]
            && (s.rx.drag.Some? ==> s.current == Some(s.rx.drag.value.drag))
            && (forall id :: Copies(s.rx, id) <= 1)
  {
    hide Inv, Copies, Play;
    PlayKeepsInv(start, steps);
    var s := Play(start, steps).value;
    QuietEmptiesReceiver(s);
    if s.rx.drag.Some? { QuietResolvesDrag(s); }
    forall id ensures Copies(s.rx, id) <= 1 { NowhereTwice(s, id); }
  }

  lemma NowhereTwice(s: Sys, id: nat)
    requires Inv(s)
    ensures Copies(s.rx, id) <= 1
  {
    hide Owned, NothingReady, Copies, Fate, FateDue, Answered, DragOk;
    if id in s.files { assert TaskOk(s, id); } else if id in s.folders { assert FolderOk(s, id); }
  }

  /* ---- it ends ---- */

  /** A step that is not the user's. */
  predicate Continues(step: Step) {
    !(step.SendPlain? || step.SendFolder? || step.StartDrag? || step.ReleaseDrag? || step.CancelDrag?)
  }

  /** What is left to do for a file, at most. */
  function FileRank(t: Task): nat {
    match t.phase
    case Over => 0
    case Failing => 1
    case Streaming => t.left + 1
    case Waiting => t.left + 2
    case Ready => t.left + 3
  }

  /** What is left to do for files that were not started yet. */
  function LengthsRank(lengths: seq<nat>): nat {
    if lengths == [] then 0 else lengths[0] + 4 + LengthsRank(lengths[1..])
  }

  function FolderRank(f: Folder): nat {
    match f.phase
    case Closed => 0
    case Unreadable => 1
    case Filling => LengthsRank(f.files) + 1
    case Listing => LengthsRank(f.files) + f.dirs + 2
    case Walking => LengthsRank(f.files) + f.dirs + 3
  }

  /** As many cells as the numbers add up to. */
  function Cells(ranks: map<nat, nat>): set<(nat, nat)> { set i, k | i in ranks && 0 <= k < ranks[i] :: (i, k) }

  function Column(i: nat, n: nat): set<(nat, nat)> { set k | 0 <= k < n :: (i, k) }

  lemma {:induction false} ColumnSize(i: nat, n: nat)
    ensures |Column(i, n)| == n
  {
    if n > 0 {
      ColumnSize(i, n - 1);
      assert Column(i, n) == Column(i, n - 1) + {(i, n - 1)};
    }
  }

  lemma CellsSplit(ranks: map<nat, nat>, i: nat)
    requires i in ranks
    ensures |Cells(ranks)| == |Cells(ranks - {i})| + ranks[i]
  {
    var rest, column := Cells(ranks - {i}), Column(i, ranks[i]);
    forall c: (nat, nat) ensures c in Cells(ranks) <==> c in rest || c in column {
      if c.0 == i { assert c !in rest; } else { assert c !in column; }
    }
    assert Cells(ranks) == rest + column && rest !! column;
    ColumnSize(i, ranks[i]);
  }

  lemma CellsWith(ranks: map<nat, nat>, i: nat, n: nat)
    ensures |Cells(ranks[i := n])| + (if i in ranks then ranks[i] else 0) == |Cells(ranks)| + n
  {
    hide Cells;
    assert ranks[i := n] - {i} == ranks - {i};
    CellsSplit(ranks[i := n], i);
    if i in ranks { CellsSplit(ranks, i); } else { assert ranks - {i} == ranks; }
  }

  function FileRanks(s: Sys): map<nat, nat> { map id | id in s.files :: FileRank(s.files[id]) }

  function FolderRanks(s: Sys): map<nat, nat> { map t | t in s.folders :: FolderRank(s.folders[t]) }

  /** What the tasks still have to go through, in steps. */
  function Work(s: Sys): nat { |Cells(FileRanks(s))| + |Cells(FolderRanks(s))| }

  /** A bound on the steps until everything is sent and handled. */
  function StepsLeft(s: Sys): int { 3 * Work(s) + 2 * |s.chan| + |s.rx.replies| - s.answered }

  lemma FileWork(s: Sys, r: Sys, id: nat)
    requires id in r.files && r.files == s.files[id := r.files[id]]
    ensures |Cells(FileRanks(r))| + (if id in s.files then FileRank(s.files[id]) else 0)
         == |Cells(FileRanks(s))| + FileRank(r.files[id])
  {
    assert FileRanks(r) == FileRanks(s)[id := FileRank(r.files[id])];
    CellsWith(FileRanks(s), id, FileRank(r.files[id]));
  }

  lemma FolderWork(s: Sys, r: Sys, t: nat)
    requires t in s.folders && t in r.folders && r.folders == s.folders[t := r.folders[t]]
    ensures |Cells(FolderRanks(r))| + FolderRank(s.folders[t]) == |Cells(FolderRanks(s))| + FolderRank(r.folders[t])
  {
    assert FolderRanks(r) == FolderRanks(s)[t := FolderRank(r.folders[t])];
    CellsWith(FolderRanks(s), t, FolderRank(r.folders[t]));
  }

  /** A folder that gets to know of an error has no more to do. */
  lemma SameFolderWork(s: Sys, r: Sys)
    requires r.folders.Keys == s.folders.Keys && forall t :: t in s.folders ==>
               FolderRank(r.folders[t]) == FolderRank(s.folders[t])
    ensures FolderRanks(r) == FolderRanks(s)
  {
  }

  lemma FileAdvances(s: Sys, r: Sys, id: nat)
    requires id in s.files && id in r.files && r.files == s.files[id := r.files[id]]
    requires r.folders.Keys == s.folders.Keys && forall t :: t in s.folders ==>
               FolderRank(r.folders[t]) == FolderRank(s.folders[t])
    requires FileRank(r.files[id]) < FileRank(s.files[id])
    ensures Work(r) < Work(s)
  {
    hide Cells, FileRank, FolderRank;
    FileWork(s, r, id);
    SameFolderWork(s, r);
  }

  lemma FolderAdvances(s: Sys, r: Sys, t: nat)
    requires t in s.folders && t in r.folders && r.folders == s.folders[t := r.folders[t]] && r.files == s.files
    requires FolderRank(r.folders[t]) < FolderRank(s.folders[t])
    ensures Work(r) < Work(s)
  {
    hide Cells, FileRank, FolderRank;
    FolderWork(s, r, t);
    assert FileRanks(r) == FileRanks(s);
  }

  /** A file is started: what was its folder's to do is its own now. */
  lemma StartAdvances(s: Sys, t: nat)
    requires Enabled(s, StartFile(t)) && s.next !in s.files
    ensures Work(Apply(s, StartFile(t))) < Work(s)
  {
    hide Cells;
    var r := Apply(s, StartFile(t));
    FileWork(s, r, s.next);
    FolderWork(s, r, t);
  }

  lemma SameWork(s: Sys, r: Sys)
    requires r.files == s.files && r.folders == s.folders
    ensures Work(r) == Work(s)
  {
    assert FileRanks(r) == FileRanks(s) && FolderRanks(r) == FolderRanks(s);
  }

  lemma ReplyWork(s: Sys)
    requires s.answered < |s.rx.replies|
    ensures Work(Apply(s, DeliverReply)) <= Work(s)
  {
    hide Cells, Work;
    var r, reply := Apply(s, DeliverReply), s.rx.replies[s.answered];
    if reply.id in s.files && reply.Abort? {
      AbortWork(s, r, reply.id);
    } else if reply.id in s.files && s.files[reply.id].phase == Waiting {
      FileAdvances(s, r, reply.id);
    } else {
      SameWork(s, r);
    }
  }

  lemma AbortWork(s: Sys, r: Sys, id: nat)
    requires id in s.files && r.files == s.files[id := s.files[id].(aborted := true)] && r.folders == s.folders
    ensures Work(r) == Work(s)
  {
    hide Cells;
    FileWork(s, r, id);
    assert FolderRanks(r) == FolderRanks(s);
  }

  lemma FileStepWork(s: Sys, step: Step)
    requires Enabled(s, step)
    requires step.OpenFile? || step.OpenFails? || step.CancelUnopened? || step.SendChunk? || step.ReadFails?
             || step.Finish? || step.StopAborted?
    ensures Work(Apply(s, step)) < Work(s)
  {
    hide Work;
    FileAdvances(s, Apply(s, step), step.id);
  }

  lemma FolderStepWork(s: Sys, step: Step)
    requires Enabled(s, step)
    requires step.Walked? || step.WalkFails? || step.CloseUnreadable? || step.SendDir? || step.StartFiles?
             || step.CloseFolder?
    ensures Work(Apply(s, step)) < Work(s)
  {
    hide Work;
    FolderAdvances(s, Apply(s, step), step.tree);
  }

  /** A step of a task sends at most one message and reads no reply. */
  lemma TaskSends(s: Sys, step: Step)
    requires Enabled(s, step) && Continues(step) && !step.Deliver? && !step.DeliverReply?
    ensures var r := Apply(s, step); |r.chan| <= |s.chan| + 1 && r.rx == s.rx && r.answered == s.answered
  {
  }

  /** Every step that is not the user's leaves fewer steps to do. */
  lemma StepAdvances(s: Sys, step: Step)
    requires Inv(s) && Enabled(s, step) && Continues(step)
    ensures StepsLeft(Apply(s, step)) < StepsLeft(s)
  {
    hide Inv, Work, Handle, Apply, Enabled;
    match step
    case Deliver(env) => DeliverAdvances(s, env);
    case DeliverReply =>
      ReplyWork(s) by { IsEnabled(s, step); }
      ReplyRest(s) by { IsEnabled(s, step); }
    case StartFile(t) =>
      TaskSends(s, step);
      StartAdvances(s, t) by { IdIsNew(s); }
    case _ =>
      TaskSends(s, step);
      if step.Walked? || step.WalkFails? || step.CloseUnreadable? || step.SendDir? || step.StartFiles?
          || step.CloseFolder? {
        FolderStepWork(s, step);
      } else {
        FileStepWork(s, step);
      }
  }

  lemma IsEnabled(s: Sys, step: Step)
    requires Enabled(s, step) && step.DeliverReply?
    ensures s.answered < |s.rx.replies|
  {
  }

  lemma ReplyRest(s: Sys)
    requires s.answered < |s.rx.replies|
    ensures var r := Apply(s, DeliverReply); r.chan == s.chan && r.rx == s.rx && r.answered == s.answered + 1
  {
  }

  lemma IdIsNew(s: Sys)
    requires Inv(s)
    ensures s.next !in s.files
  {
    hide Inv;
    NextIsNew(s);
  }

  lemma DeliverAdvances(s: Sys, env: Env)
    requires Enabled(s, Deliver(env))
    ensures StepsLeft(Apply(s, Deliver(env))) < StepsLeft(s)
  {
    hide Handle, Work;
    HandleReplies(s.rx, s.chan[0], env);
    SameWork(s, Apply(s, Deliver(env)));
    AtMostOneReply(s.rx, s.chan[0], env);
  }

  lemma AtMostOneReply(s: State, m: Message, env: Env)
    ensures |Handle(s, m, env).replies| <= |s.replies| + 1
  {
    hide Handle;
    HandleReplies(s, m, env);
  }

  /** The quiet state is never out of reach for want of a step: as long as something is
      unfinished, some task, message or reply can move. */
  lemma NeverStuck(start: Sys, steps: seq<Step>, env: Env) returns (step: Step)
    requires IsStart(start) && Play(start, steps).Some? && !Quiet(Play(start, steps).value)
    ensures Enabled(Play(start, steps).value, step) && Continues(step)
  {
    hide Inv, Play, Enabled, Quiet;
    PlayKeepsInv(start, steps);
    step := Unstuck(Play(start, steps).value, env);
  }

  lemma Unstuck(s: Sys, env: Env) returns (step: Step)
    requires Inv(s) && !Quiet(s)
    ensures Enabled(s, step) && Continues(step)
  {
    hide Inv;
    if s.chan != [] {
      step := Deliver(env);
    } else if id :| id in s.files && s.files[id].phase != Over {
      step := UnstuckFile(s, id);
    } else {
      var t :| t in s.folders && s.folders[t].phase != Closed;
      step := UnstuckFolder(s, t);
    }
  }

  lemma UnstuckFile(s: Sys, id: nat) returns (step: Step)
    requires Inv(s) && s.chan == [] && id in s.files && s.files[id].phase != Over
    ensures Enabled(s, step) && Continues(step)
  {
    hide Inv;
    match s.files[id].phase
    case Waiting =>
      AnswerUnderWay(s, id);
      step := DeliverReply;
    case Ready => step := OpenFile(id, "", 0);
    case Failing => step := CancelUnopened(id, NoDrag);
    case Streaming =>
      var n := if s.files[id].left < CHUNK_SIZE then s.files[id].left else CHUNK_SIZE;
      step := if n == 0 then Finish(id, [], NoDrag) else SendChunk(id, seq(n, _ => 0));
  }

  lemma UnstuckFolder(s: Sys, t: nat) returns (step: Step)
    requires t in s.folders && s.folders[t].phase != Closed && forall id :: id in s.files ==> s.files[id].phase == Over
    ensures Enabled(s, step) && Continues(step)
  {
    var f := s.folders[t];
    match f.phase {
      case Walking => step := Walked(t, "", 0, 0);
      case Unreadable => step := CloseUnreadable(t, "");
      case Listing => step := if f.dirs > 0 then SendDir(t, "") else StartFiles(t);
      case Filling =>
        assert s.Running(t) == {};
        step := if f.files == [] || f.error then CloseFolder(t, "") else StartFile(t);
    }
  }

  lemma {:induction false} PlayJoins(start: Sys, steps: seq<Step>, more: seq<Step>)
    requires Play(start, steps + more).Some?
    ensures Play(start, steps).Some?
  {
    hide Enabled, Apply;
    if more == [] {
      assert steps + more == steps;
    } else {
      assert (steps + more)[..|steps + more| - 1] == steps + more[..|more| - 1];
      PlayJoins(start, steps, more[..|more| - 1]);
    }
  }

  lemma {:induction false} StepsBounded(start: Sys, steps: seq<Step>, more: seq<Step>)
    requires IsStart(start) && Play(start, steps).Some? && Play(start, steps + more).Some?
    requires forall k :: 0 <= k < |more| ==> Continues(more[k])
    ensures |more| + StepsLeft(Play(start, steps + more).value) <= StepsLeft(Play(start, steps).value)
  {
    hide Inv, Enabled, Apply, StepsLeft, IsStart;
    if more == [] {
      assert steps + more == steps;
    } else {
      var front, step := more[..|more| - 1], more[|more| - 1];
      assert (steps + more)[..|steps + more| - 1] == steps + front && (steps + more)[|steps + more| - 1] == step;
      StepsBounded(start, steps, front);
      PlayKeepsInv(start, steps + front);
      StepAdvances(Play(start, steps + front).value, step);
    }
  }

  /** Left to themselves, the two ends come to rest, whatever order they move in: from
      every state that can be reached, however the tasks, messages and replies go on, there
      are only so many steps they can take; and where they cannot go on, all is quiet. */
  lemma EveryRunEnds(start: Sys, steps: seq<Step>, more: seq<Step>)
    requires IsStart(start) && Play(start, steps + more).Some? && forall k :: 0 <= k < |more| ==> Continues(more[k])
    ensures Play(start, steps).Some? && |more| <= StepsLeft(Play(start, steps).value)
    ensures (forall step :: Continues(step) ==> !Enabled(Play(start, steps + more).value, step)) ==>
              Quiet(Play(start, steps + more).value)
  {
    hide Inv, Enabled, Quiet, StepsLeft, IsStart, Play;
    PlayJoins(start, steps, more);
    StepsBounded(start, steps, more);
    StepsLeftPositive(start, steps + more);
    if !Quiet(Play(start, steps + more).value) {
      var step := NeverStuck(start, steps + more, Env((_: Op) => true, (_: Bytes) => []));
    }
  }

  lemma StepsLeftPositive(start: Sys, steps: seq<Step>)
    requires IsStart(start) && Play(start, steps).Some?
    ensures StepsLeft(Play(start, steps).value) >= 0
  {
    hide Inv, Work;
    PlayKeepsInv(start, steps);
    AnsweredBound(Play(start, steps).value);
  }

  lemma AnsweredBound(s: Sys)
    requires Inv(s)
    ensures s.answered <= |s.rx.replies|
  {
  }

  lemma AnswerUnderWay(s: Sys, id: nat)
    requires Inv(s) && s.chan == [] && PhaseIs(s, id, Waiting)
    ensures s.answered < |s.rx.replies|
  {
    assert TaskOk(s, id);
    assert s.rx.replies[..|s.rx.replies|] == s.rx.replies;
  }
}
