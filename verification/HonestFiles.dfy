/** What a file's task puts on the channel, and that it is enough: a file that was read whole,
    and whose drag is not given up, is verified unless the disk refuses. */
module HonestFiles {
  import opened Basics
  import opened Disk
  import opened Receiving
  import opened Ownership
  import opened Frames
  import opened Footprints
  import opened Senders
  import opened DropSystem
  import opened Deliveries
  import opened DropDelivery
  import opened DropWaits
  import Streams
  import opened Announcements
  import Refusals

  /* ---- what one task says ---- */

  /** The bytes of file `id` among the messages. */
  function Got(ms: seq<Message>, id: nat): nat {
    if ms == [] then 0
    else
      var m := ms[|ms| - 1];
      Got(ms[..|ms| - 1], id) + if m.FileChunk? && m.id == id then |m.data| else 0
  }

  lemma {:induction false} GotJoins(a: seq<Message>, b: seq<Message>, id: nat)
    ensures Got(a + b, id) == Got(a, id) + Got(b, id)
  {
    if b == [] {
      assert a + b == a;
    } else {
      assert (a + b)[..|a + b| - 1] == a + b[..|b| - 1];
      GotJoins(a, b[..|b| - 1], id);
    }
  }

  lemma GotOne(m: Message, id: nat)
    ensures Got([m], id) == (if m.FileChunk? && m.id == id then |m.data| else 0) && Got([], id) == 0
  {
    assert [m][..0] == [];
  }

  predicate EndsFile(m: Message, id: nat) { (m.FileDone? || m.FileCancel?) && m.id == id }

  predicate ChunkOf(m: Message, id: nat) { m.FileChunk? && m.id == id }

  /** The message has to do with file `id`. */
  predicate About(m: Message, id: nat) { EndsFile(m, id) || ChunkOf(m, id) || Offers(m) == Some(id) }

  /** The k-th message fits what the task of file `id` says: one offer, of the size it found; chunks that
      follow each other from the start; and one end, a good one only after all of that size was sent. */
  ghost predicate Fitting(ms: seq<Message>, k: nat, id: nat, size: nat)
    requires k < |ms|
  {
    var m := ms[k];
    && (ChunkOf(m, id) ==> m.offset == Got(ms[..k], id) && |m.data| <= CHUNK_SIZE)
    && (EndsFile(m, id) ==> forall j :: k < j < |ms| ==> !About(ms[j], id))
    && (EndsFile(m, id) && m.FileDone? ==> Got(ms[..k], id) == size)
    && (Offers(m) == Some(id) ==>
          && m.size == size && Got(ms[..k], id) == 0
          && forall j :: k < j < |ms| ==> Offers(ms[j]) != Some(id))
  }

  ghost predicate Talks(s: Sys, ms: seq<Message>, id: nat)
    requires id in s.files
  {
    var t := s.files[id];
    && Got(ms, id) == t.offset
    && (forall k :: 0 <= k < |ms| ==> Fitting(ms, k, id, t.size))
    && (t.phase != Over ==> forall k :: 0 <= k < |ms| ==> !EndsFile(ms[k], id))
    && (t.phase == Ready ==> t.size == 0 && t.offset == 0 && forall k :: 0 <= k < |ms| ==> !About(ms[k], id))
    && (t.phase == Streaming ==> Accept(id) in s.rx.replies)
  }

  ghost predicate AllTalk(s: Sys, ms: seq<Message>) {
    && (forall id :: id in s.files ==> Talks(s, ms, id))
    && (forall id, k :: id !in s.files && 0 <= k < |ms| ==> !About(ms[k], id))
  }

  /** One more message. */
  lemma FittingMore(ms: seq<Message>, m: Message, k: nat, id: nat, size: nat)
    requires k < |ms| && Fitting(ms, k, id, size)
    requires About(m, id) ==> !EndsFile(ms[k], id)
    requires Offers(m) == Some(id) ==> Offers(ms[k]) != Some(id)
    ensures Fitting(ms + [m], k, id, size)
  {
    hide Got, Offers;
    var more := ms + [m];
    assert more[..k] == ms[..k] && more[k] == ms[k];
    forall j | k < j < |more| ensures EndsFile(ms[k], id) ==> !About(more[j], id) {
      if j < |ms| { assert more[j] == ms[j]; }
    }
    forall j | k < j < |more| ensures Offers(ms[k]) == Some(id) ==> Offers(more[j]) != Some(id) {
      if j < |ms| { assert more[j] == ms[j]; }
    }
  }

  /** A task about which nothing is said goes on talking well, whatever its phase is next. */
  lemma TalkKept(s: Sys, r: Sys, ms: seq<Message>, new_: seq<Message>, id: nat)
    requires id in s.files && id in r.files && Talks(s, ms, id) && |new_| <= 1
    requires forall m :: m in new_ ==> !About(m, id)
    requires var t, u := s.files[id], r.files[id];
             && u.offset == t.offset && u.size == t.size
             && (u.phase == t.phase || u.phase == Over || (u.phase == Streaming && t.phase == Waiting))
             && (u.phase == Streaming ==> Accept(id) in r.rx.replies)
             && (t.phase == Over ==> u.phase == Over)
    ensures Talks(r, ms + new_, id)
  {
    hide Got, Offers, EndsFile, ChunkOf, Fitting;
    var t := s.files[id];
    if new_ == [] {
      assert ms + new_ == ms;
    } else {
      var m := new_[0];
      assert new_ == [m] && m in new_;
      GotJoins(ms, [m], id);
      NotAbout(m, id);
      forall k | 0 <= k < |ms + [m]|
        ensures Fitting(ms + [m], k, id, t.size) && ((ms + [m])[k] == m || (ms + [m])[k] == ms[k])
      {
        if k < |ms| { FittingMore(ms, m, k, id, t.size); } else { FittingLast(ms, m, id, t.size); }
      }
      forall k | 0 <= k < |ms + [m]| ensures k < |ms| ==> (ms + [m])[k] == ms[k] {}
    }
  }

  lemma NotAbout(m: Message, id: nat)
    requires !About(m, id)
    ensures Got([m], id) == 0 && !EndsFile(m, id) && !ChunkOf(m, id) && Offers(m) != Some(id)
  {
    GotOne(m, id);
  }

  lemma FittingLast(ms: seq<Message>, m: Message, id: nat, size: nat)
    requires ChunkOf(m, id) ==> m.offset == Got(ms, id) && |m.data| <= CHUNK_SIZE
    requires EndsFile(m, id) && m.FileDone? ==> Got(ms, id) == size
    requires Offers(m) == Some(id) ==> m.size == size && Got(ms, id) == 0
    ensures Fitting(ms + [m], |ms|, id, size)
  {
    assert (ms + [m])[..|ms|] == ms;
  }

  /** The task itself says something. */
  lemma TalkMore(s: Sys, r: Sys, ms: seq<Message>, m: Message, id: nat)
    requires id in s.files && id in r.files && Talks(s, ms, id) && About(m, id) && s.files[id].phase != Over
    requires var t, u := s.files[id], r.files[id];
             && (Offers(m) == Some(id) ==> t.phase == Ready && u.size == m.size && u.phase != Over && u.phase != Ready)
             && (Offers(m) != Some(id) ==> t.phase != Ready && u.size == t.size && u.phase != Ready)
             && (ChunkOf(m, id) ==> m.offset == t.offset && u.offset == t.offset + |m.data| && |m.data| <= CHUNK_SIZE)
             && (!ChunkOf(m, id) ==> u.offset == t.offset)
             && (EndsFile(m, id) ==> u.phase == Over && (m.FileDone? ==> t.offset == t.size))
             && (u.phase == Streaming ==> Accept(id) in r.rx.replies)
    ensures Talks(r, ms + [m], id)
  {
    hide Got, Offers;
    GotJoins(ms, [m], id);
    GotOne(m, id);
    var t, u, more := s.files[id], r.files[id], ms + [m];
    FittingLast(ms, m, id, u.size);
    forall k | 0 <= k < |ms| ensures Fitting(more, k, id, u.size) && more[k] == ms[k] {
      assert Fitting(ms, k, id, t.size);
      if Offers(m) == Some(id) { NothingFits(ms, k, id, u.size); }
      FittingMore(ms, m, k, id, u.size);
    }
    assert more[|ms|] == m;
  }

  lemma NothingFits(ms: seq<Message>, k: nat, id: nat, size: nat)
    requires k < |ms| && !About(ms[k], id)
    ensures Fitting(ms, k, id, size)
  {
  }

  /* ---- every step ---- */

  predicate IsTaskStep(step: Step) {
    step.OpenFile? || step.OpenFails? || step.CancelUnopened? || step.SendChunk? || step.ReadFails? || step.Finish?
    || step.StopAborted?
  }

  /** `r` is `s` with the task of file `id` gone on, and perhaps its folder told; `new_` was sent. */
  ghost predicate TaskGoesOn(s: Sys, r: Sys, id: nat, task: Task, new_: seq<Message>) {
    r.files == s.files[id := task] && r.rx == s.rx && r.chan == s.chan + new_
  }

  lemma FailGoesOn(s: Sys, id: nat)
    requires id in s.files
    ensures TaskGoesOn(s, s.Fail(id), id, s.files[id].(phase := Over), [])
  {
  }

  lemma CancelGoesOn(s: Sys, id: nat, why: Reason)
    requires id in s.files
    ensures TaskGoesOn(s, s.Send(FileCancel(id, why)).Fail(id), id, s.files[id].(phase := Over), [FileCancel(id, why)])
  {
    FailGoesOn(s.Send(FileCancel(id, why)), id);
  }

  lemma PostedAre(s: Sys, step: Step, new_: seq<Message>)
    requires Enabled(s, step) && !step.Deliver? && Apply(s, step).chan == s.chan + new_
    ensures Posted(s, step) == new_
  {
    hide Apply;
  }

  /** The step is the task of its file going on; what it sends has to do with that file alone. */
  ghost predicate StepTalks(s: Sys, ms: seq<Message>, step: Step)
    requires Enabled(s, step) && IsTaskStep(step)
  {
    var r := Apply(s, step);
    && r.rx == s.rx && r.files.Keys == s.files.Keys && Talks(r, ms + Posted(s, step), step.id)
    && (forall i :: i in s.files && i != step.id ==> r.files[i] == s.files[i])
    && forall m :: m in Posted(s, step) ==> About(m, step.id) && forall i :: i != step.id ==> !About(m, i)
  }

  lemma TaskStepTalks(s: Sys, ms: seq<Message>, step: Step)
    requires Enabled(s, step) && IsTaskStep(step) && Talks(s, ms, step.id)
    ensures StepTalks(s, ms, step)
  {
    hide Talks, Posted, Sys.Fail, Sys.Running;
    var id, r := step.id, Apply(s, step);
    var t := s.files[id];
    WhatTalks(s, ms, id);
    match step
    case OpenFile(_, _, _) => OpeningTalks(s, ms, step);
    case OpenFails(_, _) => OpeningTalks(s, ms, step);
    case CancelUnopened(_, why) => CancelTalks(s, ms, step, why);
    case ReadFails(_, why) => CancelTalks(s, ms, step, why);
    case SendChunk(_, data) =>
      var m := FileChunk(id, t.offset, data);
      TalkMore(s, r, ms, m, id);
      PostedAre(s, step, [m]);
    case Finish(_, digest, why) =>
      if t.offset == t.size {
        TalkMore(s, r, ms, FileDone(id, digest), id);
        PostedAre(s, step, [FileDone(id, digest)]);
      } else {
        CancelTalks(s, ms, step, why);
      }
    case StopAborted(_) =>
      FailGoesOn(s, id);
      TalkKept(s, r, ms, [], id);
      PostedAre(s, step, []);
  }

  lemma OpeningTalks(s: Sys, ms: seq<Message>, step: Step)
    requires Enabled(s, step) && (step.OpenFile? || step.OpenFails?) && Talks(s, ms, step.id)
    ensures StepTalks(s, ms, step)
  {
    hide Talks, Posted, Sys.Fail, Sys.Running;
    var id, r := step.id, Apply(s, step);
    var t := s.files[id];
    WhatTalks(s, ms, id);
    if step.OpenFails? && !t.home.InDrag? {
      FailGoesOn(s, id);
      TalkKept(s, r, ms, [], id);
      PostedAre(s, step, []);
    } else {
      var m := if step.OpenFile? then OfferOf(t.home, id, step.name, step.size)
               else DragOffer(t.home.drag, id, step.name, 0);
      TalkMore(s, r, ms, m, id);
      PostedAre(s, step, [m]);
    }
  }

  lemma WhatTalks(s: Sys, ms: seq<Message>, id: nat)
    requires id in s.files && Talks(s, ms, id)
    ensures s.files[id].phase == Ready ==> s.files[id].size == 0 && s.files[id].offset == 0
    ensures s.files[id].phase == Streaming ==> Accept(id) in s.rx.replies
  {
    hide Got, Fitting;
  }

  lemma CancelTalks(s: Sys, ms: seq<Message>, step: Step, why: Reason)
    requires Enabled(s, step) && IsTaskStep(step) && Talks(s, ms, step.id)
    requires s.files[step.id].phase == Failing || s.files[step.id].phase == Streaming
    requires Apply(s, step) == s.Send(FileCancel(step.id, why)).Fail(step.id)
    ensures var r := Apply(s, step);
            && TaskGoesOn(s, r, step.id, s.files[step.id].(phase := Over), [FileCancel(step.id, why)])
            && Talks(r, ms + Posted(s, step), step.id) && Posted(s, step) == [FileCancel(step.id, why)]
  {
    hide Talks, Posted, Sys.Fail, Apply;
    CancelGoesOn(s, step.id, why);
    PostedAre(s, step, [FileCancel(step.id, why)]);
    TalkMore(s, Apply(s, step), ms, FileCancel(step.id, why), step.id);
  }

  /** A step that is no task's sends nothing about a file, and leaves all tasks but for what a reply does to one. */
  lemma OtherSteps(s: Sys, step: Step)
    requires Inv(s) && Enabled(s, step) && !IsTaskStep(step)
    ensures forall m, id :: m in Posted(s, step) ==> !About(m, id)
    ensures var r := Apply(s, step);
            forall id :: id in s.files ==>
              && id in r.files
              && var t, u := s.files[id], r.files[id];
              && u.offset == t.offset && u.size == t.size
              && (u.phase == t.phase || u.phase == Over || (u.phase == Streaming && t.phase == Waiting))
              && (t.phase == Over ==> u.phase == Over)
              && (u.phase == Streaming && t.phase == Waiting ==> Accept(id) in r.rx.replies)
    ensures forall id :: id in Apply(s, step).files && id !in s.files ==>
              var u := Apply(s, step).files[id]; u.offset == 0 && u.size == 0 && u.phase == Ready
  {
    hide Inv, Handle, Sys.Running, StartItems, Sys.Fail;
    if !step.Deliver? { PostedIsAppended(s, step); }
    match step
    case StartDrag(items) => DragTalks(s, items);
    case DeliverReply => AnswerTalks(s);
    case Deliver(_) =>
    case SendPlain(_) => NextIsNew(s);
    case StartFile(_) => NextIsNew(s);
    case SendFolder(_, _) =>
    case _ =>
  }

  lemma AnswerTalks(s: Sys)
    requires s.answered < |s.rx.replies|
    ensures var r := Apply(s, DeliverReply);
            && r.files.Keys == s.files.Keys && r.rx == s.rx && r.chan == s.chan
            && forall id :: id in s.files ==>
                 && var t, u := s.files[id], r.files[id];
                 && u.offset == t.offset && u.size == t.size
                 && (u.phase == t.phase || u.phase == Over || (u.phase == Streaming && t.phase == Waiting))
                 && (t.phase == Over ==> u.phase == Over)
                 && (u.phase == Streaming && t.phase == Waiting ==> Accept(id) in r.rx.replies)
  {
    hide Sys.Fail;
    var reply, s1 := s.rx.replies[s.answered], s.(answered := s.answered + 1);
    if reply.id in s.files { FailGoesOn(s1, reply.id); }
  }

  lemma {:induction false} ItemsTalk(s: Sys, d: nat, items: seq<Item>)
    requires Inv(s) && d in s.drags
    ensures var r := StartItems(s, d, items);
            && (forall id :: id in s.files ==> id in r.files && r.files[id] == s.files[id])
            && (forall id :: id in r.files && id !in s.files ==>
                  r.files[id].offset == 0 && r.files[id].size == 0 && r.files[id].phase == Ready)
  {
    hide Inv;
    if items != [] {
      var front := items[..|items| - 1];
      ItemsTalk(s, d, front);
      ItemsStarted(s, d, front);
      NextIsNew(StartItems(s, d, front));
    }
  }

  lemma DragTalks(s: Sys, items: seq<Item>)
    requires Inv(s) && items != []
    ensures var r := Apply(s, StartDrag(items));
            && Posted(s, StartDrag(items)) == [DragBegin(s.next, |items|)] && r.rx == s.rx
            && (forall id :: id in s.files ==> id in r.files && r.files[id] == s.files[id])
            && (forall id :: id in r.files && id !in s.files ==>
                  r.files[id].offset == 0 && r.files[id].size == 0 && r.files[id].phase == Ready)
  {
    hide Inv, StartItems, Posted;
    DragAnnounced(s, items, s.next);
    DragDrawn(s);
    var s0 := s.(drags := s.drags + {s.next}, next := s.next + 1);
    ItemsTalk(s0, s.next, items);
    OtherStepsKeepReceiver(s, StartDrag(items));
  }

  /** A task that has just begun. */
  lemma {:induction false} NothingGot(ms: seq<Message>, id: nat)
    requires forall k :: 0 <= k < |ms| ==> !About(ms[k], id)
    ensures Got(ms, id) == 0
  {
    if ms != [] {
      assert !About(ms[|ms| - 1], id);
      NothingGot(ms[..|ms| - 1], id);
    }
  }

  lemma NewTalks(r: Sys, ms: seq<Message>, id: nat)
    requires id in r.files && forall k :: 0 <= k < |ms| ==> !About(ms[k], id)
    requires var u := r.files[id]; u.offset == 0 && u.size == 0 && u.phase == Ready
    ensures Talks(r, ms, id)
  {
    hide Got, Offers, About, Fitting;
    NothingGot(ms, id);
    forall k | 0 <= k < |ms| ensures Fitting(ms, k, id, 0) && !EndsFile(ms[k], id) {
      NothingFits(ms, k, id, 0);
      NotAbout(ms[k], id);
    }
  }

  lemma AcceptKept(s: Sys, step: Step, id: nat)
    requires Enabled(s, step) && Accept(id) in s.rx.replies
    ensures Accept(id) in Apply(s, step).rx.replies
  {
    hide Handle, Sys.Running, StartItems, Answer, Sys.Fail;
    if step.Deliver? {
      HandleReplies(s.rx, s.chan[0], step.env);
    } else {
      OtherStepsKeepReceiver(s, step);
    }
  }

  lemma StepKeepsTalk(s: Sys, ms: seq<Message>, step: Step)
    requires Inv(s) && Enabled(s, step) && AllTalk(s, ms)
    ensures AllTalk(Apply(s, step), ms + Posted(s, step))
  {
    hide Inv, Apply, Talks, Posted, Offers, About;
    var r, new_ := Apply(s, step), Posted(s, step);
    FewPosted(s, step);
    if IsTaskStep(step) {
      IdOfTask(s, step);
      TaskStepTalks(s, ms, step);
    } else {
      OtherSteps(s, step);
    }
    forall id | id in r.files ensures Talks(r, ms + new_, id) {
      if id in s.files && !(IsTaskStep(step) && id == step.id) {
        if s.files[id].phase == Streaming { WhatTalks(s, ms, id); AcceptKept(s, step, id); }
        TalkKept(s, r, ms, new_, id);
      } else if id !in s.files {
        Unsaid(ms, new_, id);
        NewTalks(r, ms + new_, id);
      }
    }
    forall id, k | id !in r.files && 0 <= k < |ms + new_| ensures !About((ms + new_)[k], id) { Unsaid(ms, new_, id); }
  }

  lemma Unsaid(a: seq<Message>, b: seq<Message>, id: nat)
    requires forall k :: 0 <= k < |a| ==> !About(a[k], id)
    requires forall m :: m in b ==> !About(m, id)
    ensures forall k :: 0 <= k < |a + b| ==> !About((a + b)[k], id)
  {
    hide About;
    forall k | 0 <= k < |a + b| ensures !About((a + b)[k], id) { if k >= |a| { assert b[k - |a|] in b; } }
  }

  lemma FewPosted(s: Sys, step: Step)
    requires Enabled(s, step)
    ensures |Posted(s, step)| <= 1
  {
    hide Apply;
    if !step.Deliver? { PostedIsAppended(s, step); }
  }

  lemma IdOfTask(s: Sys, step: Step)
    requires Enabled(s, step) && IsTaskStep(step)
    ensures step.id in s.files
  {
  }

  lemma {:induction false} TasksTalk(start: Sys, steps: seq<Step>)
    requires IsStart(start) && Play(start, steps).Some?
    ensures AllTalk(Play(start, steps).value, Sent(start, steps))
  {
    hide Inv, Enabled, Apply, IsStart, AllTalk, Sent;
    if steps == [] {
      StartTalks(start);
    } else {
      var front, step := steps[..|steps| - 1], steps[|steps| - 1];
      SentGrows(start, steps);
      PlayKeepsInv(start, front);
      TasksTalk(start, front);
      StepKeepsTalk(Play(start, front).value, Sent(start, front), step);
    }
  }

  lemma StartTalks(start: Sys)
    requires IsStart(start)
    ensures AllTalk(start, Sent(start, []))
  {
    NothingSent(start);
  }

  /* ---- what the receiver makes of it ---- */

  ghost predicate AllFit(ms: seq<Message>, id: nat, size: nat) {
    forall k :: 0 <= k < |ms| ==> Fitting(ms, k, id, size)
  }

  lemma {:induction false} GotMono(ms: seq<Message>, n: nat, id: nat)
    requires n <= |ms|
    ensures Got(ms[..n], id) <= Got(ms, id)
  {
    GotJoins(ms[..n], ms[n..], id);
    assert ms[..n] + ms[n..] == ms;
  }

  /** Message `n` is handled after those before it. */
  lemma GotNext(ms: seq<Message>, n: nat, id: nat)
    requires n < |ms|
    ensures Got(ms[..n + 1], id) == Got(ms[..n], id) + if ChunkOf(ms[n], id) then |ms[n].data| else 0
  {
    assert ms[..n + 1][..n] == ms[..n];
  }

  lemma HandledPrefix(es: seq<Event>, ms: seq<Message>)
    requires es != [] && Messages(es) <= ms
    ensures var front := es[..|es| - 1];
            Messages(front) <= ms && Messages(front) == ms[..|front|] && Messages(es) == ms[..|front| + 1]
            && ms[|front|] == es[|es| - 1].m
  {
    assert Messages(es)[|es| - 1] == es[|es| - 1].m;
    forall k | 0 <= k < |es| - 1 ensures Messages(es[..|es| - 1])[k] == ms[k] {
      assert Messages(es)[k] == es[k].m == es[..|es| - 1][k].m;
    }
  }

  /** A live file has received exactly what its task sent and was handled, and knows its size. */
  lemma {:induction false} CountsUp(s: State, es: seq<Event>, ms: seq<Message>, id: nat, size: nat)
    requires id !in s.recv && Messages(es) <= ms && AllFit(ms, id, size) && id in Run(s, es).recv
    ensures var t := Run(s, es).recv[id]; t.received == Got(Messages(es), id) && t.size == size
  {
    hide Handle, Got, Offers;
    if es != [] {
      var front, e := es[..|es| - 1], es[|es| - 1];
      HandledPrefix(es, ms);
      Streams.TransferAfter(Run(s, front), e.m, e.env, id);
      GotNext(ms, |front|, id);
      assert Fitting(ms, |front|, id, size);
      if id in Run(s, front).recv {
        CountsUp(s, front, ms, id, size);
      } else {
        OnlyOffer(e.m, id);
      }
    }
  }

  lemma OnlyOffer(m: Message, id: nat)
    requires Offers(m) == Some(id)
    ensures !ChunkOf(m, id) && !EndsFile(m, id)
  {
  }

  /** File `id` is lost to the message: the disk cannot take the chunk, or its drag is cancelled or superseded. */
  ghost predicate Lost(s: State, e: Event, id: nat) {
    && id in s.recv
    && (|| (e.m.FileChunk? && e.m.id == id && !e.env.lucky(OpWrite(s.recv[id].part)))
        || (s.drag.Some? && s.recv[id].drag == Some(s.drag.value.drag) && Abandons(e.m, s.drag.value.drag)))
  }

  lemma EndsIfLost(s: State, e: Event, id: nat)
    requires Owned(s) && id in s.recv && id !in Handle(s, e.m, e.env).recv && !EndsFile(e.m, id)
    requires ChunkOf(e.m, id) ==>
               var t := s.recv[id];
               e.m.offset == t.received && |e.m.data| <= CHUNK_SIZE && t.received + |e.m.data| <= t.size
    ensures Lost(s, e, id)
  {
    hide Owned, MkdirAll;
    if e.m.DragBegin? || e.m.DragCancel? {
      if s.drag.Some? {
        hide DiscardDrag;
        DiscardRemovesExactly(s);
      }
    } else {
      hide Handle;
      OnlyOwnEnds(s, e.m, e.env, id);
    }
  }

  lemma AcceptedIsLive(s: State, m: Message, env: Env, id: nat)
    requires Accept(id) !in s.replies && Accept(id) in Handle(s, m, env).replies
    ensures id in Handle(s, m, env).recv
  {
    hide Handle, Refusals.Target, CanBegin, Names.SanitizeRel;
    var r := Handle(s, m, env);
    HandleReplies(s, m, env);
    assert forall k :: 0 <= k < |s.replies| ==> r.replies[k] == s.replies[k] && s.replies[k] in s.replies;
    if Offers(m).Some? {
      Refusals.OffersAnswered(s, m, env);
      AcceptIsTakenUp(s, m, env);
    }
  }

  lemma AcceptIsTakenUp(s: State, m: Message, env: Env)
    requires Offers(m).Some? && Offers(m).value !in s.recv
    requires var to := Refusals.Target(s, m); to.Some? && CanBegin(s.fs, to.value.0, to.value.1, env)
    ensures Offers(m).value in Handle(s, m, env).recv
  {
    hide Handle, CanBegin, Names.SanitizeRel;
    TakenUpUnlessTurnedDown(s, m, env);
  }

  /** A file that was accepted is live until its end, unless it is lost. */
  lemma {:induction false} LiveUnlessLost(s: State, es: seq<Event>, ms: seq<Message>, id: nat, size: nat)
    requires Owned(s) && id !in s.recv && Accept(id) !in s.replies && FreshRun(s, es)
    requires Messages(es) <= ms && AllFit(ms, id, size) && Got(Messages(es), id) <= size
    requires Accept(id) in Run(s, es).replies && forall k :: 0 <= k < |es| ==> !EndsFile(es[k].m, id)
    requires forall k :: 0 <= k < |es| ==> !Lost(Run(s, es[..k]), es[k], id)
    ensures id in Run(s, es).recv
  {
    hide Handle, Got, Offers, EndsFile, Lost, Owned;
    if es != [] {
      var front, e := es[..|es| - 1], es[|es| - 1];
      var q := Run(s, front);
      HandledPrefix(es, ms);
      GotMono(Messages(es), |front|, id);
      assert Messages(es)[..|front|] == Messages(front);
      assert e == es[|front|] && es[..|front|] == front && !EndsFile(e.m, id) && !Lost(q, e, id);
      forall k | 0 <= k < |front| ensures !EndsFile(front[k].m, id) && !Lost(Run(s, front[..k]), front[k], id) {
        assert front[..k] == es[..k] && front[k] == es[k];
      }
      if Accept(id) in q.replies {
        LiveUnlessLost(s, front, ms, id, size);
        CountsUp(s, front, ms, id, size);
        GotNext(ms, |front|, id);
        assert Fitting(ms, |front|, id, size);
        if id !in Run(s, es).recv {
          RunKeepsOwnership(s, front);
          EndsIfLost(q, e, id);
        }
      } else {
        AcceptedIsLive(q, e.m, e.env, id);
      }
    }
  }

  /* ---- both ends ---- */

  /** The receiver had accepted file `id` when it had handled the first `k` messages. */
  ghost predicate AcceptedBy(start: Sys, log: seq<Event>, k: nat, id: nat) {
    Accept(id) in Run(start.rx, if k < |log| then log[..k] else log).replies
  }

  /** A file is only said to be complete when the receiver had accepted it. */
  lemma {:induction false} DoneIsAccepted(start: Sys, steps: seq<Step>, k: nat)
    requires IsStart(start) && Play(start, steps).Some? && k < |Sent(start, steps)|
    requires Sent(start, steps)[k].FileDone?
    ensures AcceptedBy(start, Log(start, steps), k, Sent(start, steps)[k].id)
  {
    hide Inv, Enabled, Apply, IsStart, Posted, Handle;
    LogIsRun(start, steps);
    if steps == [] {
      NothingSent(start);
    } else {
      var front, step := steps[..|steps| - 1], steps[|steps| - 1];
      SentGrows(start, steps);
      var s, log := Play(start, front).value, Log(start, front);
      LogIsRun(start, front);
      var m := Sent(start, steps)[k];
      if k < |Sent(start, front)| {
        DoneIsAccepted(start, front, k);
        if Accept(m.id) in s.rx.replies { AcceptKept(s, step, m.id); }
        if Log(start, steps) != log {
          assert Log(start, steps)[..|log|] == log;
          assert k <= |log| ==> Log(start, steps)[..k] == log[..k];
        }
        assert log[..|log|] == log;
      } else {
        TasksTalk(start, front);
        assert m in Posted(s, step);
        DoneWhenStreaming(s, step, Sent(start, front), m);
      }
    }
  }

  lemma DoneWhenStreaming(s: Sys, step: Step, ms: seq<Message>, m: Message)
    requires Enabled(s, step) && AllTalk(s, ms) && m in Posted(s, step) && m.FileDone?
    ensures !step.Deliver? && Accept(m.id) in s.rx.replies
  {
    hide Handle, StartItems, Sys.Running, Talks;
    if !step.Deliver? {
      PostedIsAppended(s, step);
      assert m == Apply(s, step).chan[|s.chan|];
    }
    if step.Finish? { WhatTalks(s, ms, step.id); }
  }

  /** However senders, channel and receiver interleave: when a file's task has said that the file
      is complete, the receiver holds all of it, unless the disk could not take a chunk or the file's
      drag was cancelled or superseded; no other message turns it down. */
  lemma CompleteUnlessLost(start: Sys, steps: seq<Step>, n: nat)
    requires IsStart(start) && Play(start, steps).Some? && n < |Log(start, steps)|
    requires Log(start, steps)[n].m.FileDone?
    ensures var log := Log(start, steps);
            var id, s := log[n].m.id, Run(start.rx, log[..n]);
            || (id in s.recv && s.recv[id].received == s.recv[id].size)
            || exists k :: 0 <= k < n && Lost(Run(start.rx, log[..k]), log[k], id)
  {
    hide Handle, IsStart, Inv, Apply, Enabled, Lost, Got, Offers, Play, Log, Sent, Run, AllTalk, Owned, AllFit;
    hide FreshRun, Messages;
    var log, sent := Log(start, steps), Sent(start, steps);
    var id, es := log[n].m.id, log[..n];
    if forall k :: 0 <= k < n ==> !Lost(Run(start.rx, log[..k]), log[k], id) {
      LogIsRun(start, steps);
      assert es + log[n..] == log;
      FreshRunSplits(start.rx, es, log[n..]);
      TasksTalk(start, steps);
      SentAt(start, steps, n);
      DoneIsAccepted(start, steps, n);
      var size := TaskSize(Play(start, steps).value, sent, n, id);
      NewIsOwned(start, id);
      forall k | 0 <= k < n ensures !Lost(Run(start.rx, es[..k]), es[k], id) { assert es[..k] == log[..k]; }
      LiveAtEnd(start.rx, es, sent, id, size);
    }
  }

  /** A good end is handled when the file is live and complete, unless it was lost. */
  lemma LiveAtEnd(s: State, es: seq<Event>, ms: seq<Message>, id: nat, size: nat)
    requires Owned(s) && id !in s.recv && Accept(id) !in s.replies && FreshRun(s, es)
             && Accept(id) in Run(s, es).replies
    requires |es| < |ms| && Messages(es) == ms[..|es|] && AllFit(ms, id, size) && Got(ms[..|es|], id) == size
    requires EndsFile(ms[|es|], id) && forall k :: 0 <= k < |es| ==> !Lost(Run(s, es[..k]), es[k], id)
    ensures id in Run(s, es).recv && var t := Run(s, es).recv[id]; t.received == t.size
  {
    hide Handle, Lost, Got, Offers, FreshRun, Owned;
    forall k | 0 <= k < |es| ensures !EndsFile(es[k].m, id) {
      assert Fitting(ms, k, id, size) && Messages(es)[k] == ms[k] && About(ms[|es|], id);
    }
    LiveUnlessLost(s, es, ms, id, size);
    CountsUp(s, es, ms, id, size);
  }

  /** And a chunk is never out of order, nor larger than allowed: an abort comes from the disk, or from a
      file that has become longer than its task announced. */
  lemma ChunksFollow(start: Sys, steps: seq<Step>, n: nat)
    requires IsStart(start) && Play(start, steps).Some? && n < |Log(start, steps)|
    requires var log := Log(start, steps); log[n].m.FileChunk? && log[n].m.id in Run(start.rx, log[..n]).recv
    ensures var log := Log(start, steps);
            var m, t := log[n].m, Run(start.rx, log[..n]).recv[log[n].m.id];
            && m.offset == t.received && |m.data| <= CHUNK_SIZE
            && m.id in Play(start, steps).value.files && t.size == Play(start, steps).value.files[m.id].size
  {
    hide Handle, IsStart, Inv, Apply, Enabled, Got, Offers, Play, Log, Sent, Run, Owned, Messages;
    var log, sent := Log(start, steps), Sent(start, steps);
    var id, es := log[n].m.id, log[..n];
    TasksTalk(start, steps);
    SentAt(start, steps, n);
    NewIsOwned(start, id);
    assert About(sent[n], id);
    assert Talks(Play(start, steps).value, sent, id);
    var size := Play(start, steps).value.files[id].size;
    CountsUp(start.rx, es, sent, id, size);
    assert Fitting(sent, n, id, size);
  }

  lemma NewIsOwned(start: Sys, id: nat)
    requires IsStart(start)
    ensures Owned(start.rx) && id !in start.rx.recv && Accept(id) !in start.rx.replies
  {
  }

  lemma SentAt(start: Sys, steps: seq<Step>, n: nat)
    requires Play(start, steps).Some? && n < |Log(start, steps)|
    ensures var log, sent := Log(start, steps), Sent(start, steps);
            && |log| <= |sent| && Messages(log) <= sent && sent[n] == log[n].m && Messages(log[..n]) == sent[..n]
  {
  }

  /** A file that was said to be complete was sent as long as it was announced. */
  lemma TaskSize(s: Sys, ms: seq<Message>, n: nat, id: nat) returns (size: nat)
    requires AllTalk(s, ms) && n < |ms| && ms[n].FileDone? && ms[n].id == id
    ensures AllFit(ms, id, size) && Got(ms[..n], id) == size
  {
    hide Got;
    assert About(ms[n], id);
    assert Talks(s, ms, id);
    size := s.files[id].size;
    assert Fitting(ms, n, id, size);
  }
}
