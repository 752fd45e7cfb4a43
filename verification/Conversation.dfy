/** All that a session sends to its client: entering, the input events as they were captured,
    the farewell; and what the service is told meanwhile. */
module Conversation {
  import opened Basics
  import opened Events
  import opened Tuning
  import opened Capturing
  import opened Forwarding
  import opened KeyRelease

  /** The messages sent to client `id`. */
  function MessagesTo(sent: seq<SentTo>, id: Handle): seq<Proto<real>> {
    if sent == [] then []
    else
      var s := sent[|sent| - 1];
      if s.id == id then MessagesTo(sent[..|sent| - 1], id) + [s.msg] else MessagesTo(sent[..|sent| - 1], id)
  }

  function InputsOf(ms: seq<Proto<real>>): seq<Event<real>> {
    if ms == [] then []
    else InputsOf(ms[..|ms| - 1]) + if ms[|ms| - 1].Input? then [ms[|ms| - 1].event] else []
  }

  lemma SentMore(sent: seq<SentTo>, to: Handle, m: Proto<real>, id: Handle)
    ensures MessagesTo(sent + [SentTo(to, m)], id)
         == if to == id then MessagesTo(sent, id) + [m] else MessagesTo(sent, id)
  {
    assert (sent + [SentTo(to, m)])[..|sent|] == sent;
  }

  /** The event that a move hands to client `id` itself, unless it completes the release bind. */
  function Handed(t: Task, mv: KeyRelease.Move, id: Handle): Option<CaptureEvent> {
    if !mv.MPoll? then None
    else
      var (cap, out, _) := Poll(t.cap, mv.ready);
      if out.Some? && out.value.id == id && !BindPressed(t.(cap := cap)) then Some(out.value.event) else None
  }

  /** The client has acknowledged that the pointer entered it. */
  predicate Acked(mvs: seq<KeyRelease.Move>, id: Handle) {
    exists k :: 0 <= k < |mvs| && mvs[k].MPeer? && mvs[k].from == id && mvs[k].m.Ack?
  }

  /** The captured events that reach the client's peer as input: those handed out once it has acknowledged. */
  function Passed(t: Task, mvs: seq<KeyRelease.Move>, id: Handle): seq<Pass> {
    if mvs == [] then []
    else
      var rest := mvs[..|mvs| - 1];
      var front, before := Passed(t, rest, id), TaskAfter(t, rest);
      var e := Handed(before, mvs[|mvs| - 1], id);
      if e.Some? && e.value.Captured? && Acked(rest, id)
      then front + [Pass(before.TuningOf(id), e.value.event)] else front
  }

  /** What an event handed to the client makes of it: that the client is entered, at the opposite
      edge, until it acknowledged and whenever the pointer enters; otherwise the event as tuning
      leaves it. */
  function SaidOf(t: Task, acked: bool, e: Option<CaptureEvent>, c: Carry, id: Handle, pos: Position)
    : seq<Proto<real>>
  {
    if e.None? then []
    else if e.value.Begin? || !acked then [Enter(pos.Opposite())]
    else
      var out := TuneEvent(t.TuningOf(id), c, e.value.event).1;
      if out.Some? then [Input(out.value)] else []
  }

  /** All that is said to the client. */
  function Said(t: Task, mvs: seq<KeyRelease.Move>, id: Handle, pos: Position): seq<Proto<real>> {
    if mvs == [] then []
    else
      var rest := mvs[..|mvs| - 1];
      var before := TaskAfter(t, rest);
      Said(t, rest, id, pos)
      + SaidOf(before, Acked(rest, id), Handed(before, mvs[|mvs| - 1], id), TuneAll(CLEAN, Passed(t, rest, id)).0, id,
               pos)
  }

  /** One move of a session: what it sends to the client and what it leaves of the tuning state. */
  ghost predicate Speaks(t: Task, r: Task, mv: KeyRelease.Move, id: Handle, pos: Position) {
    var e := Handed(t, mv, id);
    && MessagesTo(r.sent, id) == MessagesTo(t.sent, id) + SaidOf(t, t.session == Sending, e, t.CarryOf(id), id, pos)
    && r.CarryOf(id) == if e.Some? && e.value.Captured? && t.session == Sending
       then TuneEvent(t.TuningOf(id), t.CarryOf(id), e.value.event).0 else t.CarryOf(id)
  }

  lemma ForwardSpeaks(t: Task, id: Handle, pos: Position, e: CaptureEvent)
    requires t.active == Some(id)
    ensures var r := Forward(t, id, pos, e, true);
            && MessagesTo(r.sent, id) == MessagesTo(t.sent, id)
               + SaidOf(t, t.session == Sending, Some(e), t.CarryOf(id), id, pos)
            && r.CarryOf(id) == if e.Captured? && t.session == Sending
               then TuneEvent(t.TuningOf(id), t.CarryOf(id), e.event).0 else t.CarryOf(id)
  {
    hide Forward, TuneEvent;
    ForwardShape(t, id, pos, e);
    var (t3, m) := Translate(t, id, pos, e);
    if m.Some? {
      SentMore(t.sent, id, m.value, id);
    } else {
      assert MessagesTo(t.sent, id) + [] == MessagesTo(t.sent, id);
    }
  }

  lemma PollSpeaks(t: Task, id: Handle, pos: Position, seen: set<U32>, ready: seq<Report>)
    requires InSession(t, id, pos, seen) && Fits(t, id, pos, MPoll(ready))
    requires HandlePoll(t, ready, true).active == Some(id)
    ensures Speaks(t, HandlePoll(t, ready, true), MPoll(ready), id, pos)
  {
    hide Indexed, Consistent, PeerDown, Calm, Pressing, Forward, Release, TuneEvent, Alone, Poll, MessagesTo;
    var seen' := PollInSession(t, id, pos, seen, ready);
    var (cap, out, _) := Poll(t.cap, ready);
    var t1 := t.(cap := cap);
    if out.Some? && !BindPressed(t1) {
      if out.value.id == id {
        var t2 := if out.value.event.Begin? then t1.Tell(CaptureBegin(id)) else t1;
        ForwardSpeaks(t2, id, pos, out.value.event);
      } else {
        AloneStays(t, t1, id, pos);
        OthersOnlyWatch(t1, id, pos, out.value.id, out.value.event);
      }
    } else if out.Some? {
      ReleasedIsOver(t1);
    }
  }

  lemma ReleasedIsOver(t: Task)
    ensures Release(t).active == None
  {
    hide Ascending, KeyUps;
  }

  lemma OtherMovesSpeak(t: Task, id: Handle, pos: Position, seen: set<U32>, mv: KeyRelease.Move)
    requires InSession(t, id, pos, seen) && Fits(t, id, pos, mv) && !mv.MPoll? && DoMove(t, mv).active == Some(id)
    ensures Speaks(t, DoMove(t, mv), mv, id, pos)
  {
    hide Indexed, Consistent, PeerDown, Calm, Alone, Release, Create, Destroy, MessagesTo, InSession;
    if mv.MRequest? && mv.r.DoDestroy? && mv.r.id == id { RemovedAfterRelease(t, id); }
    ActiveIn(t, id, pos, seen);
    ReleasedIsOver(t);
  }

  lemma ActiveIn(t: Task, id: Handle, pos: Position, seen: set<U32>)
    requires InSession(t, id, pos, seen)
    ensures t.active == Some(id)
  {
  }

  /** Input is sent once the client has acknowledged, and from then on. */
  lemma {:induction false} SessionIsAcked(t: Task, id: Handle, pos: Position, mvs: seq<KeyRelease.Move>)
    requires Entering(t, id, pos) && OneSession(HandleEvent(t, id, Begin, true), id, pos, mvs)
    requires TaskAfter(HandleEvent(t, id, Begin, true), mvs).active == Some(id)
    ensures TaskAfter(HandleEvent(t, id, Begin, true), mvs).session == Sending <==> Acked(mvs, id)
  {
    hide InSession, Entering, HandleEvent, DoMove, Fits;
    var t1 := HandleEvent(t, id, Begin, true);
    if mvs == [] {
      EnterWaits(t, id, pos);
    } else {
      var front, mv := mvs[..|mvs| - 1], mvs[|mvs| - 1];
      var seen := SessionGoesOn(t, id, pos, front);
      SessionIsAcked(t, id, pos, front);
      OneAck(TaskAfter(t1, front), id, pos, seen, mv);
      AckedMore(front, mv, id);
      assert mvs == front + [mv];
    }
  }

  lemma AckedMore(mvs: seq<KeyRelease.Move>, mv: KeyRelease.Move, id: Handle)
    ensures Acked(mvs + [mv], id) <==> Acked(mvs, id) || (mv.MPeer? && mv.from == id && mv.m.Ack?)
  {
    var more := mvs + [mv];
    if Acked(mvs, id) {
      var k :| 0 <= k < |mvs| && mvs[k].MPeer? && mvs[k].from == id && mvs[k].m.Ack?;
      assert more[k] == mvs[k];
    }
    assert more[|mvs|] == mv;
  }

  lemma EnterWaits(t: Task, id: Handle, pos: Position)
    requires Entering(t, id, pos)
    ensures HandleEvent(t, id, Begin, true).session == WaitingForAck
  {
    hide Indexed, Waiting, Alone, Consistent, PeerDown;
  }

  lemma OneAck(t: Task, id: Handle, pos: Position, seen: set<U32>, mv: KeyRelease.Move)
    requires InSession(t, id, pos, seen) && Fits(t, id, pos, mv) && DoMove(t, mv).active == Some(id)
    ensures DoMove(t, mv).session == Sending <==> t.session == Sending || (mv.MPeer? && mv.from == id && mv.m.Ack?)
  {
    hide Indexed, Consistent, PeerDown, Calm, Alone, Release, Create, Destroy, InSession, HandlePoll;
    ActiveIn(t, id, pos, seen);
    ReleasedIsOver(t);
    match mv
    case MPoll(ready) => PollKeepsSession(t, id, pos, seen, ready);
    case MRequest(r) => if r.DoDestroy? && r.id == id { RemovedAfterRelease(t, id); }
    case MPeer(_, _) =>
  }

  lemma PollKeepsSession(t: Task, id: Handle, pos: Position, seen: set<U32>, ready: seq<Report>)
    requires InSession(t, id, pos, seen) && Fits(t, id, pos, MPoll(ready))
    requires HandlePoll(t, ready, true).active == Some(id)
    ensures HandlePoll(t, ready, true).session == t.session
  {
    hide Indexed, Consistent, PeerDown, Calm, Pressing, Forward, Release, TuneEvent, Alone, Poll;
    var seen' := PollInSession(t, id, pos, seen, ready);
    var (cap, out, _) := Poll(t.cap, ready);
    var t1 := t.(cap := cap);
    if out.Some? && !BindPressed(t1) {
      if out.value.id == id {
        var t2 := if out.value.event.Begin? then t1.Tell(CaptureBegin(id)) else t1;
        ForwardShape(t2, id, pos, out.value.event);
      } else {
        AloneStays(t, t1, id, pos);
        OthersOnlyWatch(t1, id, pos, out.value.id, out.value.event);
      }
    } else if out.Some? {
      ReleasedIsOver(t1);
    }
  }

  /** Over a whole session, as long as it goes on: what the client was sent is exactly what `Said`
      says, and the inputs among it are the captured events, tuned in order, and no others. */
  lemma {:induction false} SessionSends(t: Task, id: Handle, pos: Position, mvs: seq<KeyRelease.Move>)
    requires Entering(t, id, pos) && OneSession(HandleEvent(t, id, Begin, true), id, pos, mvs)
    requires TaskAfter(HandleEvent(t, id, Begin, true), mvs).active == Some(id)
    ensures var t1 := HandleEvent(t, id, Begin, true);
            var r := TaskAfter(t1, mvs);
            && MessagesTo(r.sent, id) == MessagesTo(t.sent, id) + [Enter(pos.Opposite())] + Said(t1, mvs, id, pos)
            && (r.CarryOf(id), InputsOf(Said(t1, mvs, id, pos))) == TuneAll(CLEAN, Passed(t1, mvs, id))
  {
    hide InSession, Entering, HandleEvent, DoMove, Fits, TuneAll, MessagesTo, Handed, SaidOf, Speaks, Said, Passed;
    hide InputsOf, Acked;
    var t1 := HandleEvent(t, id, Begin, true);
    if mvs == [] {
      EnterIsSent(t, id, pos);
      SaidNothing(t1, id, pos);
      assert MessagesTo(t.sent, id) + [Enter(pos.Opposite())] + [] == MessagesTo(t.sent, id) + [Enter(pos.Opposite())];
    } else {
      var front, mv := mvs[..|mvs| - 1], mvs[|mvs| - 1];
      var before := TaskAfter(t1, front);
      var seen := SessionGoesOn(t, id, pos, front);
      SessionSends(t, id, pos, front);
      MoveSpeaks(before, id, pos, seen, mv);
      SessionIsAcked(t, id, pos, front);
      SaidOn(t1, mvs, id, pos, MessagesTo(t.sent, id) + [Enter(pos.Opposite())]);
      PassedOn(t1, mvs, id, pos);
    }
  }

  lemma SaidOn(t: Task, mvs: seq<KeyRelease.Move>, id: Handle, pos: Position, ms: seq<Proto<real>>)
    requires mvs != []
    requires var rest := mvs[..|mvs| - 1];
             var before := TaskAfter(t, rest);
             && Speaks(before, TaskAfter(t, mvs), mvs[|mvs| - 1], id, pos)
             && (before.session == Sending <==> Acked(rest, id))
             && MessagesTo(before.sent, id) == ms + Said(t, rest, id, pos)
             && before.CarryOf(id) == TuneAll(CLEAN, Passed(t, rest, id)).0
    ensures MessagesTo(TaskAfter(t, mvs).sent, id) == ms + Said(t, mvs, id, pos)
  {
    hide TuneAll, MessagesTo, SaidOf, Handed, DoMove, Passed, Acked;
    var rest := mvs[..|mvs| - 1];
    var before := TaskAfter(t, rest);
    var new_ := SaidOf(before, Acked(rest, id), Handed(before, mvs[|mvs| - 1], id), before.CarryOf(id), id, pos);
    assert ms + Said(t, rest, id, pos) + new_ == ms + (Said(t, rest, id, pos) + new_);
  }

  lemma PassedOn(t: Task, mvs: seq<KeyRelease.Move>, id: Handle, pos: Position)
    requires mvs != []
    requires var rest := mvs[..|mvs| - 1];
             var before := TaskAfter(t, rest);
             && Speaks(before, TaskAfter(t, mvs), mvs[|mvs| - 1], id, pos)
             && (before.session == Sending <==> Acked(rest, id))
             && (before.CarryOf(id), InputsOf(Said(t, rest, id, pos))) == TuneAll(CLEAN, Passed(t, rest, id))
    ensures (TaskAfter(t, mvs).CarryOf(id), InputsOf(Said(t, mvs, id, pos))) == TuneAll(CLEAN, Passed(t, mvs, id))
  {
    hide TuneEvent, MessagesTo, SaidOf, Handed, DoMove, TuneAll, Acked;
    var rest := mvs[..|mvs| - 1];
    var before := TaskAfter(t, rest);
    var e, c := Handed(before, mvs[|mvs| - 1], id), before.CarryOf(id);
    InputsJoin(Said(t, rest, id, pos), SaidOf(before, Acked(rest, id), e, c, id, pos));
    InputsSaid(before, Acked(rest, id), e, c, id, pos);
    if e.Some? && e.value.Captured? && Acked(rest, id) {
      TunedMore(CLEAN, Passed(t, rest, id), Pass(before.TuningOf(id), e.value.event));
      assert Passed(t, mvs, id) == Passed(t, rest, id) + [Pass(before.TuningOf(id), e.value.event)];
      assert InputsOf(Said(t, rest, id, pos)) + [] == InputsOf(Said(t, rest, id, pos));
    } else {
      assert InputsOf(Said(t, rest, id, pos)) + [] == InputsOf(Said(t, rest, id, pos));
    }
  }

  lemma SaidNothing(t: Task, id: Handle, pos: Position)
    ensures Said(t, [], id, pos) == [] && Passed(t, [], id) == [] && InputsOf([]) == []
            && TuneAll(CLEAN, []) == (CLEAN, [])
  {
  }

  lemma MoveSpeaks(t: Task, id: Handle, pos: Position, seen: set<U32>, mv: KeyRelease.Move)
    requires InSession(t, id, pos, seen) && Fits(t, id, pos, mv) && DoMove(t, mv).active == Some(id)
    ensures Speaks(t, DoMove(t, mv), mv, id, pos)
  {
    hide InSession, Fits, Speaks, HandlePoll;
    if mv.MPoll? { PollSpeaks(t, id, pos, seen, mv.ready); } else { OtherMovesSpeak(t, id, pos, seen, mv); }
  }

  lemma EnterIsSent(t: Task, id: Handle, pos: Position)
    requires Entering(t, id, pos)
    ensures var t1 := HandleEvent(t, id, Begin, true);
            MessagesTo(t1.sent, id) == MessagesTo(t.sent, id) + [Enter(pos.Opposite())] && t1.CarryOf(id) == CLEAN
  {
    hide Indexed, Waiting, Alone, Consistent, PeerDown;
    SentMore(t.sent, id, Enter(pos.Opposite()), id);
  }

  lemma {:induction false} InputsJoin(a: seq<Proto<real>>, b: seq<Proto<real>>)
    ensures InputsOf(a + b) == InputsOf(a) + InputsOf(b)
  {
    if b == [] {
      assert a + b == a;
    } else {
      assert (a + b)[..|a + b| - 1] == a + b[..|b| - 1];
      InputsJoin(a, b[..|b| - 1]);
    }
  }

  lemma InputsSaid(t: Task, acked: bool, e: Option<CaptureEvent>, c: Carry, id: Handle, pos: Position)
    ensures InputsOf(SaidOf(t, acked, e, c, id, pos)) ==
            if e.Some? && e.value.Captured? && acked
               && TuneEvent(t.TuningOf(id), c, e.value.event).1.Some?
            then [TuneEvent(t.TuningOf(id), c, e.value.event).1.value] else []
  {
    hide TuneEvent;
    var ms := SaidOf(t, acked, e, c, id, pos);
    if ms != [] { assert ms[..0] == []; }
  }

  lemma TunedMore(c: Carry, ps: seq<Pass>, p: Pass)
    ensures var (before, sent) := TuneAll(c, ps);
            var (after, out) := TuneEvent(p.tuning, before, p.e);
            TuneAll(c, ps + [p]) == (after, if out.Some? then sent + [out.value] else sent)
  {
    hide TuneEvent;
    assert (ps + [p])[..|ps|] == ps;
  }

  lemma {:induction false} InputsAmong(sent: seq<SentTo>, id: Handle)
    ensures InputsTo(sent, id) == InputsOf(MessagesTo(sent, id))
  {
    if sent != [] {
      var front, s := sent[..|sent| - 1], sent[|sent| - 1];
      InputsAmong(front, id);
      if s.id == id {
        InputsJoin(MessagesTo(front, id), [s.msg]);
        assert [s.msg][..0] == [];
      }
    }
  }

  /** So of the events captured after the client acknowledged, all but keys reach it, each as one of
      its kind, in order and nothing else; and along each axis the motion it was sent is the motion
      captured at the speed in force, less a remainder within one pixel. */
  lemma SessionInputs(t: Task, id: Handle, pos: Position, mvs: seq<KeyRelease.Move>)
    requires Entering(t, id, pos) && OneSession(HandleEvent(t, id, Begin, true), id, pos, mvs)
    requires TaskAfter(HandleEvent(t, id, Begin, true), mvs).active == Some(id)
    ensures var t1 := HandleEvent(t, id, Begin, true);
            var r, ps, inputs := TaskAfter(t1, mvs), Passed(t1, mvs, id), InputsOf(Said(t1, mvs, id, pos));
            && InputsTo(r.sent, id) == InputsTo(t.sent, id) + inputs
            && Outlines(inputs) == Outlines(EventsOf(ps))
            && forall right :: -1.0 < Scaled(ps, right) - Distance(inputs, right) < 1.0
  {
    hide Entering, OneSession, HandleEvent, DoMove, TuneAll, MessagesTo, Said, Passed, InputsOf, InputsTo, Distance,
      Scaled;
    var t1 := HandleEvent(t, id, Begin, true);
    var r, ps, said := TaskAfter(t1, mvs), Passed(t1, mvs, id), Said(t1, mvs, id, pos);
    SessionSends(t, id, pos, mvs);
    InputsAmong(r.sent, id);
    InputsAmong(t.sent, id);
    InputsJoin(MessagesTo(t.sent, id) + [Enter(pos.Opposite())], said);
    InputsJoin(MessagesTo(t.sent, id), [Enter(pos.Opposite())]);
    EnterIsNoInput(pos.Opposite());
    EventsArrive(CLEAN, ps);
    forall right ensures -1.0 < Scaled(ps, right) - Distance(InputsOf(said), right) < 1.0 {
      MotionArrives(CLEAN, ps, right);
    }
  }

  lemma EnterIsNoInput(pos: Position)
    ensures InputsOf([Enter(pos)]) == []
  {
    var ms: seq<Proto<real>> := [Enter(pos)];
    assert ms[..0] == [];
  }

  /* ---- the farewell ---- */

  function KeyUpInputs(keys: seq<U32>): seq<Proto<real>> {
    seq(|keys|, i requires 0 <= i < |keys| => Input(Key(0, keys[i], 0)))
  }

  lemma {:induction false} KeyUpsSaid(sent: seq<SentTo>, id: Handle, keys: seq<U32>, to: Handle)
    ensures MessagesTo(sent + KeyUpMessages(id, keys), to) ==
            if to == id then MessagesTo(sent, to) + KeyUpInputs(keys) else MessagesTo(sent, to)
  {
    hide MessagesTo;
    if keys == [] {
      assert sent + KeyUpMessages(id, keys) == sent && MessagesTo(sent, to) + KeyUpInputs(keys) == MessagesTo(sent, to);
    } else {
      var front, last := keys[..|keys| - 1], keys[|keys| - 1];
      var up, more := Input(Key(0, last, 0)), sent + KeyUpMessages(id, front);
      KeyUpsSaid(sent, id, front, to);
      assert sent + KeyUpMessages(id, keys) == more + [SentTo(id, up)];
      SentMore(more, id, up, to);
      assert KeyUpInputs(keys) == KeyUpInputs(front) + [up];
      assert MessagesTo(sent, to) + KeyUpInputs(front) + [up] == MessagesTo(sent, to) + KeyUpInputs(keys);
    }
  }

  /** A release says the key-ups in ascending order, each once, then that no modifier is set, then
      that the pointer left; and nothing to anyone else. */
  lemma FarewellIs(t: Task, id: Handle) returns (keys: seq<U32>)
    requires t.active == Some(id)
    ensures forall k :: k in keys <==> k in KeyUps(t.CarryOf(id).held, t.TuningOf(id).modifiers, t.cap.pressed)
    ensures forall i, j :: 0 <= i < j < |keys| ==> keys[i] < keys[j]
    ensures MessagesTo(Release(t).sent, id) ==
            MessagesTo(t.sent, id) + KeyUpInputs(keys) + [Input(Modifiers(0, 0, 0, 0)), Leave(0)]
    ensures forall other :: other != id ==> MessagesTo(Release(t).sent, other) == MessagesTo(t.sent, other)
  {
    hide Ascending, KeyUps, MessagesTo;
    var ups := KeyUps(t.CarryOf(id).held, t.TuningOf(id).modifiers, t.cap.pressed);
    keys := Ascending(ups, 0x1_0000_0000);
    AscendingHas(ups, 0x1_0000_0000);
    var sent := t.sent + KeyUpMessages(id, keys);
    var bare := Input(Modifiers(0, 0, 0, 0));
    forall to ensures MessagesTo(sent + [SentTo(id, bare)] + [SentTo(id, Leave(0))], to)
                   == (if to == id then MessagesTo(t.sent, to) + KeyUpInputs(keys) + [bare] + [Leave(0)]
                       else MessagesTo(t.sent, to))
    {
      KeyUpsSaid(t.sent, id, keys, to);
      SentMore(sent, id, bare, to);
      SentMore(sent + [SentTo(id, bare)], id, Leave(0), to);
    }
  }

  /* ---- what the service is told ---- */

  function Times(ns: seq<Notice>, n: Notice): nat { multiset(ns)[n] }

  /** How often a drag that was pending was reported as over. */
  function DragEnds(ns: seq<Notice>): nat {
    if ns == [] then 0
    else DragEnds(ns[..|ns| - 1]) + if ns[|ns| - 1].DragReleased? || ns[|ns| - 1].DragCancelled? then 1 else 0
  }

  lemma DragEndsMore(ns: seq<Notice>, n: Notice)
    ensures DragEnds(ns + [n]) == DragEnds(ns) + if n.DragReleased? || n.DragCancelled? then 1 else 0
  {
    assert (ns + [n])[..|ns|] == ns;
  }

  /** A pending drag is reported as over exactly when it stops being pending. */
  predicate ResolvesOnce(t: Task, r: Task) {
    && (r.dragPending ==> t.dragPending)
    && DragEnds(r.notices) == DragEnds(t.notices) + if t.dragPending && !r.dragPending then 1 else 0
  }

  lemma ReleaseResolves(t: Task)
    ensures ResolvesOnce(t, Release(t)) && (t.active.Some? ==> !Release(t).dragPending)
  {
    hide Ascending, KeyUps, DragEnds;
    if t.active.Some? { DragEndsMore(t.notices, DragCancelled(t.active.value)); }
  }

  function Maybe(b: bool, n: Notice): seq<Notice> { if b then [n] else [] }

  lemma MaybeMore(ns: seq<Notice>, b: bool, n: Notice, x: Notice)
    ensures DragEnds(ns + Maybe(b, n)) == DragEnds(ns) + if b && (n.DragReleased? || n.DragCancelled?) then 1 else 0
    ensures Times(ns + Maybe(b, n), x) == Times(ns, x) + if b && n == x then 1 else 0
  {
    if b { DragEndsMore(ns, n); } else { assert ns + [] == ns; }
  }

  predicate Enters(t: Task, id: Handle, e: CaptureEvent) { e.Begin? && t.active != Some(id) }

  /** What forwarding tells, in order, and whose session it leaves. */
  lemma ForwardTells(t: Task, id: Handle, pos: Position, e: CaptureEvent, sendable: bool)
    ensures var r := Forward(t, id, pos, e, sendable);
            && r.active == (if Enters(t, id, e) then Some(id) else t.active)
            && var released := t.dragPending && IsDropRelease(e);
            && (r.dragPending ==> t.dragPending && !released)
               && (sendable && t.dragPending && !released ==> r.dragPending)
            && r.notices == t.notices + Maybe(Enters(t, id, e), ClientEntered(id)) + Maybe(released, DragReleased(id))
                            + Maybe(t.dragPending && !released && !r.dragPending, DragCancelled(id))
  {
    hide TuneEvent;
    var t1 := Activate(t, id, e);
    var t2 := if t1.dragPending && IsDropRelease(e) then t1.(dragPending := false).Tell(DragReleased(id)) else t1;
    assert t1.notices == t.notices + Maybe(Enters(t, id, e), ClientEntered(id));
    assert t2.notices == t1.notices + Maybe(t.dragPending && IsDropRelease(e), DragReleased(id));
    TranslateTells(t2, id, pos, e);
  }

  lemma TranslateTells(t: Task, id: Handle, pos: Position, e: CaptureEvent)
    ensures var r := Translate(t, id, pos, e).0;
            r.notices == t.notices && r.dragPending == t.dragPending && r.active == t.active
  {
    hide TuneEvent;
  }

  lemma ForwardResolves(t: Task, id: Handle, pos: Position, e: CaptureEvent, sendable: bool)
    ensures var r, released := Forward(t, id, pos, e, sendable), t.dragPending && IsDropRelease(e);
            && ResolvesOnce(t, r) && (released ==> !r.dragPending)
            && Times(r.notices, DragReleased(id)) == Times(t.notices, DragReleased(id)) + (if released then 1 else 0)
            && (t.dragPending && !released && sendable ==> r.dragPending)
  {
    hide Forward, DragEnds, Maybe, Times;
    ForwardTells(t, id, pos, e, sendable);
    var r, released, x := Forward(t, id, pos, e, sendable), t.dragPending && IsDropRelease(e), DragReleased(id);
    var a := t.notices + Maybe(Enters(t, id, e), ClientEntered(id));
    MaybeMore(t.notices, Enters(t, id, e), ClientEntered(id), x);
    MaybeMore(a, released, x, x);
    MaybeMore(a + Maybe(released, x), t.dragPending && !released && !r.dragPending, DragCancelled(id), x);
  }

  lemma ForwardEnters(t: Task, id: Handle, pos: Position, e: CaptureEvent, sendable: bool, any: Handle)
    ensures var r := Forward(t, id, pos, e, sendable);
            && Times(r.notices, ClientEntered(any)) ==
               Times(t.notices, ClientEntered(any)) + (if r.active == Some(any) && t.active != Some(any) then 1 else 0)
            && Times(r.notices, CaptureBegin(any)) == Times(t.notices, CaptureBegin(any))
  {
    hide Forward, Maybe, Times;
    ForwardTells(t, id, pos, e, sendable);
    var r, released := Forward(t, id, pos, e, sendable), t.dragPending && IsDropRelease(e);
    var a := t.notices + Maybe(Enters(t, id, e), ClientEntered(id));
    var b := a + Maybe(released, DragReleased(id));
    var last := t.dragPending && !released && !r.dragPending;
    MaybeMore(t.notices, Enters(t, id, e), ClientEntered(id), ClientEntered(any));
    MaybeMore(a, released, DragReleased(id), ClientEntered(any));
    MaybeMore(b, last, DragCancelled(id), ClientEntered(any));
    MaybeMore(t.notices, Enters(t, id, e), ClientEntered(id), CaptureBegin(any));
    MaybeMore(a, released, DragReleased(id), CaptureBegin(any));
    MaybeMore(b, last, DragCancelled(id), CaptureBegin(any));
  }

  /** Whatever is captured, asked or answered: the end of a pending drag is told once, as
      released if the button went up, and as cancelled otherwise. */
  lemma PendingDragEndsOnce(t: Task, id: Handle, e: CaptureEvent, sendable: bool, from: Handle, m: Proto<real>,
                            q: Request)
    ensures ResolvesOnce(t, HandleEvent(t, id, e, sendable)) && ResolvesOnce(t, HandlePeer(t, from, m))
    ensures !q.DoSetDragPending? ==> ResolvesOnce(t, HandleRequest(t, q))
  {
    hide Forward, Release, DragEnds, Create, Destroy;
    ReleaseResolves(t);
    DragEndsMore(t.notices, CaptureBegin(id));
    var t1 := if e.Begin? then t.Tell(CaptureBegin(id)) else t;
    var r := Lookup(t.captures, id);
    if r.Some? { ForwardResolves(t1, id, r.value.pos, e, sendable); }
    ReleasedIsOver(t);
  }

  lemma TimesMore(ns: seq<Notice>, n: Notice, x: Notice)
    ensures Times(ns + [n], x) == Times(ns, x) + if n == x then 1 else 0
  {
  }

  lemma ReleaseTells(t: Task, any: Handle)
    ensures Times(Release(t).notices, ClientEntered(any)) == Times(t.notices, ClientEntered(any))
    ensures Times(Release(t).notices, CaptureBegin(any)) == Times(t.notices, CaptureBegin(any))
  {
    hide Ascending, KeyUps, Times;
    if t.active.Some? {
      TimesMore(t.notices, DragCancelled(t.active.value), ClientEntered(any));
      TimesMore(t.notices, DragCancelled(t.active.value), CaptureBegin(any));
    }
  }

  /** The service hears of an entered client exactly when another client becomes the active one, and
      of every entering at a registered capture. */
  lemma EnteringIsTold(t: Task, id: Handle, e: CaptureEvent, sendable: bool, any: Handle)
    ensures var r := HandleEvent(t, id, e, sendable);
            && Times(r.notices, ClientEntered(any)) ==
               Times(t.notices, ClientEntered(any)) + (if r.active == Some(any) && t.active != Some(any) then 1 else 0)
            && Times(r.notices, CaptureBegin(any)) ==
               Times(t.notices, CaptureBegin(any))
               + (if any == id && e.Begin? && Lookup(t.captures, id).Some? && !BindPressed(t) then 1 else 0)
  {
    hide Forward, Release, Times;
    if BindPressed(t) {
      ReleasedIsOver(t);
      ReleaseTells(t, any);
    } else {
      TimesMore(t.notices, CaptureBegin(id), CaptureBegin(any));
      TimesMore(t.notices, CaptureBegin(id), ClientEntered(any));
      var t1, q := if e.Begin? then t.Tell(CaptureBegin(id)) else t, Lookup(t.captures, id);
      if q.Some? { ForwardEnters(t1, id, q.value.pos, e, sendable, any); }
    }
  }

  /* ---- giving the mouse back ---- */

  /** A message is due to the client of the event: that the pointer entered it, or the event, tuned. */
  predicate Due(t: Task, id: Handle, e: CaptureEvent) {
    || e.Begin?
    || (t.active.Some?
        && (t.session == WaitingForAck || TuneEvent(t.TuningOf(id), t.CarryOf(id), e.event).1.Some?))
  }

  /** The mouse was taken for nobody: the bind is down, the capture is gone, its edge is only watched
      and no client is there, or the client cannot be reached. */
  predicate ForNobody(t: Task, id: Handle, e: CaptureEvent, sendable: bool) {
    || BindPressed(t)
    || match Lookup(t.captures, id)
       case None => e.Begin? && t.active.None?
       case Some(q) => if q.kind == EnterOnly then !DefaultAt(t.captures, q.pos) else Due(t, id, e) && !sendable
  }

  /** An event gives the mouse back exactly when it was taken for nobody, else the capture is left as it
      is; a client that cannot be reached is sent nothing and starts afresh; and without a client that
      was entered, captured input goes nowhere. */
  lemma MouseGivenBack(t: Task, id: Handle, e: CaptureEvent, sendable: bool)
    ensures var r := HandleEvent(t, id, e, sendable);
            && r.cap == (if ForNobody(t, id, e, sendable) then t.cap.(pressed := {}) else t.cap)
            && (!sendable && !BindPressed(t) ==> r.sent == t.sent)
            && (!sendable && !BindPressed(t) && Lookup(t.captures, id).Some?
                && Lookup(t.captures, id).value.kind == Default && Due(t, id, e) ==>
                  r.CarryOf(id) == CLEAN && !r.dragPending)
            && (t.active.None? && e.Captured? && !BindPressed(t) ==> r.sent == t.sent && r.active.None?)
  {
    hide Forward, Release, TuneEvent;
    if BindPressed(t) {
      ReleaseGivesBack(t);
    } else {
      var t1, q := if e.Begin? then t.Tell(CaptureBegin(id)) else t, Lookup(t.captures, id);
      if q.Some? { ForwardGivesBack(t1, id, q.value.pos, e, sendable); }
    }
  }

  lemma ReleaseGivesBack(t: Task)
    ensures Release(t).cap == t.cap.(pressed := {})
  {
    hide Ascending, KeyUps;
  }

  lemma ForwardGivesBack(t: Task, id: Handle, pos: Position, e: CaptureEvent, sendable: bool)
    ensures var r := Forward(t, id, pos, e, sendable);
            && r.cap == (if Due(t, id, e) && !sendable then t.cap.(pressed := {}) else t.cap)
            && (!sendable ==> r.sent == t.sent)
            && (!sendable && Due(t, id, e) ==> r.CarryOf(id) == CLEAN && !r.dragPending)
            && (t.active.None? && e.Captured? ==> r.sent == t.sent && r.active.None?)
  {
    hide TuneEvent, SendFailed, Activate, Translate, Due;
    var t1 := Activate(t, id, e);
    var t2 := if t1.dragPending && IsDropRelease(e) then t1.(dragPending := false).Tell(DragReleased(id)) else t1;
    DueIsTranslated(t, t2, id, pos, e);
    FailureClears(Translate(t2, id, pos, e).0, id);
  }

  /** Entering and translating leave the capture and what was sent alone; a message results if one is due. */
  lemma DueIsTranslated(t: Task, t2: Task, id: Handle, pos: Position, e: CaptureEvent)
    requires var t1 := Activate(t, id, e);
             t2 == t1.(dragPending := t2.dragPending, notices := t2.notices)
    ensures var (t3, m) := Translate(t2, id, pos, e);
            && t2.cap == t.cap && t2.sent == t.sent && t3.cap == t.cap && t3.sent == t.sent && t3.active == t2.active
            && (e.Captured? ==> t2.active == t.active) && (e.Begin? ==> t2.active == Some(id))
            && ((t2.active.Some? || e.Begin?) ==> (m.Some? <==> Due(t, id, e)))
            && (t.active.None? && e.Captured? ==> !Due(t, id, e))
  {
    hide TuneEvent;
  }

  lemma FailureClears(t: Task, id: Handle)
    ensures var r := SendFailed(t, id);
            r.cap == t.cap.(pressed := {}) && r.sent == t.sent && r.CarryOf(id) == CLEAN && !r.dragPending
  {
  }
}
