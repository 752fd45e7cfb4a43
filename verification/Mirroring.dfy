/** The capture task keeps what the service asked for: whatever is captured and answered in
    between, it has registered exactly the captures of the registry, at their edges and with their tuning. */
module Mirroring {
  import opened Basics
  import opened Events
  import opened Tuning
  import opened Capturing
  import opened Forwarding
  import Registry

  /** What comes to the capture task: a request of the service, a message of a peer, input. */
  datatype Happening =
    | Asked(r: Request) | Heard(from: Handle, m: Proto<real>) | Polled(ready: seq<Report>, sendable: bool)

  function OneStep(t: Task, h: Happening): Task {
    match h
    case Asked(r) => HandleRequest(t, r)
    case Heard(from, m) => HandlePeer(t, from, m)
    case Polled(ready, sendable) => HandlePoll(t, ready, sendable)
  }

  function After(t: Task, hs: seq<Happening>): Task {
    if hs == [] then t else OneStep(After(t, hs[..|hs| - 1]), hs[|hs| - 1])
  }

  /** The requests among what came. */
  function RequestsIn(hs: seq<Happening>): seq<Request> {
    if hs == [] then []
    else RequestsIn(hs[..|hs| - 1]) + if hs[|hs| - 1].Asked? then [hs[|hs| - 1].r] else []
  }

  /** The bind that was set last, and whether the drag was last said to be pending. */
  function LastBind(rs: seq<Request>): seq<U32> {
    if rs == [] then []
    else if rs[|rs| - 1].DoSetReleaseBind? then rs[|rs| - 1].keys
    else LastBind(rs[..|rs| - 1])
  }

  /** The task and its input capture have registered what the mirror says, and nothing else. */
  ghost predicate Shows(t: Task, m: Registry.Mirror) {
    && (forall id :: Lookup(t.captures, id) ==
          if id in m.captures then Some(Registered(id, m.captures[id].0, m.captures[id].1)) else None)
    && (forall id :: id in m.captures ==> id in t.cap.ids && t.cap.ids[id] == m.captures[id].0)
    && t.cap.ids.Keys == m.captures.Keys && t.tuning == m.tuning && Indexed(t.cap)
  }

  /* ---- registering ---- */

  lemma {:induction false} LookupMore(cs: seq<Registered>, r: Registered, id: Handle)
    ensures Lookup(cs + [r], id) ==
            if Lookup(cs, id).Some? then Lookup(cs, id) else if r.id == id then Some(r) else None
  {
    if cs == [] {
      assert [r][0] == r && cs + [r] == [r];
      assert Lookup([r][1..], id) == None;
    } else {
      assert (cs + [r])[1..] == cs[1..] + [r];
      LookupMore(cs[1..], r, id);
    }
  }

  lemma {:induction false} LookupLess(cs: seq<Registered>, gone: Handle, id: Handle)
    ensures Lookup(Unregister(cs, gone), id) == if id == gone then None else Lookup(cs, id)
  {
    if cs != [] {
      var front, r := cs[..|cs| - 1], cs[|cs| - 1];
      LookupLess(front, gone, id);
      LookupMore(front, r, id);
      LookupMore(Unregister(front, gone), r, id);
      assert cs == front + [r];
    }
  }

  /** What a step may not touch but by a request. */
  ghost predicate Kept(t: Task, r: Task) {
    && r.captures == t.captures && r.tuning == t.tuning && r.releaseBind == t.releaseBind
    && r.cap.ids == t.cap.ids && (Indexed(t.cap) ==> Indexed(r.cap))
  }

  lemma LetGoKeeps(t: Task)
    ensures Kept(t, t.LetGo()) && (Indexed(t.cap) ==> Indexed(t.cap.(pressed := {})))
  {
  }

  lemma ReleaseKeeps(t: Task)
    ensures Kept(t, Release(t))
  {
    hide Ascending, KeyUps;
  }

  lemma ForwardKeeps(t: Task, id: Handle, pos: Position, e: CaptureEvent, sendable: bool)
    ensures Kept(t, Forward(t, id, pos, e, sendable))
  {
    hide Indexed, Activate, Translate, SendFailed;
    LetGoKeeps(t);
    var t1 := Activate(t, id, e);
    var t2 := if t1.dragPending && IsDropRelease(e) then t1.(dragPending := false).Tell(DragReleased(id)) else t1;
    ForwardSteps(t, t2, id, pos, e);
    ForwardSteps(t, Translate(t2, id, pos, e).0, id, pos, e);
  }

  /** The parts of forwarding leave the registrations alone. */
  lemma ForwardSteps(t: Task, t1: Task, id: Handle, pos: Position, e: CaptureEvent)
    ensures Same(t, Activate(t, id, e)) && Same(t1, Translate(t1, id, pos, e).0)
    ensures Same(t1.LetGo(), SendFailed(t1, id))
  {
    hide TuneEvent;
  }

  predicate Same(t: Task, r: Task) {
    r.captures == t.captures && r.tuning == t.tuning && r.releaseBind == t.releaseBind && r.cap == t.cap
  }

  lemma EventKeeps(t: Task, id: Handle, e: CaptureEvent, sendable: bool)
    ensures Kept(t, HandleEvent(t, id, e, sendable))
  {
    hide Forward, Release, Indexed;
    ReleaseKeeps(t);
    var t1, q := if e.Begin? then t.Tell(CaptureBegin(id)) else t, Lookup(t.captures, id);
    if q.Some? { ForwardKeeps(t1, id, q.value.pos, e, sendable); }
    LetGoKeeps(t);
    LetGoKeeps(t1);
  }

  lemma PollKeeps(t: Task, ready: seq<Report>, sendable: bool)
    ensures Kept(t, HandlePoll(t, ready, sendable))
  {
    hide HandleEvent, Poll, Indexed;
    var (cap, out, _) := Poll(t.cap, ready);
    PollKeepsIds(t.cap, ready);
    if Indexed(t.cap) { PollKeepsIndexed(t.cap, ready); }
    if out.Some? { EventKeeps(t.(cap := cap), out.value.id, out.value.event, sendable); }
  }

  lemma {:induction false} PollKeepsIds(c: Cap, ready: seq<Report>)
    ensures Poll(c, ready).0.ids == c.ids
    decreases |ready|
  {
    if c.pending == [] && ready != [] { PollKeepsIds(Read(c, ready[0]).0, ready[1..]); }
  }

  lemma PeerKeeps(t: Task, from: Handle, m: Proto<real>)
    ensures Kept(t, HandlePeer(t, from, m))
  {
    hide Release;
    ReleaseKeeps(t);
  }

  lemma ShowsKept(t: Task, r: Task, m: Registry.Mirror)
    requires Kept(t, r) && Shows(t, m)
    ensures Shows(r, m)
  {
  }

  /* ---- requests ---- */

  lemma CreatedShows(t: Task, m: Registry.Mirror, id: Handle, pos: Position, kind: CaptureType)
    requires Shows(t, m) && id !in m.captures
    ensures Shows(HandleRequest(t, DoCreate(id, pos, kind)), m.(captures := m.captures[id := (pos, kind)]))
  {
    hide Indexed;
    CreateKeepsIndexed(t.cap, id, pos);
    var r, more := HandleRequest(t, DoCreate(id, pos, kind)), m.captures[id := (pos, kind)];
    forall x ensures Lookup(r.captures, x) ==
                     if x in more then Some(Registered(x, more[x].0, more[x].1)) else None
    {
      LookupMore(t.captures, Registered(id, pos, kind), x);
    }
  }

  lemma DestroyedShows(t: Task, m: Registry.Mirror, id: Handle)
    requires Shows(t, m) && id in m.captures
    ensures Shows(HandleRequest(t, DoDestroy(id)), Registry.Mirror(m.captures - {id}, m.tuning - {id}))
  {
    hide Indexed, Release, Destroy;
    ReleaseKeeps(t);
    var t0 := if t.active == Some(id) then Release(t) else t;
    ShowsKept(t, t0, m);
    DestroyKeepsIndexed(t0.cap, id);
    DestroyedIds(t0.cap, id);
    var r, less := HandleRequest(t, DoDestroy(id)), m.captures - {id};
    forall x ensures Lookup(r.captures, x) ==
                     if x in less then Some(Registered(x, less[x].0, less[x].1)) else None
    {
      LookupLess(t0.captures, id, x);
    }
  }

  lemma DestroyedIds(c: Cap, id: Handle)
    requires Indexed(c)
    ensures Destroy(c, id).ids == c.ids - {id}
  {
    hide QueueOk, Without, NotFor;
    if id !in c.ids { assert c.ids - {id} == c.ids; }
  }

  lemma RequestShows(t: Task, m: Registry.Mirror, r: Request)
    requires Shows(t, m) && Registry.Obey(Some(m), r).Some?
    ensures Shows(HandleRequest(t, r), Registry.Obey(Some(m), r).value)
  {
    hide Indexed, Release;
    match r
    case DoCreate(id, pos, kind) => CreatedShows(t, m, id, pos, kind);
    case DoDestroy(id) => DestroyedShows(t, m, id);
    case DoRelease =>
      ReleaseKeeps(t);
      ShowsKept(t, Release(t), m);
    case _ =>
  }

  lemma RequestBinds(t: Task, r: Request)
    ensures HandleRequest(t, r).releaseBind == if r.DoSetReleaseBind? then r.keys else t.releaseBind
    ensures r.DoSetDragPending? ==> HandleRequest(t, r).dragPending == r.pending
  {
    hide Release, Create, Destroy;
    ReleaseKeeps(t);
  }

  /** After anything that may come, in any order: if the requests among it can be obeyed, the task
      has registered exactly what they amount to, and the bind is the one set last. */
  lemma {:induction false} RequestsTakeHold(hs: seq<Happening>)
    requires Registry.Replay(RequestsIn(hs)).Some?
    ensures Shows(After(IDLE, hs), Registry.Replay(RequestsIn(hs)).value)
    ensures After(IDLE, hs).releaseBind == LastBind(RequestsIn(hs))
  {
    hide Shows, Registry.Obey, OneStep;
    if hs == [] {
      IdleShows();
    } else {
      var front, h, t := hs[..|hs| - 1], hs[|hs| - 1], After(IDLE, hs[..|hs| - 1]);
      RequestsMore(hs);
      RequestsTakeHold(front);
      StepShows(t, Registry.Replay(RequestsIn(front)).value, h);
    }
  }

  lemma RequestsMore(hs: seq<Happening>)
    requires hs != []
    ensures var front, h := hs[..|hs| - 1], hs[|hs| - 1];
            var before, rs := RequestsIn(front), RequestsIn(hs);
            && Registry.Replay(rs) == (if h.Asked? then Registry.Obey(Registry.Replay(before), h.r)
                                       else Registry.Replay(before))
            && (Registry.Replay(rs).Some? ==> Registry.Replay(before).Some?)
            && LastBind(rs) == (if h.Asked? && h.r.DoSetReleaseBind? then h.r.keys else LastBind(before))
  {
    var front, h := hs[..|hs| - 1], hs[|hs| - 1];
    var before := RequestsIn(front);
    if h.Asked? {
      assert RequestsIn(hs) == before + [h.r] && (before + [h.r])[..|before|] == before;
    } else {
      assert RequestsIn(hs) == before;
    }
  }

  lemma IdleShows()
    ensures Shows(IDLE, Registry.Mirror(map[], map[])) && IDLE.releaseBind == LastBind([])
  {
  }

  lemma StepShows(t: Task, m: Registry.Mirror, h: Happening)
    requires Shows(t, m) && (h.Asked? ==> Registry.Obey(Some(m), h.r).Some?)
    ensures Shows(OneStep(t, h), if h.Asked? then Registry.Obey(Some(m), h.r).value else m)
    ensures OneStep(t, h).releaseBind == if h.Asked? && h.r.DoSetReleaseBind? then h.r.keys else t.releaseBind
  {
    hide Shows, Registry.Obey, HandleRequest, HandlePeer, HandlePoll;
    match h
    case Asked(r) =>
      RequestShows(t, m, r);
      RequestBinds(t, r);
    case Heard(from, msg) =>
      PeerKeeps(t, from, msg);
      ShowsKept(t, OneStep(t, h), m);
    case Polled(ready, sendable) =>
      PollKeeps(t, ready, sendable);
      ShowsKept(t, OneStep(t, h), m);
  }

  /** From the registry to the capture task: after any operations of the service, once the task has
      seen the requests these made, whatever else came to it in between, it has registered each active
      client as a client at its current edge and with its current tuning, each incoming connection as
      one that only watches its edge, and nothing else. */
  lemma CaptureFollowsRegistry(s: Registry.Service, ops: seq<Registry.Op>, hs: seq<Happening>)
    requires Registry.IsNew(s) && Registry.RoomForAll(s, ops) && RequestsIn(hs) == Registry.After(s, ops).requests
    ensures var r, t := Registry.After(s, ops), After(IDLE, hs);
            && (forall h: Handle ::
                  Lookup(t.captures, h) ==
                  if r.Active(h) then Some(Registered(h, r.slots[h].value.pos, Default))
                  else if h in r.incoming then Some(Registered(h, r.incoming[h].pos, EnterOnly)) else None)
            && (forall h: Handle :: r.Active(h) ==> t.TuningOf(h) == r.slots[h].value.tuning)
            && (forall h: Handle :: h in t.cap.ids <==> r.Active(h) || h in r.incoming)
  {
    hide Registry.Do, Indexed, Registry.OnePerEdge, Registry.RoomForAll;
    Registry.RegistryIsMirrored(s, ops);
    RequestsTakeHold(hs);
    var r := Registry.After(s, ops);
    forall h: Handle | r.Active(h) ensures h !in r.incoming {}
  }

  /** When all keys of the bind are down, the next event ends the session, whoever it is for: no
      client is active, no key counts as pressed, and none but the farewell is sent. */
  lemma BindLetsGo(hs: seq<Happening>, id: Handle, e: CaptureEvent, sendable: bool)
    requires Registry.Replay(RequestsIn(hs)).Some?
    requires forall k :: k in LastBind(RequestsIn(hs)) ==> k in After(IDLE, hs).cap.pressed
    ensures var t, r := After(IDLE, hs), HandleEvent(After(IDLE, hs), id, e, sendable);
            && r.active == None && r.cap.pressed == {} && (t.active.None? ==> r.sent == t.sent)
            && (t.active.Some? ==> !r.dragPending && t.active.value !in r.carry && r == HandleRequest(t, DoRelease))
  {
    hide Ascending, KeyUps;
    RequestsTakeHold(hs);
  }

  /** An answer of the active client: an acknowledgement lets input through, a leave ends the session.
      Those of other clients change nothing. */
  lemma PeerAnswers(t: Task, from: Handle, m: Proto<real>)
    ensures var r := HandlePeer(t, from, m);
            && (t.active.Some? && t.active.value != from ==> r == t)
            && (t.active == Some(from) && m.Ack? ==> r.session == Sending && r.active == t.active && r.sent == t.sent)
            && (t.active == Some(from) && m.Leave? ==> r.active == None && r.cap.pressed == {})
            && (!m.Ack? && !m.Leave? ==> r == t)
  {
    hide Ascending, KeyUps;
  }
}
