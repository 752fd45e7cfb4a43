/** No key stays down at the peer: what a session leaves behind when the capture is
    released. */
module KeyRelease {
  import opened Basics
  import opened Events
  import opened Tuning
  import opened Capturing
  import opened Forwarding

  /** The input events sent to client `id`. */
  function InputsTo(sent: seq<SentTo>, id: Handle): seq<Event<real>> {
    if sent == [] then []
    else
      var s := sent[|sent| - 1];
      if s.id == id && s.msg.Input? then InputsTo(sent[..|sent| - 1], id) + [s.msg.event]
      else InputsTo(sent[..|sent| - 1], id)
  }

  /** The keys client `id` has down after what it was sent. */
  function PeerDown(t: Task, id: Handle): set<U32> { Down(InputsTo(t.sent, id)) }

  lemma SentOne(t: Task, id: Handle, to: Handle, m: Proto<real>)
    ensures PeerDown(t.Send(to, m), id) == if to == id && m.Input? then After(PeerDown(t, id), m.event)
                                           else PeerDown(t, id)
  {
    var s := t.sent + [SentTo(to, m)];
    assert s[..|t.sent|] == t.sent;
    if to == id && m.Input? {
      var es := InputsTo(t.sent, id) + [m.event];
      assert es[..|es| - 1] == InputsTo(t.sent, id);
    }
  }

  /* ---- the key-ups of a release ---- */

  lemma {:induction false} AscendingHas(keys: set<U32>, n: nat)
    requires n <= 0x1_0000_0000
    ensures forall k: U32 :: k in Ascending(keys, n) <==> k in keys && k < n
    ensures forall i, j :: 0 <= i < j < |Ascending(keys, n)| ==> Ascending(keys, n)[i] < Ascending(keys, n)[j]
  {
    if n > 0 {
      AscendingHas(keys, n - 1);
      if n - 1 in keys {
        var a := Ascending(keys, n - 1);
        forall i | 0 <= i < |a| ensures a[i] < n - 1 { assert a[i] in a; }
      }
    }
  }

  lemma {:induction false} KeyUpsSent(t: Task, id: Handle, keys: seq<U32>)
    ensures PeerDown(t.(sent := t.sent + KeyUpMessages(id, keys)), id) == set k | k in PeerDown(t, id) && k !in keys
  {
    hide InputsTo;
    if keys == [] {
      assert t.sent + KeyUpMessages(id, keys) == t.sent;
    } else {
      var front, last := keys[..|keys| - 1], keys[|keys| - 1];
      KeyUpsSent(t, id, front);
      assert keys == front + [last];
      assert t.sent + KeyUpMessages(id, keys) == t.sent + KeyUpMessages(id, front)
          + [SentTo(id, Input(Key(0, last, 0)))];
      SentOne(t.(sent := t.sent + KeyUpMessages(id, front)), id, id, Input(Key(0, last, 0)));
    }
  }

  /** What a release leaves down at the client it was released from: what was down
      and is not among the key-ups. */
  lemma ReleaseLeaves(t: Task, id: Handle)
    requires t.active == Some(id)
    ensures var r := Release(t);
            && r.active == None && r.cap.pressed == {}
            && PeerDown(r, id) == PeerDown(t, id) - KeyUps(t.CarryOf(id).held, t.TuningOf(id).modifiers, t.cap.pressed)
  {
    hide Ascending;
    var ups := KeyUps(t.CarryOf(id).held, t.TuningOf(id).modifiers, t.cap.pressed);
    var keys := Ascending(ups, 0x1_0000_0000);
    AscendingHas(ups, 0x1_0000_0000);
    var t1 := t.(active := None, dragPending := false, carry := t.carry - {id});
    var t2 := if t.dragPending then t1.Tell(DragCancelled(id)) else t1;
    KeyUpsSent(t2, id, keys);
    var t3 := t2.(sent := t2.sent + KeyUpMessages(id, keys));
    SentOne(t3, id, id, Input(Modifiers(0, 0, 0, 0)));
    SentOne(t3.Send(id, Input(Modifiers(0, 0, 0, 0))), id, id, Leave(0));
    assert PeerDown(t2, id) == PeerDown(t, id);
  }

  function Plain(keys: set<U32>): set<U32> { keys - ModifiersIn(keys) }

  /** The key-ups cover every recorded modifier code and exactly the plain keys still pressed. */
  lemma KeyUpsCover(held: Held, map_: ModifierMap, pressed: set<U32>, down: set<U32>)
    requires Consistent(held, down)
    ensures down - KeyUps(held, map_, pressed) == Plain(down) - pressed
  {
    forall k | k in pressed
      ensures IsModifier(Tuning.ReleaseCode(held, map_, k)) <==> IsModifier(k)
      ensures !IsModifier(k) ==> Tuning.ReleaseCode(held, map_, k) == k
    {
      MapKeyRoles(map_, k);
    }
    forall k | k in pressed && !IsModifier(k)
      ensures k in KeyUps(held, map_, pressed)
    {
      assert Tuning.ReleaseCode(held, map_, k) == k;
    }
    forall v | v in held.Values ensures IsModifier(v) { var k :| k in held && held[k] == v; }
  }

  /* ---- a session ---- */

  /** An event a session may bring: keys are Linux codes that go down or up. */
  predicate Calm(e: CaptureEvent) {
    e.Captured? && e.event.Key? ==> IsLinux(e.event.key) && e.event.keyState <= 1
  }

  /** The keys pressed once the events that wait for the client are counted too. */
  function Caught(seen: set<U32>, waiting: seq<CaptureEvent>): set<U32> {
    if waiting == [] then seen else Pressing(seen, waiting[0])
  }

  /** Whatever else is registered at the client's edge only watches it. */
  ghost predicate Alone(t: Task, id: Handle, pos: Position) {
    forall j :: j in t.cap.ids && j != id && t.cap.ids[j] == pos ==>
      var r := Lookup(t.captures, j); r.None? || r.value == Registered(j, pos, EnterOnly)
  }

  /** Client `id` at edge `pos` is active; `seen` are the keys down according to the
      events it was handed. */
  ghost predicate InSession(t: Task, id: Handle, pos: Position, seen: set<U32>) {
    && t.active == Some(id) && Indexed(t.cap) && id in t.cap.ids && t.cap.ids[id] == pos
    && Lookup(t.captures, id) == Some(Registered(id, pos, Default)) && Alone(t, id, pos)
    && !BindPressed(t)
    && Consistent(t.CarryOf(id).held, PeerDown(t, id))
    && Plain(PeerDown(t, id)) <= seen
    && (t.session == WaitingForAck ==> PeerDown(t, id) == {})
    && (t.cap.pending != [] ==> t.cap.last.Some? && t.cap.last.value.pos == pos)
    && |Waiting(t.cap.pending, id)| <= 1
    && (forall e :: e in Waiting(t.cap.pending, id) ==> Calm(e))
    && t.cap.pressed == Caught(seen, Waiting(t.cap.pending, id))
  }

  /** The keys whose key-up was read but still waits for client `id`, who has them down. */
  ghost function StuckKeys(t: Task, id: Handle): set<U32> {
    set k | k in PeerDown(t, id) && !IsModifier(k) && KeyUpWaiting(t, id, k)
  }

  ghost predicate KeyUpWaiting(t: Task, id: Handle, k: U32) {
    var w := Waiting(t.cap.pending, id);
    |w| == 1 && w[0].Captured? && w[0].event.Key? && w[0].event.key == k && w[0].event.keyState == 0
  }

  /** Whenever a session is released, exactly the stuck keys stay down. */
  lemma SessionReleased(t: Task, id: Handle, pos: Position, seen: set<U32>)
    requires InSession(t, id, pos, seen)
    ensures PeerDown(Release(t), id) == StuckKeys(t, id) && Release(t).active == None
  {
    hide Indexed, Alone, BindPressed, KeyUps, Consistent, Release;
    ReleaseLeaves(t, id);
    KeyUpsCover(t.CarryOf(id).held, t.TuningOf(id).modifiers, t.cap.pressed, PeerDown(t, id));
    var w := Waiting(t.cap.pending, id);
    if w != [] { assert w[0] in w && Calm(w[0]); }
  }

  datatype Move = MPoll(ready: seq<Report>) | MRequest(r: Request) | MPeer(from: Handle, m: Proto<real>)

  function DoMove(t: Task, mv: Move): Task {
    match mv
    case MPoll(ready) => HandlePoll(t, ready, true)
    case MRequest(r) => HandleRequest(t, r)
    case MPeer(from, m) => HandlePeer(t, from, m)
  }

  /** What may happen in a session: input at the client's edge, anything the peer
      sends, any change of tuning, other captures coming and going (none of them
      taking over the edge), and releases; the release bind stays as it is. */
  predicate Fits(t: Task, id: Handle, pos: Position, mv: Move) {
    match mv
    case MPoll(ready) => forall i :: 0 <= i < |ready| ==> ready[i].pos == pos && Calm(ready[i].event)
    case MRequest(r) =>
      (match r
       case DoCreate(j, p, kind) => j !in t.cap.ids && Lookup(t.captures, j).None? && (p == pos ==> kind == EnterOnly)
       case DoSetReleaseBind(_) => false
       case _ => true)
    case MPeer(_, _) => true
  }

  /** What forwarding does to the task besides sending. */
  lemma ForwardShape(t: Task, id: Handle, pos: Position, e: CaptureEvent)
    requires t.active == Some(id)
    ensures var r := Forward(t, id, pos, e, true);
            var (t3, m) := Translate(t, id, pos, e);
            && r == t.(dragPending := r.dragPending, carry := t3.carry, sent := r.sent, notices := r.notices)
            && t3 == t.(carry := t3.carry)
            && r.sent == if m.Some? then t.sent + [SentTo(id, m.value)] else t.sent
  {
    hide TuneEvent;
  }

  /** Anything but a key that is passed on. */
  lemma ForwardQuiet(t: Task, id: Handle, pos: Position, e: CaptureEvent)
    requires t.active == Some(id) && (e.Begin? || t.session == WaitingForAck || !e.event.Key?)
    ensures var r := Forward(t, id, pos, e, true);
            PeerDown(r, id) == PeerDown(t, id) && r.CarryOf(id).held == t.CarryOf(id).held
  {
    hide Forward, Scale, MapMods, InputsTo;
    ForwardShape(t, id, pos, e);
    var (t3, m) := Translate(t, id, pos, e);
    if m.Some? { SentOne(t, id, id, m.value); }
  }

  lemma ForwardKey(t: Task, id: Handle, pos: Position, e: CaptureEvent)
    requires t.active == Some(id) && e.Captured? && t.session == Sending && e.event.Key?
    ensures var r := Forward(t, id, pos, e, true);
            var held, map_ := t.CarryOf(id).held, t.TuningOf(id).modifiers;
            && r.CarryOf(id).held == TuneKey(held, map_, e.event.key, e.event.keyState).0
            && PeerDown(r, id) == SentDown(held, map_, e.event.key, e.event.keyState, PeerDown(t, id))
  {
    hide Forward, TuneKey, InputsTo;
    ForwardShape(t, id, pos, e);
    var (t3, m) := Translate(t, id, pos, e);
    if m.Some? { SentOne(t, id, id, m.value); }
  }

  /** The event of the move reaches client `id` itself: it is forwarded. */
  lemma Forwarded(t: Task, id: Handle, pos: Position, seen: set<U32>, e: CaptureEvent)
    requires t.active == Some(id) && Consistent(t.CarryOf(id).held, PeerDown(t, id)) && Calm(e)
    requires Plain(PeerDown(t, id)) <= seen && (t.session == WaitingForAck ==> PeerDown(t, id) == {})
    ensures var r := Forward(t, id, pos, e, true);
            && r == t.(dragPending := r.dragPending, carry := r.carry, sent := r.sent, notices := r.notices)
            && Consistent(r.CarryOf(id).held, PeerDown(r, id)) && Plain(PeerDown(r, id)) <= Pressing(seen, e)
            && (r.session == WaitingForAck ==> PeerDown(r, id) == {})
  {
    hide Consistent, TuneKey, Forward, PeerDown;
    var r := Forward(t, id, pos, e, true);
    ForwardShape(t, id, pos, e);
    if e.Begin? || t.session == WaitingForAck || !e.event.Key? {
      ForwardQuiet(t, id, pos, e);
    } else {
      ForwardKey(t, id, pos, e);
      KeyKeepsConsistent(t.CarryOf(id).held, t.TuningOf(id).modifiers, e.event.key, e.event.keyState, PeerDown(t, id));
      PlainSeen(PeerDown(t, id), PeerDown(r, id), seen, e.event.key, e.event.keyState);
    }
  }

  lemma PlainSeen(down: set<U32>, after: set<U32>, seen: set<U32>, key: U32, state: Byte)
    requires Plain(down) <= seen && IsLinux(key) && state <= 1
    requires Plain(after) == if IsModifier(key) then Plain(down) else Press(Plain(down), key, state)
    ensures forall time: U32 :: Plain(after) <= Pressing(seen, Captured(Key(time, key, state)))
  {
  }

  /* ---- each move ---- */

  /** What one poll in a session hands out: either the event that waits for the
      client, or one for another capture at its edge, or a fresh report that
      reaches the client first or waits for it. */
  lemma PollInSession(t: Task, id: Handle, pos: Position, seen: set<U32>, ready: seq<Report>)
    returns (seen': set<U32>)
    requires InSession(t, id, pos, seen) && Fits(t, id, pos, MPoll(ready))
    ensures var (cap, out, _) := Poll(t.cap, ready);
            && Indexed(cap) && cap.ids == t.cap.ids
            && |Waiting(cap.pending, id)| <= 1 && (forall e :: e in Waiting(cap.pending, id) ==> Calm(e))
            && (out.None? ==> cap == t.cap && seen' == seen)
            && (out.Some? && out.value.id == id ==>
                  Calm(out.value.event) && Waiting(cap.pending, id) == [] && seen' == seen
                      && cap.pressed == Pressing(seen, out.value.event))
            && (out.Some? && out.value.id != id ==>
                  && seen' == seen && cap.pressed == Caught(seen, Waiting(cap.pending, id))
                  && out.value.id in t.cap.ids && t.cap.ids[out.value.id] == pos)
            && (cap.pending != [] ==> cap.last.Some? && cap.last.value.pos == pos)
            && (if t.cap.pending != [] then cap.pressed == t.cap.pressed
                else
                  && Waiting(t.cap.pending, id) == []
                  && (out.Some? ==> cap.pressed == Pressing(t.cap.pressed, out.value.event)))
  {
    hide Consistent, BindPressed, Alone, PeerDown, Calm, Pressing;
    seen' := seen;
    PollKeepsIndexed(t.cap, ready);
    if t.cap.pending != [] {
      var w := Waiting(t.cap.pending, id);
      assert w != [] ==> w[0] in w;
    } else if ready != [] {
      var r := ready[0];
      ReadFans(t.cap, r, id);
      ReadKeepsIndexed(t.cap, r);
      ReadDelivers(t.cap, r, id);
      assert Calm(r.event);
      var (c1, out) := Read(t.cap, r);
      var w := Waiting(c1.pending, id);
      assert (if out.value.id == id then [out.value.event] else []) + w == [r.event];
      if out.value.id == id { assert |[out.value.event] + w| == 1 + |w|; } else { assert [] + w == w; }
    }
  }

  lemma ReadDelivers(c: Cap, r: Report, id: Handle)
    requires Indexed(c) && c.pending == [] && id in c.ids && c.ids[id] == r.pos
    ensures Read(c, r).1.Some? && Read(c, r).0.pressed == Pressing(c.pressed, r.event)
  {
    assert EdgeOk(c.positions, c.ids, r.pos);
  }

  /** Handing an event to another capture at the edge changes nothing for the client. */
  lemma OthersOnlyWatch(t: Task, id: Handle, pos: Position, j: Handle, e: CaptureEvent)
    requires t.active == Some(id) && !BindPressed(t) && Alone(t, id, pos) && j in t.cap.ids && t.cap.ids[j] == pos
             && j != id
    requires Lookup(t.captures, id) == Some(Registered(id, pos, Default))
    ensures HandleEvent(t, j, e, true) == t.(notices := HandleEvent(t, j, e, true).notices)
  {
    LookupFound(t.captures, id);
  }

  lemma {:induction false} LookupFound(cs: seq<Registered>, id: Handle)
    requires Lookup(cs, id).Some?
    ensures exists i :: 0 <= i < |cs| && cs[i] == Lookup(cs, id).value && cs[i].id == id
  {
    if cs[0].id == id {
      assert cs[0] == Lookup(cs, id).value;
    } else {
      LookupFound(cs[1..], id);
      var i :| 0 <= i < |cs[1..]| && cs[1..][i] == Lookup(cs, id).value && cs[1..][i].id == id;
      assert cs[i + 1] == Lookup(cs, id).value;
    }
  }

  /** A session that goes on, or ended leaving exactly the stuck keys down. */
  ghost predicate GoesOnOrEnds(t: Task, r: Task, id: Handle, pos: Position, seen: set<U32>) {
    if r.active == Some(id) then InSession(r, id, pos, seen)
    else r.active == None && PeerDown(r, id) == StuckKeys(t, id)
  }

  /** The release bind can only be completed by a key going down. */
  lemma BindCompleted(t: Task, id: Handle, pos: Position, seen: set<U32>, cap: Cap, e: CaptureEvent)
    requires InSession(t, id, pos, seen) && t.cap.pending == [] && cap.pressed == Pressing(t.cap.pressed, e)
    requires BindPressed(t.(cap := cap))
    ensures var r := Release(t.(cap := cap)); r.active == None && PeerDown(r, id) == {} == StuckKeys(t, id)
  {
    hide Indexed, Alone, KeyUps, Consistent, Release;
    var t1 := t.(cap := cap);
    assert PeerDown(t1, id) == PeerDown(t, id);
    ReleaseLeaves(t1, id);
    KeyUpsCover(t1.CarryOf(id).held, t1.TuningOf(id).modifiers, cap.pressed, PeerDown(t1, id));
    assert Waiting(t.cap.pending, id) == [];
    assert t.cap.pressed <= cap.pressed;
  }

  lemma PollMoves(t: Task, id: Handle, pos: Position, seen: set<U32>, ready: seq<Report>) returns (seen': set<U32>)
    requires InSession(t, id, pos, seen) && Fits(t, id, pos, MPoll(ready))
    ensures GoesOnOrEnds(t, HandlePoll(t, ready, true), id, pos, seen')
  {
    hide Poll, Indexed, Consistent, PeerDown, StuckKeys, Release, Forward, Calm, Pressing;
    var (cap, out, left) := Poll(t.cap, ready);
    seen' := PollInSession(t, id, pos, seen, ready);
    var t1 := t.(cap := cap);
    SamePeer(t, t1, id);
    if out.None? {
      assert t1 == t;
    } else if BindPressed(t1) {
      BindSame(t, t1);
      BindCompleted(t, id, pos, seen, cap, out.value.event);
    } else if out.value.id == id {
      ActiveReceives(t, id, pos, seen, cap, out.value.event);
      seen' := Pressing(seen, out.value.event);
    } else {
      OthersReceive(t, id, pos, seen, cap, out.value);
    }
  }

  lemma BindSame(t: Task, r: Task)
    requires r.releaseBind == t.releaseBind
    ensures r.cap.pressed == t.cap.pressed ==> (BindPressed(r) <==> BindPressed(t))
  {
  }

  lemma SamePeer(t: Task, r: Task, id: Handle)
    requires r.sent == t.sent
    ensures PeerDown(r, id) == PeerDown(t, id)
  {
  }

  lemma ActiveReceives(t: Task, id: Handle, pos: Position, seen: set<U32>, cap: Cap, e: CaptureEvent)
    requires InSession(t, id, pos, seen) && Indexed(cap) && cap.ids == t.cap.ids && Calm(e)
             && !BindPressed(t.(cap := cap))
    requires Waiting(cap.pending, id) == [] && cap.pressed == Pressing(seen, e)
    requires cap.pending != [] ==> cap.last.Some? && cap.last.value.pos == pos
    ensures InSession(HandleEvent(t.(cap := cap), id, e, true), id, pos, Pressing(seen, e))
  {
    hide Indexed, Consistent, PeerDown, Forward, Calm, Pressing, Alone;
    var t1 := t.(cap := cap);
    var t2 := if e.Begin? then t1.Tell(CaptureBegin(id)) else t1;
    SamePeer(t, t2, id);
    Forwarded(t2, id, pos, seen, e);
    var r := Forward(t2, id, pos, e, true);
    assert HandleEvent(t1, id, e, true) == r;
    AloneStays(t, r, id, pos);
    assert BindPressed(r) == BindPressed(t1);
  }

  lemma AloneStays(t: Task, r: Task, id: Handle, pos: Position)
    requires Alone(t, id, pos) && r.cap.ids == t.cap.ids && r.captures == t.captures
    ensures Alone(r, id, pos)
  {
  }

  lemma OthersReceive(t: Task, id: Handle, pos: Position, seen: set<U32>, cap: Cap, out: Addressed)
    requires InSession(t, id, pos, seen) && Indexed(cap) && cap.ids == t.cap.ids && !BindPressed(t.(cap := cap))
    requires out.id != id && out.id in cap.ids && cap.ids[out.id] == pos
    requires |Waiting(cap.pending, id)| <= 1 && (forall e :: e in Waiting(cap.pending, id) ==> Calm(e))
    requires cap.pressed == Caught(seen, Waiting(cap.pending, id))
    requires cap.pending != [] ==> cap.last.Some? && cap.last.value.pos == pos
    ensures InSession(HandleEvent(t.(cap := cap), out.id, out.event, true), id, pos, seen)
  {
    hide Indexed, Consistent, PeerDown, Calm, Pressing, Alone, HandleEvent;
    var t1 := t.(cap := cap);
    AloneStays(t, t1, id, pos);
    OthersOnlyWatch(t1, id, pos, out.id, out.event);
    var r := HandleEvent(t1, out.id, out.event, true);
    SamePeer(t, r, id);
    AloneStays(t, r, id, pos);
  }

  /* ---- requests ---- */

  lemma {:induction false} LookupAppended(cs: seq<Registered>, r: Registered, id: Handle)
    ensures Lookup(cs + [r], id)
         == if Lookup(cs, id).Some? then Lookup(cs, id) else if r.id == id then Some(r) else None
  {
    if cs == [] {
      assert [r][1..] == [];
    } else {
      assert (cs + [r])[1..] == cs[1..] + [r];
      LookupAppended(cs[1..], r, id);
    }
  }

  lemma {:induction false} LookupUnregistered(cs: seq<Registered>, gone: Handle, id: Handle)
    ensures Lookup(Unregister(cs, gone), id) == if id == gone then None else Lookup(cs, id)
  {
    if cs != [] {
      var front, last := cs[..|cs| - 1], cs[|cs| - 1];
      assert cs == front + [last];
      LookupUnregistered(front, gone, id);
      LookupAppended(front, last, id);
      if last.id != gone { LookupAppended(Unregister(front, gone), last, id); }
    }
  }

  lemma CreateMoves(t: Task, id: Handle, pos: Position, seen: set<U32>, j: Handle, p: Position, kind: CaptureType)
    requires InSession(t, id, pos, seen) && Fits(t, id, pos, MRequest(DoCreate(j, p, kind)))
    ensures InSession(HandleRequest(t, DoCreate(j, p, kind)), id, pos, seen)
  {
    hide Indexed, Consistent, PeerDown, Calm, Create;
    var r := HandleRequest(t, DoCreate(j, p, kind));
    CreateKeepsIndexed(t.cap, j, p);
    CreateShape(t.cap, j, p);
    LookupAppended(t.captures, Registered(j, p, kind), id);
    SamePeer(t, r, id);
    forall k | k in r.cap.ids && k != id && r.cap.ids[k] == pos
      ensures Lookup(r.captures, k).None? || Lookup(r.captures, k).value == Registered(k, pos, EnterOnly)
    {
      LookupAppended(t.captures, Registered(j, p, kind), k);
    }
    assert BindPressed(r) == BindPressed(t);
  }

  lemma CreateShape(c: Cap, j: Handle, p: Position)
    requires j !in c.ids
    ensures var r := Create(c, j, p);
            r.ids == c.ids[j := p] && r.pending == c.pending && r.pressed == c.pressed && r.last == c.last
  {
  }

  lemma DestroyShape(c: Cap, j: Handle, id: Handle)
    requires Indexed(c) && j != id
    ensures var r := Destroy(c, j);
            && r.ids == c.ids - {j} && r.pressed == c.pressed && r.last == c.last
            && Waiting(r.pending, id) == Waiting(c.pending, id)
            && (r.pending != [] ==> c.pending != [])
  {
    WaitingNotFor(c.pending, j, id);
    assert j !in c.ids ==> c.ids - {j} == c.ids;
  }

  lemma DestroyMoves(t: Task, id: Handle, pos: Position, seen: set<U32>, j: Handle)
    requires InSession(t, id, pos, seen) && j != id
    ensures InSession(HandleRequest(t, DoDestroy(j)), id, pos, seen)
  {
    hide Indexed, Consistent, PeerDown, Calm, Destroy, Waiting;
    var r := HandleRequest(t, DoDestroy(j));
    DestroyKeepsIndexed(t.cap, j);
    DestroyShape(t.cap, j, id);
    LookupUnregistered(t.captures, j, id);
    SamePeer(t, r, id);
    forall k | k in r.cap.ids && k != id && r.cap.ids[k] == pos
      ensures Lookup(r.captures, k).None? || Lookup(r.captures, k).value == Registered(k, pos, EnterOnly)
    {
      LookupUnregistered(t.captures, j, k);
    }
    assert BindPressed(r) == BindPressed(t);
    assert r.CarryOf(id) == t.CarryOf(id);
  }

  lemma RemovedAfterRelease(t: Task, id: Handle)
    requires t.active == Some(id)
    ensures HandleRequest(t, DoDestroy(id)).active == None
    ensures PeerDown(HandleRequest(t, DoDestroy(id)), id) == PeerDown(Release(t), id)
  {
    hide Release, Destroy, InputsTo;
    ReleaseLeaves(t, id);
  }

  lemma RequestMoves(t: Task, id: Handle, pos: Position, seen: set<U32>, r: Request)
    requires InSession(t, id, pos, seen) && Fits(t, id, pos, MRequest(r))
    ensures GoesOnOrEnds(t, HandleRequest(t, r), id, pos, seen)
  {
    hide Indexed, Consistent, PeerDown, Calm, StuckKeys, Release, Waiting;
    SessionReleased(t, id, pos, seen);
    match r
    case DoRelease =>
    case DoCreate(j, p, kind) => CreateMoves(t, id, pos, seen, j, p, kind);
    case DoDestroy(j) =>
      if j == id { RemovedAfterRelease(t, id); } else { DestroyMoves(t, id, pos, seen, j); }
    case DoSetDragPending(pending) => Untouched(t, t.(dragPending := pending), id, pos, seen);
    case DoSetTuning(j, tuning) => Untouched(t, t.(tuning := t.tuning[j := tuning]), id, pos, seen);
  }

  lemma Untouched(t: Task, r: Task, id: Handle, pos: Position, seen: set<U32>)
    requires InSession(t, id, pos, seen) && r == t.(dragPending := r.dragPending, tuning := r.tuning)
    ensures InSession(r, id, pos, seen) && r.active == Some(id)
  {
    hide Indexed, Consistent, Calm, Waiting;
    SamePeer(t, r, id);
    AloneStays(t, r, id, pos);
    assert BindPressed(r) == BindPressed(t);
  }

  lemma PeerMoves(t: Task, id: Handle, pos: Position, seen: set<U32>, from: Handle, m: Proto<real>)
    requires InSession(t, id, pos, seen)
    ensures GoesOnOrEnds(t, HandlePeer(t, from, m), id, pos, seen)
  {
    hide Indexed, Consistent, PeerDown, Calm, StuckKeys, Release, Waiting;
    SessionReleased(t, id, pos, seen);
    if from == id && m.Ack? {
      var r := t.(session := Sending);
      SamePeer(t, r, id);
      AloneStays(t, r, id, pos);
      assert BindPressed(r) == BindPressed(t);
    }
  }

  /** Every move keeps the session sound or ends it leaving exactly the stuck keys. */
  lemma MoveInSession(t: Task, id: Handle, pos: Position, seen: set<U32>, mv: Move) returns (seen': set<U32>)
    requires InSession(t, id, pos, seen) && Fits(t, id, pos, mv)
    ensures GoesOnOrEnds(t, DoMove(t, mv), id, pos, seen')
  {
    hide InSession, Fits, HandlePoll, HandleRequest, HandlePeer, GoesOnOrEnds;
    seen' := seen;
    match mv
    case MPoll(ready) => seen' := PollMoves(t, id, pos, seen, ready);
    case MRequest(r) => RequestMoves(t, id, pos, seen, r);
    case MPeer(from, m) => PeerMoves(t, id, pos, seen, from, m);
  }

  /* ---- whole sessions ---- */

  /** The pointer enters client `id`, to whom nothing is left down from before. */
  ghost predicate Entering(t: Task, id: Handle, pos: Position) {
    && t.active == None && Indexed(t.cap) && id in t.cap.ids && t.cap.ids[id] == pos
    && Lookup(t.captures, id) == Some(Registered(id, pos, Default)) && Alone(t, id, pos)
    && !BindPressed(t) && PeerDown(t, id) == {}
    && Waiting(t.cap.pending, id) == [] && (t.cap.pending != [] ==> t.cap.last.Some? && t.cap.last.value.pos == pos)
  }

  lemma SessionBegins(t: Task, id: Handle, pos: Position)
    requires Entering(t, id, pos)
    ensures InSession(HandleEvent(t, id, Begin, true), id, pos, t.cap.pressed)
  {
    hide Indexed, Waiting, InputsTo;
    var r := HandleEvent(t, id, Begin, true);
    var t1 := t.Tell(CaptureBegin(id));
    var t2 := Activate(t1, id, Begin);
    SamePeer(t, t2, id);
    SentOne(t2, id, id, Enter(pos.Opposite()));
    assert r == t2.Send(id, Enter(pos.Opposite()));
    AloneStays(t, r, id, pos);
    BindSame(t, r);
    assert CLEAN.held.Values == {};
    assert ModifiersIn({}) == {};
  }

  /** The task after some moves. */
  function TaskAfter(t: Task, mvs: seq<Move>): Task {
    if mvs == [] then t else DoMove(TaskAfter(t, mvs[..|mvs| - 1]), mvs[|mvs| - 1])
  }

  /** Every move fits a session of client `id` that is still on. */
  ghost predicate OneSession(t: Task, id: Handle, pos: Position, mvs: seq<Move>) {
    mvs == [] ||
      (var before := TaskAfter(t, mvs[..|mvs| - 1]);
       OneSession(t, id, pos, mvs[..|mvs| - 1]) && before.active == Some(id) && Fits(before, id, pos, mvs[|mvs| - 1]))
  }

  lemma {:induction false} SessionGoesOn(t: Task, id: Handle, pos: Position, mvs: seq<Move>) returns (seen: set<U32>)
    requires Entering(t, id, pos) && OneSession(HandleEvent(t, id, Begin, true), id, pos, mvs)
    requires TaskAfter(HandleEvent(t, id, Begin, true), mvs).active == Some(id)
    ensures InSession(TaskAfter(HandleEvent(t, id, Begin, true), mvs), id, pos, seen)
  {
    hide InSession, Entering, HandleEvent, DoMove, Fits;
    var t1 := HandleEvent(t, id, Begin, true);
    if mvs == [] {
      SessionBegins(t, id, pos);
      seen := t.cap.pressed;
    } else {
      seen := SessionGoesOn(t, id, pos, mvs[..|mvs| - 1]);
      seen := MoveInSession(TaskAfter(t1, mvs[..|mvs| - 1]), id, pos, seen, mvs[|mvs| - 1]);
    }
  }

  /** For every session, whatever is typed, however the modifier map changes and
      whatever ends it: the peer has exactly those keys down afterwards whose
      key-up was read but was still waiting behind another capture at the same
      edge. So no key stays down, even if the Leave is lost, exactly when no such
      key-up was waiting; and always when nothing was. */
  lemma NoKeyStaysDown(t: Task, id: Handle, pos: Position, mvs: seq<Move>, last: Move)
    requires Entering(t, id, pos) && OneSession(HandleEvent(t, id, Begin, true), id, pos, mvs + [last])
    requires DoMove(TaskAfter(HandleEvent(t, id, Begin, true), mvs), last).active != Some(id)
    ensures var before := TaskAfter(HandleEvent(t, id, Begin, true), mvs);
            var after := DoMove(before, last);
            && after.active == None
            && PeerDown(after, id) == StuckKeys(before, id)
            && (PeerDown(after, id) == {} <==>
                  forall k :: k in PeerDown(before, id) && !IsModifier(k) ==> !KeyUpWaiting(before, id, k))
            && (Waiting(before.cap.pending, id) == [] ==> PeerDown(after, id) == {})
  {
    hide InSession, Entering, HandleEvent, DoMove, Fits, PeerDown;
    var t1 := HandleEvent(t, id, Begin, true);
    assert (mvs + [last])[..|mvs|] == mvs;
    var seen := SessionGoesOn(t, id, pos, mvs);
    var seen' := MoveInSession(TaskAfter(t1, mvs), id, pos, seen, last);
    var before := TaskAfter(t1, mvs);
    if exists k :: k in PeerDown(before, id) && !IsModifier(k) && KeyUpWaiting(before, id, k) {
      var k :| k in PeerDown(before, id) && !IsModifier(k) && KeyUpWaiting(before, id, k);
      assert k in StuckKeys(before, id);
    }
  }

  /** The exception is real: while another capture comes first at the client's edge,
      a key-up is handed to that one first; a Leave arriving just then leaves the
      key down. */
  lemma KeyUpBehindAnother(t: Task, id: Handle, pos: Position, seen: set<U32>, k: U32, time: U32)
    requires InSession(t, id, pos, seen) && t.cap.pending == [] && t.cap.positions[pos][0] != id
    requires k in PeerDown(t, id) && !IsModifier(k) && IsLinux(k)
    ensures var up := Report(pos, Captured(Key(time, k, 0)));
            var t1 := HandlePoll(t, [up], true);
            var t2 := HandlePeer(t1, id, Leave(0));
            t1.active == Some(id) && t2.active == None && k in PeerDown(t2, id)
  {
    hide Indexed, Consistent, PeerDown, Release, Forward, StuckKeys;
    var up := Report(pos, Captured(Key(time, k, 0)));
    var (cap, out) := Read(t.cap, up);
    ReadFans(t.cap, up, id);
    ReadKeepsIndexed(t.cap, up);
    ReadDelivers(t.cap, up, id);
    FirstGets(t.cap, up);
    assert [] + Waiting(cap.pending, id) == Waiting(cap.pending, id);
    assert [up][1..] == [];
    assert Poll(t.cap, [up]) == (cap, out, []);
    var t0 := t.(cap := cap);
    assert !BindPressed(t0) by { assert cap.pressed <= t.cap.pressed; }
    OthersReceive(t, id, pos, seen, cap, out.value);
    var t1 := HandlePoll(t, [up], true);
    OthersOnlyWatchAgain(t, id, pos, cap, out.value);
    SamePeer(t, t1, id);
    SessionReleased(t1, id, pos, seen);
    assert KeyUpWaiting(t1, id, k);
    assert k in StuckKeys(t1, id) by { StuckHas(t1, id, k); }
  }

  lemma StuckHas(t: Task, id: Handle, k: U32)
    requires k in PeerDown(t, id) && !IsModifier(k) && KeyUpWaiting(t, id, k)
    ensures k in StuckKeys(t, id)
  {
  }

  lemma FirstGets(c: Cap, r: Report)
    requires r.pos in c.positions && c.positions[r.pos] != []
    ensures Read(c, r).1 == Some(Addressed(c.positions[r.pos][0], r.event)) && Read(c, r).0.last == Some(r)
  {
  }

  lemma OthersOnlyWatchAgain(t: Task, id: Handle, pos: Position, cap: Cap, out: Addressed)
    requires t.active == Some(id) && cap.ids == t.cap.ids && !BindPressed(t.(cap := cap)) && Alone(t, id, pos)
    requires out.id in cap.ids && cap.ids[out.id] == pos && out.id != id
             && Lookup(t.captures, id) == Some(Registered(id, pos, Default))
    ensures var r := HandleEvent(t.(cap := cap), out.id, out.event, true);
            r.sent == t.sent && r.cap == cap && r.active == t.active
  {
    hide HandleEvent;
    var t1 := t.(cap := cap);
    AloneStays(t, t1, id, pos);
    OthersOnlyWatch(t1, id, pos, out.id, out.event);
  }
}
