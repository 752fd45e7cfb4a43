/** What the capture task does with captured events and requests, as functions on
    its state. The class in CaptureTask.dfy computes them. */
module Forwarding {
  import opened Basics
  import opened Events
  import opened Tuning
  import opened Capturing

  datatype CaptureType = Default | EnterOnly

  datatype Session = WaitingForAck | Sending

  /** What the service is told. */
  datatype Notice =
    | CaptureBegin(id: Handle) | ClientEntered(id: Handle) | DragReleased(id: Handle) | DragCancelled(id: Handle)

  datatype Registered = Registered(id: Handle, pos: Position, kind: CaptureType)

  datatype SentTo = SentTo(id: Handle, msg: Proto<real>)

  /** `CaptureTask` together with the input capture it drives, and what it sent. */
  datatype Task = Task(active: Option<Handle>, dragPending: bool, tuning: map<Handle, ClientTuning>, carry: map<Handle,
                       Carry>,
                       captures: seq<Registered>, releaseBind: seq<U32>, session: Session, cap: Cap,
                       sent: seq<SentTo>, notices: seq<Notice>)
  {
    function Tell(n: Notice): Task { this.(notices := notices + [n]) }

    function Send(id: Handle, m: Proto<real>): Task { this.(sent := sent + [SentTo(id, m)]) }

    /** `InputCapture::release` */
    function LetGo(): Task { this.(cap := cap.(pressed := {})) }

    function CarryOf(id: Handle): Carry { if id in carry then carry[id] else CLEAN }

    function TuningOf(id: Handle): ClientTuning { if id in tuning then tuning[id]
                                                  else ClientTuning(DEFAULT_SPEED, IDENTITY) }
  }

  /** `lookup` */
  function Lookup(cs: seq<Registered>, id: Handle): Option<Registered> {
    if cs == [] then None else if cs[0].id == id then Some(cs[0]) else Lookup(cs[1..], id)
  }

  predicate DefaultAt(cs: seq<Registered>, pos: Position) {
    exists i :: 0 <= i < |cs| && cs[i].pos == pos && cs[i].kind == Default
  }

  function Unregister(cs: seq<Registered>, id: Handle): seq<Registered> {
    if cs == [] then []
    else if cs[|cs| - 1].id == id then Unregister(cs[..|cs| - 1], id)
    else Unregister(cs[..|cs| - 1], id) + [cs[|cs| - 1]]
  }

  /* ---- releasing ---- */

  /** The codes below `n` that are in `keys`, in ascending order. */
  function Ascending(keys: set<U32>, n: nat): seq<U32>
    requires n <= 0x1_0000_0000
  {
    if n == 0 then []
    else if n - 1 in keys then Ascending(keys, n - 1) + [n - 1]
    else Ascending(keys, n - 1)
  }

  /** The codes the peer has to see go up: of every key still down the code it went
      down with, and whatever else is recorded as held. */
  function KeyUps(held: Held, map_: ModifierMap, pressed: set<U32>): set<U32> {
    (set k | k in pressed :: Tuning.ReleaseCode(held, map_, k)) + held.Values
  }

  function KeyUpMessages(id: Handle, keys: seq<U32>): seq<SentTo> {
    seq(|keys|, i requires 0 <= i < |keys| => SentTo(id, Input(Key(0, keys[i], 0))))
  }

  /** `release_capture` */
  function Release(t: Task): Task {
    if t.active.None? then t.LetGo()
    else
      var id := t.active.value;
      var t1 := t.(active := None, dragPending := false, carry := t.carry - {id});
      var t2 := if t.dragPending then t1.Tell(DragCancelled(id)) else t1;
      var ups := Ascending(KeyUps(t.CarryOf(id).held, t.TuningOf(id).modifiers, t.cap.pressed), 0x1_0000_0000);
      t2.(sent := t2.sent + KeyUpMessages(id, ups)).Send(id, Input(Modifiers(0, 0, 0, 0))).Send(id, Leave(0)).LetGo()
  }

  /* ---- events ---- */

  predicate BindPressed(t: Task) { forall k :: k in t.releaseBind ==> k in t.cap.pressed }

  predicate IsDropRelease(e: CaptureEvent) {
    e.Captured? && e.event.Button? && e.event.button == BTN_LEFT && e.event.state == 0
  }

  /** A client is entered, unless it is the active one already. */
  function Activate(t: Task, id: Handle, e: CaptureEvent): Task {
    if e.Begin? && t.active != Some(id) then
      t.(session := WaitingForAck, active := Some(id), carry := if id in t.carry then t.carry[id := CLEAN] else t.carry)
       .Tell(ClientEntered(id))
    else t
  }

  /** The message a captured event becomes, and the task with the tuning state updated. */
  function Translate(t: Task, id: Handle, pos: Position, e: CaptureEvent): (Task, Option<Proto<real>>) {
    if e.Begin? || t.session == WaitingForAck then (t, Some(Enter(pos.Opposite())))
    else
      var (c, out) := TuneEvent(t.TuningOf(id), t.CarryOf(id), e.event);
      (t.(carry := t.carry[id := c]), if out.Some? then Some(Input(out.value)) else None)
  }

  /** A message that could not be sent lets the mouse go. */
  function SendFailed(t: Task, id: Handle): Task {
    var t1 := if t.dragPending then t.(dragPending := false).Tell(DragCancelled(id)) else t;
    t1.(carry := if id in t.carry then t.carry[id := CLEAN] else t.carry).LetGo()
  }

  /** The part of `handle_capture_event` for a client's own capture. */
  function Forward(t: Task, id: Handle, pos: Position, e: CaptureEvent, sendable: bool): Task {
    var t1 := Activate(t, id, e);
    var t2 := if t1.dragPending && IsDropRelease(e) then t1.(dragPending := false).Tell(DragReleased(id)) else t1;
    if t2.active.None? && e.Captured? then t2
    else
      var (t3, m) := Translate(t2, id, pos, e);
      if m.None? then t3
      else if sendable then t3.Send(id, m.value)
      else SendFailed(t3, id)
  }

  /** `handle_capture_event`; `sendable` says whether a message would get through. */
  function HandleEvent(t: Task, id: Handle, e: CaptureEvent, sendable: bool): Task {
    if BindPressed(t) then Release(t)
    else
      var r := Lookup(t.captures, id);
      if r.None? then if e.Begin? && t.active.None? then t.LetGo() else t
      else
        var t1 := if e.Begin? then t.Tell(CaptureBegin(id)) else t;
        if r.value.kind == EnterOnly then if DefaultAt(t.captures, r.value.pos) then t1 else t1.LetGo()
        else Forward(t1, id, r.value.pos, e, sendable)
  }

  /* ---- requests and replies ---- */

  datatype Request =
    | DoRelease
    | DoCreate(id: Handle, pos: Position, kind: CaptureType)
    | DoDestroy(id: Handle)
    | DoSetReleaseBind(keys: seq<U32>)
    | DoSetDragPending(pending: bool)
    | DoSetTuning(id: Handle, tuning: ClientTuning)

  function RemoveCapture(t: Task, id: Handle): Task {
    var t1 := t.(captures := Unregister(t.captures, id), tuning := t.tuning - {id}, carry := t.carry - {id});
    if t.active == Some(id) then t1.(active := None, dragPending := false) else t1
  }

  function HandleRequest(t: Task, r: Request): Task {
    match r
    case DoRelease => Release(t)
    case DoCreate(id, pos, kind) =>
      t.(captures := t.captures + [Registered(id, pos, kind)], cap := Create(t.cap, id, pos))
    case DoDestroy(id) =>
      var t1 := RemoveCapture(if t.active == Some(id) then Release(t) else t, id);
      t1.(cap := Destroy(t1.cap, id))
    case DoSetReleaseBind(keys) => t.(releaseBind := keys)
    case DoSetDragPending(pending) => t.(dragPending := pending)
    case DoSetTuning(id, tuning) => t.(tuning := t.tuning[id := tuning])
  }

  /** A message from the peer of `id`: only the active client's count. */
  function HandlePeer(t: Task, id: Handle, m: Proto<real>): Task {
    if t.active.Some? && t.active.value != id then t
    else if m.Ack? then t.(session := Sending)
    else if m.Leave? then Release(t)
    else t
  }

  /** One poll of the capture: the next event, if any, is handled. */
  function HandlePoll(t: Task, ready: seq<Report>, sendable: bool): Task {
    var (cap, out, _) := Poll(t.cap, ready);
    var t1 := t.(cap := cap);
    if out.Some? then HandleEvent(t1, out.value.id, out.value.event, sendable) else t1
  }

  const IDLE := Task(None, false, map[], map[], [], [], WaitingForAck, EMPTY, [], [])
}
