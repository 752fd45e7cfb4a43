/** The capture task as the object it is; its methods compute the functions of
    Forwarding. */
module CaptureTask {
  import opened Basics
  import opened Events
  import opened Tuning
  import opened Capturing
  import opened Forwarding
  import opened InputCapture
  import C = Capturing
  import F = Forwarding

  class CaptureTask {
    var activeClient: Option<Handle>
    /** a file drag crossed to the active client and was not dropped or cancelled yet */
    var dragPending: bool
    var tuning: map<Handle, ClientTuning>
    /** per client: sub-pixel motion and held modifier keys */
    var tuningState: map<Handle, Carry>
    var captures: seq<Registered>
    var releaseBind: seq<U32>
    var session: Session
    const capture: InputCapture
    /** what was sent to the clients, and what the service was told */
    var sent: seq<SentTo>
    var notices: seq<Notice>

    ghost function View(): Task
      reads this, capture
    {
      Task(activeClient, dragPending, tuning, tuningState, captures, releaseBind, session, capture.View(), sent,
           notices)
    }

    constructor (releaseBind: seq<U32>)
      ensures View() == IDLE.(releaseBind := releaseBind) && fresh(capture)
    {
      activeClient, dragPending, tuning, tuningState := None, false, map[], map[];
      captures, this.releaseBind, session, sent, notices := [], releaseBind, WaitingForAck, [], [];
      capture := new InputCapture();
    }

    method FindCapture(id: Handle) returns (found: Option<Registered>)
      ensures found == Lookup(captures, id)
    {
      var i := 0;
      while i < |captures|
        invariant 0 <= i <= |captures|
        invariant Lookup(captures, id) == Lookup(captures[i..], id)
      {
        if captures[i].id == id {
          return Some(captures[i]);
        }
        i := i + 1;
      }
      return None;
    }

    method IsDefaultCaptureAt(pos: Position) returns (any: bool)
      ensures any == DefaultAt(captures, pos)
    {
      for i := 0 to |captures|
        invariant forall j :: 0 <= j < i ==> !(captures[j].pos == pos && captures[j].kind == Default)
      {
        if captures[i].pos == pos && captures[i].kind == Default {
          return true;
        }
      }
      return false;
    }

    method HandleCaptureEvent(id: Handle, e: CaptureEvent, sendable: bool)
      modifies this, capture
      ensures View() == HandleEvent(old(View()), id, e, sendable)
    {
      hide F.Release, F.Forward, Lookup, DefaultAt;
      var bound := capture.KeysPressed(releaseBind);
      if bound {
        ReleaseCapture();
        return;
      }
      var found := FindCapture(id);
      if found.None? {
        if e.Begin? && activeClient.None? {
          capture.Release();
        }
        return;
      }
      if e.Begin? {
        notices := notices + [CaptureBegin(id)];
      }
      if found.value.kind == EnterOnly {
        var any := IsDefaultCaptureAt(found.value.pos);
        if !any {
          capture.Release();
        }
        return;
      }
      ForwardEvent(id, found.value.pos, e, sendable);
    }

    method ForwardEvent(id: Handle, pos: Position, e: CaptureEvent, sendable: bool)
      modifies this, capture
      ensures View() == F.Forward(old(View()), id, pos, e, sendable)
    {
      hide F.Translate, F.Activate, F.SendFailed;
      ActivateClient(id, e);
      if dragPending && IsDropRelease(e) {
        dragPending := false;
        notices := notices + [DragReleased(id)];
      }
      if activeClient.None? && e.Captured? {
        return;
      }
      var message := TranslateEvent(id, pos, e);
      if message.None? {
        return;
      }
      if sendable {
        sent := sent + [SentTo(id, message.value)];
      } else {
        SendFailed(id);
      }
    }

    method TranslateEvent(id: Handle, pos: Position, e: CaptureEvent) returns (message: Option<Proto<real>>)
      modifies this`tuningState
      ensures (View(), message) == F.Translate(old(View()), id, pos, e)
    {
      hide TuneEvent;
      if e.Begin? || session == WaitingForAck {
        return Some(Enter(pos.Opposite()));
      }
      var out := Tune(id, e.event);
      return if out.Some? then Some(Input(out.value)) else None;
    }

    method ActivateClient(id: Handle, e: CaptureEvent)
      modifies this
      ensures View() == F.Activate(old(View()), id, e)
    {
      if e.Begin? && activeClient != Some(id) {
        session := WaitingForAck;
        activeClient := Some(id);
        if id in tuningState {
          tuningState := tuningState[id := CLEAN];
        }
        notices := notices + [ClientEntered(id)];
      }
    }

    method SendFailed(id: Handle)
      modifies this, capture
      ensures View() == F.SendFailed(old(View()), id)
    {
      if dragPending {
        dragPending := false;
        notices := notices + [DragCancelled(id)];
      }
      if id in tuningState {
        tuningState := tuningState[id := CLEAN];
      }
      capture.Release();
    }

    /** Applies the client's tuning to an outgoing event. */
    method Tune(id: Handle, e: Event<real>) returns (out: Option<Event<real>>)
      modifies this`tuningState
      ensures (tuningState, out) ==
              (old(tuningState)[id := TuneEvent(old(View()).TuningOf(id), old(View()).CarryOf(id), e).0],
               TuneEvent(old(View()).TuningOf(id), old(View()).CarryOf(id), e).1)
    {
      var t := if id in tuning then tuning[id] else ClientTuning(DEFAULT_SPEED, IDENTITY);
      var c := if id in tuningState then tuningState[id] else CLEAN;
      var (c', o) := TuneEvent(t, c, e);
      tuningState := tuningState[id := c'];
      out := o;
    }

    method ReleaseCapture()
      modifies this, capture
      ensures View() == F.Release(old(View()))
    {
      hide Ascending, F.KeyUps, F.Release, KeyUpMessages;
      ReleaseShape(View());
      if activeClient.Some? {
        var id := activeClient.value;
        activeClient := None;
        if dragPending {
          dragPending := false;
          notices := notices + [DragCancelled(id)];
        }
        SendFarewell(id);
      }
      capture.Release();
    }

    /** Key-ups for all that is down, no modifiers, and Leave. */
    method SendFarewell(id: Handle)
      modifies this`tuningState, this`sent, capture`pressed
      ensures tuningState == old(tuningState) - {id} && capture.pressed == {}
      ensures var t := old(View());
              var ups := F.KeyUps(t.CarryOf(id).held, t.TuningOf(id).modifiers, t.cap.pressed);
              sent == t.sent + KeyUpMessages(id, Ascending(ups, 0x1_0000_0000))
                  + [SentTo(id, Input(Modifiers(0, 0, 0, 0)))]
                      + [SentTo(id, Leave(0))]
    {
      hide Ascending, F.KeyUps, KeyUpMessages;
      var modifiers := if id in tuning then tuning[id].modifiers else IDENTITY;
      var held := if id in tuningState then tuningState[id].held else CLEAN.held;
      tuningState := tuningState - {id};
      var pressed := capture.TakePressedKeys();
      var keyUps := CollectKeyUps(held, modifiers, pressed);
      var ordered := SortKeys(keyUps);
      var ups := UpMessages(id, ordered);
      sent := sent + ups;
      sent := sent + [SentTo(id, Input(Modifiers(0, 0, 0, 0)))];
      sent := sent + [SentTo(id, Leave(0))];
    }

    /** The codes to release: one for every key still pressed, taken out of the
        record as it goes, then whatever the record still holds. */
    method CollectKeyUps(held: Held, modifiers: ModifierMap, pressed: set<U32>) returns (ups: set<U32>)
      ensures ups == F.KeyUps(held, modifiers, pressed)
    {
      hide Codes, MapKey;
      ups := {};
      var left, rest := pressed, held;
      NoCodes(held, modifiers);
      assert pressed - left == {} && held - {} == held;
      while left != {}
        invariant left <= pressed && rest == held - (pressed - left)
        invariant ups == Codes(held, modifiers, pressed - left)
        decreases |left|
      {
        var key :| key in left;
        var code := Tuning.ReleaseCode(rest, modifiers, key);
        MoreCodes(held, modifiers, pressed - left, key);
        assert pressed - (left - {key}) == pressed - left + {key};
        ups, rest, left := ups + {code}, rest - {key}, left - {key};
      }
      assert pressed - left == pressed;
      AllCodes(held, modifiers, pressed);
      ups := ups + rest.Values;
    }

    /** Sorted, without duplicates. */
    method SortKeys(keys: set<U32>) returns (ordered: seq<U32>)
      ensures ordered == Ascending(keys, 0x1_0000_0000)
    {
      hide Ascending, IsLeast;
      ordered := [];
      var left: set<U32>, done: nat := keys, 0;
      AscendingFrom(keys);
      while left != {}
        invariant done <= 0x1_0000_0000 && Remaining(keys, left, done)
        invariant ordered == Ascending(keys, done)
        decreases |left|
      {
        var _ := LeastOf(left);
        var least :| least in left && IsLeast(left, least);
        AscendingNext(keys, left, done, least);
        ordered, left := ordered + [least], left - {least};
        done := least as int + 1;
      }
      AscendingGap(keys, done, 0x1_0000_0000);
    }

    method UpMessages(id: Handle, keys: seq<U32>) returns (ups: seq<SentTo>)
      ensures ups == KeyUpMessages(id, keys)
    {
      ups := [];
      for i := 0 to |keys|
        invariant ups == KeyUpMessages(id, keys[..i])
      {
        ups := ups + [SentTo(id, Input(Key(0, keys[i], 0)))];
      }
      assert keys[..|keys|] == keys;
    }

    method RemoveCapture(id: Handle)
      modifies this
      ensures View() == F.RemoveCapture(old(View()), id)
    {
      var kept: seq<Registered> := [];
      for i := 0 to |captures|
        invariant kept == Unregister(captures[..i], id)
      {
        assert captures[..i + 1][..i] == captures[..i];
        if captures[i].id != id {
          kept := kept + [captures[i]];
        }
      }
      assert captures[..|captures|] == captures;
      captures := kept;
      if activeClient == Some(id) {
        activeClient := None;
        dragPending := false;
      }
      tuning := tuning - {id};
      tuningState := tuningState - {id};
    }

    method Request(r: Request)
      requires Indexed(capture.View())
      modifies this, capture
      ensures View() == HandleRequest(old(View()), r)
    {
      hide F.Release, F.RemoveCapture, C.Create, C.Destroy, Indexed;
      match r
      case DoRelease => ReleaseCapture();
      case DoCreate(id, pos, kind) =>
        captures := captures + [Registered(id, pos, kind)];
        capture.Create(id, pos);
      case DoDestroy(id) =>
        if activeClient == Some(id) {
          ReleaseKeepsIndexed(View());
          ReleaseCapture();
        }
        RemoveCapture(id);
        RemoveKeepsCap(old(View()), id);
        capture.Destroy(id);
      case DoSetReleaseBind(keys) => releaseBind := keys;
      case DoSetDragPending(pending) => dragPending := pending;
      case DoSetTuning(id, t) => tuning := tuning[id := t];
    }

    method Peer(id: Handle, m: Proto<real>)
      modifies this, capture
      ensures View() == HandlePeer(old(View()), id, m)
    {
      hide F.Release;
      if activeClient.Some? && activeClient.value != id {
        return;
      }
      if m.Ack? {
        session := Sending;
      } else if m.Leave? {
        ReleaseCapture();
      }
    }

    /** The next event the capture has, if any, is handled. */
    method Next(ready: seq<Report>, sendable: bool) returns (left: seq<Report>)
      modifies this, capture
      ensures View() == HandlePoll(old(View()), ready, sendable)
    {
      hide HandleEvent, Poll;
      var out;
      out, left := capture.PollNext(ready);
      if out.Some? {
        HandleCaptureEvent(out.value.id, out.value.event, sendable);
      }
    }
  }

  predicate IsLeast(s: set<U32>, m: U32) { forall k :: k in s ==> m <= k }

  lemma LeastOf(s: set<U32>) returns (m: U32)
    requires s != {}
    ensures m in s && IsLeast(s, m)
    decreases |s|
  {
    m :| m in s;
    if s != {m} {
      var least := LeastOf(s - {m});
      assert forall k :: k in s ==> k == m || k in s - {m};
      if least < m { m := least; }
    }
  }

  /** `left` are the keys from `done` on. */
  predicate Remaining(keys: set<U32>, left: set<U32>, done: nat) {
    left <= keys && forall k :: k in keys ==> (k in left <==> k >= done)
  }

  lemma AscendingFrom(keys: set<U32>)
    ensures Ascending(keys, 0) == []
  {
  }

  lemma AscendingNext(keys: set<U32>, left: set<U32>, done: nat, least: U32)
    requires done <= 0x1_0000_0000 && Remaining(keys, left, done) && least in left && IsLeast(left, least)
    ensures Ascending(keys, least + 1) == Ascending(keys, done) + [least] && Remaining(keys, left - {least}, least + 1)
  {
    AscendingGap(keys, done, least);
  }

  /** No code between `a` and `b` means nothing more in ascending order. */
  lemma {:induction false} AscendingGap(keys: set<U32>, a: nat, b: nat)
    requires a <= b <= 0x1_0000_0000 && forall k :: k in keys && k >= a ==> k >= b
    ensures Ascending(keys, b) == Ascending(keys, a)
    decreases b
  {
    if a < b { AscendingGap(keys, a, b - 1); }
  }

  /** The codes the raw keys `ks` are released under. */
  ghost function Codes(held: Held, map_: ModifierMap, ks: set<U32>): set<U32> {
    set k | k in ks :: Tuning.ReleaseCode(held, map_, k)
  }

  lemma NoCodes(held: Held, map_: ModifierMap)
    ensures Codes(held, map_, {}) == {}
  {
  }

  lemma MoreCodes(held: Held, map_: ModifierMap, ks: set<U32>, k: U32)
    requires k !in ks
    ensures Codes(held, map_, ks + {k}) == Codes(held, map_, ks) + {Tuning.ReleaseCode(held - ks, map_, k)}
  {
    hide MapKey;
    assert Tuning.ReleaseCode(held - ks, map_, k) == Tuning.ReleaseCode(held, map_, k);
    assert k in ks + {k};
  }

  lemma AllCodes(held: Held, map_: ModifierMap, ks: set<U32>)
    ensures F.KeyUps(held, map_, ks) == Codes(held, map_, ks) + (held - ks).Values
  {
    hide MapKey;
    var rest := held - ks;
    forall v | v in held.Values ensures v in Codes(held, map_, ks) + rest.Values {
      var k :| k in held && held[k] == v;
      if k in ks { assert Tuning.ReleaseCode(held, map_, k) == v; } else { assert k in rest && rest[k] == v; }
    }
    forall v | v in rest.Values ensures v in held.Values {
      var k :| k in rest && rest[k] == v;
      assert held[k] == v;
    }
  }

  /** What a release changes, field by field. */
  lemma ReleaseShape(t: Task)
    ensures t.active.None? ==> F.Release(t) == t.(cap := t.cap.(pressed := {}))
    ensures t.active.Some? ==>
              var id := t.active.value;
              var ups := F.KeyUps(t.CarryOf(id).held, t.TuningOf(id).modifiers, t.cap.pressed);
              F.Release(t) == t.(active := None, dragPending := false, carry := t.carry - {id},
                                 cap := t.cap.(pressed := {}),
                notices := if t.dragPending then t.notices + [DragCancelled(id)] else t.notices,
                sent := t.sent + KeyUpMessages(id, Ascending(ups, 0x1_0000_0000))
                    + [SentTo(id, Input(Modifiers(0, 0, 0, 0)))]
                        + [SentTo(id, Leave(0))])
  {
    hide Ascending, F.KeyUps, KeyUpMessages;
  }

  lemma ReleaseKeepsIndexed(t: Task)
    requires Indexed(t.cap)
    ensures Indexed(F.Release(t).cap)
  {
    hide Ascending, F.KeyUps;
  }

  lemma RemoveKeepsCap(t: Task, id: Handle)
    ensures F.RemoveCapture(t, id).cap == t.cap
  {
  }
}
