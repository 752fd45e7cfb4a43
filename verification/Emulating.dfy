/** The receiving end of input: per-sender records of pressed keys in front of the
    emulation backend, and the addresses they belong to. */
module Emulating {
  import opened Basics
  import opened Events

  type EmuHandle = nat

  /** What the backend was told: an event for one handle. */
  datatype Told = Told(handle: EmuHandle, event: Event<real>)

  /** The events the backend was told for `h`. */
  function For(log: seq<Told>, h: EmuHandle): seq<Event<real>> {
    if log == [] then []
    else if log[|log| - 1].handle == h then For(log[..|log| - 1], h) + [log[|log| - 1].event]
    else For(log[..|log| - 1], h)
  }

  /** What the backend has down on behalf of `h`. */
  function DownFor(log: seq<Told>, h: EmuHandle): set<U32> { Down(For(log, h)) }

  lemma ForAppend(log: seq<Told>, t: Told, h: EmuHandle)
    ensures For(log + [t], h) == if t.handle == h then For(log, h) + [t.event] else For(log, h)
    ensures DownFor(log + [t], h) == if t.handle == h then After(DownFor(log, h), t.event) else DownFor(log, h)
  {
    assert (log + [t])[..|log|] == log;
    assert (For(log, h) + [t.event])[..|For(log, h)|] == For(log, h);
  }

  const NO_MODIFIERS: Event<real> := Modifiers(0, 0, 0, 0)

  /** The backend has down for each handle exactly the keys recorded for it, and
      nothing for handles that do not exist. */
  ghost predicate InStep(handles: set<EmuHandle>, pressed: map<EmuHandle, set<U32>>, log: seq<Told>) {
    && pressed.Keys == handles
    && (forall h :: h in pressed ==> DownFor(log, h) == pressed[h])
    && (forall h :: h !in pressed ==> DownFor(log, h) == {})
  }

  class InputEmulation {
    var handles: set<EmuHandle>
    var pressed: map<EmuHandle, set<U32>>
    /** everything the backend was told */
    var log: seq<Told>

    ghost predicate Valid()
      reads this
    {
      InStep(handles, pressed, log)
    }

    constructor ()
      ensures Valid() && handles == {} && log == []
    {
      handles, pressed, log := {}, map[], [];
    }

    /** A key event is passed on only if it changes something: for a known handle
        the backend ends up with exactly the keys the raw events leave down, and is
        never told a key to press that is down or to release that is up. */
    method Consume(event: Event<real>, handle: EmuHandle)
      requires Valid()
      modifies this`pressed, this`log
      ensures Valid() && pressed.Keys == old(pressed.Keys)
      ensures handle in old(pressed) ==> pressed == old(pressed)[handle := After(old(pressed)[handle], event)]
      ensures handle !in old(pressed) ==> pressed == old(pressed)
      ensures !event.Key? ==> log == old(log) + [Told(handle, event)]
      ensures event.Key? ==>
                log == if handle in old(pressed) && After(old(pressed)[handle], event) != old(pressed)[handle]
                                    then old(log) + [Told(handle, event)] else old(log)
    {
      if event.Key? {
        var changes := UpdatePressedKeys(handle, event.key, event.keyState);
        if changes {
          Tell(handle, event);
        }
      } else {
        Tell(handle, event);
        assert forall h :: h in pressed ==> pressed[h] == old(pressed)[h];
        if handle in pressed { assert pressed == pressed[handle := pressed[handle]]; }
      }
    }

    method Tell(handle: EmuHandle, event: Event<real>)
      modifies this`log
      ensures log == old(log) + [Told(handle, event)]
      ensures forall h :: DownFor(log, h) == if h == handle then After(DownFor(old(log), h), event)
                                             else DownFor(old(log), h)
    {
      forall h ensures DownFor(log + [Told(handle, event)], h)
                    == if h == handle then After(DownFor(log, h), event) else DownFor(log, h)
      {
        ForAppend(log, Told(handle, event), h);
      }
      log := log + [Told(handle, event)];
    }

    /** Whether the event changes what is recorded for `handle`. */
    method UpdatePressedKeys(handle: EmuHandle, key: U32, state: Byte) returns (changes: bool)
      modifies this`pressed
      ensures handle !in old(pressed) ==> !changes && pressed == old(pressed)
      ensures handle in old(pressed) ==>
                && pressed == old(pressed)[handle := Press(old(pressed)[handle], key, state)]
                && (changes <==> Press(old(pressed)[handle], key, state) != old(pressed)[handle])
    {
      if handle !in pressed {
        return false;
      }
      if state == 0 {
        changes := key in pressed[handle];
        pressed := pressed[handle := pressed[handle] - {key}];
      } else {
        changes := key !in pressed[handle];
        pressed := pressed[handle := pressed[handle] + {key}];
      }
    }

    method Create(handle: EmuHandle) returns (new_: bool)
      requires Valid()
      modifies this`handles, this`pressed
      ensures Valid() && handles == old(handles) + {handle} && (new_ <==> handle !in old(handles))
      ensures pressed == if handle in old(handles) then old(pressed) else old(pressed)[handle := {}]
    {
      new_ := handle !in handles;
      if new_ {
        handles := handles + {handle};
        pressed := pressed[handle := {}];
      }
    }

    /** Releases every key recorded for `handle`, in any order. */
    method ReleaseKeys(handle: EmuHandle)
      requires Valid()
      modifies this`pressed, this`log
      ensures Valid() && pressed.Keys == old(pressed.Keys)
      ensures handle in pressed ==> pressed[handle] == {}
      ensures DownFor(log, handle) == {}
      ensures forall h :: h in pressed && h != handle ==> pressed[h] == old(pressed)[h]
    {
      if handle in pressed {
        var keys := pressed[handle];
        pressed := pressed[handle := {}];
        while keys != {}
          invariant pressed == old(pressed)[handle := {}]
          invariant DownFor(log, handle) == keys
          invariant forall h :: h != handle ==> DownFor(log, h) == DownFor(old(log), h)
          decreases |keys|
        {
          var key :| key in keys;
          keys := keys - {key};
          Tell(handle, Key(0, key, 0));
        }
      }
      Tell(handle, NO_MODIFIERS);
    }

    /** After `destroy` the backend has nothing down for the handle. */
    method Destroy(handle: EmuHandle)
      requires Valid()
      modifies this
      ensures Valid() && handles == old(handles) - {handle}
      ensures DownFor(log, handle) == {}
      ensures pressed == old(pressed) - {handle}
    {
      ReleaseKeys(handle);
      if handle in handles {
        handles := handles - {handle};
        pressed := pressed - {handle};
      }
      assert forall h :: h in pressed ==> h in old(pressed) && pressed[h] == old(pressed)[h];
    }

    method Terminate()
      requires Valid()
      modifies this
      ensures Valid() && handles == {} && forall h :: DownFor(log, h) == {}
    {
      while handles != {}
        invariant Valid()
        decreases |handles|
      {
        var handle :| handle in handles;
        Destroy(handle);
      }
    }
  }

  /** Addresses have handles of their own, all handed out before `nextId`, and
      exactly these are known to the emulation. */
  ghost predicate Table(handles: map<nat, EmuHandle>, nextId: EmuHandle, known: set<EmuHandle>) {
    && known == handles.Values
    && (forall a :: a in handles ==> handles[a] < nextId)
    && (forall a, b :: a in handles && b in handles && a != b ==> handles[a] != handles[b])
  }

  ghost function DownIn(handles: map<nat, EmuHandle>, pressed: map<EmuHandle, set<U32>>, addr: nat): set<U32> {
    if addr in handles && handles[addr] in pressed then pressed[handles[addr]] else {}
  }

  lemma TableAdded(handles: map<nat, EmuHandle>, nextId: EmuHandle, pressed: map<EmuHandle, set<U32>>, addr: nat)
    requires Table(handles, nextId, pressed.Keys) && addr !in handles
    ensures nextId !in pressed && Table(handles[addr := nextId], nextId + 1, pressed.Keys + {nextId})
    ensures forall a :: DownIn(handles[addr := nextId], pressed[nextId := {}], a) == DownIn(handles, pressed, a)
  {
    AddedValue(handles, addr, nextId);
    forall a | a in handles ensures handles[a] in pressed { assert handles[a] in handles.Values; }
  }

  lemma TableRemoved(handles: map<nat, EmuHandle>, nextId: EmuHandle, pressed: map<EmuHandle, set<U32>>, addr: nat)
    requires Table(handles, nextId, pressed.Keys) && addr in handles
    ensures Table(handles - {addr}, nextId, pressed.Keys - {handles[addr]})
    ensures forall a :: a != addr ==>
              DownIn(handles - {addr}, pressed - {handles[addr]}, a) == DownIn(handles, pressed, a)
  {
    RemovedValue(handles, addr);
  }

  /** A key event of one sender changes only what that sender has down. */
  lemma TableConsumed(handles: map<nat, EmuHandle>, nextId: EmuHandle, pressed: map<EmuHandle, set<U32>>, addr: nat,
                      down: set<U32>)
    requires Table(handles, nextId, pressed.Keys) && addr in handles
    ensures handles[addr] in pressed
    ensures DownIn(handles, pressed[handles[addr] := down], addr) == down
    ensures forall a :: a != addr ==> DownIn(handles, pressed[handles[addr] := down], a) == DownIn(handles, pressed, a)
  {
    assert handles[addr] in handles.Values;
  }

  /** The senders of input, by address. */
  class EmulationTask {
    var handles: map<nat, EmuHandle>
    var nextId: EmuHandle
    const emulation: InputEmulation

    ghost predicate Valid()
      reads this, emulation
    {
      emulation.Valid() && Table(handles, nextId, emulation.handles)
    }

    /** What the backend has down on behalf of the sender at `addr`. */
    ghost function DownAt(addr: nat): set<U32>
      reads this, emulation
    {
      DownIn(handles, emulation.pressed, addr)
    }

    constructor ()
      ensures Valid() && handles == map[] && fresh(emulation)
    {
      handles, nextId := map[], 0;
      emulation := new InputEmulation();
    }

    /** An input event from `addr`: its keys go down and up as they are sent, those
        of other senders are not touched. */
    method Input(event: Event<real>, addr: nat)
      requires Valid()
      modifies this`handles, this`nextId, emulation
      ensures Valid() && addr in handles
      ensures DownAt(addr) == After(old(DownAt(addr)), event)
      ensures forall a :: a != addr ==> (a in handles <==> a in old(handles)) && DownAt(a) == old(DownAt(a))
    {
      hide Table, DownIn, DownFor;
      if addr !in handles {
        TableAdded(handles, nextId, emulation.pressed, addr);
        var new_ := emulation.Create(nextId);
        handles := handles[addr := nextId];
        nextId := nextId + 1;
      }
      var handle := handles[addr];
      TableConsumed(handles, nextId, emulation.pressed, addr, After(DownAt(addr), event));
      TableConsumed(handles, nextId, emulation.pressed, addr, emulation.pressed[handle]);
      assert emulation.pressed[handle := emulation.pressed[handle]] == emulation.pressed;
      emulation.Consume(event, handle);
    }

    /** The sender left: nothing of it stays down. */
    method Remove(addr: nat)
      requires Valid()
      modifies this`handles, emulation
      ensures Valid() && handles == old(handles) - {addr}
      ensures addr in old(handles) ==> DownFor(emulation.log, old(handles)[addr]) == {}
      ensures forall a :: a != addr ==> DownAt(a) == old(DownAt(a))
    {
      hide Table, DownIn, DownFor;
      if addr in handles {
        TableRemoved(handles, nextId, emulation.pressed, addr);
        var handle := handles[addr];
        handles := handles - {addr};
        emulation.Destroy(handle);
      } else {
        assert handles - {addr} == handles;
      }
    }
  }

  lemma AddedValue(m: map<nat, EmuHandle>, a: nat, h: EmuHandle)
    requires a !in m
    ensures m[a := h].Values == m.Values + {h}
  {
    var r := m[a := h];
    assert a in r && r[a] == h;
    forall v | v in m.Values ensures v in r.Values {
      var k :| k in m && m[k] == v;
      assert k in r && r[k] == v;
    }
  }

  lemma RemovedValue(m: map<nat, EmuHandle>, a: nat)
    requires a in m && forall x, y :: x in m && y in m && x != y ==> m[x] != m[y]
    ensures (m - {a}).Values == m.Values - {m[a]}
  {
    var r := m - {a};
    forall v | v in m.Values && v != m[a] ensures v in r.Values {
      var k :| k in m && m[k] == v;
      assert k in r && r[k] == v;
    }
  }
}
