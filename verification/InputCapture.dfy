/** The input capture as the object it is; its methods compute the functions of
    Capturing. */
module InputCapture {
  import opened Basics
  import opened Events
  import opened Capturing
  import C = Capturing

  class InputCapture {
    /** keys forwarded as down but not up */
    var pressed: set<U32>
    var positions: map<Position, seq<Handle>>
    var ids: map<Handle, Position>
    var pending: seq<Addressed>
    /** the edges the backend watches */
    var armed: set<Position>
    ghost var last: Option<Report>

    ghost function View(): Cap
      reads this
    {
      Cap(pressed, positions, ids, pending, armed, last)
    }

    constructor ()
      ensures View() == EMPTY
    {
      pressed, positions, ids, pending, armed, last := {}, map[], map[], [], {}, None;
    }

    method Create(id: Handle, pos: Position)
      modifies this
      ensures View() == C.Create(old(View()), id, pos)
    {
      if id in ids {
        return;
      }
      ids := ids[id := pos];
      if pos in positions {
        positions := positions[pos := positions[pos] + [id]];
      } else {
        positions := positions[pos := [id]];
        armed := armed + {pos};
      }
    }

    method Destroy(id: Handle)
      requires Indexed(View())
      modifies this
      ensures View() == C.Destroy(old(View()), id) && Indexed(View())
    {
      DestroyKeepsIndexed(View(), id);
      if id !in ids {
        return;
      }
      var pos := ids[id];
      ids := ids - {id};
      pending := Retain(pending, id);
      var remaining := RetainIds(positions[pos], id);
      if remaining == [] {
        positions := positions - {pos};
        armed := armed - {pos};
      } else {
        positions := positions[pos := remaining];
      }
    }

    static method Retain(es: seq<Addressed>, id: Handle) returns (kept: seq<Addressed>)
      ensures kept == NotFor(es, id)
    {
      kept := [];
      for i := 0 to |es|
        invariant kept == NotFor(es[..i], id)
      {
        assert es[..i + 1][..i] == es[..i];
        if es[i].id != id {
          kept := kept + [es[i]];
        }
      }
      assert es[..|es|] == es;
    }

    static method RetainIds(xs: seq<Handle>, id: Handle) returns (kept: seq<Handle>)
      ensures kept == Without(xs, id)
    {
      kept := [];
      for i := 0 to |xs|
        invariant kept == Without(xs[..i], id)
      {
        assert xs[..i + 1][..i] == xs[..i];
        if xs[i] != id {
          kept := kept + [xs[i]];
        }
      }
      assert xs[..|xs|] == xs;
    }

    /** `release`: the keys are forgotten */
    method Release()
      modifies this`pressed
      ensures pressed == {}
    {
      pressed := {};
    }

    method TakePressedKeys() returns (keys: set<U32>)
      modifies this`pressed
      ensures keys == old(pressed) && pressed == {}
    {
      keys := pressed;
      pressed := {};
    }

    method KeysPressed(keys: seq<U32>) returns (all: bool)
      ensures all <==> forall k :: k in keys ==> k in pressed
    {
      for i := 0 to |keys|
        invariant forall j :: 0 <= j < i ==> keys[j] in pressed
      {
        if keys[i] !in pressed {
          return false;
        }
      }
      return true;
    }

    /** One poll of the stream, on the reports the backend has ready. */
    method PollNext(ready: seq<Report>) returns (out: Option<Addressed>, left: seq<Report>)
      modifies this
      ensures (View(), out, left) == Poll(old(View()), ready)
    {
      if pending != [] {
        out, left := Some(pending[0]), ready;
        pending := pending[1..];
        return;
      }
      left := ready;
      while left != []
        invariant pending == []
        invariant Poll(old(View()), ready) == Poll(View(), left)
        decreases |left|
      {
        out := ReadReport(left[0]);
        left := left[1..];
        if out.Some? {
          return;
        }
      }
      return None, left;
    }

    /** One report from the backend. */
    method ReadReport(report: Report) returns (out: Option<Addressed>)
      modifies this
      ensures (View(), out) == Read(old(View()), report)
    {
      last := Some(report);
      if report.event.Captured? && report.event.event.Key? {
        UpdatePressedKeys(report.event.event.key, report.event.event.keyState);
      }
      if report.pos !in positions || positions[report.pos] == [] {
        return None;
      }
      var to := positions[report.pos];
      for i := 1 to |to|
        invariant pending == old(pending) + ToAll(to[1..i], report.event)
        invariant View() == old(View()).(pressed := pressed, last := last, pending := pending)
        invariant pressed == Pressing(old(pressed), report.event) && last == Some(report)
      {
        assert ToAll(to[1..i + 1], report.event) == ToAll(to[1..i], report.event) + [Addressed(to[i], report.event)];
        pending := pending + [Addressed(to[i], report.event)];
      }
      assert to[1..|to|] == to[1..];
      return Some(Addressed(to[0], report.event));
    }

    method UpdatePressedKeys(key: U32, state: Byte)
      modifies this`pressed
      ensures forall time: U32 :: pressed == Pressing(old(pressed), Captured(Key(time, key, state)))
    {
      if IsLinux(key) {
        if state == 1 {
          pressed := pressed + {key};
        } else {
          pressed := pressed - {key};
        }
      }
    }
  }
}
