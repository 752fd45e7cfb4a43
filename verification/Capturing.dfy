/** The two indexes of the input capture, its queue of fanned-out events and its
    record of pressed keys, as functions on their values. The class in
    InputCapture.dfy computes them. */
module Capturing {
  import opened Basics
  import opened Events

  type Handle = nat

  datatype CaptureEvent = Begin | Captured(event: Event<real>)

  /** An event on its way to one capture. */
  datatype Addressed = Addressed(id: Handle, event: CaptureEvent)

  /** What the backend reports: an event at a screen edge. */
  datatype Report = Report(pos: Position, event: CaptureEvent)

  /** `armed` are the edges the backend was told to watch; `last` is history: the
      report read last. */
  datatype Cap = Cap(pressed: set<U32>, positions: map<Position, seq<Handle>>, ids: map<Handle, Position>,
                     pending: seq<Addressed>, armed: set<Position>, last: Option<Report>)

  const EMPTY := Cap({}, map[], map[], [], {}, None)

  function Without(ids: seq<Handle>, id: Handle): seq<Handle> {
    if ids == [] then []
    else if ids[|ids| - 1] == id then Without(ids[..|ids| - 1], id)
    else Without(ids[..|ids| - 1], id) + [ids[|ids| - 1]]
  }

  function NotFor(es: seq<Addressed>, id: Handle): seq<Addressed> {
    if es == [] then []
    else if es[|es| - 1].id == id then NotFor(es[..|es| - 1], id)
    else NotFor(es[..|es| - 1], id) + [es[|es| - 1]]
  }

  /** `create` */
  function Create(c: Cap, id: Handle, pos: Position): Cap {
    if id in c.ids then c
    else if pos in c.positions
         then c.(ids := c.ids[id := pos], positions := c.positions[pos := c.positions[pos] + [id]])
    else c.(ids := c.ids[id := pos], positions := c.positions[pos := [id]], armed := c.armed + {pos})
  }

  /** `destroy` */
  function Destroy(c: Cap, id: Handle): Cap {
    if id !in c.ids || c.ids[id] !in c.positions then c
    else
      var pos := c.ids[id];
      var left := Without(c.positions[pos], id);
      var r := c.(ids := c.ids - {id}, pending := NotFor(c.pending, id));
      if left == [] then r.(positions := c.positions - {pos}, armed := c.armed - {pos})
      else r.(positions := c.positions[pos := left])
  }

  /** `update_pressed_keys`, for one report */
  function Pressing(pressed: set<U32>, e: CaptureEvent): set<U32> {
    if e.Captured? && e.event.Key? && IsLinux(e.event.key) then
      if e.event.keyState == 1 then pressed + {e.event.key} else pressed - {e.event.key}
    else pressed
  }

  function ToAll(ids: seq<Handle>, e: CaptureEvent): seq<Addressed> {
    seq(|ids|, i requires 0 <= i < |ids| => Addressed(ids[i], e))
  }

  /** A report is read: it goes to the first capture at its edge and waits for the others. */
  function Read(c: Cap, r: Report): (Cap, Option<Addressed>) {
    var c1 := c.(pressed := Pressing(c.pressed, r.event), last := Some(r));
    if r.pos in c.positions && c.positions[r.pos] != [] then
      var ids := c.positions[r.pos];
      (c1.(pending := c.pending + ToAll(ids[1..], r.event)), Some(Addressed(ids[0], r.event)))
    else (c1, None)
  }

  /** `poll_next`, on what the backend has ready: the capture afterwards, the event
      handed out, and the reports not read yet. */
  function Poll(c: Cap, ready: seq<Report>): (Cap, Option<Addressed>, seq<Report>)
    decreases |ready|
  {
    if c.pending != [] then (c.(pending := c.pending[1..]), Some(c.pending[0]), ready)
    else if ready == [] then (c, None, [])
    else
      var (c1, out) := Read(c, ready[0]);
      if out.Some? then (c1, out, ready[1..]) else Poll(c1, ready[1..])
  }

  /* ---- the invariant ---- */

  predicate NoTwice<T(==)>(xs: seq<T>) { forall i, j :: 0 <= i < j < |xs| ==> xs[i] != xs[j] }

  ghost predicate EdgeOk(positions: map<Position, seq<Handle>>, ids: map<Handle, Position>, pos: Position)
    requires pos in positions
  {
    var at := positions[pos];
    at != [] && NoTwice(at) && forall id :: id in at ==> id in ids && ids[id] == pos
  }

  ghost predicate Inverse(positions: map<Position, seq<Handle>>, ids: map<Handle, Position>) {
    && (forall pos :: pos in positions ==> EdgeOk(positions, ids, pos))
    && (forall id :: id in ids ==> ids[id] in positions && id in positions[ids[id]])
  }

  /** A waiting event is a copy of the report read last, for a live capture at its edge. */
  predicate QueuedOk(a: Addressed, last: Option<Report>, ids: map<Handle, Position>) {
    last.Some? && a.event == last.value.event && a.id in ids && ids[a.id] == last.value.pos
  }

  ghost predicate QueueOk(pending: seq<Addressed>, last: Option<Report>, ids: map<Handle, Position>) {
    && (forall i :: 0 <= i < |pending| ==> QueuedOk(pending[i], last, ids))
    && (forall i, j :: 0 <= i < j < |pending| ==> pending[i].id != pending[j].id)
  }

  /** The two indexes are each other's inverse, without duplicates or empty lists;
      the backend watches exactly the edges in use; and every waiting event is a
      copy of the report read last, for a live capture at its edge, one each. */
  ghost predicate Indexed(c: Cap) {
    Inverse(c.positions, c.ids) && c.armed == c.positions.Keys && QueueOk(c.pending, c.last, c.ids)
  }

  lemma {:induction false} WithoutKeeps(ids: seq<Handle>, id: Handle)
    requires NoTwice(ids)
    ensures NoTwice(Without(ids, id)) && forall x :: x in Without(ids, id) <==> x in ids && x != id
  {
    if ids != [] {
      var front := ids[..|ids| - 1];
      WithoutKeeps(front, id);
      assert ids == front + [ids[|ids| - 1]];
      assert ids[|ids| - 1] !in front;
    }
  }

  lemma {:induction false} NotForKeeps(es: seq<Addressed>, id: Handle)
    ensures forall e :: e in NotFor(es, id) <==> e in es && e.id != id
    ensures (forall i, j :: 0 <= i < j < |es| ==> es[i].id != es[j].id) ==>
              forall i, j :: 0 <= i < j < |NotFor(es, id)| ==> NotFor(es, id)[i].id != NotFor(es, id)[j].id
  {
    if es != [] {
      var front := es[..|es| - 1];
      NotForKeeps(front, id);
      assert es == front + [es[|es| - 1]];
      if forall i, j :: 0 <= i < j < |es| ==> es[i].id != es[j].id {
        forall e | e in NotFor(front, id) ensures e.id != es[|es| - 1].id {
          var i :| 0 <= i < |front| && front[i] == e;
          assert es[i].id != es[|es| - 1].id;
        }
      }
    }
  }

  lemma AppendedOnce(ids: seq<Handle>, id: Handle)
    requires NoTwice(ids) && id !in ids
    ensures NoTwice(ids + [id]) && forall x :: x in ids + [id] <==> x in ids || x == id
  {
  }

  lemma InverseCreated(c: Cap, id: Handle, pos: Position)
    requires Inverse(c.positions, c.ids) && id !in c.ids
    ensures Inverse(Create(c, id, pos).positions, Create(c, id, pos).ids)
  {
    hide NoTwice;
    var r := Create(c, id, pos);
    EmptyOnce();
    if pos in c.positions { assert EdgeOk(c.positions, c.ids, pos); }
    var ids := if pos in c.positions then c.positions[pos] else [];
    AppendedOnce(ids, id);
    assert r.positions[pos] == ids + [id];
    forall p | p in r.positions
      ensures EdgeOk(r.positions, r.ids, p)
    {
      if p in c.positions { assert EdgeOk(c.positions, c.ids, p); }
    }
  }

  lemma CreateKeepsIndexed(c: Cap, id: Handle, pos: Position)
    requires Indexed(c)
    ensures Indexed(Create(c, id, pos))
  {
    hide Inverse, QueueOk;
    if id !in c.ids {
      InverseCreated(c, id, pos);
      QueueKept(c.pending, c.last, c.ids, id, pos);
      ArmedCreated(c, id, pos);
    }
  }

  lemma QueueKept(pending: seq<Addressed>, last: Option<Report>, ids: map<Handle, Position>, id: Handle, pos: Position)
    requires QueueOk(pending, last, ids) && id !in ids
    ensures QueueOk(pending, last, ids[id := pos])
  {
    var more := ids[id := pos];
    forall i | 0 <= i < |pending| ensures QueuedOk(pending[i], last, more) {
      assert QueuedOk(pending[i], last, ids);
    }
  }

  lemma ArmedCreated(c: Cap, id: Handle, pos: Position)
    requires c.armed == c.positions.Keys
    ensures Create(c, id, pos).armed == Create(c, id, pos).positions.Keys
  {
  }

  lemma EmptyOnce()
    ensures NoTwice<Handle>([])
  {
  }

  lemma InverseLeft(c: Cap, id: Handle)
    requires Inverse(c.positions, c.ids) && id in c.ids
    ensures Inverse(Destroy(c, id).positions, Destroy(c, id).ids)
  {
    hide NoTwice;
    var r, pos := Destroy(c, id), c.ids[id];
    assert EdgeOk(c.positions, c.ids, pos);
    WithoutKeeps(c.positions[pos], id);
    forall p | p in r.positions ensures EdgeOk(r.positions, r.ids, p) { assert EdgeOk(c.positions, c.ids, p); }
    forall i | i in r.ids ensures r.ids[i] in r.positions && i in r.positions[r.ids[i]] {
      assert i in c.positions[c.ids[i]];
      if c.ids[i] == pos { assert i in Without(c.positions[pos], id); }
    }
  }

  lemma QueueLeft(c: Cap, id: Handle)
    requires QueueOk(c.pending, c.last, c.ids)
    ensures QueueOk(NotFor(c.pending, id), c.last, c.ids - {id})
  {
    NotForKeeps(c.pending, id);
    var pending := NotFor(c.pending, id);
    forall i | 0 <= i < |pending|
      ensures c.last.Some? && pending[i].event == c.last.value.event && pending[i].id in c.ids - {id}
              && c.ids[pending[i].id] == c.last.value.pos
    {
      assert pending[i] in NotFor(c.pending, id);
      var j :| 0 <= j < |c.pending| && c.pending[j] == pending[i];
    }
  }

  lemma DestroyKeepsIndexed(c: Cap, id: Handle)
    requires Indexed(c)
    ensures Indexed(Destroy(c, id)) && id !in Destroy(c, id).ids
  {
    hide QueueOk, EdgeOk;
    if id in c.ids {
      InverseLeft(c, id);
      assert Destroy(c, id).armed == Destroy(c, id).positions.Keys;
      QueueLeft(c, id);
    }
  }

  lemma ReadKeepsIndexed(c: Cap, r: Report)
    requires Indexed(c) && c.pending == []
    ensures Indexed(Read(c, r).0)
    ensures var out := Read(c, r).1;
            out.Some? ==> out.value.id in c.ids && c.ids[out.value.id] == r.pos && out.value.event == r.event
  {
    var c1 := Read(c, r).0;
    if r.pos in c.positions {
      assert EdgeOk(c.positions, c.ids, r.pos);
      var ids := c.positions[r.pos];
      assert ids[0] in ids;
      forall i | 0 <= i < |c1.pending| ensures c1.pending[i].id in c.ids && c.ids[c1.pending[i].id] == r.pos {
        assert c1.pending[i].id == ids[i + 1] && ids[i + 1] in ids;
      }
    }
  }

  lemma {:induction false} PollKeepsIndexed(c: Cap, ready: seq<Report>)
    requires Indexed(c)
    ensures Indexed(Poll(c, ready).0)
    decreases |ready|
  {
    hide Read, Inverse;
    if c.pending == [] && ready != [] {
      ReadKeepsIndexed(c, ready[0]);
      if Read(c, ready[0]).1.None? {
        NothingRead(c, ready[0]);
        PollKeepsIndexed(Read(c, ready[0]).0, ready[1..]);
      }
    }
  }

  lemma NothingRead(c: Cap, r: Report)
    requires Read(c, r).1.None?
    ensures Read(c, r).0.pending == c.pending
  {
  }

  /* ---- fan-out is exact ---- */

  /** One thing that happens to the capture: a request, a report read while nothing
      waits, or a waiting event handed out. */
  datatype Op =
    | OpCreate(id: Handle, pos: Position) | OpDestroy(id: Handle) | OpRead(report: Report) | OpPop | OpTakeKeys

  predicate Enabled(c: Cap, op: Op) {
    (op.OpRead? ==> c.pending == []) && (op.OpPop? ==> c.pending != [])
  }

  function Step(c: Cap, op: Op): (Cap, Option<Addressed>)
    requires Enabled(c, op)
  {
    match op
    case OpCreate(id, pos) => (Create(c, id, pos), None)
    case OpDestroy(id) => (Destroy(c, id), None)
    case OpRead(r) => Read(c, r)
    case OpPop => (c.(pending := c.pending[1..]), Some(c.pending[0]))
    case OpTakeKeys => (c.(pressed := {}), None)
  }

  /** The capture after some operations, each enabled in its turn. */
  function Run(ops: seq<Op>): Option<Cap> {
    if ops == [] then Some(EMPTY)
    else
      var before := Run(ops[..|ops| - 1]);
      if before.Some? && Enabled(before.value, ops[|ops| - 1]) then Some(Step(before.value, ops[|ops| - 1]).0) else None
  }

  /** The state in the last event about `key`, unless the keys were taken since. */
  function LastHeard(ops: seq<Op>, key: U32): Option<Byte> {
    if ops == [] then None
    else
      var op := ops[|ops| - 1];
      if op.OpTakeKeys? then None
      else if op.OpRead? && op.report.event.Captured? && op.report.event.event.Key? && op.report.event.event.key == key
      then Some(op.report.event.event.keyState)
      else LastHeard(ops[..|ops| - 1], key)
  }

  /** Over any operations: a key counts as pressed if and only if its code is known and it was last
      reported as pressed, in state 1. */
  lemma {:induction false} PressedIsHeard(ops: seq<Op>, key: U32)
    requires Run(ops).Some?
    ensures key in Run(ops).value.pressed <==> IsLinux(key) && LastHeard(ops, key) == Some(1)
  {
    hide Without, NotFor, ToAll;
    if ops != [] { PressedIsHeard(ops[..|ops| - 1], key); }
  }

  /** Whether `op` starts or ends the life of capture `id`. */
  predicate Renews(c: Cap, op: Op, id: Handle) {
    (op.OpCreate? && op.id == id && id !in c.ids) || (op.OpDestroy? && op.id == id)
  }

  /** The reports read at the edge of capture `id` since it was created. */
  function Due(ops: seq<Op>, id: Handle): seq<CaptureEvent>
    requires Run(ops).Some?
  {
    if ops == [] then []
    else
      var front, op, c := ops[..|ops| - 1], ops[|ops| - 1], Run(ops[..|ops| - 1]).value;
      if Renews(c, op, id) then []
      else if op.OpRead? && id in c.ids && c.ids[id] == op.report.pos then Due(front, id) + [op.report.event]
      else Due(front, id)
  }

  /** The events handed out to capture `id` since it was created. */
  function Got(ops: seq<Op>, id: Handle): seq<CaptureEvent>
    requires Run(ops).Some?
  {
    if ops == [] then []
    else
      var front, op, c := ops[..|ops| - 1], ops[|ops| - 1], Run(ops[..|ops| - 1]).value;
      var out := Step(c, op).1;
      if Renews(c, op, id) then []
      else if out.Some? && out.value.id == id then Got(front, id) + [out.value.event]
      else Got(front, id)
  }

  function Waiting(es: seq<Addressed>, id: Handle): seq<CaptureEvent> {
    if es == [] then []
    else if es[0].id == id then [es[0].event] + Waiting(es[1..], id)
    else Waiting(es[1..], id)
  }

  lemma {:induction false} WaitingNone(es: seq<Addressed>, id: Handle)
    requires forall i :: 0 <= i < |es| ==> es[i].id != id
    ensures Waiting(es, id) == []
  {
    if es != [] { WaitingNone(es[1..], id); }
  }

  lemma {:induction false} WaitingToAll(ids: seq<Handle>, e: CaptureEvent, id: Handle)
    requires NoTwice(ids)
    ensures Waiting(ToAll(ids, e), id) == if id in ids then [e] else []
  {
    if ids != [] {
      assert ToAll(ids, e)[1..] == ToAll(ids[1..], e);
      WaitingToAll(ids[1..], e, id);
      assert ids == [ids[0]] + ids[1..];
      assert ids[0] !in ids[1..];
    }
  }

  lemma {:induction false} WaitingAppend(es: seq<Addressed>, e: Addressed, id: Handle)
    ensures Waiting(es + [e], id) == if e.id == id then Waiting(es, id) + [e.event] else Waiting(es, id)
  {
    if es == [] {
      assert [e][1..] == [];
    } else {
      assert (es + [e])[1..] == es[1..] + [e];
      WaitingAppend(es[1..], e, id);
    }
  }

  lemma {:induction false} WaitingNotFor(es: seq<Addressed>, gone: Handle, id: Handle)
    ensures Waiting(NotFor(es, gone), id) == if id == gone then [] else Waiting(es, id)
  {
    if es != [] {
      var front, last := es[..|es| - 1], es[|es| - 1];
      assert es == front + [last];
      WaitingNotFor(front, gone, id);
      WaitingAppend(front, last, id);
      if last.id != gone { WaitingAppend(NotFor(front, gone), last, id); }
    }
  }

  lemma {:induction false} RunIsIndexed(ops: seq<Op>)
    requires Run(ops).Some?
    ensures Indexed(Run(ops).value)
  {
    hide Create, Destroy, Read;
    if ops != [] {
      var c, op := Run(ops[..|ops| - 1]).value, ops[|ops| - 1];
      RunIsIndexed(ops[..|ops| - 1]);
      match op
      case OpCreate(id, pos) => CreateKeepsIndexed(c, id, pos);
      case OpDestroy(id) => DestroyKeepsIndexed(c, id);
      case OpRead(r) => ReadKeepsIndexed(c, r);
      case OpPop => PollKeepsIndexed(c, []);
      case OpTakeKeys =>
    }
  }

  /** Each report reaches every capture that was registered at its edge when it was
      read and has not been destroyed since, exactly once and in order: what was
      handed out to a live capture, followed by what still waits for it, is what
      was read at its edge; a dead one has nothing waiting. */
  lemma {:induction false} FanOutIsExact(ops: seq<Op>, id: Handle)
    requires Run(ops).Some?
    ensures var c := Run(ops).value;
            if id in c.ids then Due(ops, id) == Got(ops, id) + Waiting(c.pending, id) else Waiting(c.pending, id) == []
  {
    hide Create, Destroy, Read, Indexed;
    RunIsIndexed(ops);
    if ops != [] {
      var front, c, op := ops[..|ops| - 1], Run(ops[..|ops| - 1]).value, ops[|ops| - 1];
      FanOutIsExact(front, id);
      RunIsIndexed(front);
      match op
      case OpCreate(i, pos) => CreateFans(c, i, pos, id);
      case OpDestroy(i) => DestroyFans(c, i, id);
      case OpRead(r) => ReadFans(c, r, id);
      case OpPop =>
      case OpTakeKeys =>
    }
  }

  lemma CreateFans(c: Cap, i: Handle, pos: Position, id: Handle)
    requires Indexed(c)
    ensures var r := Create(c, i, pos);
            && r.pending == c.pending && (id in r.ids <==> id in c.ids || id == i)
               && (id in c.ids ==> r.ids[id] == c.ids[id])
    ensures id !in c.ids ==> Waiting(c.pending, id) == []
  {
    if id !in c.ids { WaitingNone(c.pending, id); }
  }

  lemma DestroyFans(c: Cap, i: Handle, id: Handle)
    requires Indexed(c)
    ensures var r := Destroy(c, i);
            && (id in r.ids <==> id in c.ids && id != i) && (id in r.ids ==> r.ids[id] == c.ids[id])
            && Waiting(r.pending, id) == if id == i then [] else Waiting(c.pending, id)
  {
    WaitingNotFor(c.pending, i, id);
    if i !in c.ids { WaitingNone(c.pending, i); }
  }

  lemma ReadFans(c: Cap, r: Report, id: Handle)
    requires Indexed(c) && c.pending == []
    ensures var (c1, out) := Read(c, r);
            && c1.ids == c.ids
            && (if id in c.ids && c.ids[id] == r.pos
                then (if out.Some? && out.value.id == id then [out.value.event] else []) + Waiting(c1.pending, id)
                    == [r.event]
                else !(out.Some? && out.value.id == id) && Waiting(c1.pending, id) == [])
  {
    var (c1, out) := Read(c, r);
    if r.pos in c.positions {
      assert EdgeOk(c.positions, c.ids, r.pos);
      var ids := c.positions[r.pos];
      WaitingToAll(ids[1..], r.event, id);
      assert ids == [ids[0]] + ids[1..];
      assert [] + ToAll(ids[1..], r.event) == ToAll(ids[1..], r.event);
      assert id in ids[1..] ==> id in ids;
      assert ids[0] !in ids[1..];
    }
  }

  /** The operations one poll amounts to. */
  function PollOps(c: Cap, ready: seq<Report>): seq<Op>
    decreases |ready|
  {
    if c.pending != [] then [OpPop]
    else if ready == [] then []
    else if Read(c, ready[0]).1.Some? then [OpRead(ready[0])]
    else [OpRead(ready[0])] + PollOps(Read(c, ready[0]).0, ready[1..])
  }

  lemma OneMoreOp(ops: seq<Op>, op: Op)
    requires Run(ops).Some? && Enabled(Run(ops).value, op)
    ensures Run(ops + [op]) == Some(Step(Run(ops).value, op).0)
  {
    assert (ops + [op])[..|ops|] == ops;
  }

  /** Polling reads past the reports nobody is registered for and hands out the
      next event: it is a run of the operations above. */
  lemma {:induction false} PollIsSteps(ops: seq<Op>, ready: seq<Report>)
    requires Run(ops).Some?
    ensures Run(ops + PollOps(Run(ops).value, ready)) == Some(Poll(Run(ops).value, ready).0)
    decreases |ready|
  {
    hide Read, Run;
    var c := Run(ops).value;
    if c.pending != [] {
      OneMoreOp(ops, OpPop);
    } else if ready == [] {
      assert ops + [] == ops;
    } else {
      var op := OpRead(ready[0]);
      OneMoreOp(ops, op);
      if Read(c, ready[0]).1.None? {
        NothingRead(c, ready[0]);
        PollIsSteps(ops + [op], ready[1..]);
        assert ops + [op] + PollOps(Read(c, ready[0]).0, ready[1..])
            == ops + ([op] + PollOps(Read(c, ready[0]).0, ready[1..]));
      }
    }
  }
}
