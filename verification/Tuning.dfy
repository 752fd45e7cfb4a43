/** What happens to an event on its way to the peer: modifier keys change roles
    and motion is scaled. */
module Tuning {
  import opened Basics
  import opened Events

  datatype Role = Ctrl | Alt | Meta

  /** Which role each local modifier plays on the peer. */
  datatype ModifierMap = ModifierMap(ctrl: Role, alt: Role, meta: Role)

  const IDENTITY := ModifierMap(Ctrl, Alt, Meta)

  const DEFAULT_SPEED := 1.0

  datatype ClientTuning = ClientTuning(speed: real, modifiers: ModifierMap)

  /* ---- keys ---- */

  function KeyOf(role: Role, right: bool): U32 {
    match role
    case Ctrl => if right then 97 else 29
    case Alt => if right then 100 else 56
    case Meta => if right then 126 else 125
  }

  /** The role of a modifier key, and whether it is the right-hand one. */
  function RoleOf(key: U32): Option<(Role, bool)> {
    if key == 29 then Some((Ctrl, false))
    else if key == 97 then Some((Ctrl, true))
    else if key == 56 then Some((Alt, false))
    else if key == 100 then Some((Alt, true))
    else if key == 125 then Some((Meta, false))
    else if key == 126 then Some((Meta, true))
    else None
  }

  predicate IsModifier(key: U32) { RoleOf(key).Some? }

  function TargetOf(map_: ModifierMap, role: Role): Role {
    match role
    case Ctrl => map_.ctrl
    case Alt => map_.alt
    case Meta => map_.meta
  }

  /** `map_key` */
  function MapKey(map_: ModifierMap, key: U32): U32 {
    if map_ == IDENTITY then key
    else
      match RoleOf(key)
      case Some((role, right)) => KeyOf(TargetOf(map_, role), right)
      case None => key
  }

  /** A key keeps its side and takes the role the map gives it; the shortcut for
      the identity map changes nothing; other keys pass. */
  lemma MapKeyRoles(map_: ModifierMap, key: U32)
    ensures match RoleOf(key)
            case Some((role, right)) => RoleOf(MapKey(map_, key)) == Some((TargetOf(map_, role), right))
            case None => MapKey(map_, key) == key
    ensures IsModifier(MapKey(map_, key)) <==> IsModifier(key)
  {
  }

  /* ---- held modifiers ---- */

  /** Raw key code to the code the peer saw go down. */
  type Held = map<U32, U32>

  /** `modifier_key`: the held keys afterwards and the code to send, if any. */
  function ModifierKey(held: Held, map_: ModifierMap, key: U32, state: Byte): (Held, Option<U32>) {
    if state == 1 then
      if key in held then (held, Some(held[key]))
      else
        var target := MapKey(map_, key);
        (held[key := target], if target in held.Values then None else Some(target))
    else
      var sent := if key in held then held[key] else MapKey(map_, key);
      var rest := held - {key};
      (rest, if sent in rest.Values then None else Some(sent))
  }

  /** `release_code` */
  function ReleaseCode(held: Held, map_: ModifierMap, key: U32): U32 {
    if key in held then held[key] else MapKey(map_, key)
  }

  /** A key event on its way: modifiers through the map, others as they are. */
  function TuneKey(held: Held, map_: ModifierMap, key: U32, state: Byte): (Held, Option<U32>) {
    if IsModifier(key) then ModifierKey(held, map_, key, state) else (held, Some(key))
  }

  /** Another key is still recorded with the code that `key` went, or would go, down with. */
  predicate SharedCode(held: Held, map_: ModifierMap, key: U32) {
    ReleaseCode(held, map_, key) in (held - {key}).Values
  }

  /** A modifier key is sent under the code it went down with, or else under the map's; and it is sent
      unless that code is still down, or already down, by another key. */
  lemma SentUnlessShared(held: Held, map_: ModifierMap, key: U32, state: Byte)
    requires IsModifier(key)
    ensures var code := TuneKey(held, map_, key, state).1;
            if SharedCode(held, map_, key) && !(state == 1 && key in held) then code.None?
            else code == Some(ReleaseCode(held, map_, key))
  {
    if key !in held { assert held - {key} == held; }
  }

  /** The modifier codes among `keys`. */
  function ModifiersIn(keys: set<U32>): set<U32> { set k | k in keys && IsModifier(k) }

  /** The held keys and their codes are modifiers. */
  predicate HeldOk(held: Held) { forall k :: k in held ==> IsModifier(k) && IsModifier(held[k]) }

  /** The peer has exactly the recorded modifier codes down. */
  predicate Consistent(held: Held, down: set<U32>) { HeldOk(held) && ModifiersIn(down) == held.Values }

  /** What the peer has down after one more key event was tuned and sent. */
  function SentDown(held: Held, map_: ModifierMap, key: U32, state: Byte, down: set<U32>): set<U32> {
    var code := TuneKey(held, map_, key, state).1;
    if code.Some? then Press(down, code.value, state) else down
  }

  lemma ValuesWithout(held: Held, key: U32)
    requires key in held
    ensures forall v :: v in (held - {key}).Values ==> v in held.Values
    ensures forall v :: v in held.Values && v != held[key] ==> v in (held - {key}).Values
  {
    var rest := held - {key};
    forall v | v in held.Values && v != held[key] ensures v in rest.Values {
      var k :| k in held && held[k] == v;
      assert k in rest && rest[k] == v;
    }
  }

  lemma ValuesWith(held: Held, key: U32, target: U32)
    requires key !in held
    ensures held[key := target].Values == held.Values + {target}
  {
    var more := held[key := target];
    assert key in more && more[key] == target;
    forall v | v in held.Values ensures v in more.Values {
      var k :| k in held && held[k] == v;
      assert k in more && more[k] == v;
    }
  }

  /** Whatever map is in force at the moment: after a key event of state 0 or 1 the
      peer again has exactly the recorded codes down. A modifier with another state
      is forgotten here but pressed there, so then it does exactly when another key
      still holds the same code. Keys that are no modifiers go down and up as they
      are. */
  lemma KeyKeepsConsistent(held: Held, map_: ModifierMap, key: U32, state: Byte, down: set<U32>)
    requires Consistent(held, down)
    ensures var (held', code) := TuneKey(held, map_, key, state);
            var down' := SentDown(held, map_, key, state, down);
            && HeldOk(held')
            && (Consistent(held', down') <==> state <= 1 || !IsModifier(key) || SharedCode(held, map_, key))
            && down' - ModifiersIn(down') ==
                 (if IsModifier(key) then down - ModifiersIn(down) else Press(down - ModifiersIn(down), key, state))
  {
    MapKeyRoles(map_, key);
    if IsModifier(key) {
      if state == 1 {
        if key !in held { ValuesWith(held, key, MapKey(map_, key)); } else { assert held[key] in held.Values; }
      } else if key in held {
        ValuesWithout(held, key);
        assert held[key] in held.Values;
      } else {
        assert held - {key} == held;
      }
      var (held', code) := TuneKey(held, map_, key, state);
      var down' := SentDown(held, map_, key, state, down);
      assert state <= 1 || code.None? ==> ModifiersIn(down') == held'.Values;
      assert state > 1 && code.Some? ==> code.value in ModifiersIn(down') && code.value !in held'.Values;
      assert down' - ModifiersIn(down') == down - ModifiersIn(down);
    }
  }

  /** A key event and the map in force when it is tuned. */
  datatype Stroke = Stroke(map_: ModifierMap, key: U32, state: Byte)

  /** The held keys and what the peer has down, after some strokes from a clean state. */
  function Played(ks: seq<Stroke>): (Held, set<U32>) {
    if ks == [] then (map[], {})
    else
      var (held, down) := Played(ks[..|ks| - 1]);
      var k := ks[|ks| - 1];
      (TuneKey(held, k.map_, k.key, k.state).0, SentDown(held, k.map_, k.key, k.state, down))
  }

  /** The plain keys a sequence of strokes leaves down. */
  function PlainDown(ks: seq<Stroke>): set<U32> {
    if ks == [] then {}
    else
      var k := ks[|ks| - 1];
      if IsModifier(k.key) then PlainDown(ks[..|ks| - 1]) else Press(PlainDown(ks[..|ks| - 1]), k.key, k.state)
  }

  /** For every sequence of key presses and releases, and every change of the map
      in between, two keys on one target included: the peer has down exactly the
      codes recorded as held, and the other keys as they were pressed. */
  lemma {:induction false} RemappingRefines(ks: seq<Stroke>)
    requires forall i :: 0 <= i < |ks| ==> ks[i].state <= 1
    ensures var (held, down) := Played(ks);
            Consistent(held, down) && down == held.Values + PlainDown(ks)
  {
    if ks == [] {
      var none: Held := map[];
      assert none.Values == {};
    } else {
      RemappingRefines(ks[..|ks| - 1]);
      var (held, down) := Played(ks[..|ks| - 1]);
      var k := ks[|ks| - 1];
      KeyKeepsConsistent(held, k.map_, k.key, k.state, down);
      PlainAreNoModifiers(ks);
      PlainAreNoModifiers(ks[..|ks| - 1]);
      assert down - ModifiersIn(down) == PlainDown(ks[..|ks| - 1]);
    }
  }

  lemma {:induction false} PlainAreNoModifiers(ks: seq<Stroke>)
    ensures ModifiersIn(PlainDown(ks)) == {}
  {
    if ks != [] { PlainAreNoModifiers(ks[..|ks| - 1]); }
  }

  /* ---- modifier masks ---- */

  function MaskOf(role: Role): U32 {
    match role
    case Ctrl => 4
    case Alt => 8
    case Meta => 64
  }

  predicate HasMask(mods: U32, role: Role) { (mods / MaskOf(role)) % 2 == 1 }

  /** The mask without the three roles' bits. */
  function Cleared(mods: U32): U32 {
    var a := if HasMask(mods, Ctrl) then mods - 4 else mods;
    var b := if HasMask(a, Alt) then a - 8 else a;
    if HasMask(b, Meta) then b - 64 else b
  }

  function WithMask(mods: U32, role: Role): (r: U32)
    ensures r == if HasMask(mods, role) then mods else mods + MaskOf(role)
  {
    if HasMask(mods, role) then mods else mods + MaskOf(role)
  }

  /** `out` with the mask of what `role` acts as, if `mods` has the mask of `role`. */
  function Remask(map_: ModifierMap, mods: U32, role: Role, out: U32): U32 {
    if HasMask(mods, role) then WithMask(out, TargetOf(map_, role)) else out
  }

  /** `map_mods` */
  function MapMods(map_: ModifierMap, mods: U32): U32 {
    if map_ == IDENTITY then mods
    else Remask(map_, mods, Meta, Remask(map_, mods, Alt, Remask(map_, mods, Ctrl, Cleared(mods))))
  }

  method MapModsLoop(map_: ModifierMap, mods: U32) returns (out: U32)
    ensures out == MapMods(map_, mods)
  {
    if map_ == IDENTITY {
      return mods;
    }
    out := Cleared(mods);
    var roles := [Ctrl, Alt, Meta];
    for i := 0 to |roles|
      invariant i == 0 ==> out == Cleared(mods)
      invariant i == 1 ==> out == Remask(map_, mods, Ctrl, Cleared(mods))
      invariant i == 2 ==> out == Remask(map_, mods, Alt, Remask(map_, mods, Ctrl, Cleared(mods)))
      invariant i == 3 ==> out == MapMods(map_, mods)
    {
      if HasMask(mods, roles[i]) {
        out := WithMask(out, TargetOf(map_, roles[i]));
      }
    }
  }

  /** `x` written out around the three bits. */
  ghost predicate Parts(x: int, low: int, c: int, a: int, mid: int, m: int, high: int) {
    0 <= low < 4 && 0 <= c < 2 && 0 <= a < 2 && 0 <= mid < 4 && 0 <= m < 2 && 0 <= high
    && x == low + 4 * c + 8 * a + 16 * mid + 64 * m + 128 * high
  }

  lemma DivIs(x: int, w: int, q: int, r: int)
    requires (w == 2 || w == 4 || w == 8 || w == 64) && x == w * q + r && 0 <= r < w
    ensures x / w == q
  {
    if w == 2 {
      assert x == 2 * q + r;
    } else if w == 4 {
      assert x == 4 * q + r;
    } else if w == 8 {
      assert x == 8 * q + r;
    } else {
      assert x == 64 * q + r;
    }
  }

  lemma ModTwo(q: int, h: int, b: int)
    requires q == 2 * h + b && 0 <= b < 2
    ensures q % 2 == b
  {
  }

  lemma PartsBits(x: U32, low: int, c: int, a: int, mid: int, m: int, high: int)
    requires Parts(x, low, c, a, mid, m, high)
    ensures HasMask(x, Ctrl) <==> c == 1
    ensures HasMask(x, Alt) <==> a == 1
    ensures HasMask(x, Meta) <==> m == 1
  {
    DivIs(x, 4, c + 2 * a + 4 * mid + 16 * m + 32 * high, low);
    ModTwo(x / 4, a + 2 * mid + 8 * m + 16 * high, c);
    DivIs(x, 8, a + 2 * mid + 8 * m + 16 * high, low + 4 * c);
    ModTwo(x / 8, mid + 4 * m + 8 * high, a);
    DivIs(x, 64, m + 2 * high, low + 4 * c + 8 * a + 16 * mid);
    ModTwo(x / 64, high, m);
  }

  lemma PartsOf(x: U32) returns (low: int, c: int, a: int, mid: int, m: int, high: int)
    ensures Parts(x, low, c, a, mid, m, high)
  {
    var y := x / 4;
    var z := y / 2;
    var u := z / 2;
    var v := u / 4;
    low, c, a, mid, m, high := x % 4, y % 2, z % 2, u % 4, v % 2, v / 2;
    assert x == 4 * y + low && y == 2 * z + c && z == 2 * u + a && u == 4 * v + mid && v == 2 * high + m;
  }

  lemma ClearedParts(x: U32, low: int, c: int, a: int, mid: int, m: int, high: int)
    requires Parts(x, low, c, a, mid, m, high)
    ensures Parts(Cleared(x), low, 0, 0, mid, 0, high)
  {
    hide HasMask;
    PartsBits(x, low, c, a, mid, m, high);
    PartsBits(low + 8 * a + 16 * mid + 64 * m + 128 * high, low, 0, a, mid, m, high);
    PartsBits(low + 16 * mid + 64 * m + 128 * high, low, 0, 0, mid, m, high);
  }

  lemma ClearedHasNone(mods: U32, role: Role)
    ensures !HasMask(Cleared(mods), role) && Cleared(Cleared(mods)) == Cleared(mods)
  {
    hide HasMask, Cleared;
    var low, c, a, mid, m, high := PartsOf(mods);
    ClearedParts(mods, low, c, a, mid, m, high);
    PartsBits(Cleared(mods), low, 0, 0, mid, 0, high);
    ClearedParts(Cleared(mods), low, 0, 0, mid, 0, high);
  }

  lemma MaskAdded(mods: U32, role: Role, other: Role)
    ensures HasMask(WithMask(mods, role), other) <==> other == role || HasMask(mods, other)
    ensures Cleared(WithMask(mods, role)) == Cleared(mods)
  {
    hide HasMask, Cleared;
    if !HasMask(mods, role) {
      var low, c, a, mid, m, high := PartsOf(mods);
      PartsBits(mods, low, c, a, mid, m, high);
      ClearedParts(mods, low, c, a, mid, m, high);
      var x := WithMask(mods, role);
      match role {
        case Ctrl => c := 1;
        case Alt => a := 1;
        case Meta => m := 1;
      }
      PartsBits(x, low, c, a, mid, m, high);
      ClearedParts(x, low, c, a, mid, m, high);
    }
  }

  /** A role's bit is set on the peer exactly when some local role acting as it is
      set here; all other bits pass; the shortcut for the identity map changes
      nothing. */
  lemma MaskFollowsKeys(map_: ModifierMap, mods: U32, role: Role)
    ensures HasMask(MapMods(map_, mods), role) <==>
              exists local :: HasMask(mods, local) && TargetOf(map_, local) == role
    ensures Cleared(MapMods(map_, mods)) == Cleared(mods)
  {
    hide HasMask, Cleared, WithMask;
    if map_ == IDENTITY {
      assert forall local :: TargetOf(map_, local) == local;
    } else {
      ClearedHasNone(mods, role);
      var a := Remask(map_, mods, Ctrl, Cleared(mods));
      var b := Remask(map_, mods, Alt, a);
      MaskAdded(Cleared(mods), map_.ctrl, role);
      MaskAdded(a, map_.alt, role);
      MaskAdded(b, map_.meta, role);
      assert TargetOf(map_, Ctrl) == map_.ctrl && TargetOf(map_, Alt) == map_.alt && TargetOf(map_, Meta) == map_.meta;
    }
  }

  /* ---- motion ---- */

  /** Truncation toward zero. */
  function Trunc(x: real): real {
    if x >= 0.0 then x.Floor as real else -((-x).Floor as real)
  }

  predicate IsWhole(x: real) { x == x.Floor as real }

  /** `scale` in one direction: the remainder afterwards and what is sent. */
  function Scale(rem: real, d: real, speed: real): (real, real) {
    if speed == DEFAULT_SPEED then (rem, d)
    else
      var sum := rem + d * speed;
      (sum - Trunc(sum), Trunc(sum))
  }

  lemma TruncNear(x: real)
    ensures IsWhole(Trunc(x)) && -1.0 < x - Trunc(x) < 1.0
    ensures if x >= 0.0 then 0.0 <= Trunc(x) <= x else x <= Trunc(x) <= 0.0
  {
    assert (x.Floor as real).Floor == x.Floor;
    var n := (-x).Floor;
    assert (-(n as real)).Floor == -n by { assert (-n) as real == -(n as real); }
  }

  /** One step loses nothing; a scaled delta is whole, goes no further than the motion so far, and leaves
      less than a pixel. */
  lemma ScaleConserves(rem: real, d: real, speed: real)
    ensures var (rem', sent) := Scale(rem, d, speed);
            && (speed == DEFAULT_SPEED ==> sent == d && rem' == rem && sent + rem' == rem + d * speed)
            && (speed != DEFAULT_SPEED ==>
                  && sent + rem' == rem + d * speed && IsWhole(sent) && -1.0 < rem' < 1.0
                  && (if rem + d * speed >= 0.0 then 0.0 <= sent <= rem + d * speed
                      else rem + d * speed <= sent <= 0.0))
  {
    hide Trunc, IsWhole;
    if speed == DEFAULT_SPEED {
      assert d * speed == d;
    } else {
      TruncNear(rem + d * speed);
    }
  }

  datatype Move = Move(d: real, speed: real)

  /** The remainder and the total sent after some moves. */
  function Moved(rem: real, ms: seq<Move>): (real, real) {
    if ms == [] then (rem, 0.0)
    else
      var (r, total) := Moved(rem, ms[..|ms| - 1]);
      var (r', sent) := Scale(r, ms[|ms| - 1].d, ms[|ms| - 1].speed);
      (r', total + sent)
  }

  function Wanted(ms: seq<Move>): real {
    if ms == [] then 0.0 else Wanted(ms[..|ms| - 1]) + ms[|ms| - 1].d * ms[|ms| - 1].speed
  }

  /** Over any sequence of deltas and speed changes: what was sent and what remains
      is what remained before plus the scaled motion, and what remains stays
      strictly within one pixel. */
  lemma {:induction false} MotionIsConserved(rem: real, ms: seq<Move>)
    requires -1.0 < rem < 1.0
    ensures var (r, total) := Moved(rem, ms);
            total + r == rem + Wanted(ms) && -1.0 < r < 1.0
  {
    if ms != [] {
      MotionIsConserved(rem, ms[..|ms| - 1]);
      ScaleConserves(Moved(rem, ms[..|ms| - 1]).0, ms[|ms| - 1].d, ms[|ms| - 1].speed);
    }
  }

  /* ---- the state kept for one client ---- */

  datatype Carry = Carry(remDx: real, remDy: real, held: Held)

  const CLEAN := Carry(0.0, 0.0, map[])

  /** `tune_event`: the state afterwards and the event to send, if any. */
  function TuneEvent(tuning: ClientTuning, c: Carry, e: Event<real>): (Carry, Option<Event<real>>) {
    match e
    case Motion(time, dx, dy) =>
      var (rx, sx) := Scale(c.remDx, dx, tuning.speed);
      var (ry, sy) := Scale(c.remDy, dy, tuning.speed);
      (c.(remDx := rx, remDy := ry), Some(Motion(time, sx, sy)))
    case Key(time, key, keyState) =>
      var (held, code) := TuneKey(c.held, tuning.modifiers, key, keyState);
      (c.(held := held), if code.Some? then Some(Key(time, code.value, keyState)) else None)
    case Modifiers(depressed, latched, locked, group) =>
      (c, Some(Modifiers(MapMods(tuning.modifiers, depressed), MapMods(tuning.modifiers, latched),
                         MapMods(tuning.modifiers, locked), group)))
    case _ => (c, Some(e))
  }

  /* ---- what becomes of an event ---- */

  /** Buttons, wheel and ticks are sent as they are; a motion is sent as one motion, each axis
      scaled with its own remainder; a plain key is sent as it is, a modifier key, if it is
      sent, as a modifier at the same time in the same state; of the masks each is mapped. */
  lemma TunedInKind(tuning: ClientTuning, c: Carry, e: Event<real>)
    ensures var (c', out) := TuneEvent(tuning, c, e);
            && (e.Button? || e.Axis? || e.AxisDiscrete120? ==> c' == c && out == Some(e))
            && (e.Motion? ==>
                  && out.Some? && out.value.Motion? && out.value.time == e.time && c'.held == c.held
                  && out.value.dx + c'.remDx == c.remDx + e.dx * tuning.speed
                  && out.value.dy + c'.remDy == c.remDy + e.dy * tuning.speed
                  && (tuning.speed == DEFAULT_SPEED ==> c' == c && out == Some(e))
                  && (tuning.speed != DEFAULT_SPEED ==>
                        && IsWhole(out.value.dx) && IsWhole(out.value.dy)
                        && -1.0 < c'.remDx < 1.0 && -1.0 < c'.remDy < 1.0))
            && (e.Key? ==>
                  && c'.remDx == c.remDx && c'.remDy == c.remDy
                  && (!IsModifier(e.key) ==> c' == c && out == Some(e))
                  && (IsModifier(e.key) ==>
                        out.None? || (out.value == Key(e.time, out.value.key, e.keyState)
                                      && HeldKeyOk(c, out.value.key))))
            && (e.Modifiers? ==>
                  && c' == c && out.Some? && out.value.Modifiers? && out.value.group == e.group
                  && MaskMapped(tuning.modifiers, e.depressed, out.value.depressed)
                  && MaskMapped(tuning.modifiers, e.latched, out.value.latched)
                  && MaskMapped(tuning.modifiers, e.locked, out.value.locked))
  {
    hide MapMods, HasMask, Cleared, Scale, IsWhole;
    match e
    case Motion(time, dx, dy) =>
      ScaleConserves(c.remDx, dx, tuning.speed);
      ScaleConserves(c.remDy, dy, tuning.speed);
    case Key(time, key, keyState) => MapKeyRoles(tuning.modifiers, key);
    case Modifiers(depressed, latched, locked, group) =>
      MaskIsMapped(tuning.modifiers, depressed);
      MaskIsMapped(tuning.modifiers, latched);
      MaskIsMapped(tuning.modifiers, locked);
    case _ =>
  }

  /** A code that is sent for a modifier key is a modifier, or one recorded for a held key. */
  predicate HeldKeyOk(c: Carry, code: U32) { IsModifier(code) || code in c.held.Values }

  /** A role's bit is set exactly when some local role that acts as it has its bit set; all other bits are kept. */
  ghost predicate MaskMapped(map_: ModifierMap, mods: U32, out: U32) {
    && Cleared(out) == Cleared(mods)
    && forall role :: HasMask(out, role) <==> exists local :: HasMask(mods, local) && TargetOf(map_, local) == role
  }

  lemma MaskIsMapped(map_: ModifierMap, mods: U32)
    ensures MaskMapped(map_, mods, MapMods(map_, mods))
  {
    hide HasMask, Cleared, MapMods;
    forall role
      ensures HasMask(MapMods(map_, mods), role) <==>
                exists local :: HasMask(mods, local) && TargetOf(map_, local) == role
    {
      MaskFollowsKeys(map_, mods, role);
    }
    MaskFollowsKeys(map_, mods, Ctrl);
  }

  /* ---- whole sequences of events ---- */

  /** An event and the tuning in force when it is passed on. */
  datatype Pass = Pass(tuning: ClientTuning, e: Event<real>)

  /** The state and what was sent, after some events. */
  function TuneAll(c: Carry, ps: seq<Pass>): (Carry, seq<Event<real>>) {
    if ps == [] then (c, [])
    else
      var (before, sent) := TuneAll(c, ps[..|ps| - 1]);
      var (after, out) := TuneEvent(ps[|ps| - 1].tuning, before, ps[|ps| - 1].e);
      (after, if out.Some? then sent + [out.value] else sent)
  }

  /** An event without what tuning may change: of a motion its time, of masks their group, of keys nothing. */
  function Outline(e: Event<real>): seq<Event<real>> {
    match e
    case Motion(time, _, _) => [Motion(time, 0.0, 0.0)]
    case Key(_, _, _) => []
    case Modifiers(_, _, _, group) => [Modifiers(0, 0, 0, group)]
    case _ => [e]
  }

  function Outlines(es: seq<Event<real>>): seq<Event<real>> {
    if es == [] then [] else Outlines(es[..|es| - 1]) + Outline(es[|es| - 1])
  }

  function EventsOf(ps: seq<Pass>): seq<Event<real>> { seq(|ps|, i requires 0 <= i < |ps| => ps[i].e) }

  /** The motion along one axis. */
  function Along(e: Event<real>, right: bool): real { if !e.Motion? then 0.0 else if right then e.dx else e.dy }

  function Distance(es: seq<Event<real>>, right: bool): real {
    if es == [] then 0.0 else Distance(es[..|es| - 1], right) + Along(es[|es| - 1], right)
  }

  /** The motion as it is wanted at the peer. */
  function Desired(p: Pass, right: bool): real { Along(p.e, right) * p.tuning.speed }

  function Scaled(ps: seq<Pass>, right: bool): real {
    if ps == [] then 0.0 else Scaled(ps[..|ps| - 1], right) + Desired(ps[|ps| - 1], right)
  }

  lemma OutlinesMore(es: seq<Event<real>>, e: Event<real>, right: bool)
    ensures Outlines(es + [e]) == Outlines(es) + Outline(e)
    ensures Distance(es + [e], right) == Distance(es, right) + Along(e, right)
  {
    assert (es + [e])[..|es|] == es;
  }

  function RemOf(c: Carry, right: bool): real { if right then c.remDx else c.remDy }

  /** Whatever the events and whenever the tuning changes: all events but keys are sent, each as one of
      its kind, in order, changed at most in what tuning is for. */
  lemma {:induction false} EventsArrive(c: Carry, ps: seq<Pass>)
    ensures Outlines(TuneAll(c, ps).1) == Outlines(EventsOf(ps))
  {
    hide TuneEvent, Outline;
    if ps != [] {
      var front, p := ps[..|ps| - 1], ps[|ps| - 1];
      EventsArrive(c, front);
      var (before, sent) := TuneAll(c, front);
      var out := TuneEvent(p.tuning, before, p.e).1;
      TunedOutline(p.tuning, before, p.e);
      assert EventsOf(ps) == EventsOf(front) + [p.e];
      OutlinesMore(EventsOf(front), p.e, true);
      if out.Some? { OutlinesMore(sent, out.value, true); } else { assert Outlines(sent) + [] == Outlines(sent); }
    }
  }

  /** And along each axis what was sent and what remains, less than a pixel, is what remained before
      plus the scaled motion. */
  lemma {:induction false} MotionArrives(c: Carry, ps: seq<Pass>, right: bool)
    requires -1.0 < RemOf(c, right) < 1.0
    ensures var (c', sent) := TuneAll(c, ps);
            && Distance(sent, right) + RemOf(c', right) == RemOf(c, right) + Scaled(ps, right)
            && -1.0 < RemOf(c', right) < 1.0
  {
    hide TuneEvent, Along, RemOf, Desired;
    if ps != [] {
      var front, p := ps[..|ps| - 1], ps[|ps| - 1];
      MotionArrives(c, front, right);
      var (before, sent) := TuneAll(c, front);
      var out := TuneEvent(p.tuning, before, p.e).1;
      TunedAlong(p.tuning, before, p.e, right);
      if out.Some? { OutlinesMore(sent, out.value, right); }
    }
  }

  lemma TunedAlong(tuning: ClientTuning, c: Carry, e: Event<real>, right: bool)
    ensures var (c', out) := TuneEvent(tuning, c, e);
            var sent := if out.Some? then Along(out.value, right) else 0.0;
            && sent + RemOf(c', right) == RemOf(c, right) + Desired(Pass(tuning, e), right)
            && (-1.0 < RemOf(c, right) < 1.0 ==> -1.0 < RemOf(c', right) < 1.0)
  {
    hide TuneEvent, IsModifier, IsWhole, HeldKeyOk, MaskMapped;
    TunedInKind(tuning, c, e);
    if !e.Motion? { assert Along(e, right) * tuning.speed == 0.0; }
  }

  lemma TunedOutline(tuning: ClientTuning, c: Carry, e: Event<real>)
    ensures var out := TuneEvent(tuning, c, e).1; Outline(e) == if out.Some? then Outline(out.value) else []
  {
    hide TuneKey, MapMods, Scale;
  }
}
