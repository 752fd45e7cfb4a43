/** The tuning state of one client as the object it is; its methods compute the
    functions of Tuning. */
module Tuner {
  import opened Basics
  import opened Events
  import opened Tuning
  import T = Tuning

  class TuningState {
    /** fractional motion left over after scaling */
    var remDx: real
    var remDy: real
    /** modifier keys held, with the code the peer saw */
    var held: Held

    ghost function View(): Carry
      reads this
    {
      Carry(remDx, remDy, held)
    }

    constructor ()
      ensures View() == CLEAN
    {
      remDx, remDy, held := 0.0, 0.0, map[];
    }

    method Reset()
      modifies this
      ensures View() == CLEAN
    {
      remDx, remDy, held := 0.0, 0.0, map[];
    }

    method ScaleMotion(dx: real, dy: real, speed: real) returns (sx: real, sy: real)
      modifies this`remDx, this`remDy
      ensures (remDx, sx) == Scale(old(remDx), dx, speed) && (remDy, sy) == Scale(old(remDy), dy, speed)
    {
      if speed == DEFAULT_SPEED {
        return dx, dy;
      }
      remDx, remDy := remDx + dx * speed, remDy + dy * speed;
      sx, sy := Trunc(remDx), Trunc(remDy);
      remDx, remDy := remDx - sx, remDy - sy;
    }

    method ModifierKey(map_: ModifierMap, key: U32, state: Byte) returns (code: Option<U32>)
      modifies this`held
      ensures (held, code) == T.ModifierKey(old(held), map_, key, state)
    {
      if state == 1 {
        if key in held {
          return Some(held[key]);
        }
        var target := MapKey(map_, key);
        var alreadyDown := target in held.Values;
        held := held[key := target];
        return if alreadyDown then None else Some(target);
      }
      var sent := if key in held then held[key] else MapKey(map_, key);
      held := held - {key};
      var stillDown := sent in held.Values;
      return if stillDown then None else Some(sent);
    }

    /** The code to release for a raw key still held. */
    method ReleaseCode(map_: ModifierMap, key: U32) returns (code: U32)
      modifies this`held
      ensures code == T.ReleaseCode(old(held), map_, key) && held == old(held) - {key}
    {
      code := if key in held then held[key] else MapKey(map_, key);
      held := held - {key};
    }

    /** What is left in the record; the record is emptied. */
    method DrainHeld() returns (codes: set<U32>)
      modifies this`held
      ensures codes == old(held).Values && held == map[]
    {
      codes := held.Values;
      held := map[];
    }

    method Tune(tuning: ClientTuning, e: Event<real>) returns (out: Option<Event<real>>)
      modifies this
      ensures (View(), out) == TuneEvent(tuning, old(View()), e)
    {
      match e
      case Motion(time, dx, dy) =>
        var sx, sy := ScaleMotion(dx, dy, tuning.speed);
        out := Some(Motion(time, sx, sy));
      case Key(time, key, keyState) =>
        var code := Some(key);
        if IsModifier(key) {
          code := ModifierKey(tuning.modifiers, key, keyState);
        }
        out := if code.Some? then Some(Key(time, code.value, keyState)) else None;
      case Modifiers(depressed, latched, locked, group) =>
        var d := MapModsLoop(tuning.modifiers, depressed);
        var l := MapModsLoop(tuning.modifiers, latched);
        var k := MapModsLoop(tuning.modifiers, locked);
        out := Some(Modifiers(d, l, k, group));
      case _ => out := Some(e);
    }
  }
}
