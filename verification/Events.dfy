/** Input events and the messages that carry them. `N` is the type of motion
    values: reals where their size matters, raw 8-byte values on the wire. */
module Events {
  import opened Basics

  type U32 = x: int | 0 <= x < 0x1_0000_0000
  type I32 = x: int | -0x8000_0000 <= x < 0x8000_0000

  const BTN_LEFT: U32 := 0x110

  datatype Event<+N> =
    | Motion(time: U32, dx: N, dy: N)
    | Button(time: U32, button: U32, state: U32)
    | Axis(time: U32, axis: Byte, value: N)
    | AxisDiscrete120(axis: Byte, ticks: I32)
    | Key(time: U32, key: U32, keyState: Byte)
    | Modifiers(depressed: U32, latched: U32, locked: U32, group: U32)

  datatype Position = Left | Right | Top | Bottom
  {
    function Opposite(): Position {
      match this
      case Left => Right
      case Right => Left
      case Top => Bottom
      case Bottom => Top
    }
  }

  predicate Sideways(p: Position) { p == Left || p == Right }

  /** The edge across the screen. */
  lemma OppositeEdge(p: Position)
    ensures p.Opposite() != p && p.Opposite().Opposite() == p && (Sideways(p.Opposite()) <==> Sideways(p))
  {
  }

  datatype Proto<+N> =
    | Enter(pos: Position)
    | Leave(serial: U32)
    | Ack(serial: U32)
    | Input(event: Event<N>)
    | Ping
    | Pong(alive: bool)
    | Hello(commit: Bytes)

  /** The codes of the Linux scancode table, which has no gaps. */
  predicate IsLinux(key: U32) { key <= 249 }

  /* ---- which keys a machine has down ---- */

  /** A key event as the receiving machine sees it: state 0 is up, all else down. */
  function Press(down: set<U32>, key: U32, state: Byte): set<U32> {
    if state == 0 then down - {key} else down + {key}
  }

  function After<N>(down: set<U32>, e: Event<N>): set<U32> {
    if e.Key? then Press(down, e.key, e.keyState) else down
  }

  /** What a machine has down after the events it received. */
  function Down<N>(es: seq<Event<N>>): set<U32> {
    if es == [] then {} else After(Down(es[..|es| - 1]), es[|es| - 1])
  }
}
