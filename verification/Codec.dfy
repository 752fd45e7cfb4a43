/** The wire format of input messages: a fixed buffer, reused by the receiver. */
module Codec {
  import opened Basics
  import opened Events

  const MAX_EVENT_SIZE := 21

  /** An 8-byte float as it travels; its value plays no part in the format. */
  type Raw = b: Bytes | |b| == 8 witness [0, 0, 0, 0, 0, 0, 0, 0]

  datatype ProtocolError = InvalidEventId(id: Byte) | InvalidPosition(pos: Byte)

  datatype Decoded = Ok(msg: Proto<Raw>) | Err(error: ProtocolError)

  /* ---- numbers, most significant byte first ---- */

  function Power(k: nat): (p: nat)
    ensures p > 0
  {
    if k == 0 then 1 else 256 * Power(k - 1)
  }

  function ToBytes(n: nat, k: nat): (bs: Bytes)
    ensures |bs| == k
  {
    if k == 0 then [] else ToBytes(n / 256, k - 1) + [n % 256]
  }

  function FromBytes(bs: Bytes): nat {
    if bs == [] then 0 else 256 * FromBytes(bs[..|bs| - 1]) + bs[|bs| - 1]
  }

  lemma {:induction false} NumberRoundTrip(n: nat, k: nat)
    requires n < Power(k)
    ensures FromBytes(ToBytes(n, k)) == n
  {
    if k > 0 {
      assert n / 256 < Power(k - 1);
      NumberRoundTrip(n / 256, k - 1);
      var bs := ToBytes(n, k);
      assert bs[..k - 1] == ToBytes(n / 256, k - 1);
    }
  }

  lemma {:induction false} BytesRoundTrip(bs: Bytes)
    ensures FromBytes(bs) < Power(|bs|) && ToBytes(FromBytes(bs), |bs|) == bs
  {
    if bs != [] {
      var front, last := bs[..|bs| - 1], bs[|bs| - 1];
      BytesRoundTrip(front);
      var n := 256 * FromBytes(front) + last;
      assert n / 256 == FromBytes(front) && n % 256 == last;
      assert bs == front + [last];
    }
  }

  lemma FourBytes()
    ensures Power(4) == 0x1_0000_0000
  {
    assert Power(1) == 256 && Power(2) == 65536 && Power(3) == 16777216;
  }

  lemma DivideTwice(n: nat, p: nat)
    requires p > 0
    ensures n / 256 / p == n / (256 * p)
  {
    var q, r := n / 256, n % 256;
    var a, b := q / p, q % p;
    assert q == p * a + b && n == 256 * q + r;
    assert 256 * q == (256 * p) * a + 256 * b by { assert 256 * (p * a) == (256 * p) * a; }
    var w, rest := 256 * p, 256 * b + r;
    assert n == w * a + rest && 0 <= rest < w;
    Quotient(n, w, a, rest);
  }

  lemma Quotient(n: nat, w: nat, a: nat, rest: nat)
    requires n == w * a + rest && rest < w
    ensures n / w == a
  {
    var q := n / w;
    assert n == w * q + n % w;
    if q < a { Multiple(w, a, q); } else if q > a { Multiple(w, q, a); }
  }

  lemma Multiple(w: nat, a: nat, b: nat)
    requires a > b
    ensures w * a - w * b >= w
  {
    assert w * a - w * b == w * (a - b);
    assert w * (a - b - 1) >= 0;
  }

  /** The most significant byte comes first. */
  lemma {:induction false} ByteAt(n: nat, k: nat, i: nat)
    requires i < k
    ensures ToBytes(n, k)[i] == n / Power(k - 1 - i) % 256
  {
    if i == k - 1 {
      assert Power(0) == 1;
    } else {
      ByteAt(n / 256, k - 1, i);
      DivideTwice(n, Power(k - 2 - i));
    }
  }

  function U32Bytes(n: U32): (bs: Bytes)
    ensures |bs| == 4
  {
    ToBytes(n, 4)
  }

  /** Two's complement. */
  function I32Bytes(n: I32): (bs: Bytes)
    ensures |bs| == 4
  {
    ToBytes(if n < 0 then n + 0x1_0000_0000 else n, 4)
  }

  function ToU32(bs: Bytes): U32
    requires |bs| == 4
  {
    BytesRoundTrip(bs);
    FourBytes();
    FromBytes(bs)
  }

  function ToI32(bs: Bytes): I32
    requires |bs| == 4
  {
    var n := ToU32(bs);
    if n >= 0x8000_0000 then n - 0x1_0000_0000 else n
  }

  lemma FieldsRoundTrip()
    ensures forall n: U32 :: ToU32(U32Bytes(n)) == n
    ensures forall n: I32 :: ToI32(I32Bytes(n)) == n
    ensures forall bs: Bytes | |bs| == 4 :: U32Bytes(ToU32(bs)) == bs && I32Bytes(ToI32(bs)) == bs
  {
    FourBytes();
    forall n: U32 ensures ToU32(U32Bytes(n)) == n { NumberRoundTrip(n, 4); }
    forall n: I32 ensures ToI32(I32Bytes(n)) == n { NumberRoundTrip(if n < 0 then n + 0x1_0000_0000 else n, 4); }
    forall bs: Bytes | |bs| == 4 ensures U32Bytes(ToU32(bs)) == bs && I32Bytes(ToI32(bs)) == bs { BytesRoundTrip(bs); }
  }

  /* ---- messages ---- */

  function PositionByte(p: Position): Byte {
    match p
    case Left => 0
    case Right => 1
    case Top => 2
    case Bottom => 3
  }

  function PositionOf(b: Byte): Position
    requires b <= 3
  {
    if b == 0 then Left else if b == 1 then Right else if b == 2 then Top else Bottom
  }

  /** `event_type` */
  function TypeByte(m: Proto<Raw>): Byte {
    match m
    case Input(Motion(_, _, _)) => 0
    case Input(Button(_, _, _)) => 1
    case Input(Axis(_, _, _)) => 2
    case Input(AxisDiscrete120(_, _)) => 3
    case Input(Key(_, _, _)) => 4
    case Input(Modifiers(_, _, _, _)) => 5
    case Ping => 6
    case Pong(_) => 7
    case Enter(_) => 8
    case Leave(_) => 9
    case Ack(_) => 10
    case Hello(_) => 11
  }

  /** A commit hash has eight bytes. */
  predicate Valid(m: Proto<Raw>) { m.Hello? ==> |m.commit| == 8 }

  function Fields(m: Proto<Raw>): Bytes {
    match m
    case Input(Motion(time, dx, dy)) => U32Bytes(time) + dx + dy
    case Input(Button(time, button, state)) => U32Bytes(time) + U32Bytes(button) + U32Bytes(state)
    case Input(Axis(time, axis, value)) => U32Bytes(time) + [axis] + value
    case Input(AxisDiscrete120(axis, ticks)) => [axis] + I32Bytes(ticks)
    case Input(Key(time, key, keyState)) => U32Bytes(time) + U32Bytes(key) + [keyState]
    case Input(Modifiers(depressed, latched, locked, group)) =>
      U32Bytes(depressed) + U32Bytes(latched) + U32Bytes(locked) + U32Bytes(group)
    case Ping => []
    case Pong(alive) => [if alive then 1 else 0]
    case Enter(pos) => [PositionByte(pos)]
    case Leave(serial) => U32Bytes(serial)
    case Ack(serial) => U32Bytes(serial)
    case Hello(commit) => commit
  }

  /** What is sent of a message. */
  function Encode(m: Proto<Raw>): Bytes { [TypeByte(m)] + Fields(m) }

  /** What a full buffer is read as. */
  function Decode(b: Bytes): Decoded
    requires |b| == MAX_EVENT_SIZE
  {
    if b[0] == 0 then Ok(Input(Motion(ToU32(b[1..5]), b[5..13], b[13..21])))
    else if b[0] == 1 then Ok(Input(Button(ToU32(b[1..5]), ToU32(b[5..9]), ToU32(b[9..13]))))
    else if b[0] == 2 then Ok(Input(Axis(ToU32(b[1..5]), b[5], b[6..14])))
    else if b[0] == 3 then Ok(Input(AxisDiscrete120(b[1], ToI32(b[2..6]))))
    else if b[0] == 4 then Ok(Input(Key(ToU32(b[1..5]), ToU32(b[5..9]), b[9])))
    else if b[0] == 5 then Ok(Input(Modifiers(ToU32(b[1..5]), ToU32(b[5..9]), ToU32(b[9..13]), ToU32(b[13..17]))))
    else if b[0] == 6 then Ok(Ping)
    else if b[0] == 7 then Ok(Pong(b[1] != 0))
    else if b[0] == 8 then if b[1] <= 3 then Ok(Enter(PositionOf(b[1]))) else Err(InvalidPosition(b[1]))
    else if b[0] == 9 then Ok(Leave(ToU32(b[1..5])))
    else if b[0] == 10 then Ok(Ack(ToU32(b[1..5])))
    else if b[0] == 11 then Ok(Hello(b[1..9]))
    else Err(InvalidEventId(b[0]))
  }

  lemma EncodedFits(m: Proto<Raw>)
    requires Valid(m)
    ensures 1 <= |Encode(m)| <= MAX_EVENT_SIZE
  {
  }

  lemma Part(a: Bytes, mid: Bytes, c: Bytes)
    ensures (a + mid + c)[|a|..|a| + |mid|] == mid
  {
    var b := a + mid + c;
    forall i | 0 <= i < |mid| ensures b[|a|..|a| + |mid|][i] == mid[i] {
      assert b[|a| + i] == mid[i];
    }
  }

  lemma FourFields(t: Bytes, x: Bytes, y: Bytes, z: Bytes, u: Bytes, tail: Bytes)
    requires |t| == 1 && |x| == |y| == |z| == |u| == 4
    ensures var b := t + (x + y + z + u) + tail; b[1..5] == x && b[5..9] == y && b[9..13] == z && b[13..17] == u
  {
    var b := t + (x + y + z + u) + tail;
    assert b == t + x + (y + z + u + tail) && b == t + x + y + (z + u + tail);
    assert b == t + x + y + z + (u + tail) && b == t + x + y + z + u + tail;
    Part(t, x, y + z + u + tail);
    Part(t + x, y, z + u + tail);
    Part(t + x + y, z, u + tail);
    Part(t + x + y + z, u, tail);
  }

  lemma AxisFields(t: Bytes, x: Bytes, axis: Byte, value: Bytes, tail: Bytes)
    requires |t| == 1 && |x| == 4 && |value| == 8
    ensures var b := t + (x + [axis] + value) + tail; b[1..5] == x && b[5] == axis && b[6..14] == value
  {
  }

  lemma DecodeMotion(time: U32, dx: Raw, dy: Raw, tail: Bytes)
    requires |Encode(Input(Motion(time, dx, dy)))| + |tail| == MAX_EVENT_SIZE
    ensures Decode(Encode(Input(Motion(time, dx, dy))) + tail) == Ok(Input(Motion(time, dx, dy)))
  {
    hide ToU32, ToI32, U32Bytes, I32Bytes;
    FieldsRoundTrip();
    var m: Proto<Raw> := Input(Motion(time, dx, dy));
    var b, t := Encode(m) + tail, [TypeByte(m)];
    var x := U32Bytes(time);
    assert b == t + x + (dx + dy + tail) == t + x + dx + (dy + tail) == t + x + dx + dy + tail;
    Part(t, x, dx + dy + tail);
    Part(t + x, dx, dy + tail);
    Part(t + x + dx, dy, tail);
  }

  lemma DecodeButton(time: U32, button: U32, state: U32, tail: Bytes)
    requires |Encode(Input(Button(time, button, state)))| + |tail| == MAX_EVENT_SIZE
    ensures Decode(Encode(Input(Button(time, button, state))) + tail) == Ok(Input(Button(time, button, state)))
  {
    hide ToU32, ToI32, U32Bytes, I32Bytes;
    FieldsRoundTrip();
    var m: Proto<Raw> := Input(Button(time, button, state));
    var b, t := Encode(m) + tail, [TypeByte(m)];
    var x, y, z := U32Bytes(time), U32Bytes(button), U32Bytes(state);
    assert b == t + x + (y + z + tail) == t + x + y + (z + tail) == t + x + y + z + tail;
    Part(t, x, y + z + tail);
    Part(t + x, y, z + tail);
    Part(t + x + y, z, tail);
  }

  lemma DecodeAxis(time: U32, axis: Byte, value: Raw, tail: Bytes)
    requires |Encode(Input(Axis(time, axis, value)))| + |tail| == MAX_EVENT_SIZE
    ensures Decode(Encode(Input(Axis(time, axis, value))) + tail) == Ok(Input(Axis(time, axis, value)))
  {
    hide ToU32, ToI32, U32Bytes, I32Bytes;
    FieldsRoundTrip();
    var m: Proto<Raw> := Input(Axis(time, axis, value));
    var b, t := Encode(m) + tail, [TypeByte(m)];
    var x := U32Bytes(time);
    AxisFields(t, x, axis, value, tail);
  }

  lemma DecodeAxisDiscrete(axis: Byte, ticks: I32, tail: Bytes)
    requires |Encode(Input(AxisDiscrete120(axis, ticks)))| + |tail| == MAX_EVENT_SIZE
    ensures Decode(Encode(Input(AxisDiscrete120(axis, ticks))) + tail) == Ok(Input(AxisDiscrete120(axis, ticks)))
  {
    hide ToU32, ToI32, U32Bytes, I32Bytes;
    FieldsRoundTrip();
    var m: Proto<Raw> := Input(AxisDiscrete120(axis, ticks));
    var b, t := Encode(m) + tail, [TypeByte(m)];
    assert b == t + [axis] + I32Bytes(ticks) + tail;
    Part(t + [axis], I32Bytes(ticks), tail);
  }

  lemma DecodeKey(time: U32, key: U32, keyState: Byte, tail: Bytes)
    requires |Encode(Input(Key(time, key, keyState)))| + |tail| == MAX_EVENT_SIZE
    ensures Decode(Encode(Input(Key(time, key, keyState))) + tail) == Ok(Input(Key(time, key, keyState)))
  {
    hide ToU32, ToI32, U32Bytes, I32Bytes;
    FieldsRoundTrip();
    var m: Proto<Raw> := Input(Key(time, key, keyState));
    var b, t := Encode(m) + tail, [TypeByte(m)];
    var x, y := U32Bytes(time), U32Bytes(key);
    assert b == t + x + (y + [keyState] + tail) == t + x + y + ([keyState] + tail);
    Part(t, x, y + [keyState] + tail);
    Part(t + x, y, [keyState] + tail);
  }

  lemma DecodeModifiers(depressed: U32, latched: U32, locked: U32, group: U32, tail: Bytes)
    requires |Encode(Input(Modifiers(depressed, latched, locked, group)))| + |tail| == MAX_EVENT_SIZE
    ensures Decode(Encode(Input(Modifiers(depressed, latched, locked, group))) + tail)
            == Ok(Input(Modifiers(depressed, latched, locked, group)))
  {
    hide ToU32, ToI32, U32Bytes, I32Bytes;
    FieldsRoundTrip();
    var m: Proto<Raw> := Input(Modifiers(depressed, latched, locked, group));
    var b, t := Encode(m) + tail, [TypeByte(m)];
    FourFields(t, U32Bytes(depressed), U32Bytes(latched), U32Bytes(locked), U32Bytes(group), tail);
  }

  lemma SmallNumber(n: U32)
    requires n < 256
    ensures U32Bytes(n) == [0, 0, 0, n]
  {
    assert ToBytes(0, 1) == [0] && ToBytes(0, 2) == [0, 0] && ToBytes(0, 3) == [0, 0, 0];
  }

  /** Each type of message and each edge by its code, each field in its place. */
  lemma PointerOnTheWire(x: Raw, y: Raw)
    ensures Encode(Input(Motion(1, x, y))) == [0, 0, 0, 0, 1] + x + y
    ensures Encode(Input(Button(1, 2, 3))) == [1, 0, 0, 0, 1, 0, 0, 0, 2, 0, 0, 0, 3]
    ensures Encode(Input(Axis(1, 2, x))) == [2, 0, 0, 0, 1, 2] + x
    ensures Encode(Input(AxisDiscrete120(1, -2))) == [3, 1, 255, 255, 255, 254]
  {
    hide U32Bytes, I32Bytes;
    SmallNumber(1);
    SmallNumber(2);
    SmallNumber(3);
    MinusTwo();
    assert [0] + ([0, 0, 0, 1] + x + y) == [0, 0, 0, 0, 1] + x + y;
    assert [2] + ([0, 0, 0, 1] + [2] + x) == [2, 0, 0, 0, 1, 2] + x;
  }

  lemma KeysOnTheWire()
    ensures Encode(Input(Key(1, 2, 3))) == [4, 0, 0, 0, 1, 0, 0, 0, 2, 3]
    ensures Encode(Input(Modifiers(1, 2, 3, 4))) == [5, 0, 0, 0, 1, 0, 0, 0, 2, 0, 0, 0, 3, 0, 0, 0, 4]
  {
    hide U32Bytes;
    SmallNumber(1);
    SmallNumber(2);
    SmallNumber(3);
    SmallNumber(4);
  }

  lemma ControlOnTheWire(commit: Bytes)
    requires |commit| == 8
    ensures Encode(Ping) == [6] && Encode(Pong(true)) == [7, 1] && Encode(Pong(false)) == [7, 0]
    ensures Encode(Enter(Left)) == [8, 0] && Encode(Enter(Right)) == [8, 1]
    ensures Encode(Enter(Top)) == [8, 2] && Encode(Enter(Bottom)) == [8, 3]
    ensures Encode(Leave(1)) == [9, 0, 0, 0, 1] && Encode(Ack(1)) == [10, 0, 0, 0, 1]
    ensures Encode(Hello(commit)) == [11] + commit
  {
    hide U32Bytes;
    SmallNumber(1);
  }

  lemma MinusTwo()
    ensures I32Bytes(-2) == [255, 255, 255, 254]
  {
    assert ToBytes(255, 1) == [255] && ToBytes(65535, 2) == [255, 255] && ToBytes(16777215, 3) == [255, 255, 255];
  }

  /** Every message fits the buffer, and a buffer that starts with its encoding is
      read as that message, whatever was left in the rest of it. */
  lemma DecodeEncoded(m: Proto<Raw>, tail: Bytes)
    requires Valid(m) && |Encode(m)| + |tail| == MAX_EVENT_SIZE
    ensures Decode(Encode(m) + tail) == Ok(m)
  {
    hide Encode, Decode;
    match m
    case Input(Motion(time, dx, dy)) => DecodeMotion(time, dx, dy, tail);
    case Input(Button(time, button, state)) => DecodeButton(time, button, state, tail);
    case Input(Axis(time, axis, value)) => DecodeAxis(time, axis, value, tail);
    case Input(AxisDiscrete120(axis, ticks)) => DecodeAxisDiscrete(axis, ticks, tail);
    case Input(Key(time, key, keyState)) => DecodeKey(time, key, keyState, tail);
    case Input(Modifiers(depressed, latched, locked, group)) =>
      DecodeModifiers(depressed, latched, locked, group, tail);
    case _ => DecodeControl(m, tail);
  }

  lemma DecodeControl(m: Proto<Raw>, tail: Bytes)
    requires Valid(m) && !m.Input? && |Encode(m)| + |tail| == MAX_EVENT_SIZE
    ensures Decode(Encode(m) + tail) == Ok(m)
  {
    hide ToU32, ToI32, U32Bytes, I32Bytes;
    FieldsRoundTrip();
    Part([TypeByte(m)], Fields(m), tail);
  }

  /** A buffer is refused exactly when its type is unknown or it enters at an
      unknown edge. */
  lemma RefusedBuffers(b: Bytes)
    requires |b| == MAX_EVENT_SIZE
    ensures Decode(b).Err? <==> b[0] > 11 || (b[0] == 8 && b[1] > 3)
    ensures Decode(b).Ok? ==> Valid(Decode(b).msg)
  {
  }

  lemma EncodeDecodedPointer(b: Bytes)
    requires |b| == MAX_EVENT_SIZE && b[0] <= 3
    ensures var e := Encode(Decode(b).msg); |e| <= |b| && e == b[..|e|]
  {
    hide ToU32, ToI32, U32Bytes, I32Bytes;
    FieldsRoundTrip();
    SlicesJoin(b);
  }

  lemma EncodeDecodedKeyboard(b: Bytes)
    requires |b| == MAX_EVENT_SIZE && 4 <= b[0] <= 5
    ensures var e := Encode(Decode(b).msg); |e| <= |b| && e == b[..|e|]
  {
    hide ToU32, ToI32, U32Bytes, I32Bytes;
    FieldsRoundTrip();
    SlicesJoin(b);
  }

  lemma EncodeDecodedControl(b: Bytes)
    requires |b| == MAX_EVENT_SIZE && b[0] >= 6 && Decode(b).Ok?
    ensures var e := Encode(Decode(b).msg); |e| <= |b| && (e == b[..|e|] <==> !(b[0] == 7 && b[1] > 1))
  {
    hide ToU32, ToI32, U32Bytes, I32Bytes;
    FieldsRoundTrip();
    assert b[..1] == [b[0]] && b[..2] == [b[0]] + [b[1]] && b[..5] == [b[0]] + b[1..5] && b[..9] == [b[0]] + b[1..9];
    assert b[..2][1] == b[1];
  }

  /** What was read is what such a message is sent as, except that any non-zero
      byte says a peer is alive. */
  lemma EncodeDecoded(b: Bytes)
    requires |b| == MAX_EVENT_SIZE && Decode(b).Ok?
    ensures var e := Encode(Decode(b).msg);
            |e| <= |b| && (e == b[..|e|] <==> !(b[0] == 7 && b[1] > 1))
  {
    hide Encode, Decode;
    if b[0] <= 3 { EncodeDecodedPointer(b); } else if b[0] <= 5 { EncodeDecodedKeyboard(b); }
                                                   else { EncodeDecodedControl(b); }
  }

  lemma SlicesJoin(b: Bytes)
    requires |b| == MAX_EVENT_SIZE
    ensures b[..1] == [b[0]] && b[..2] == [b[0]] + [b[1]] && b[..5] == [b[0]] + b[1..5] && b[..9] == [b[0]] + b[1..9]
    ensures b[..21] == [b[0]] + (b[1..5] + b[5..13] + b[13..21])
    ensures b[..13] == [b[0]] + (b[1..5] + b[5..9] + b[9..13])
    ensures b[..14] == [b[0]] + (b[1..5] + [b[5]] + b[6..14])
    ensures b[..6] == [b[0]] + ([b[1]] + b[2..6])
    ensures b[..10] == [b[0]] + (b[1..5] + b[5..9] + [b[9]])
    ensures b[..17] == [b[0]] + (b[1..5] + b[5..9] + b[9..13] + b[13..17])
  {
  }

  /* ---- the buffer ---- */

  /** Writes into the fixed buffer, advancing `len` over it; `done` is what was written. */
  class Writer {
    const buf: array<Byte>
    var len: nat
    ghost var done: Bytes

    ghost predicate Ok()
      reads this, buf
    {
      && buf.Length == MAX_EVENT_SIZE && len == |done| <= MAX_EVENT_SIZE && buf[..len] == done
      && forall i :: len <= i < MAX_EVENT_SIZE ==> buf[i] == 0
    }

    constructor ()
      ensures Ok() && done == [] && fresh(buf)
    {
      len, done := 0, [];
      buf := new Byte[MAX_EVENT_SIZE](_ => 0);
    }

    method Put(bs: Bytes)
      requires Ok() && |done| + |bs| <= MAX_EVENT_SIZE
      modifies this, buf
      ensures Ok() && done == old(done) + bs
    {
      for i := 0 to |bs|
        invariant len == old(len) && done == old(done)
        invariant buf[..len] == done && buf[len..len + i] == bs[..i]
        invariant forall j :: len + i <= j < MAX_EVENT_SIZE ==> buf[j] == 0
      {
        buf[len + i] := bs[i];
      }
      assert buf[..len + |bs|] == buf[..len] + buf[len..len + |bs|];
      len, done := len + |bs|, done + bs;
    }

    method PutU8(n: Byte)
      requires Ok() && |done| + 1 <= MAX_EVENT_SIZE
      modifies this, buf
      ensures Ok() && done == old(done) + [n]
    {
      Put([n]);
    }

    method PutU32(n: U32)
      requires Ok() && |done| + 4 <= MAX_EVENT_SIZE
      modifies this, buf
      ensures Ok() && done == old(done) + U32Bytes(n)
    {
      Put(U32Bytes(n));
    }

    /** The fields of an input event. */
    method PutInput(e: Event<Raw>)
      requires Ok() && |done| == 1
      modifies this, buf
      ensures Ok() && done == old(done) + Fields(Input(e))
    {
      hide Ok, U32Bytes, I32Bytes;
      match e
      case Motion(time, dx, dy) => PutU32(time); Put(dx); Put(dy);
      case Button(time, button, state) => PutU32(time); PutU32(button); PutU32(state);
      case Axis(time, axis, value) => PutU32(time); PutU8(axis); Put(value);
      case AxisDiscrete120(axis, ticks) => PutU8(axis); Put(I32Bytes(ticks));
      case Key(time, key, keyState) => PutU32(time); PutU32(key); PutU8(keyState);
      case Modifiers(depressed, latched, locked, group) => PutModifiers(depressed, latched, locked, group);
    }

    method PutModifiers(depressed: U32, latched: U32, locked: U32, group: U32)
      requires Ok() && |done| == 1
      modifies this, buf
      ensures Ok() && done == old(done) + U32Bytes(depressed) + U32Bytes(latched) + U32Bytes(locked) + U32Bytes(group)
    {
      hide Ok, U32Bytes;
      PutU32(depressed); PutU32(latched); PutU32(locked); PutU32(group);
    }
  }

  /** The buffer and the number of its bytes to send. */
  method EncodeEvent(m: Proto<Raw>) returns (buf: array<Byte>, len: nat)
    requires Valid(m)
    ensures fresh(buf) && buf.Length == MAX_EVENT_SIZE && len <= MAX_EVENT_SIZE
    ensures buf[..len] == Encode(m) && forall i :: len <= i < MAX_EVENT_SIZE ==> buf[i] == 0
  {
    hide U32Bytes, I32Bytes;
    var w := new Writer();
    w.PutU8(TypeByte(m));
    match m {
      case Input(e) => w.PutInput(e);
      case Ping =>
      case Pong(alive) => w.PutU8(if alive then 1 else 0);
      case Enter(pos) => w.PutU8(PositionByte(pos));
      case Leave(serial) => w.PutU32(serial);
      case Ack(serial) => w.PutU32(serial);
      case Hello(commit) => w.Put(commit);
    }
    assert w.done == Encode(m);
    buf, len := w.buf, w.len;
  }

  /** Takes bytes off the front of what is left of a buffer. */
  class Reader {
    var data: Bytes

    constructor (data: Bytes)
      ensures this.data == data
    {
      this.data := data;
    }

    method Take(n: nat) returns (bs: Bytes)
      requires n <= |data|
      modifies this
      ensures bs == old(data)[..n] && data == old(data)[n..]
    {
      bs := data[..n];
      data := data[n..];
    }

    method TakeU8() returns (b: Byte)
      requires data != []
      modifies this
      ensures b == old(data)[0] && data == old(data)[1..]
    {
      var bs := Take(1);
      b := bs[0];
    }

    method TakeU32() returns (n: U32)
      requires |data| >= 4
      modifies this
      ensures n == ToU32(old(data)[..4]) && data == old(data)[4..]
    {
      var bs := Take(4);
      n := ToU32(bs);
    }
  }

  method DecodeBuffer(buf: array<Byte>) returns (r: Decoded)
    requires buf.Length == MAX_EVENT_SIZE
    ensures r == Decode(buf[..])
  {
    hide ToU32, ToI32;
    ghost var b := buf[..];
    var d := new Reader(buf[..]);
    var id := d.TakeU8();
    if id == 0 {
      var time := d.TakeU32();
      var dx := d.Take(8);
      var dy := d.Take(8);
      assert b[1..][..4] == b[1..5] && b[1..][4..][..8] == b[5..13] && b[1..][4..][8..][..8] == b[13..21];
      return Ok(Input(Motion(time, dx, dy)));
    } else if id == 1 {
      var time := d.TakeU32();
      var button := d.TakeU32();
      var state := d.TakeU32();
      assert b[1..][..4] == b[1..5] && b[1..][4..][..4] == b[5..9] && b[1..][4..][4..][..4] == b[9..13];
      return Ok(Input(Button(time, button, state)));
    } else if id == 2 {
      var time := d.TakeU32();
      var axis := d.TakeU8();
      var value := d.Take(8);
      assert b[1..][..4] == b[1..5] && b[1..][4..][1..][..8] == b[6..14];
      return Ok(Input(Axis(time, axis, value)));
    } else if id == 3 {
      var axis := d.TakeU8();
      var ticks := d.Take(4);
      assert b[1..][1..][..4] == b[2..6];
      return Ok(Input(AxisDiscrete120(axis, ToI32(ticks))));
    } else if id == 4 {
      var time := d.TakeU32();
      var key := d.TakeU32();
      var keyState := d.TakeU8();
      assert b[1..][..4] == b[1..5] && b[1..][4..][..4] == b[5..9];
      return Ok(Input(Key(time, key, keyState)));
    } else if id == 5 {
      var depressed := d.TakeU32();
      var latched := d.TakeU32();
      var locked := d.TakeU32();
      var group := d.TakeU32();
      assert b[1..][..4] == b[1..5] && b[1..][4..][..4] == b[5..9];
      assert b[1..][4..][4..][..4] == b[9..13] && b[1..][4..][4..][4..][..4] == b[13..17];
      return Ok(Input(Modifiers(depressed, latched, locked, group)));
    } else if id == 6 {
      return Ok(Ping);
    } else if id == 7 {
      var alive := d.TakeU8();
      return Ok(Pong(alive != 0));
    } else if id == 8 {
      var pos := d.TakeU8();
      return if pos <= 3 then Ok(Enter(PositionOf(pos))) else Err(InvalidPosition(pos));
    } else if id == 9 || id == 10 {
      var serial := d.TakeU32();
      assert b[1..][..4] == b[1..5];
      return Ok(if id == 9 then Leave(serial) else Ack(serial));
    } else if id == 11 {
      var commit := d.Take(8);
      assert b[1..][..8] == b[1..9];
      return Ok(Hello(commit));
    }
    return Err(InvalidEventId(id));
  }
}
