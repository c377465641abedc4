/**
 * The two computations of Buffer/Managers/HotKeyManager.swift that are not
 * Carbon calls: `String.asUInt32`, which packs the UTF-8 bytes of a
 * four-letter code into the hot key's `OSType` signature, and the
 * translation of `NSEvent` modifier flags into Carbon modifier bits done by
 * `registerHotkey`.
 */
module HotKeys {
  import Shortcuts
  import opened Seqs

  /** A byte of a string's `utf8` view (`UInt8`). */
  type Byte = b: int | 0 <= b < 0x100

  // ---------------------------------------------------------------- UTF-8

  /** A continuation byte: 10 followed by the low six bits of `v`. */
  function Continuation(v: int): Byte {
    0x80 + v % 0x40
  }

  /**
   * The UTF-8 encoding of one Unicode scalar value (RFC 3629, section 3): a
   * leading byte that carries the length and the top bits, then six bits
   * per continuation byte. `v1`, `v2` and `v3` are the scalar shifted right
   * by 6, 12 and 18 bits.
   */
  function EncodeScalar(c: char): (r: seq<Byte>)
    ensures 1 <= |r| <= 4
    ensures (c as int < 0x80) <==> |r| == 1
    ensures (0x80 <= c as int < 0x800) <==> |r| == 2
    ensures (0x800 <= c as int < 0x1_0000) <==> |r| == 3
    ensures c as int < 0x80 ==> r == [c as int]
  {
    var v := c as int;
    var v1 := v / 0x40;
    var v2 := v1 / 0x40;
    var v3 := v2 / 0x40;
    if v < 0x80 then [v]
    else if v < 0x800 then [0xC0 + v1, Continuation(v)]
    else if v < 0x1_0000 then [0xE0 + v2, Continuation(v1), Continuation(v)]
    else [0xF0 + v3, Continuation(v2), Continuation(v1), Continuation(v)]
  }

  /**
   * Reads one encoded scalar back: the payload bits of the leading byte,
   * then six more bits from each continuation byte.
   */
  function DecodeScalar(bs: seq<Byte>): int
    requires 1 <= |bs| <= 4
  {
    if |bs| == 1 then bs[0]
    else if |bs| == 2 then (bs[0] as int - 0xC0) * 0x40 + (bs[1] as int - 0x80)
    else if |bs| == 3 then ((bs[0] as int - 0xE0) * 0x40 + (bs[1] as int - 0x80)) * 0x40 + (bs[2] as int - 0x80)
    else (((bs[0] as int - 0xF0) * 0x40 + (bs[1] as int - 0x80)) * 0x40 + (bs[2] as int - 0x80)) * 0x40 + (bs[3] as int - 0x80)
  }

  /**
   * The leading byte announces the length (0xxxxxxx, 110xxxxx, 1110xxxx or
   * 11110xxx), every other byte is a continuation byte (10xxxxxx), and
   * decoding gives back the scalar.
   */
  lemma EncodeScalarDecodes(c: char)
    ensures var r := EncodeScalar(c);
      (|r| == 1 ==> r[0] < 0x80)
      && (|r| == 2 ==> 0xC0 <= r[0] < 0xE0)
      && (|r| == 3 ==> 0xE0 <= r[0] < 0xF0)
      && (|r| == 4 ==> 0xF0 <= r[0] < 0xF8)
      && (forall i :: 1 <= i < |r| ==> 0x80 <= r[i] < 0xC0)
      && DecodeScalar(r) == c as int
  {
    var r := EncodeScalar(c);
    var v := c as int;
    var v1 := v / 0x40;
    var v2 := v1 / 0x40;
    assert v == v1 * 0x40 + v % 0x40;
    assert v1 == v2 * 0x40 + v1 % 0x40;
    assert v2 == (v2 / 0x40) * 0x40 + v2 % 0x40;
  }

  /** Distinct scalars have distinct encodings. */
  lemma EncodeScalarInjective(c: char, d: char)
    requires EncodeScalar(c) == EncodeScalar(d)
    ensures c == d
  {
    EncodeScalarDecodes(c);
    EncodeScalarDecodes(d);
  }

  /** `s.utf8`: the encodings of the scalars of `s`, one after another. */
  function Utf8(s: string): (r: seq<Byte>)
    ensures |s| <= |r| <= 4 * |s|
  {
    if s == [] then [] else Utf8(s[..|s| - 1]) + EncodeScalar(s[|s| - 1])
  }

  /** The encoding of a concatenation is the concatenation of the encodings. */
  lemma {:induction false} Utf8Append(a: string, b: string)
    ensures Utf8(a + b) == Utf8(a) + Utf8(b)
    decreases |b|
  {
    if b == [] {
      assert a + b == a;
    } else {
      var init, e := b[..|b| - 1], EncodeScalar(b[|b| - 1]);
      Utf8Step(a, b);
      Utf8Append(a, init);
      assert Utf8(b) == Utf8(init) + e;
      AppendAssoc(Utf8(a), Utf8(init), e);
    }
  }

  /** The last character of `a + b`, for a nonempty `b`, is the last of `b`. */
  lemma Utf8Step(a: string, b: string)
    requires b != []
    ensures Utf8(a + b) == Utf8(a + b[..|b| - 1]) + EncodeScalar(b[|b| - 1])
  {
    assert (a + b)[..|a + b| - 1] == a + b[..|b| - 1];
  }

  predicate IsAscii(s: string) {
    forall i :: 0 <= i < |s| ==> s[i] as int < 0x80
  }

  /** An ASCII string is encoded one byte per character, each byte the character's code. */
  lemma {:induction false} Utf8Ascii(s: string)
    requires IsAscii(s)
    ensures Utf8(s) == seq(|s|, i requires 0 <= i < |s| => s[i] as int)
  {
    if s != [] {
      Utf8Ascii(s[..|s| - 1]);
    }
  }

  // ---------------------------------------------------------------- asUInt32

  /** A `UInt32` as its four bytes, most significant first. */
  type Word = w: seq<Byte> | |w| == 4 witness [0, 0, 0, 0]

  /** The number a word stands for. */
  function Value(w: Word): (r: int)
    ensures 0 <= r < 0x1_0000_0000
  {
    w[0] as int * 0x100_0000 + w[1] as int * 0x1_0000 + w[2] as int * 0x100 + w[3] as int
  }

  /**
   * `(w << 8) | UInt32(b)`: the top byte is shifted out, the other three
   * move up by one, and `b` fills the low byte the shift cleared.
   */
  function ShiftIn(w: Word, b: Byte): (r: Word)
    ensures Value(r) == (Value(w) * 0x100 + b) % 0x1_0000_0000
  {
    var r := w[1..] + [b];
    assert Value(w) * 0x100 + b == w[0] * 0x1_0000_0000 + Value(r);
    r
  }

  /** The word `asUInt32`'s loop holds after the bytes `bs`. */
  function Pack(bs: seq<Byte>): (r: Word)
    ensures bs != [] ==> r[3] == bs[|bs| - 1]
  {
    if bs == [] then [0, 0, 0, 0] else ShiftIn(Pack(bs[..|bs| - 1]), bs[|bs| - 1])
  }

  /**
   * `String.asUInt32`. The loop works on the number: shifting a `UInt32`
   * left by 8 is multiplying by 0x100 modulo 2^32, and or-ing in a byte
   * fills the cleared low byte, which is adding it.
   */
  method AsUInt32(s: string) returns (result: int)
    ensures result == Value(Pack(Utf8(s)))
  {
    var bytes := Utf8(s);
    result := 0;
    for i := 0 to |bytes|
      invariant result == Value(Pack(bytes[..i]))
    {
      assert bytes[..i + 1][..i] == bytes[..i];
      result := (result * 0x100 + bytes[i]) % 0x1_0000_0000;
    }
    assert bytes[..|bytes|] == bytes;
  }

  /**
   * The packed word is the last four bytes, most significant first, padded
   * with leading zeros when the input is shorter: big-endian packing, and
   * only the last four bytes of a longer input count.
   */
  lemma {:induction false} PackBytes(bs: seq<Byte>)
    ensures Pack(bs) == if |bs| >= 4 then bs[|bs| - 4..] else seq(4 - |bs|, _ => 0) + bs
    decreases |bs|
  {
    if bs != [] {
      PackBytes(bs[..|bs| - 1]);
    }
  }

  /** The empty string packs to zero. */
  lemma AsUInt32Empty()
    ensures Value(Pack(Utf8(""))) == 0
  {
  }

  /** The hot key's signature "hvcb" is 0x68766362. */
  lemma SignatureValue()
    ensures Value(Pack(Utf8("hvcb"))) == 0x6876_6362
  {
    Utf8Ascii("hvcb");
    assert Utf8("hvcb") == [0x68, 0x76, 0x63, 0x62];
    PackBytes([0x68, 0x76, 0x63, 0x62]);
  }

  // ---------------------------------------------------------------- modifiers

  /** Carbon's modifier bits (`cmdKey`, `shiftKey`, `optionKey`, `controlKey`). */
  const CmdKey: bv32 := 0x100
  const ShiftKey: bv32 := 0x200
  const OptionKey: bv32 := 0x800
  const ControlKey: bv32 := 0x1000

  /** `cmdKey | shiftKey` as an `Int`, the raw Carbon value `registerDefault` uses. */
  const CarbonCmdShift: int := 0x300

  /** Whether `mods & flag != 0`. */
  predicate AnyOf(mods: Shortcuts.Flags, flag: Shortcuts.Flags) {
    mods & flag != 0
  }

  /**
   * The Carbon modifiers `registerHotkey(keyCode:modifiers:)` registers for
   * `modifiers`. `UInt(modifiers)` traps on a negative `Int`, hence the
   * precondition.
   */
  method CarbonModifiers(modifiers: int) returns (registerModifiers: bv32)
    requires 0 <= modifiers < 0x8000_0000_0000_0000
    ensures modifiers != CarbonCmdShift ==>
      (registerModifiers & CmdKey != 0 <==> AnyOf(modifiers as bv64, Shortcuts.CommandFlag))
      && (registerModifiers & ShiftKey != 0 <==> AnyOf(modifiers as bv64, Shortcuts.ShiftFlag))
      && (registerModifiers & OptionKey != 0 <==> AnyOf(modifiers as bv64, Shortcuts.OptionFlag))
      && (registerModifiers & ControlKey != 0 <==> AnyOf(modifiers as bv64, Shortcuts.ControlFlag))
    ensures registerModifiers & !(CmdKey | ShiftKey | OptionKey | ControlKey) == 0
    ensures modifiers == CarbonCmdShift ==> registerModifiers == CmdKey | ShiftKey
  {
    var mods := modifiers as bv64;
    registerModifiers := 0;
    if mods & Shortcuts.CommandFlag != 0 { registerModifiers := registerModifiers | CmdKey; }
    if mods & Shortcuts.ShiftFlag != 0 { registerModifiers := registerModifiers | ShiftKey; }
    if mods & Shortcuts.OptionFlag != 0 { registerModifiers := registerModifiers | OptionKey; }
    if mods & Shortcuts.ControlFlag != 0 { registerModifiers := registerModifiers | ControlKey; }
    if modifiers == CarbonCmdShift {
      registerModifiers := CmdKey | ShiftKey;
    }
  }
}
