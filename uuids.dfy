/** Conversation identifiers and the broker channel named after them.

    chat/main.py names the broker channel of a conversation `str(chat_id)`:
    the canonical text of a UUID, 32 lower-case hexadecimal digits of its
    128-bit value grouped 8-4-4-4-12 by hyphens. The producer publishes on it
    and the consumer subscribes to it, so a message reaches exactly the
    consumers of its own conversation only if distinct UUIDs give distinct
    channel names; `ChannelNameInjective` proves that. */
module Uuids {

  function Pow16(n: nat): (r: nat)
    ensures r >= 1
  {
    if n == 0 then 1 else 16 * Pow16(n - 1)
  }

  /** A UUID, as its 128-bit integer value (`uuid.UUID.int`). */
  type Uuid = u: nat | u < 0x1_0000_0000_0000_0000_0000_0000_0000_0000

  /** 2^128 is 16^32: a UUID has exactly 32 hexadecimal digits. */
  lemma UuidBound()
    ensures Pow16(32) == 0x1_0000_0000_0000_0000_0000_0000_0000_0000
  {
    assert Pow16(8) == 0x1_0000_0000;
    assert Pow16(16) == 0x1_0000_0000 * Pow16(8) by {
      Pow16Add(8, 8);
    }
    Pow16Add(16, 16);
  }

  lemma {:induction false} Pow16Add(a: nat, b: nat)
    ensures Pow16(a + b) == Pow16(a) * Pow16(b)
  {
    if b > 0 {
      Pow16Add(a, b - 1);
      assert Pow16(a + b) == 16 * Pow16(a + b - 1);
    }
  }

  const Digits: string := "0123456789abcdef"

  function HexDigit(d: nat): char
    requires d < 16
  {
    Digits[d]
  }

  /** The value of a hexadecimal digit; `-1` for any other character. */
  function DigitValue(c: char): (v: int)
    ensures -1 <= v < 16
    ensures v >= 0 ==> HexDigit(v) == c
  {
    if '0' <= c <= '9' then c as int - '0' as int
    else if 'a' <= c <= 'f' then c as int - 'a' as int + 10
    else -1
  }

  lemma DigitValueOfHexDigit(d: nat)
    requires d < 16
    ensures DigitValue(HexDigit(d)) == d
  {
    assert Digits == ['0', '1', '2', '3', '4', '5', '6', '7', '8', '9', 'a', 'b', 'c', 'd', 'e', 'f'];
  }

  /** `'%0*x' % (width, v)` for `v < 16^width`: the low `width` hexadecimal
      digits of `v`, most significant first. */
  function Hex(v: nat, width: nat): (s: string)
    ensures |s| == width
  {
    if width == 0 then [] else Hex(v / 16, width - 1) + [HexDigit(v % 16)]
  }

  /** Reads hexadecimal digits back into a number (most significant first). */
  function Unhex(s: string): int {
    if s == [] then 0 else 16 * Unhex(s[..|s| - 1]) + DigitValue(s[|s| - 1])
  }

  lemma {:induction false} UnhexHex(v: nat, width: nat)
    requires v < Pow16(width)
    ensures Unhex(Hex(v, width)) == v
  {
    if width > 0 {
      var s := Hex(v, width);
      assert s[..|s| - 1] == Hex(v / 16, width - 1);
      DigitValueOfHexDigit(v % 16);
      UnhexHex(v / 16, width - 1);
    }
  }

  /** `str(u)`: the canonical 36-character form, 8-4-4-4-12 digits. */
  function ChannelName(u: Uuid): (s: string)
    ensures |s| == 36
    ensures s[8] == s[13] == s[18] == s[23] == '-'
  {
    var h := Hex(u, 32);
    h[..8] + "-" + h[8..12] + "-" + h[12..16] + "-" + h[16..20] + "-" + h[20..]
  }

  /** `uuid.UUID(s).int` for a string in canonical form: drop the hyphens
      and read the digits. */
  function Parse(s: string): int
    requires |s| == 36
  {
    Unhex(s[..8] + s[9..13] + s[14..18] + s[19..23] + s[24..])
  }

  /** Parsing the channel name gives back the UUID. */
  lemma ParseChannelName(u: Uuid)
    ensures Parse(ChannelName(u)) == u
  {
    var h := Hex(u, 32);
    var s := ChannelName(u);
    assert s[..8] == h[..8];
    assert s[9..13] == h[8..12];
    assert s[14..18] == h[12..16];
    assert s[19..23] == h[16..20];
    assert s[24..] == h[20..];
    assert h[..8] + h[8..12] + h[12..16] + h[16..20] + h[20..] == h;
    UuidBound();
    UnhexHex(u, 32);
  }

  /** Distinct conversations have distinct broker channels. */
  lemma ChannelNameInjective(u: Uuid, w: Uuid)
    ensures ChannelName(u) == ChannelName(w) <==> u == w
  {
    if ChannelName(u) == ChannelName(w) {
      ParseChannelName(u);
      ParseChannelName(w);
    }
  }
}
