/** Base64 as the repository computes it: an accumulator that overflows while encoding,
    and a decoder that edits the text before it converts it. */
module Base64 {
  import opened Common

  newtype byte = x: int | 0 <= x < 256

  const ALPHABET: string := "ABCDEFGHIJKLMNOPQRSTUVWXYZabcdefghijklmnopqrstuvwxyz0123456789+/"

  function Symbol(v: int): char {
    ALPHABET[v % 64]
  }

  // ----- the encoding, section 4 of RFC 4648 --------------------------------------

  /** Three bytes as one 24-bit group. */
  function Bits24(a: byte, b: byte, c: byte): nat {
    a as int * 65536 + b as int * 256 + c as int
  }

  /** The four 6-bit values of a group, as symbols. */
  function Quad(v: nat): (r: string)
    ensures |r| == 4
  {
    [Symbol(v / 262144), Symbol(v / 4096), Symbol(v / 64), Symbol(v)]
  }

  /** Whole groups give four symbols; a last group of one or two bytes is filled up with
      zero bits and gives two or three symbols, and padding. */
  function Encoded(s: seq<byte>): string {
    if |s| == 0 then ""
    else if |s| == 1 then Quad(Bits24(s[0], 0, 0))[..2] + "=="
    else if |s| == 2 then Quad(Bits24(s[0], s[1], 0))[..3] + "="
    else Quad(Bits24(s[0], s[1], s[2])) + Encoded(s[3..])
  }

  lemma {:induction false} EncodedConcat(s: seq<byte>, t: seq<byte>, groups: nat)
    requires |s| == 3 * groups
    ensures Encoded(s + t) == Encoded(s) + Encoded(t)
    decreases groups
  {
    hide Quad, Bits24;
    if groups == 0 {
      assert s + t == t;
    } else {
      EncodedConcat(s[3..], t, groups - 1);
      assert (s + t)[3..] == s[3..] + t;
    }
  }

  /** Four symbols for every three bytes begun. */
  lemma {:induction false} EncodedLength(s: seq<byte>)
    ensures |Encoded(s)| == 4 * ((|s| + 2) / 3)
  {
    hide Quad;
    if |s| >= 3 {
      EncodedLength(s[3..]);
    }
  }

  // ----- the encoder ----------------------------------------------------------------

  function Pow2(n: nat): (p: nat)
    ensures 0 < p
  {
    if n == 0 then 1 else 2 * Pow2(n - 1)
  }

  lemma {:induction false} WrapDrops(x: int) returns (k: int)
    ensures ToInt32(x) == x - k * 0x1_0000_0000
  {
    k := (x + 0x8000_0000) / 0x1_0000_0000;
  }

  lemma {:induction false} Remainder(q: int, r: int)
    ensures 0 <= r < 65536 ==> (q * 65536 + r) % 65536 == r
    ensures 0 <= r < 256 ==> (q * 256 + r) % 256 == r
  {
  }

  /** The low 16 bits of the accumulator are its last two bytes, wrapped around or not. */
  lemma {:induction false} WrapLow(val: int, c: byte)
    ensures var w := ToInt32(val * 256 + c as int); w % 65536 == val % 256 * 256 + c as int && w % 256 == c as int
  {
    hide ToInt32;
    var k := WrapDrops(val * 256 + c as int);
    var low := val % 256;
    assert val == val / 256 * 256 + low;
    Remainder(val / 256 - k * 65536, low * 256 + c as int);
    Remainder(val - k * 16777216, c as int);
  }

  lemma {:induction false} SameSymbol(x: int, y: int, k: int)
    requires x == y + 64 * k
    ensures Symbol(x) == Symbol(y)
  {
    assert x % 64 == y % 64;
  }

  /** A symbol taken from the low 12 bits only depends on the low 16. */
  lemma {:induction false} LowBits(val: int, low: int)
    requires 0 <= low < 65536 && val % 65536 == low
    ensures Symbol(val / 64) == Symbol(low / 64) && Symbol(val / 16) == Symbol(low / 16)
    ensures Symbol(val / 4) == Symbol(low / 4) && Symbol(val) == Symbol(low)
  {
    hide Symbol;
    var k := val / 65536;
    assert val == k * 65536 + low;
    assert val / 4 == k * 16384 + low / 4 && val / 16 == k * 4096 + low / 16 && val / 64 == k * 1024 + low / 64;
    SameSymbol(val, low, k * 1024);
    SameSymbol(val / 4, low / 4, k * 256);
    SameSymbol(val / 16, low / 16, k * 64);
    SameSymbol(val / 64, low / 64, k * 16);
  }

  /** The symbols that are complete once `s`, the start of a group, has been taken in. */
  function Partial(s: seq<byte>): string
    requires |s| < 3
  {
    if |s| == 0 then ""
    else if |s| == 1 then Quad(Bits24(s[0], 0, 0))[..1]
    else Quad(Bits24(s[0], s[1], 0))[..2]
  }

  /** What the inner loop appends. */
  function Drain(val: int, valb: int): string
    decreases valb + 6
    requires -6 <= valb
  {
    if valb < 0 then "" else [Symbol(val / Pow2(valb))] + Drain(val, valb - 6)
  }

  /** One more byte: what was complete, and what the inner loop appends. */
  lemma {:induction false} DrainStep(s: seq<byte>, val: int, c: byte)
    requires |s| < 3
    requires |s| == 0 ==> val % 256 == c as int
    requires |s| > 0 ==> val % 65536 == s[|s| - 1] as int * 256 + c as int
    ensures Partial(s) + Drain(val, 2 * |s| + 2)
            == if |s| < 2 then Partial(s + [c]) else Quad(Bits24(s[0], s[1], c))
  {
    hide Drain, Quad, Partial, Symbol;
    if |s| == 0 {
      assert s + [c] == [c] && s == [];
      PartialNone();
      DrainFirst(val, c);
    } else if |s| == 1 {
      assert s == [s[0]] && s + [c] == [s[0], c];
      DrainSecond(s[0], val, c);
    } else {
      assert s == [s[0], s[1]];
      DrainThird(s[0], s[1], val, c);
    }
  }

  lemma {:induction false} DrainFirst(val: int, c: byte)
    requires val % 256 == c as int
    ensures Drain(val, 2) == Partial([c])
  {
    hide Symbol;
    assert Pow2(2) == 4 && Drain(val, 2) == [Symbol(val / 4)] + Drain(val, -4);
    assert val / 4 == 64 * (val / 256) + c as int / 4;
    SameSymbol(val / 4, c as int / 4, val / 256);
    assert Bits24(c, 0, 0) / 262144 == c as int / 4;
  }

  lemma {:induction false} DrainSecond(a: byte, val: int, c: byte)
    requires val % 65536 == a as int * 256 + c as int
    ensures Partial([a]) + Drain(val, 4) == Partial([a, c])
  {
    hide Symbol, Bits24;
    assert Pow2(4) == 16 && Drain(val, 4) == [Symbol(val / 16)] + Drain(val, -2);
    LowBits(val, a as int * 256 + c as int);
    Sextets(a, 0, 0);
    Sextets(a, c, 0);
    assert (a as int * 256 + c as int) / 16 == a as int * 16 + c as int / 16;
  }

  /** The first two symbols of a group come from the first two bytes. */
  lemma {:induction false} Sextets(a: byte, b: byte, c: byte)
    ensures Bits24(a, b, c) / 262144 == a as int / 4 && Bits24(a, b, c) / 4096 == a as int * 16 + b as int / 16
  {
    var low := b as int * 256 + c as int;
    Quotient(a as int / 4, a as int % 4 * 65536 + low);
    Quotient(a as int * 16 + b as int / 16, b as int % 16 * 256 + c as int);
    assert a as int == a as int / 4 * 4 + a as int % 4 && b as int == b as int / 16 * 16 + b as int % 16;
  }

  lemma {:induction false} Quotient(q: int, r: int)
    ensures 0 <= r < 262144 ==> (q * 262144 + r) / 262144 == q
    ensures 0 <= r < 4096 ==> (q * 4096 + r) / 4096 == q
  {
  }

  lemma {:induction false} LastTwo(a: byte, b: byte, c: byte)
    ensures Symbol(Bits24(a, b, c) / 64) == Symbol((b as int * 256 + c as int) / 64)
    ensures Symbol(Bits24(a, b, c)) == Symbol(b as int * 256 + c as int)
  {
    hide Symbol;
    var low, v := b as int * 256 + c as int, Bits24(a, b, c);
    assert v / 64 == low / 64 + 64 * (16 * a as int);
    SameSymbol(v / 64, low / 64, 16 * a as int);
    SameSymbol(v, low, 1024 * a as int);
  }

  lemma {:induction false} DrainThird(a: byte, b: byte, val: int, c: byte)
    requires val % 65536 == b as int * 256 + c as int
    ensures Partial([a, b]) + Drain(val, 6) == Quad(Bits24(a, b, c))
  {
    hide Symbol, Bits24;
    assert Pow2(6) == 64 && Pow2(0) == 1;
    assert Drain(val, 6) == [Symbol(val / 64)] + Drain(val, 0) && Drain(val, 0) == [Symbol(val)] + Drain(val, -6);
    LowBits(val, b as int * 256 + c as int);
    Sextets(a, b, 0);
    Sextets(a, b, c);
    LastTwo(a, b, c);
  }

  function Padding(s: seq<byte>): string {
    if |s| % 3 == 0 then "" else if |s| % 3 == 1 then "==" else "="
  }

  /** The symbol that the encoder appends for a last group of one or two bytes. */
  lemma {:induction false} LastSymbol(s: seq<byte>, val: int)
    requires 0 < |s| < 3 && val % 256 == s[|s| - 1] as int
    ensures Partial(s) + [Symbol(ToInt32(val * 256) / Pow2(2 + 2 * |s|))] + Padding(s) == Encoded(s)
  {
    hide Symbol;
    var last := s[|s| - 1] as int;
    WrapLow(val, 0);
    LowBits(ToInt32(val * 256), last * 256);
    assert Pow2(4) == 16 && Pow2(6) == 64;
    if |s| == 1 {
      assert last * 256 / 16 == Bits24(s[0], 0, 0) / 4096;
    } else {
      var v := Bits24(s[0], s[1], 0);
      assert v / 64 == last * 256 / 64 + 64 * (16 * s[0] as int);
      SameSymbol(v / 64, last * 256 / 64, 16 * s[0] as int);
    }
  }

  /** The group that the byte at `i` belongs to, as far as it was read before. */
  function Begun(s: seq<byte>, i: nat): (g: seq<byte>)
    requires i <= |s|
    ensures |g| == i % 3 && (|g| > 0 ==> g[|g| - 1] == s[i - 1])
  {
    s[i - i % 3..i]
  }

  /** What has been put out after `i` bytes. */
  function Done(s: seq<byte>, i: nat): string
    requires i <= |s|
  {
    Encoded(s[..i - i % 3]) + Partial(Begun(s, i))
  }

  lemma {:induction false} DoneStep(s: seq<byte>, i: nat, val: int)
    requires i < |s|
    requires val % 256 == s[i] as int && (i % 3 > 0 ==> val % 65536 == s[i - 1] as int * 256 + s[i] as int)
    ensures Done(s, i) + Drain(val, 2 * (i % 3) + 2) == Done(s, i + 1)
  {
    hide Drain, Quad, Partial, Encoded;
    var g, c, k := Begun(s, i), s[i], i - i % 3;
    DrainStep(g, val, c);
    NextGroup(s, i);
    hide Begun, Symbol;
    Assoc(Encoded(s[..k]), Partial(g), Drain(val, 2 * |g| + 2));
  }

  lemma {:induction false} Assoc(a: string, b: string, c: string)
    ensures (a + b) + c == a + (b + c)
  {
  }

  lemma {:induction false} NextGroup(s: seq<byte>, i: nat)
    requires i < |s|
    ensures var g := Begun(s, i);
            Done(s, i + 1) == Encoded(s[..i - i % 3]) + if |g| < 2 then Partial(g + [s[i]]) else Quad(Bits24(g[0], g[1], s[i]))
  {
    hide Quad, Partial, Encoded;
    var g, k := Begun(s, i), i - i % 3;
    if |g| < 2 {
      assert (i + 1) % 3 == |g| + 1 && i + 1 - (i + 1) % 3 == k && s[k..i + 1] == g + [s[i]];
    } else {
      assert i == k + 2 && (i + 1) % 3 == 0;
      GroupDone(s[..k], g + [s[i]]);
      assert s[..k] + (g + [s[i]]) == s[..i + 1] && Begun(s, i + 1) == [];
      PartialNone();
    }
  }

  lemma {:induction false} PartialNone()
    ensures Partial([]) == ""
  {
  }

  lemma {:induction false} GroupDone(s: seq<byte>, g: seq<byte>)
    requires |s| % 3 == 0 && |g| == 3
    ensures Encoded(s + g) == Encoded(s) + Quad(Bits24(g[0], g[1], g[2]))
  {
    hide Quad, Bits24;
    EncodedConcat(s, g, |s| / 3);
    assert g[3..] == [];
  }

  /** The encoder: every byte string comes out as section 4 of RFC 4648 says. */
  method Encode(input: seq<byte>) returns (out: string)
    ensures out == Encoded(input)
  {
    hide Drain, Quad, Partial, Encoded, Symbol, ToInt32, Done, Begun, Padding, Padded, Pow2, Offset;
    out := "";
    var val, valb := 0, -6;
    NothingDone(input);
    for i := 0 to |input|
      invariant valb == Offset(i)
      invariant i > 0 ==> val % 256 == input[i - 1] as int
      invariant out == Done(input, i)
    {
      TakeByte(input, i, val);
      val := ToInt32(val * 256 + input[i] as int);
      valb := valb + 8;
      while valb >= 0
        invariant -6 <= valb && (valb == Offset(i) + 8 || valb == Offset(i) + 2 || valb == Offset(i) - 4)
        invariant out + Drain(val, valb) == Done(input, i + 1)
      {
        DrainOne(val, valb);
        out := out + [Symbol(val / Pow2(valb))];
        valb := valb - 6;
      }
      DrainNone(val, valb);
      NextOffset(i, valb);
    }
    AllDone(input);
    if valb > -6 {
      LastDone(input, val);
      out := out + [Symbol(ToInt32(val * 256) / Pow2(valb + 8))];
    }
    ghost var pad := Padding(input);
    PadBegins(input, out);
    while |out| % 4 != 0
      invariant Padded(out, pad, Encoded(input))
      decreases |pad|
    {
      PadStep(out, pad, Encoded(input));
      out := out + "=";
      pad := pad[1..];
    }
    PadEnd(out, pad, Encoded(input));
  }

  lemma {:induction false} PadBegins(s: seq<byte>, out: string)
    requires out + Padding(s) == Encoded(s)
    ensures Padded(out, Padding(s), Encoded(s))
  {
    hide Encoded;
    EncodedLength(s);
    Remainder4((|s| + 2) / 3);
  }

  lemma {:induction false} Remainder4(k: int)
    ensures 4 * k % 4 == 0
  {
  }

  /** `out` is `full` but for `pad`. */
  predicate Padded(out: string, pad: string, full: string) {
    out + pad == full && pad in {"", "=", "=="} && |full| % 4 == 0
  }

  lemma {:induction false} PadStep(out: string, pad: string, full: string)
    requires Padded(out, pad, full) && |out| % 4 != 0
    ensures pad != "" && Padded(out + "=", pad[1..], full)
  {
    assert pad == "=" + pad[1..];
    assert pad[1..] == if |pad| == 1 then "" else "=";
  }

  lemma {:induction false} PadEnd(out: string, pad: string, full: string)
    requires Padded(out, pad, full) && |out| % 4 == 0
    ensures out == full
  {
    assert |out| + |pad| == |full|;
  }

  /** All bytes are taken in: only the last symbol and the padding are missing. */
  lemma {:induction false} AllDone(s: seq<byte>)
    ensures Padding(s) in {"", "=", "=="} && Encoded(s) == Encoded(s[..|s| - |s| % 3]) + Encoded(Begun(s, |s|))
    ensures |s| % 3 == 0 ==> Done(s, |s|) + Padding(s) == Encoded(s)
  {
    var k := |s| - |s| % 3;
    assert s == s[..k] + s[k..] && s[k..] == Begun(s, |s|);
    EncodedConcat(s[..k], s[k..], |s| / 3);
  }

  lemma {:induction false} LastDone(s: seq<byte>, val: int)
    requires |s| % 3 > 0 && val % 256 == s[|s| - 1] as int
    ensures Done(s, |s|) + [Symbol(ToInt32(val * 256) / Pow2(Offset(|s|) + 8))] + Padding(s) == Encoded(s)
  {
    hide Symbol, ToInt32, Pow2, Encoded, Partial;
    var g := Begun(s, |s|);
    AllDone(s);
    LastSymbol(g, val);
    assert Offset(|s|) + 8 == 2 + 2 * |g| && Padding(g) == Padding(s);
    hide Offset, Padding;
    var last := [Symbol(ToInt32(val * 256) / Pow2(2 + 2 * |g|))];
    Assoc(Encoded(s[..|s| - |s| % 3]), Partial(g), last);
    Assoc(Encoded(s[..|s| - |s| % 3]), Partial(g) + last, Padding(s));
  }

  /** `valb` after `i` bytes. */
  function Offset(i: nat): (v: int)
    ensures v in {-6, -4, -2} && (v > -6 <==> i % 3 > 0)
  {
    2 * (i % 3) - 6
  }

  lemma {:induction false} NextOffset(i: nat, valb: int)
    requires -6 <= valb < 0 && (valb == Offset(i) + 8 || valb == Offset(i) + 2 || valb == Offset(i) - 4)
    ensures valb == Offset(i + 1)
  {
  }

  lemma {:induction false} TakeByte(s: seq<byte>, i: nat, val: int)
    requires i < |s| && (i > 0 ==> val % 256 == s[i - 1] as int)
    ensures var val' := ToInt32(val * 256 + s[i] as int);
            val' % 256 == s[i] as int && Done(s, i) + Drain(val', Offset(i) + 8) == Done(s, i + 1)
  {
    hide Done, Drain, ToInt32;
    WrapLow(val, s[i]);
    assert Offset(i) + 8 == 2 * (i % 3) + 2;
    DoneStep(s, i, ToInt32(val * 256 + s[i] as int));
  }

  lemma {:induction false} NothingDone(s: seq<byte>)
    ensures Done(s, 0) == ""
  {
  }

  lemma {:induction false} DrainOne(val: int, valb: nat)
    ensures Drain(val, valb) == [Symbol(val / Pow2(valb))] + Drain(val, valb - 6)
  {
  }

  lemma {:induction false} DrainNone(val: int, valb: int)
    requires -6 <= valb < 0
    ensures Drain(val, valb) == ""
  {
  }
}
