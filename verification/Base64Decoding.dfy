/** The decoder, and that it undoes the encoder whether or not the padding is kept. */
module Base64Decoding {
  import opened Common
  import opened Base64

  /** `BadSymbol` is the exception for a character outside the alphabet. `Overrun` is the
      erasure of more bytes than there are, which the source does not guard against. */
  datatype Decoding = Bytes(bytes: seq<byte>) | BadSymbol | Overrun

  /** The 6-bit value of a symbol, or -1. */
  function Value(c: char): (v: int)
    ensures -1 <= v < 64
  {
    if 'A' <= c <= 'Z' then c as int - 'A' as int
    else if 'a' <= c <= 'z' then c as int - 'a' as int + 26
    else if '0' <= c <= '9' then c as int - '0' as int + 52
    else if c == '+' then 62
    else if c == '/' then 63
    else -1
  }

  /** The text filled up with '=' to a multiple of four characters. */
  function Extended(input: string): string {
    input + Repeat('=', (4 - |input| % 4) % 4)
  }

  function Pads(s: string): nat {
    if s == "" then 0 else (if s[0] == '=' then 1 else 0) + Pads(s[1..])
  }

  /** Every '=' replaced by the symbol for zero. */
  function Filled(s: string): (r: string)
    ensures |r| == |s| && forall i | 0 <= i < |s| :: r[i] == if s[i] == '=' then 'A' else s[i]
  {
    seq(|s|, i requires 0 <= i < |s| => if s[i] == '=' then 'A' else s[i])
  }

  function Join(a: int, b: int, c: int, d: int): int {
    a * 262144 + b * 4096 + c * 64 + d
  }

  function Split(v: int): (r: seq<byte>)
    requires 0 <= v < 0x100_0000
    ensures |r| == 3
  {
    [(v / 65536) as byte, (v / 256 % 256) as byte, (v % 256) as byte]
  }

  predicate AllSymbols(s: string) {
    forall c | c in s :: Value(c) >= 0
  }

  /** Four symbols give three bytes. */
  function FromSymbols(s: string): (r: seq<byte>)
    requires |s| % 4 == 0 && AllSymbols(s)
  {
    if s == "" then []
    else
      assert s[0] in s && s[1] in s && s[2] in s && s[3] in s;
      Split(Join(Value(s[0]), Value(s[1]), Value(s[2]), Value(s[3]))) + FromSymbols(s[4..])
  }

  function Decode(input: string): Decoding
    requires forall c | c in input :: !IsSpace(c)
  {
    var s := Extended(input);
    var pads := Pads(s);
    var symbols := Filled(s);
    if !AllSymbols(symbols) then BadSymbol
    else
      var output := FromSymbols(symbols);
      if pads > |output| then Overrun else Bytes(output[..|output| - pads])
  }

  // ----- symbols and values --------------------------------------------------------

  /** The alphabet, by ranges. */
  function Letter(i: nat): char
    requires i < 64
  {
    if i < 26 then 'A' + i as char else if i < 52 then 'a' + (i - 26) as char
    else if i < 62 then '0' + (i - 52) as char else if i == 62 then '+' else '/'
  }

  lemma {:induction false} AlphabetByRanges()
    ensures ALPHABET == seq(64, i requires 0 <= i < 64 => Letter(i))
  {
    var upper, letters := "ABCDEFGHIJKLMNOPQRSTUVWXYZ", "ABCDEFGHIJKLMNOPQRSTUVWXYZabcdefghijklmnopqrstuvwxyz";
    assert upper == seq(26, i requires 0 <= i < 26 => Letter(i));
    assert letters == seq(52, i requires 0 <= i < 52 => Letter(i));
  }

  lemma {:induction false} SymbolValue(v: nat)
    ensures Value(Symbol(v)) == v % 64 && Symbol(v) != '=' && !IsSpace(Symbol(v))
  {
    AlphabetByRanges();
  }

  // ----- decoding undoes encoding -----------------------------------------------------

  lemma {:induction false} SplitBits(a: byte, b: byte, c: byte)
    ensures Bits24(a, b, c) < 0x100_0000 && Split(Bits24(a, b, c)) == [a, b, c]
  {
    var v, low := Bits24(a, b, c), b as int * 256 + c as int;
    assert v == a as int * 65536 + low && v / 65536 == a as int;
    assert v / 256 == a as int * 256 + b as int && v % 256 == c as int;
  }

  /** Dividing by 64 and taking what remains is undone by multiplying and adding. */
  lemma {:induction false} Regroup(x: nat)
    ensures x == x / 64 * 64 + x % 64
    ensures x / 4096 == x / 64 / 64 && x / 262144 == x / 4096 / 64
  {
  }

  lemma {:induction false} JoinSextets(v: nat)
    requires v < 0x100_0000
    ensures Join(v / 262144 % 64, v / 4096 % 64, v / 64 % 64, v % 64) == v
  {
    Regroup(v);
    Regroup(v / 64);
    Regroup(v / 4096);
    assert v / 262144 < 64;
  }

  /** A group of symbols on its own. */
  lemma {:induction false} QuadGives(a: byte, b: byte, c: byte)
    ensures var q := Quad(Bits24(a, b, c)); AllSymbols(q) && FromSymbols(q) == [a, b, c] && forall i | 0 <= i < 4 :: q[i] != '='
  {
    hide Symbol, Split, Join, Value, Bits24;
    var v := Bits24(a, b, c);
    var q := Quad(v);
    SymbolValue(v / 262144);
    SymbolValue(v / 4096);
    SymbolValue(v / 64);
    SymbolValue(v);
    SplitBits(a, b, c);
    JoinSextets(v);
    assert q[4..] == "";
    assert forall c | c in q :: c == q[0] || c == q[1] || c == q[2] || c == q[3];
  }

  lemma {:induction false} FromSymbolsConcat(s: string, t: string)
    requires |s| == 4 && |t| % 4 == 0 && AllSymbols(s) && AllSymbols(t)
    ensures AllSymbols(s + t) && FromSymbols(s + t) == FromSymbols(s) + FromSymbols(t)
  {
    hide Value, Split, Join;
    assert (s + t)[4..] == t && s[4..] == "";
  }

  lemma {:induction false} PadsConcat(s: string, t: string)
    ensures Pads(s + t) == Pads(s) + Pads(t)
  {
    if s == "" {
      assert s + t == t;
    } else {
      assert (s + t)[1..] == s[1..] + t;
      PadsConcat(s[1..], t);
    }
  }

  function Zeros(n: nat): seq<byte> {
    seq(n, _ => 0)
  }

  /** What the decoder makes of an encoded text before it erases anything: the bytes, and
      a zero byte for each padding character. */
  ghost predicate Restores(s: string, x: seq<byte>) {
    var symbols := Filled(s);
    |s| % 4 == 0 && AllSymbols(symbols) && FromSymbols(symbols) == x + Zeros(Pads(s))
  }

  /** The symbols that padding takes the place of are the symbol for zero. */
  lemma {:induction false} TailIsZero(a: byte, b: byte)
    ensures Quad(Bits24(a, b, 0))[3] == 'A' && Quad(Bits24(a, 0, 0))[2] == 'A'
  {
    hide Symbol;
    assert Symbol(0) == 'A' by { SymbolOfZero(); }
    SameSymbol(Bits24(a, b, 0), 0, 1024 * a as int + 4 * b as int);
    assert Bits24(a, 0, 0) / 64 == 64 * (16 * a as int);
    SameSymbol(Bits24(a, 0, 0) / 64, 0, 16 * a as int);
  }

  lemma {:induction false} SymbolOfZero()
    ensures Symbol(0) == 'A'
  {
    AlphabetByRanges();
  }

  /** `pad` takes the place of the last symbols of the group `q`, which are zero. */
  lemma {:induction false} RestoresPadded(q: string, n: nat, g: seq<byte>, s: string)
    requires |q| == 4 && n <= 2 && AllSymbols(q) && FromSymbols(q) == g + Zeros(n) && s == q[..4 - n] + Repeat('=', n)
    requires forall i | 0 <= i < 4 :: q[i] != '=' && (i >= 4 - n ==> q[i] == 'A')
    ensures Restores(s, g)
  {
    hide FromSymbols, AllSymbols;
    PadsConcat(q[..4 - n], Repeat('=', n));
    NoPads(q[..4 - n]);
    AllPads(n);
    assert Filled(s) == q;
  }

  lemma {:induction false} AllPads(n: nat)
    ensures Pads(Repeat('=', n)) == n
  {
    if n > 0 {
      assert Repeat('=', n)[1..] == Repeat('=', n - 1);
      AllPads(n - 1);
    }
  }

  lemma {:induction false} RestoresLast(x: seq<byte>)
    requires |x| < 3
    ensures Restores(Encoded(x), x)
  {
    hide Symbol, Bits24, Pads, Restores;
    if |x| == 0 {
      RestoresNone();
      assert x == [] && Encoded(x) == "";
    } else {
      hide FromSymbols;
      var y, n := if |x| == 1 then 0 else x[1], 3 - |x|;
      QuadGives(x[0], y, 0);
      TailIsZero(x[0], y);
      hide Quad;
      var q := Quad(Bits24(x[0], y, 0));
      assert [x[0], y, 0] == x + Zeros(n);
      assert Encoded(x) == q[..4 - n] + Repeat('=', n);
      RestoresPadded(q, n, x, Encoded(x));
    }
  }

  lemma {:induction false} RestoresNone()
    ensures Restores("", [])
  {
  }

  lemma {:induction false} RestoresGroup(q: string, g: seq<byte>, s: string, x: seq<byte>)
    requires |q| == 4 && AllSymbols(q) && FromSymbols(q) == g && (forall i | 0 <= i < 4 :: q[i] != '=') && Restores(s, x)
    ensures Restores(q + s, g + x)
  {
    hide FromSymbols, AllSymbols;
    PadsConcat(q, s);
    NoPads(q);
    assert Filled(q + s) == q + Filled(s);
    FromSymbolsConcat(q, Filled(s));
    assert g + (x + Zeros(Pads(s))) == (g + x) + Zeros(Pads(s));
  }

  lemma {:induction false} NoPads(q: string)
    requires forall i | 0 <= i < |q| :: q[i] != '='
    ensures Pads(q) == 0
  {
    if q != "" {
      NoPads(q[1..]);
    }
  }

  lemma {:induction false} EncodedRestores(x: seq<byte>)
    ensures Restores(Encoded(x), x)
  {
    hide Restores, Quad, Bits24, FromSymbols, AllSymbols;
    if |x| < 3 {
      RestoresLast(x);
    } else {
      EncodedRestores(x[3..]);
      QuadGives(x[0], x[1], x[2]);
      RestoresGroup(Quad(Bits24(x[0], x[1], x[2])), [x[0], x[1], x[2]], Encoded(x[3..]), x[3..]);
      assert x == [x[0], x[1], x[2]] + x[3..];
    }
  }

  // ----- the laws ------------------------------------------------------------------------

  lemma {:induction false} EncodedHasNoSpace(x: seq<byte>)
    ensures forall c | c in Encoded(x) :: !IsSpace(c)
  {
    hide Bits24, Quad;
    if |x| > 0 {
      QuadHasNoSpace(Bits24(x[0], if |x| > 1 then x[1] else 0, if |x| > 2 then x[2] else 0));
      if |x| >= 3 {
        EncodedHasNoSpace(x[3..]);
      }
    }
  }

  lemma {:induction false} QuadHasNoSpace(v: nat)
    ensures forall c | c in Quad(v) :: !IsSpace(c)
  {
    SymbolValue(v / 262144);
    SymbolValue(v / 4096);
    SymbolValue(v / 64);
    SymbolValue(v);
    hide Symbol, IsSpace;
    assert forall c | c in Quad(v) :: c == Quad(v)[0] || c == Quad(v)[1] || c == Quad(v)[2] || c == Quad(v)[3];
  }

  lemma {:induction false} EndsPadded(x: seq<byte>)
    ensures var e, n := Encoded(x), |Padding(x)|; n <= |e| && e[|e| - n..] == Padding(x)
  {
    hide Bits24, Quad;
    if |x| >= 3 {
      EndsPadded(x[3..]);
      PaddingBehind(x);
      hide Padding;
      var q, t := Quad(Bits24(x[0], x[1], x[2])), Encoded(x[3..]);
      assert Encoded(x) == q + t;
      hide Encoded;
      EndsAlike(q, t, |Padding(x)|);
    }
  }

  lemma {:induction false} PaddingBehind(x: seq<byte>)
    requires |x| >= 3
    ensures Padding(x[3..]) == Padding(x)
  {
    assert (|x| - 3) % 3 == |x| % 3;
  }

  lemma {:induction false} EndsAlike(q: string, t: string, n: nat)
    requires n <= |t|
    ensures (q + t)[|q + t| - n..] == t[|t| - n..]
  {
  }

  /** Extending the text restores padding that was left out. */
  lemma {:induction false} ExtendedRestores(e: string, cut: nat)
    requires |e| % 4 == 0 && cut <= 2 && cut <= |e| && e[|e| - cut..] == Repeat('=', cut)
    ensures Extended(e[..|e| - cut]) == e
  {
    assert (4 - (|e| - cut) % 4) % 4 == cut;
    assert e == e[..|e| - cut] + e[|e| - cut..];
  }

  lemma {:induction false} EndsCut(x: seq<byte>, cut: nat)
    requires cut <= |Padding(x)|
    ensures var e := Encoded(x); cut <= 2 && cut <= |e| && e[|e| - cut..] == Repeat('=', cut)
  {
    hide Encoded;
    var e := Encoded(x);
    EndsPadded(x);
    PaddingIsPads(x);
    assert e[|e| - cut..] == Padding(x)[|Padding(x)| - cut..];
  }

  lemma {:induction false} RestoresDecode(text: string, e: string, x: seq<byte>)
    requires (forall c | c in text :: !IsSpace(c)) && Extended(text) == e && Restores(e, x)
    ensures Decode(text) == Bytes(x)
  {
    hide FromSymbols, AllSymbols, IsSpace, Pads;
    assert (x + Zeros(Pads(e)))[..|x|] == x;
  }

  /** Decoding gives back what was encoded, also when some or all of the padding was
      left out. */
  lemma {:induction false} DecodeUndoesEncode(x: seq<byte>, cut: nat)
    requires cut <= |Padding(x)|
    ensures cut <= |Encoded(x)|
    ensures var text := Encoded(x)[..|Encoded(x)| - cut];
            (forall c | c in text :: !IsSpace(c)) && Decode(text) == Bytes(x)
  {
    hide Encoded, IsSpace, Padding, Extended, Decode, FromSymbols, AllSymbols, Filled;
    var e := Encoded(x);
    EndsCut(x, cut);
    EncodedHasNoSpace(x);
    EncodedRestores(x);
    ExtendedRestores(e, cut);
    RestoresDecode(e[..|e| - cut], e, x);
  }

  lemma {:induction false} PaddingIsPads(x: seq<byte>)
    ensures |Padding(x)| <= 2 && forall i | 0 <= i < |Padding(x)| :: Padding(x)[i] == '='
  {
  }

  lemma {:induction false} FromSymbolsLength(s: string)
    requires |s| % 4 == 0 && AllSymbols(s)
    ensures |FromSymbols(s)| == |s| / 4 * 3
  {
    hide Value, Split, Join;
    if s != "" {
      FromSymbolsLength(s[4..]);
    }
  }

  /** When decoding fails, and how: a character outside the alphabet anywhere, or more
      padding, wherever it stands, than there are bytes to erase. */
  lemma {:induction false} DecodeFails(input: string)
    requires forall c | c in input :: !IsSpace(c)
    ensures Decode(input).BadSymbol? <==> exists c :: c in input && c != '=' && Value(c) < 0
    ensures Decode(input).Overrun? <==>
              (!Decode(input).BadSymbol? && Pads(input) + (4 - |input| % 4) % 4 > (|input| + 3) / 4 * 3)
  {
    hide Value, FromSymbols, IsSpace;
    var s, n := Extended(input), (4 - |input| % 4) % 4;
    PadsConcat(input, Repeat('=', n));
    AllPads(n);
    hide Pads;
    assert Value('A') == 0 by { ValueOfZero(); }
    if AllSymbols(Filled(s)) {
      FromSymbolsLength(Filled(s));
      forall c | c in input ensures c == '=' || Value(c) >= 0 {
        var i :| 0 <= i < |input| && input[i] == c;
        assert Filled(s)[i] in Filled(s);
      }
    } else {
      var c :| c in Filled(s) && Value(c) < 0;
      var i :| 0 <= i < |s| && Filled(s)[i] == c;
      assert i < |input| && input[i] == c;
    }
  }

  lemma {:induction false} ValueOfZero()
    ensures Value('A') == 0
  {
  }

  // ----- the alphabet and the bits, one by one ------------------------------------------------

  /** Table 1 of RFC 4648. */
  ghost predicate StandsFor(c: char, v: int) {
    || ('A' <= c <= 'Z' && v == c as int - 'A' as int)
    || ('a' <= c <= 'z' && v == c as int - 'a' as int + 26)
    || ('0' <= c <= '9' && v == c as int - '0' as int + 52)
    || (c == '+' && v == 62) || (c == '/' && v == 63)
  }

  lemma {:induction false} SymbolStands(v: nat)
    ensures StandsFor(Symbol(v), v % 64)
  {
    AlphabetByRanges();
  }

  lemma {:induction false} ValueStands(c: char)
    ensures Value(c) >= 0 ==> StandsFor(c, Value(c))
    ensures forall v :: StandsFor(c, v) ==> v == Value(c)
    ensures Value(c) < 0 <==> Outside(c)
  {
  }

  /** Four symbols, of which the last ones may be padding, stand for the six-bit pieces of up to three bytes. */
  ghost predicate QuadStands(q: string, s: seq<byte>)
    requires |q| == 4 && 1 <= |s| <= 3
  {
    var a, b, c := s[0] as int, if |s| > 1 then s[1] as int else 0, if |s| > 2 then s[2] as int else 0;
    && StandsFor(q[0], a / 4) && StandsFor(q[1], a % 4 * 16 + b / 16)
    && (if |s| > 1 then StandsFor(q[2], b % 16 * 4 + c / 64) else q[2] == '=')
    && (if |s| > 2 then StandsFor(q[3], c % 64) else q[3] == '=')
  }

  lemma {:induction false} Pieces(a: int, b: int, c: int)
    requires 0 <= a < 256 && 0 <= b < 256 && 0 <= c < 256
    ensures var v := a * 65536 + b * 256 + c;
            && v / 262144 == a / 4 && v / 4096 % 64 == a % 4 * 16 + b / 16
            && v / 64 % 64 == b % 16 * 4 + c / 64 && v % 64 == c % 64 && a / 4 < 64
  {
    var v := a * 65536 + b * 256 + c;
    DivMod(v, 262144, a / 4, a % 4 * 65536 + b * 256 + c);
    DivMod(v, 4096, a * 16 + b / 16, b % 16 * 256 + c);
    DivMod(v, 64, a * 1024 + b * 4 + c / 64, c % 64);
    DivMod(a * 16 + b / 16, 64, a / 4, a % 4 * 16 + b / 16);
    DivMod(a * 1024 + b * 4 + c / 64, 64, a * 16 + b / 16, b % 16 * 4 + c / 64);
    DivMod(v, 64, a * 1024 + b * 4 + c / 64, c % 64);
  }

  lemma {:induction false} DivMod(x: int, d: int, q: int, r: int)
    requires d > 0 && x == q * d + r && 0 <= r < d
    ensures x / d == q && x % d == r
  {
    var k := q - x / d;
    Distance(x, d, q, r);
    if k >= 1 {
      Larger(k, d);
    } else if k <= -1 {
      Larger(-k, d);
    }
  }

  lemma {:induction false} Distance(x: int, d: int, q: int, r: int)
    requires d > 0 && x == q * d + r
    ensures (q - x / d) * d == x % d - r
  {
    assert x == x / d * d + x % d;
  }

  lemma {:induction false} Larger(k: int, d: int)
    requires k >= 1 && d > 0
    ensures k * d >= d && -k * d <= -d
  {
  }

  lemma {:induction false} QuadIs(v: nat)
    ensures var q := Quad(v);
            StandsFor(q[0], v / 262144 % 64) && StandsFor(q[1], v / 4096 % 64) && StandsFor(q[2], v / 64 % 64) && StandsFor(q[3], v % 64)
  {
    hide Symbol, StandsFor;
    SymbolStands(v / 262144);
    SymbolStands(v / 4096);
    SymbolStands(v / 64);
    SymbolStands(v);
  }

  lemma {:induction false} GroupStands(a: byte, b: byte, c: byte)
    ensures QuadStands(Quad(Bits24(a, b, c)), [a, b, c])
  {
    hide Quad, StandsFor;
    Pieces(a as int, b as int, c as int);
    QuadIs(Bits24(a, b, c));
    Small(a as int / 4);
  }

  lemma {:induction false} Small(x: int)
    requires 0 <= x < 64
    ensures x % 64 == x
  {
  }

  /** Three bytes, or what is left of them. */
  function Group(s: seq<byte>, i: nat): seq<byte>
    requires 3 * i <= |s|
  {
    if 3 * i + 3 <= |s| then s[3 * i..3 * i + 3] else s[3 * i..]
  }

  lemma {:induction false} GroupBehind(s: seq<byte>, i: nat)
    requires 0 < i && 3 * i < |s|
    ensures Group(s, i) == Group(s[3..], i - 1)
  {
    if 3 * i + 3 <= |s| {
      assert s[3..][3 * i - 3..3 * i] == s[3 * i..3 * i + 3];
    }
  }

  /** The encoding of every byte string, group by group. */
  lemma {:induction false} EncodedStands(s: seq<byte>, i: nat)
    requires 3 * i < |s|
    ensures 4 * i + 4 <= |Encoded(s)| && QuadStands(Encoded(s)[4 * i..4 * i + 4], Group(s, i))
  {
    hide Quad, Bits24, Group, QuadStands;
    if i > 0 {
      EncodedStands(s[3..], i - 1);
      GroupBehind(s, i);
      assert Encoded(s)[4..] == Encoded(s[3..]);
      assert Encoded(s)[4 * i..4 * i + 4] == Encoded(s)[4..][4 * (i - 1)..4 * (i - 1) + 4];
    } else {
      FirstQuad(s);
    }
  }

  lemma {:induction false} FirstQuad(s: seq<byte>)
    requires s != []
    ensures |Encoded(s)| >= 4 && QuadStands(Encoded(s)[0..4], Group(s, 0))
  {
    hide Quad, Bits24, StandsFor;
    GroupStands(s[0], if |s| > 1 then s[1] else 0, if |s| > 2 then s[2] else 0);
  }

  /** A character outside the alphabet. */
  ghost predicate Outside(c: char) {
    forall v :: !StandsFor(c, v)
  }

  /** When decoding fails because of a character: exactly if one is outside the alphabet and
      is no padding. */
  lemma {:induction false} FailsOutside(input: string)
    requires forall c | c in input :: !IsSpace(c)
    ensures Decode(input).BadSymbol? <==> exists c :: c in input && c != '=' && Outside(c)
  {
    hide Decode, Pads, IsSpace, Value, StandsFor;
    DecodeFails(input);
    forall c ensures Value(c) < 0 <==> Outside(c) {
      ValueStands(c);
    }
  }
}
