/** Small things that several parts share. */
module Common {

  datatype Option<+T> = None | Some(value: T)

  /** White space, as the C library sees it. */
  predicate IsSpace(c: char) {
    c in " \t\n\r" || c == 11 as char || c == 12 as char
  }

  /** Conversion to a 32-bit `int`, and arithmetic on one that wraps around. */
  function ToInt32(x: int): int {
    (x + 0x8000_0000) % 0x1_0000_0000 - 0x8000_0000
  }

  lemma {:induction false} Times(a: int, b: int, d: nat)
    ensures a <= b ==> a * d <= b * d
  {
  }

  function Without<T>(s: seq<T>, i: nat): seq<T>
    requires i < |s|
  {
    s[..i] + s[i + 1..]
  }

  function Repeat<T>(x: T, n: nat): seq<T> {
    seq(n, _ => x)
  }
}
