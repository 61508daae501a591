/** Go's %q on a string of bytes, UTF-8 or not, and why it can be undone. */
module Quoting {
  import opened Kube
  import opened Sequences

  const QUOTE: Byte := 34
  const BACKSLASH: Byte := 92

  // ---- UTF-8 ----

  predicate Continues(s: Bytes, i: nat) {
    i < |s| && 128 <= s[i] < 192
  }

  /** The length that the first byte of a valid encoding calls for; no value for a byte no encoding starts with. */
  function Length(b: Byte): Option<nat> {
    if b < 128 then Some(1)
    else if 194 <= b < 224 then Some(2)
    else if 224 <= b < 240 then Some(3)
    else if 240 <= b < 245 then Some(4)
    else None
  }

  /** The second byte is bounded so that no encoding is longer than needed, a surrogate, or above the last rune. */
  predicate SecondFits(s: Bytes)
    requires s != []
  {
    && Continues(s, 1)
    && (s[0] == 224 ==> s[1] >= 160) && (s[0] == 237 ==> s[1] < 160)
    && (s[0] == 240 ==> s[1] >= 144) && (s[0] == 244 ==> s[1] < 144)
  }

  /** A valid encoding of a rune stands at the start. */
  predicate Encodes(s: Bytes) {
    && s != [] && Length(s[0]).Some?
    && (Length(s[0]).value > 1 ==> SecondFits(s))
    && (Length(s[0]).value > 2 ==> Continues(s, 2))
    && (Length(s[0]).value > 3 ==> Continues(s, 3))
  }

  function Width(s: Bytes): (n: nat)
    requires s != []
    ensures 1 <= n <= |s|
  {
    if Encodes(s) then Length(s[0]).value else 1
  }

  /** What a byte adds to the number of its rune. */
  function Bits(b: Byte, mark: int): int {
    b - mark
  }

  /** The number of the rune at the start. */
  function Rune(s: Bytes): (r: int)
    requires Encodes(s)
    ensures 0 <= r < 0x11_0000
    ensures Length(s[0]).value == 1 <==> r < 0x80
    ensures Length(s[0]).value <= 2 <==> r < 0x800
    ensures Length(s[0]).value <= 3 <==> r < 0x1_0000
  {
    match Length(s[0]).value
    case 1 => s[0]
    case 2 => Bits(s[0], 192) * 64 + Bits(s[1], 128)
    case 3 => Bits(s[0], 224) * 4096 + Bits(s[1], 128) * 64 + Bits(s[2], 128)
    case _ => Bits(s[0], 240) * 262144 + Bits(s[1], 128) * 4096 + Bits(s[2], 128) * 64 + Bits(s[3], 128)
  }

  lemma SameDigits(a: int, b: int, x: int, y: int)
    requires 0 <= x < 64 && 0 <= y < 64 && a * 64 + x == b * 64 + y
    ensures a == b && x == y
  {
  }

  lemma SameBytes(s: Bytes, t: Bytes)
    requires Encodes(s) && Encodes(t) && Rune(s) == Rune(t)
    ensures Width(s) == Width(t) && forall i :: 0 <= i < Width(s) ==> s[i] == t[i]
  {
    var n := Width(s);
    assert n == Length(s[0]).value == Length(t[0]).value == Width(t);
    if n == 2 {
      SameDigits(Bits(s[0], 192), Bits(t[0], 192), Bits(s[1], 128), Bits(t[1], 128));
    } else if n == 3 {
      var a, b := Bits(s[0], 224) * 64 + Bits(s[1], 128), Bits(t[0], 224) * 64 + Bits(t[1], 128);
      SameDigits(a, b, Bits(s[2], 128), Bits(t[2], 128));
      SameDigits(Bits(s[0], 224), Bits(t[0], 224), Bits(s[1], 128), Bits(t[1], 128));
    } else if n == 4 {
      var a, b := Bits(s[0], 240) * 64 + Bits(s[1], 128), Bits(t[0], 240) * 64 + Bits(t[1], 128);
      SameDigits(a * 64 + Bits(s[2], 128), b * 64 + Bits(t[2], 128), Bits(s[3], 128), Bits(t[3], 128));
      SameDigits(a, b, Bits(s[2], 128), Bits(t[2], 128));
      SameDigits(Bits(s[0], 240), Bits(t[0], 240), Bits(s[1], 128), Bits(t[1], 128));
    }
  }

  /** A rune has one encoding. */
  lemma RuneInjective(s: Bytes, t: Bytes)
    requires Encodes(s) && Encodes(t) && Rune(s) == Rune(t)
    ensures Width(s) == Width(t) && s[..Width(s)] == t[..Width(t)]
  {
    SameBytes(s, t);
    SamePrefix(s, t, Width(s));
  }

  lemma SamePrefix(s: Bytes, t: Bytes, n: nat)
    requires n <= |s| && n <= |t| && forall i :: 0 <= i < n ==> s[i] == t[i]
    ensures s[..n] == t[..n]
  {
  }

  // ---- quoting ----

  function HexDigit(d: int): Byte
    requires 0 <= d < 16
  {
    if d < 10 then 48 + d else 87 + d
  }

  /** The last n hexadecimal digits. */
  function Hex(r: nat, n: nat): (h: Bytes)
    ensures |h| == n
  {
    if n == 0 then [] else Hex(r / 16, n - 1) + [HexDigit(r % 16)]
  }

  function Power(n: nat): (p: nat)
    ensures p > 0
  {
    if n == 0 then 1 else 16 * Power(n - 1)
  }

  lemma {:induction false} HexInjective(r: nat, q: nat, n: nat)
    requires Hex(r, n) == Hex(q, n) && r < Power(n) && q < Power(n)
    ensures r == q
  {
    if n > 0 {
      assert Hex(r, n)[n - 1] == Hex(q, n)[n - 1];
      assert r % 16 == q % 16;
      assert Hex(r, n)[..n - 1] == Hex(r / 16, n - 1) && Hex(q, n)[..n - 1] == Hex(q / 16, n - 1);
      HexInjective(r / 16, q / 16, n - 1);
    }
  }

  /** Which runes from 128 on are printable is the library's affair. */
  type Printable = int -> bool

  /** The character after the backslash, for the controls that have one. */
  function Short(b: Byte): Option<Byte> {
    if b == QUOTE || b == BACKSLASH then Some(b)
    else if b == 7 then Some(97)
    else if b == 8 then Some(98)
    else if b == 9 then Some(116)
    else if b == 10 then Some(110)
    else if b == 11 then Some(118)
    else if b == 12 then Some(102)
    else if b == 13 then Some(114)
    else None
  }

  datatype Form = Escape | ByHex | Raw | ByHex4 | ByHex8

  /** How the rune, or the stray byte, at the start is written. */
  function FormOf(s: Bytes, p: Printable): Form
    requires s != []
  {
    if !Encodes(s) then ByHex
    else if s[0] < 128 && Short(s[0]).Some? then Escape
    else if s[0] < 32 || s[0] == 127 then ByHex
    else if s[0] < 128 || p(Rune(s)) then Raw
    else if Rune(s) < 0x1_0000 then ByHex4
    else ByHex8
  }

  function QuoteFirst(s: Bytes, p: Printable): (q: Bytes)
    requires s != []
    ensures q != [] && q[0] != QUOTE
    ensures q[0] == BACKSLASH <==> !FormOf(s, p).Raw?
    ensures q[0] == BACKSLASH ==> |q| > 1 && FormOf(s, p) == EscapeForm(q[1])
  {
    match FormOf(s, p)
    case Escape => [BACKSLASH, Short(s[0]).value]
    case ByHex => [BACKSLASH, 120] + Hex(s[0], 2)
    case Raw => s[..Width(s)]
    case ByHex4 => [BACKSLASH, 117] + Hex(Rune(s), 4)
    case ByHex8 => [BACKSLASH, 85] + Hex(Rune(s), 8)
  }

  /** The character after a backslash tells the form. */
  function EscapeForm(c: Byte): Form {
    if c == 120 then ByHex else if c == 117 then ByHex4 else if c == 85 then ByHex8 else Escape
  }

  function QuoteBody(s: Bytes, p: Printable): Bytes {
    if s == [] then [] else QuoteFirst(s, p) + QuoteBody(s[Width(s)..], p)
  }

  function Quote(s: Bytes, p: Printable): Bytes {
    [QUOTE] + QuoteBody(s, p) + [QUOTE]
  }

  // ---- undoing it ----

  lemma SplitHex(c: Byte, r: nat, q: nat, n: nat, x: Bytes, y: Bytes)
    requires [BACKSLASH, c] + Hex(r, n) + x == [BACKSLASH, c] + Hex(q, n) + y && r < Power(n) && q < Power(n)
    ensures r == q && x == y
  {
    Heads([BACKSLASH, c] + Hex(r, n), [BACKSLASH, c] + Hex(q, n), x, y);
    Heads([BACKSLASH, c], [BACKSLASH, c], Hex(r, n), Hex(q, n));
    HexInjective(r, q, n);
  }

  lemma Powers()
    ensures Power(2) == 0x100 && Power(4) == 0x1_0000 && Power(8) == 0x1_0000_0000
  {
    assert Power(4) == 16 * (16 * Power(2)) && Power(8) == 16 * (16 * (16 * (16 * Power(4))));
  }

  lemma SameForm(s: Bytes, t: Bytes, x: Bytes, y: Bytes, p: Printable)
    requires s != [] && t != [] && QuoteFirst(s, p) + x == QuoteFirst(t, p) + y
    ensures FormOf(s, p) == FormOf(t, p)
  {
    var a, b := QuoteFirst(s, p) + x, QuoteFirst(t, p) + y;
    assert a[0] == QuoteFirst(s, p)[0] && b[0] == QuoteFirst(t, p)[0];
    if a[0] == BACKSLASH { assert a[1] == QuoteFirst(s, p)[1] && b[1] == QuoteFirst(t, p)[1]; }
  }

  /** What is written first tells what was read first, whatever follows. */
  lemma FirstDecodes(s: Bytes, t: Bytes, x: Bytes, y: Bytes, p: Printable)
    requires s != [] && t != [] && QuoteFirst(s, p) + x == QuoteFirst(t, p) + y
    ensures Width(s) == Width(t) && s[..Width(s)] == t[..Width(t)] && x == y
  {
    SameForm(s, t, x, y, p);
    Powers();
    match FormOf(s, p)
    case Escape => Heads(QuoteFirst(s, p), QuoteFirst(t, p), x, y);
    case ByHex => SplitHex(120, s[0], t[0], 2, x, y);
    case Raw =>
      assert (QuoteFirst(s, p) + x)[0] == s[0] && (QuoteFirst(t, p) + y)[0] == t[0];
      Heads(QuoteFirst(s, p), QuoteFirst(t, p), x, y);
    case ByHex4 =>
      SplitHex(117, Rune(s), Rune(t), 4, x, y);
      RuneInjective(s, t);
    case ByHex8 =>
      SplitHex(85, Rune(s), Rune(t), 8, x, y);
      RuneInjective(s, t);
  }

  lemma Unroll(a: Bytes, x: Bytes, p: Printable)
    requires a != []
    ensures QuoteBody(a, p) + [QUOTE] + x == QuoteFirst(a, p) + (QuoteBody(a[Width(a)..], p) + [QUOTE] + x)
  {
  }

  /** A quoted text ends where its closing quote is, whatever follows. */
  lemma {:induction false} BodyDecodes(a: Bytes, b: Bytes, x: Bytes, y: Bytes, p: Printable)
    requires QuoteBody(a, p) + [QUOTE] + x == QuoteBody(b, p) + [QUOTE] + y
    ensures a == b && x == y
    decreases |a|
  {
    if a == [] || b == [] {
      HeadDecides(a, b, x, y, p);
    } else {
      Unroll(a, x, p);
      Unroll(b, y, p);
      var v, w := a[Width(a)..], b[Width(b)..];
      FirstDecodes(a, b, QuoteBody(v, p) + [QUOTE] + x, QuoteBody(w, p) + [QUOTE] + y, p);
      BodyDecodes(v, w, x, y, p);
      Rejoined(a, b, Width(a));
    }
  }

  lemma Rejoined(a: Bytes, b: Bytes, n: nat)
    requires n <= |a| && n <= |b| && a[..n] == b[..n] && a[n..] == b[n..]
    ensures a == b
  {
    assert a == a[..n] + a[n..] && b == b[..n] + b[n..];
  }

  lemma HeadDecides(a: Bytes, b: Bytes, x: Bytes, y: Bytes, p: Printable)
    requires QuoteBody(a, p) + [QUOTE] + x == QuoteBody(b, p) + [QUOTE] + y
    requires a == [] || b == []
    ensures a == b && x == y
  {
    var s, t := QuoteBody(a, p) + [QUOTE] + x, QuoteBody(b, p) + [QUOTE] + y;
    assert s[0] == t[0];
    assert a == [] ==> s[1..] == x;
    assert b == [] ==> t[1..] == y;
  }

  lemma Opened(a: Bytes, x: Bytes, p: Printable)
    ensures Quote(a, p) + x == [QUOTE] + (QuoteBody(a, p) + [QUOTE] + x)
  {
  }

  lemma QuoteDecodes(a: Bytes, b: Bytes, x: Bytes, y: Bytes, p: Printable)
    requires Quote(a, p) + x == Quote(b, p) + y
    ensures a == b && x == y
  {
    Opened(a, x, p);
    Opened(b, y, p);
    Heads([QUOTE], [QUOTE], QuoteBody(a, p) + [QUOTE] + x, QuoteBody(b, p) + [QUOTE] + y);
    BodyDecodes(a, b, x, y, p);
  }

  /** Printable ASCII without quotes and backslashes, as in the names of a cluster, is written as it is. */
  lemma {:induction false} PlainQuote(s: Bytes, p: Printable)
    requires forall i :: 0 <= i < |s| ==> 32 <= s[i] < 127 && s[i] != 34 && s[i] != 92
    ensures QuoteBody(s, p) == s && Quote(s, p) == [34] + s + [34]
  {
    if s != [] {
      PlainQuote(s[1..], p);
      assert s[..1] == [s[0]] && s == [s[0]] + s[1..];
    }
  }
}
