/** Which passwords can come out: each draw shows, and all together reach everything the specification allows. */
module PasswordOutcomes {
  import opened Kube
  import opened Shuffle
  import opened Password

  /** A draw below the size of the set is the place of the character it picks. */
  lemma DrawPicks(chars: Bytes, draws: Draws, k: nat, count: nat, i: nat, d: nat)
    requires i < count && d < |chars| && draws(k + i) == Some(d)
    ensures Picks(chars, draws, k, count)[i] == chars[d]
  {
    SmallRemainder(d, |chars|);
    assert draws(k + i).GetOr(0) % |chars| == d;
  }

  lemma SmallRemainder(d: nat, n: nat)
    requires d < n
    ensures d % n == d
  {
  }

  /** And a draw in the range of a place is the place it is swapped with. */
  lemma DrawChooses(draws: Draws, k: nat, n: nat, i: nat, d: nat)
    requires i < n && d <= i && draws(k + n - 1 - i) == Some(d)
    ensures ChoicesFrom(draws, k, n)[i] == d
  {
    SmallRemainder(d, i + 1);
    ChoiceAt(draws, k, n, i, k + n - 1 - i);
  }

  predicate AllIn(text: Bytes, chars: Bytes) {
    forall i :: 0 <= i < |text| ==> text[i] in chars
  }

  predicate Within(text: Bytes, low: Byte, high: Byte) {
    forall i :: 0 <= i < |text| ==> low <= text[i] <= high
  }

  predicate Alphanumeric(text: Bytes) {
    forall i :: 0 <= i < |text| ==> 48 <= text[i] <= 57 || 65 <= text[i] <= 90 || 97 <= text[i] <= 122
  }

  /** Five texts, one for each class, of the lengths asked for. */
  predicate Composed(spec: PasswordSpec, parts: seq<Bytes>) {
    && |parts| == 5
    && |parts[0]| == Times(spec.symbols) && AllIn(parts[0], spec.symbolCharSet)
    && |parts[1]| == Times(spec.digits) && Within(parts[1], 48, 57)
    && |parts[2]| == Times(spec.uppercase) && Within(parts[2], 65, 90)
    && |parts[3]| == Times(spec.lowercase) && Within(parts[3], 97, 122)
    && |parts[4]| == Remaining(spec) && Alphanumeric(parts[4])
  }

  function Joined(parts: seq<Bytes>): Bytes
    requires |parts| == 5
  {
    parts[0] + parts[1] + parts[2] + parts[3] + parts[4]
  }

  lemma InRange(low: Byte, n: nat, c: Byte)
    requires low + n <= 256
    ensures c in Range(low, n) <==> low <= c < low + n
  {
    if low <= c < low + n { assert Range(low, n)[c - low] == c; }
  }

  /** The sets hold the bytes they are named after. */
  lemma ClassOf(spec: PasswordSpec, c: Byte)
    ensures c in Chars(spec, 0) <==> c in spec.symbolCharSet
    ensures c in Chars(spec, 1) <==> 48 <= c <= 57
    ensures c in Chars(spec, 2) <==> 65 <= c <= 90
    ensures c in Chars(spec, 3) <==> 97 <= c <= 122
    ensures c in Chars(spec, 4) <==> 48 <= c <= 57 || 65 <= c <= 90 || 97 <= c <= 122
  {
    InRange(48, 10, c);
    InRange(65, 26, c);
    InRange(97, 26, c);
    AllHasEach(c);
  }

  lemma ComposedIsByClass(spec: PasswordSpec, parts: seq<Bytes>)
    ensures Composed(spec, parts) <==>
            && |parts| == 5
            && forall kind :: 0 <= kind < 5 ==>
                 |parts[kind]| == Count(spec, kind) && AllIn(parts[kind], Chars(spec, kind))
  {
    forall c: Byte { ClassOf(spec, c); }
    if |parts| == 5 {
      assert AllIn(parts[1], Chars(spec, 1)) <==> Within(parts[1], 48, 57);
      assert AllIn(parts[2], Chars(spec, 2)) <==> Within(parts[2], 65, 90);
      assert AllIn(parts[3], Chars(spec, 3)) <==> Within(parts[3], 97, 122);
      assert AllIn(parts[4], Chars(spec, 4)) <==> Alphanumeric(parts[4]);
    }
  }

  // ---- draws for a given text ----

  function IndexIn(chars: Bytes, c: Byte): (i: nat)
    requires c in chars
    ensures i < |chars| && chars[i] == c
  {
    if chars[0] == c then 0 else 1 + IndexIn(chars[1..], c)
  }

  function DrawFor(chars: Bytes, text: Bytes, i: int): nat {
    if 0 <= i < |text| && text[i] in chars then IndexIn(chars, text[i]) else 0
  }

  /** The draws that pick the parts, and after them those that make the choices. */
  function DrawsFor(spec: PasswordSpec, parts: seq<Bytes>, choices: seq<nat>): Draws
    requires |parts| == 5
  {
    var n := |choices|;
    var o1, o2, o3, o4 := Offset(spec, 1), Offset(spec, 2), Offset(spec, 3), Offset(spec, 4);
    m =>
      if m < o1 then Some(DrawFor(Chars(spec, 0), parts[0], m))
      else if m < o2 then Some(DrawFor(Chars(spec, 1), parts[1], m - o1))
      else if m < o3 then Some(DrawFor(Chars(spec, 2), parts[2], m - o2))
      else if m < o4 then Some(DrawFor(Chars(spec, 3), parts[3], m - o3))
      else if m < n then Some(DrawFor(Chars(spec, 4), parts[4], m - o4))
      else if m < 2 * n then Some(choices[2 * n - 1 - m])
      else Some(0)
  }

  /** The draws that belong to a class pick the characters of the text. */
  ghost predicate DrawsPart(spec: PasswordSpec, draws: Draws, kind: nat, text: Bytes)
    requires kind < 5
  {
    var k := Offset(spec, kind);
    forall m: nat :: k <= m < k + |text| ==> draws(m) == Some(DrawFor(Chars(spec, kind), text, m - k))
  }

  lemma PartIs(spec: PasswordSpec, draws: Draws, kind: nat, text: Bytes)
    requires !Panics(spec) && kind < 5 && |text| == Count(spec, kind) && AllIn(text, Chars(spec, kind))
    requires DrawsPart(spec, draws, kind, text)
    ensures Part(spec, draws, kind) == text
    ensures CanPick(Chars(spec, kind), draws, Offset(spec, kind), Count(spec, kind))
  {
    var k := Offset(spec, kind);
    forall i | 0 <= i < |text| ensures Part(spec, draws, kind)[i] == text[i] {
      assert draws(k + i) == Some(DrawFor(Chars(spec, kind), text, i));
      DrawPicks(Chars(spec, kind), draws, k, |text|, i, DrawFor(Chars(spec, kind), text, i));
    }
  }

  lemma Offsets(spec: PasswordSpec, parts: seq<Bytes>)
    requires Composed(spec, parts)
    ensures Offset(spec, 1) == |parts[0]| && Offset(spec, 2) == |parts[0]| + |parts[1]|
    ensures Offset(spec, 3) == |parts[0]| + |parts[1]| + |parts[2]|
    ensures Offset(spec, 4) == |parts[0]| + |parts[1]| + |parts[2]| + |parts[3]|
    ensures Offset(spec, 4) + |parts[4]| == |Joined(parts)|
  {
    assert Offset(spec, 1) == Count(spec, 0);
    assert Offset(spec, 2) == Offset(spec, 1) + Count(spec, 1);
    assert Offset(spec, 3) == Offset(spec, 2) + Count(spec, 2);
    assert Offset(spec, 4) == Offset(spec, 3) + Count(spec, 3);
  }

  lemma DrawAt(spec: PasswordSpec, parts: seq<Bytes>, choices: seq<nat>, kind: nat, i: nat, m: nat)
    requires Composed(spec, parts) && |choices| == |Joined(parts)| && kind < 5
    requires i < |parts[kind]| && m == Offset(spec, kind) + i
    ensures DrawsFor(spec, parts, choices)(m) == Some(DrawFor(Chars(spec, kind), parts[kind], i))
  {
    Offsets(spec, parts);
    match kind
    case 0 =>
    case 1 =>
    case 2 =>
    case 3 =>
    case _ =>
  }

  lemma DrawsEachPart(spec: PasswordSpec, parts: seq<Bytes>, choices: seq<nat>, kind: nat)
    requires Composed(spec, parts) && |choices| == |Joined(parts)| && kind < 5
    ensures DrawsPart(spec, DrawsFor(spec, parts, choices), kind, parts[kind])
  {
    var k := Offset(spec, kind);
    forall m: nat | k <= m < k + |parts[kind]|
      ensures DrawsFor(spec, parts, choices)(m) == Some(DrawFor(Chars(spec, kind), parts[kind], m - k))
    {
      DrawAt(spec, parts, choices, kind, m - k, m);
    }
  }

  lemma SomeDraws(spec: PasswordSpec, parts: seq<Bytes>, choices: seq<nat>) returns (draws: Draws)
    requires Composed(spec, parts) && Choices(choices) && |choices| == |Joined(parts)|
    ensures forall kind :: 0 <= kind < 5 ==> DrawsPart(spec, draws, kind, parts[kind])
    ensures ChoicesFrom(draws, |choices|, |choices|) == choices
    ensures Succeed(draws, |choices|, |choices| + |choices|)
  {
    draws := DrawsFor(spec, parts, choices);
    forall kind | 0 <= kind < 5 ensures DrawsPart(spec, draws, kind, parts[kind]) {
      DrawsEachPart(spec, parts, choices, kind);
    }
    ChoicesAre(spec, parts, choices);
  }

  /** Any five texts of the classes are drawn by some draws, and the same draws may go on to any choices. */
  lemma EveryTextCanBeDrawn(spec: PasswordSpec, parts: seq<Bytes>, choices: seq<nat>) returns (draws: Draws)
    requires !Panics(spec) && Composed(spec, parts) && Choices(choices) && |choices| == |Joined(parts)|
    ensures CanDraw(spec, draws) && Unshuffled(spec, draws) == Joined(parts)
    ensures CanShuffle(spec, draws) && ChoicesFrom(draws, |choices|, |choices|) == choices
  {
    draws := SomeDraws(spec, parts, choices);
    ComposedIsByClass(spec, parts);
    forall kind | 0 <= kind < 5
      ensures Part(spec, draws, kind) == parts[kind]
      ensures CanPick(Chars(spec, kind), draws, Offset(spec, kind), Count(spec, kind))
    {
      PartIs(spec, draws, kind, parts[kind]);
    }
  }

  lemma ChoicesAre(spec: PasswordSpec, parts: seq<Bytes>, choices: seq<nat>)
    requires Choices(choices) && Composed(spec, parts) && |choices| == |Joined(parts)|
    ensures
      var draws, n := DrawsFor(spec, parts, choices), |choices|;
      ChoicesFrom(draws, n, n) == choices && Succeed(draws, n, n + n)
  {
    var draws, n := DrawsFor(spec, parts, choices), |choices|;
    Offsets(spec, parts);
    forall i | 0 <= i < n ensures ChoicesFrom(draws, n, n)[i] == choices[i] {
      assert draws(n + n - 1 - i) == Some(choices[i]);
      DrawChooses(draws, n, n, i, choices[i]);
    }
  }

  // ---- the passwords ----

  /** Some draws that all succeed make the password. */
  ghost predicate CanComeOut(spec: PasswordSpec, p: Bytes)
    requires !Panics(spec)
  {
    exists draws: Draws :: CanDraw(spec, draws) && CanShuffle(spec, draws) && Runes(spec, draws) == p
  }

  ghost predicate Allowed(spec: PasswordSpec, p: Bytes) {
    exists parts :: Composed(spec, parts) && multiset(p) == multiset(Joined(parts))
  }

  lemma AllowedComesOut(spec: PasswordSpec, p: Bytes, parts: seq<Bytes>)
    requires !Panics(spec) && Composed(spec, parts) && multiset(p) == multiset(Joined(parts))
    ensures CanComeOut(spec, p)
  {
    var u := Joined(parts);
    assert |multiset(p)| == |p| && |multiset(u)| == |u|;
    assert u[..|u|] == u && p[..|u|] == p;
    var choices := ShuffleSurjective(u, p, |u|);
    var draws := EveryTextCanBeDrawn(spec, parts, choices);
    assert Runes(spec, draws) == p;
  }

  lemma DrawnIsComposed(spec: PasswordSpec, draws: Draws)
    requires !Panics(spec)
    ensures
      var parts := seq(5, kind requires 0 <= kind < 5 => Part(spec, draws, kind));
      Composed(spec, parts) && Joined(parts) == Unshuffled(spec, draws)
  {
    ComposedIsByClass(spec, seq(5, kind requires 0 <= kind < 5 => Part(spec, draws, kind)));
  }

  /** A password can come out exactly when it is a rearrangement of texts of the classes with the lengths asked for. */
  lemma ComesOutIffAllowed(spec: PasswordSpec, p: Bytes)
    requires !Panics(spec)
    ensures CanComeOut(spec, p) <==> Allowed(spec, p)
  {
    if draws: Draws :| CanDraw(spec, draws) && CanShuffle(spec, draws) && Runes(spec, draws) == p {
      RunesPermute(spec, draws);
      DrawnIsComposed(spec, draws);
      assert Composed(spec, seq(5, kind requires 0 <= kind < 5 => Part(spec, draws, kind)));
    }
    if parts :| Composed(spec, parts) && multiset(p) == multiset(Joined(parts)) {
      AllowedComesOut(spec, p, parts);
    }
  }
}
