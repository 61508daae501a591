/** Generated passwords. */
module Password {
  import opened Kube
  import opened Expansion
  import opened Shuffle

  datatype PasswordSpec = PasswordSpec(length: int, digits: int, symbols: int, uppercase: int, lowercase: int,
                                       symbolCharSet: Bytes)

  function Range(from: Byte, n: nat): (r: Bytes)
    requires from + n <= 256
    ensures |r| == n && forall i :: 0 <= i < n ==> r[i] == from + i
  {
    seq(n, i requires 0 <= i < n => from + i)
  }

  const LOWER: Bytes := Range(97, 26)
  const UPPER: Bytes := Range(65, 26)
  const DIGITS: Bytes := Range(48, 10)
  const ALL: Bytes := LOWER + UPPER + DIGITS

  /** How often a Go loop from 0 to a count runs. */
  function Times(count: int): nat {
    if count > 0 then count else 0
  }

  /** `count` characters of the set, for the draws from the k-th on. A picked byte is written as the rune of its
      number. */
  function Picks(chars: Bytes, draws: Draws, k: nat, count: nat): (r: Bytes)
    requires count > 0 ==> chars != []
    ensures |r| == count && forall i :: 0 <= i < count ==> r[i] in chars
  {
    seq(count, i requires 0 <= i < count => chars[draws(k + i).GetOr(0) % |chars|])
  }

  predicate Panics(spec: PasswordSpec) {
    spec.symbols > 0 && spec.symbolCharSet == []
  }

  function Remaining(spec: PasswordSpec): nat {
    Times(spec.length - spec.symbols - spec.digits - spec.uppercase - spec.lowercase)
  }

  /** The classes in turn: symbols, digits, uppercase, lowercase, and any. */
  function Chars(spec: PasswordSpec, kind: nat): Bytes
    requires kind < 5
  {
    match kind
    case 0 => spec.symbolCharSet
    case 1 => DIGITS
    case 2 => UPPER
    case 3 => LOWER
    case _ => ALL
  }

  function Count(spec: PasswordSpec, kind: nat): nat
    requires kind < 5
  {
    match kind
    case 0 => Times(spec.symbols)
    case 1 => Times(spec.digits)
    case 2 => Times(spec.uppercase)
    case 3 => Times(spec.lowercase)
    case _ => Remaining(spec)
  }

  /** The number of the first draw of a class. */
  function Offset(spec: PasswordSpec, kind: nat): nat
    requires kind < 5
  {
    if kind == 0 then 0 else Offset(spec, kind - 1) + Count(spec, kind - 1)
  }

  function Part(spec: PasswordSpec, draws: Draws, kind: nat): Bytes
    requires !Panics(spec) && kind < 5
  {
    Picks(Chars(spec, kind), draws, Offset(spec, kind), Count(spec, kind))
  }

  /** The draws for `count` characters succeed; there is nothing to draw when there is only one to choose from. */
  ghost predicate CanPick(chars: Bytes, draws: Draws, k: nat, count: nat) {
    |chars| == 1 || Succeed(draws, k, k + count)
  }

  ghost predicate CanDraw(spec: PasswordSpec, draws: Draws) {
    forall kind :: 0 <= kind < 5 ==> CanPick(Chars(spec, kind), draws, Offset(spec, kind), Count(spec, kind))
  }

  /** The runes before the shuffle. */
  function Unshuffled(spec: PasswordSpec, draws: Draws): Bytes
    requires !Panics(spec)
  {
    Part(spec, draws, 0) + Part(spec, draws, 1) + Part(spec, draws, 2) + Part(spec, draws, 3) + Part(spec, draws, 4)
  }

  function Runes(spec: PasswordSpec, draws: Draws): Bytes
    requires !Panics(spec)
  {
    var u := Unshuffled(spec, draws);
    Shuffled(u, ChoicesFrom(draws, |u|, |u|), |u|)
  }

  /** The UTF-8 form of a list of runes below 256. */
  function Utf8(runes: Bytes): Bytes {
    if runes == [] then [] else RuneString(runes[0]) + Utf8(runes[1..])
  }

  datatype Outcome = Panicked | Failed | Generated(password: Bytes)

  /** One of the five loops: random elements of a set appended to the builder. */
  method AppendRandom(builder: Bytes, chars: Bytes, count: int, draws: Draws, k: nat)
    returns (ok: bool, r: Bytes, next: nat)
    requires count > 0 ==> chars != []
    ensures ok <==> CanPick(chars, draws, k, Times(count))
    ensures ok ==> r == builder + Picks(chars, draws, k, Times(count)) && next == k + Times(count)
  {
    ok, r, next := true, builder, k;
    var i := 0;
    while i < count
      invariant 0 <= i <= Times(count) && next == k + i
      invariant i > 0 ==> chars != []
      invariant CanPick(chars, draws, k, i)
      invariant r == builder + Picks(chars, draws, k, i)
    {
      if |chars| > 1 && draws(next).None? {
        return false, r, next;
      }
      r, next := r + [chars[draws(next).GetOr(0) % |chars|]], next + 1;
      i := i + 1;
    }
  }

  /** The builder's runes in an array of their own, shuffled in place. */
  method ShuffleRunes(builder: Bytes, draws: Draws, k: nat) returns (panicked: bool, r: Bytes)
    ensures panicked <==> builder != [] && !Succeed(draws, k, k + |builder| - 1)
    ensures !panicked ==> r == Shuffled(builder, ChoicesFrom(draws, k, |builder|), |builder|)
  {
    var inRune := new Byte[|builder|](i requires 0 <= i < |builder| => builder[i]);
    assert inRune[..] == builder;
    panicked := LocalCryptoShuffle(inRune, draws, k);
    r := inRune[..];
  }

  /** The parts up to a class, one after the other. */
  function Parts(spec: PasswordSpec, draws: Draws, n: nat): (r: Bytes)
    requires !Panics(spec) && n <= 5
    ensures n < 5 ==> |r| == Offset(spec, n)
  {
    if n == 0 then [] else Parts(spec, draws, n - 1) + Part(spec, draws, n - 1)
  }

  lemma AllParts(spec: PasswordSpec, draws: Draws)
    requires !Panics(spec)
    ensures Parts(spec, draws, 5) == Unshuffled(spec, draws)
  {
    assert Parts(spec, draws, 1) == Part(spec, draws, 0);
    assert Parts(spec, draws, 2) == Parts(spec, draws, 1) + Part(spec, draws, 1);
    assert Parts(spec, draws, 3) == Parts(spec, draws, 2) + Part(spec, draws, 2);
    assert Parts(spec, draws, 4) == Parts(spec, draws, 3) + Part(spec, draws, 3);
  }

  /** One loop, from the parts before a class to the parts with it. */
  method DrawPart(spec: PasswordSpec, draws: Draws, kind: nat, chars: Bytes, count: int, before: Bytes)
    returns (ok: bool, builder: Bytes)
    requires !Panics(spec) && kind < 5 && before == Parts(spec, draws, kind)
    requires chars == Chars(spec, kind) && Times(count) == Count(spec, kind)
    ensures ok <==> CanPick(Chars(spec, kind), draws, Offset(spec, kind), Count(spec, kind))
    ensures ok ==> builder == Parts(spec, draws, kind + 1)
  {
    var next;
    ok, builder, next := AppendRandom(before, chars, count, draws, |before|);
  }

  /** The five loops, class by class. */
  method DrawAll(spec: PasswordSpec, draws: Draws) returns (ok: bool, builder: Bytes)
    requires !Panics(spec)
    ensures ok <==> CanDraw(spec, draws)
    ensures ok ==> builder == Unshuffled(spec, draws)
  {
    ok, builder := DrawPart(spec, draws, 0, spec.symbolCharSet, spec.symbols, []);
    if !ok { return; }
    ok, builder := DrawPart(spec, draws, 1, DIGITS, spec.digits, builder);
    if !ok { return; }
    ok, builder := DrawPart(spec, draws, 2, UPPER, spec.uppercase, builder);
    if !ok { return; }
    ok, builder := DrawPart(spec, draws, 3, LOWER, spec.lowercase, builder);
    if !ok { return; }
    var remaining := spec.length - spec.symbols - spec.digits - spec.uppercase - spec.lowercase;
    ok, builder := DrawPart(spec, draws, 4, ALL, remaining, builder);
    AllParts(spec, draws);
  }

  /** The shuffle's draws, which follow those of the classes. */
  ghost predicate CanShuffle(spec: PasswordSpec, draws: Draws)
    requires !Panics(spec)
  {
    var n := |Unshuffled(spec, draws)|;
    n > 0 ==> Succeed(draws, n, n + n - 1)
  }

  /** Drawing from an empty symbol set panics, and so does a draw that fails in the shuffle; one that fails before
      is an error; otherwise the password is the shuffled draw. */
  method Generate(spec: PasswordSpec, draws: Draws) returns (outcome: Outcome)
    ensures outcome ==
            if spec.symbols > 0 && spec.symbolCharSet == [] then Panicked
            else if !CanDraw(spec, draws) then Failed
            else if !CanShuffle(spec, draws) then Panicked
            else Generated(Utf8(Runes(spec, draws)))
  {
    if spec.symbols > 0 && |spec.symbolCharSet| == 0 {
      return Panicked;
    }
    var ok, builder := DrawAll(spec, draws);
    if !ok {
      return Failed;
    }
    var panicked, runes := ShuffleRunes(builder, draws, |builder|);
    if panicked {
      return Panicked;
    }
    return Generated(Utf8(runes));
  }

  // ---- what a password has ----

  /** How many characters of `s` are in the set. */
  function CountIn(s: Bytes, chars: Bytes): nat {
    if s == [] then 0 else (if s[0] in chars then 1 else 0) + CountIn(s[1..], chars)
  }

  lemma {:induction false} CountInConcat(a: Bytes, b: Bytes, chars: Bytes)
    ensures CountIn(a + b, chars) == CountIn(a, chars) + CountIn(b, chars)
  {
    if a == [] {
      assert a + b == b;
    } else {
      CountInConcat(a[1..], b, chars);
      assert (a + b)[1..] == a[1..] + b;
    }
  }

  lemma {:induction false} CountInAll(s: Bytes, chars: Bytes)
    requires forall i :: 0 <= i < |s| ==> s[i] in chars
    ensures CountIn(s, chars) == |s|
  {
    if s != [] { CountInAll(s[1..], chars); }
  }

  lemma TakenOut(s: Bytes, t: Bytes, j: nat)
    requires multiset(s) == multiset(t) && s != [] && j < |t| && t[j] == s[0]
    ensures multiset(s[1..]) == multiset(t[..j] + t[j + 1..])
  {
    assert s == [s[0]] + s[1..] && t == t[..j] + [s[0]] + t[j + 1..];
    assert multiset(s) == multiset{s[0]} + multiset(s[1..]);
    assert multiset(t) == multiset(t[..j]) + multiset{s[0]} + multiset(t[j + 1..]);
    assert multiset(s[1..]) == multiset(s) - multiset{s[0]};
  }

  lemma {:induction false} CountInPermuted(s: Bytes, t: Bytes, chars: Bytes)
    requires multiset(s) == multiset(t)
    ensures CountIn(s, chars) == CountIn(t, chars)
    decreases |s|
  {
    if s == [] {
      assert |multiset(t)| == 0;
    } else {
      var x := s[0];
      assert x in multiset(t);
      var j :| 0 <= j < |t| && t[j] == x;
      var front, back := t[..j], t[j + 1..];
      TakenOut(s, t, j);
      CountInPermuted(s[1..], front + back, chars);
      CountInConcat(front, back, chars);
      CountInConcat(front, [x] + back, chars);
      assert t == front + ([x] + back) && ([x] + back)[1..] == back;
    }
  }

  lemma RunesPermute(spec: PasswordSpec, draws: Draws)
    requires !Panics(spec)
    ensures multiset(Runes(spec, draws)) == multiset(Unshuffled(spec, draws))
    ensures |Runes(spec, draws)| == |Unshuffled(spec, draws)|
  {
    var u := Unshuffled(spec, draws);
    ShufflePermutes(u, ChoicesFrom(draws, |u|, |u|), |u|);
  }

  /** The length, for any counts, and the promised length when none is negative. */
  lemma PasswordLength(spec: PasswordSpec, draws: Draws)
    requires !Panics(spec)
    ensures |Runes(spec, draws)| == Times(spec.symbols) + Times(spec.digits) + Times(spec.uppercase)
                                    + Times(spec.lowercase) + Remaining(spec)
    ensures var required := spec.symbols + spec.digits + spec.uppercase + spec.lowercase;
            spec.symbols >= 0 && spec.digits >= 0 && spec.uppercase >= 0 && spec.lowercase >= 0 ==>
              |Runes(spec, draws)| == if spec.length > required then spec.length else required
  {
    RunesPermute(spec, draws);
  }

  lemma PartCounts(a: Bytes, b: Bytes, c: Bytes, d: Bytes, e: Bytes, chars: Bytes)
    ensures CountIn(a + b + c + d + e, chars)
            == CountIn(a, chars) + CountIn(b, chars) + CountIn(c, chars) + CountIn(d, chars) + CountIn(e, chars)
  {
    CountInConcat(a + b + c + d, e, chars);
    CountInConcat(a + b + c, d, chars);
    CountInConcat(a + b, c, chars);
    CountInConcat(a, b, chars);
  }

  lemma PartIsCounted(spec: PasswordSpec, draws: Draws, kind: nat, chars: Bytes)
    requires !Panics(spec) && kind < 5
    ensures CountIn(Unshuffled(spec, draws), chars) >= CountIn(Part(spec, draws, kind), chars)
  {
    PartCounts(Part(spec, draws, 0), Part(spec, draws, 1), Part(spec, draws, 2), Part(spec, draws, 3),
               Part(spec, draws, 4), chars);
  }

  lemma ShuffleKeepsCounts(spec: PasswordSpec, draws: Draws, chars: Bytes)
    requires !Panics(spec)
    ensures CountIn(Runes(spec, draws), chars) == CountIn(Unshuffled(spec, draws), chars)
  {
    RunesPermute(spec, draws);
    CountInPermuted(Unshuffled(spec, draws), Runes(spec, draws), chars);
  }

  /** A part drawn from a set counts in full after the shuffle. */
  lemma PartSurvives(spec: PasswordSpec, draws: Draws, kind: nat, chars: Bytes, part: Bytes)
    requires !Panics(spec) && kind < 5 && part == Part(spec, draws, kind)
    requires forall i :: 0 <= i < |part| ==> part[i] in chars
    ensures CountIn(Runes(spec, draws), chars) >= |part|
  {
    ShuffleKeepsCounts(spec, draws, chars);
    PartIsCounted(spec, draws, kind, chars);
    CountInAll(part, chars);
  }

  /** At least the required number of each class survives the shuffle. */
  lemma ClassesSurvive(spec: PasswordSpec, draws: Draws)
    requires !Panics(spec)
    ensures CountIn(Runes(spec, draws), spec.symbolCharSet) >= spec.symbols
    ensures CountIn(Runes(spec, draws), DIGITS) >= spec.digits
    ensures CountIn(Runes(spec, draws), UPPER) >= spec.uppercase
    ensures CountIn(Runes(spec, draws), LOWER) >= spec.lowercase
  {
    PartSurvives(spec, draws, 0, spec.symbolCharSet, Part(spec, draws, 0));
    PartSurvives(spec, draws, 1, DIGITS, Part(spec, draws, 1));
    PartSurvives(spec, draws, 2, UPPER, Part(spec, draws, 2));
    PartSurvives(spec, draws, 3, LOWER, Part(spec, draws, 3));
  }

  lemma InSomePart(spec: PasswordSpec, draws: Draws, x: Byte) returns (kind: nat)
    requires !Panics(spec) && x in Unshuffled(spec, draws)
    ensures kind < 5 && x in Part(spec, draws, kind)
  {
    kind := if x in Part(spec, draws, 0) then 0 else if x in Part(spec, draws, 1) then 1
              else if x in Part(spec, draws, 2) then 2 else if x in Part(spec, draws, 3) then 3 else 4;
  }

  lemma AllHasEach(x: Byte)
    ensures x in ALL <==> x in LOWER || x in UPPER || x in DIGITS
  {
  }

  lemma PartIsFrom(spec: PasswordSpec, draws: Draws, kind: nat, x: Byte)
    requires !Panics(spec) && kind < 5 && x in Part(spec, draws, kind)
    ensures x in ALL || (spec.symbols > 0 && x in spec.symbolCharSet)
  {
    AllHasEach(x);
    var part := Part(spec, draws, kind);
    var i :| 0 <= i < |part| && part[i] == x;
    if kind == 1 { assert part[i] in DIGITS; }
    else if kind == 2 { assert part[i] in UPPER; }
    else if kind == 3 { assert part[i] in LOWER; }
  }

  /** Nothing but letters, digits and the given symbols. */
  lemma OnlyAllowed(spec: PasswordSpec, draws: Draws)
    requires !Panics(spec)
    ensures forall x :: x in Runes(spec, draws) ==> x in ALL || (spec.symbols > 0 && x in spec.symbolCharSet)
  {
    RunesPermute(spec, draws);
    forall x | x in Runes(spec, draws) ensures x in ALL || (spec.symbols > 0 && x in spec.symbolCharSet) {
      assert x in multiset(Unshuffled(spec, draws));
      var kind := InSomePart(spec, draws, x);
      PartIsFrom(spec, draws, kind, x);
    }
  }

  lemma {:induction false} Utf8OfAscii(runes: Bytes)
    ensures |Utf8(runes)| >= |runes|
    ensures Utf8(runes) == runes <==> forall i :: 0 <= i < |runes| ==> runes[i] < 128
  {
    if runes != [] {
      Utf8OfAscii(runes[1..]);
      assert runes == [runes[0]] + runes[1..];
      if runes[0] >= 128 { assert |Utf8(runes)| > |runes|; }
    }
  }

  /** With an ASCII symbol set the bytes of the password are its runes, so all of the above holds of the bytes. */
  lemma AsciiPassword(spec: PasswordSpec, draws: Draws)
    requires !Panics(spec) && forall i :: 0 <= i < |spec.symbolCharSet| ==> spec.symbolCharSet[i] < 128
    ensures Utf8(Runes(spec, draws)) == Runes(spec, draws)
  {
    OnlyAllowed(spec, draws);
    forall i | 0 <= i < |Runes(spec, draws)| ensures Runes(spec, draws)[i] < 128 {
      AllHasEach(Runes(spec, draws)[i]);
    }
    Utf8OfAscii(Runes(spec, draws));
  }
}
