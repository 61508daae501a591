/** What the rewriting keeps: it can be undone, doing it twice changes nothing more. */
module JsonPathLaws {
  import opened Kube
  import opened JsonPath
  import opened JsonPathMatching

  // ---- undoing ----

  function UndoByte(c: Byte): Bytes {
    if c == JSONPATH_OPEN then [PREFIX, OPEN] else if c == JSONPATH_CLOSE then [CLOSE] else [c]
  }

  function Undo(s: Bytes): Bytes {
    if s == [] then [] else UndoByte(s[0]) + Undo(s[1..])
  }

  lemma {:induction false} UndoConcat(a: Bytes, b: Bytes)
    ensures Undo(a + b) == Undo(a) + Undo(b)
  {
    if a == [] {
      assert a + b == b;
    } else {
      assert (a + b)[1..] == a[1..] + b;
      UndoConcat(a[1..], b);
    }
  }

  lemma UndoSnoc(a: Bytes, c: Byte)
    ensures Undo(a + [c]) == Undo(a) + UndoByte(c)
  {
    UndoConcat(a, [c]);
    assert [c][1..] == [];
  }

  lemma UndoAround(a: Bytes, open: Byte, inner: Bytes, close: Byte)
    ensures Undo(a + [open] + inner + [close]) == Undo(a) + UndoByte(open) + Undo(inner) + UndoByte(close)
  {
    UndoSnoc(a + [open] + inner, close);
    UndoConcat(a + [open], inner);
    UndoSnoc(a, open);
  }

  lemma UndoClosePair(u: Bytes, inner: Bytes)
    ensures Undo(ClosePair(u, inner)) == Undo(u) + [OPEN] + Undo(inner) + [CLOSE]
  {
    if EndsWithPrefix(u) {
      var v := u[..|u| - 1];
      assert u == v + [PREFIX];
      UndoSnoc(v, PREFIX);
      UndoAround(v, JSONPATH_OPEN, inner, JSONPATH_CLOSE);
      assert Undo(v) + [PREFIX, OPEN] == Undo(v) + [PREFIX] + [OPEN];
    } else {
      UndoAround(u, OPEN, inner, CLOSE);
    }
  }

  lemma UndoClose(segs: Segments)
    requires |segs| > 1
    ensures Undo(Join(Step(segs, CLOSE))) == Undo(Join(segs)) + [CLOSE]
  {
    ClosingText(segs);
    var n := |segs| - 1;
    var b, u, inner := Before(segs[..n - 1]), segs[n - 1], segs[n];
    UndoConcat(b, ClosePair(u, inner));
    UndoClosePair(u, inner);
    UndoConcat(b + u + [OPEN], inner);
    UndoSnoc(b + u, OPEN);
    UndoConcat(b, u);
    PlainText(Undo(b), Undo(u), Undo(inner));
  }

  lemma UndoStep(segs: Segments, c: Byte)
    ensures Undo(Join(Step(segs, c))) == Undo(Join(segs)) + UndoByte(c)
  {
    if c == CLOSE && |segs| > 1 {
      UndoClose(segs);
    } else {
      if c == OPEN { StackAfterOpen(segs, Places(segs)); } else { StackAfterOther(segs, Places(segs), c); }
      UndoSnoc(Join(segs), c);
    }
  }

  function Places(segs: Segments): (stack: seq<nat>)
    ensures StackPoints(stack, segs)
  {
    seq(|segs| - 1, j requires 0 <= j < |segs| - 1 => |Join(segs[..j + 1])|)
  }

  /** Writing braces back as brackets gives what writing the original's own braces back gives. */
  lemma {:induction false} UndoConverted(s: Bytes)
    ensures Undo(Converted(s)) == Undo(s)
  {
    if s != [] {
      var n := |s| - 1;
      UndoConverted(s[..n]);
      UndoStep(Run(s[..n]), s[n]);
      UndoSnoc(s[..n], s[n]);
      assert s == s[..n] + [s[n]];
    }
  }

  predicate BraceFree(s: Bytes) {
    JSONPATH_OPEN !in s && JSONPATH_CLOSE !in s
  }

  lemma {:induction false} UndoBraceFree(s: Bytes)
    ensures |Undo(s)| >= |s|
    ensures Undo(s) == s <==> BraceFree(s)
  {
    if s != [] {
      UndoBraceFree(s[1..]);
      assert s == [s[0]] + s[1..];
      if s[0] == JSONPATH_OPEN {
        assert |Undo(s)| > |s|;
      } else if s[0] == JSONPATH_CLOSE {
        assert Undo(s)[0] == CLOSE;
      }
    }
  }

  /** So the original comes back exactly when it had no braces of its own, and no two such texts are rewritten
      alike. */
  lemma RoundTrip(s: Bytes)
    ensures Undo(Converted(s)) == s <==> BraceFree(s)
  {
    UndoConverted(s);
    UndoBraceFree(s);
  }

  lemma Injective(s: Bytes, t: Bytes)
    requires BraceFree(s) && BraceFree(t) && Converted(s) == Converted(t)
    ensures s == t
  {
    RoundTrip(s);
    RoundTrip(t);
  }

  // ---- doing it twice ----

  function RunFrom(segs: Segments, s: Bytes): Segments
    decreases |s|
  {
    if s == [] then segs else Step(RunFrom(segs, s[..|s| - 1]), s[|s| - 1])
  }

  lemma {:induction false} RunFromConcat(segs: Segments, a: Bytes, b: Bytes)
    ensures RunFrom(segs, a + b) == RunFrom(RunFrom(segs, a), b)
    decreases |b|
  {
    if b == [] {
      assert a + b == a;
    } else {
      var n := |b| - 1;
      assert (a + b)[..|a + b| - 1] == a + b[..n];
      RunFromConcat(segs, a, b[..n]);
    }
  }

  lemma {:induction false} RunIsRunFrom(s: Bytes)
    ensures Run(s) == RunFrom([[]], s)
  {
    if s != [] { RunIsRunFrom(s[..|s| - 1]); }
  }

  /** A text that is already converted: read after anything but the prefix, it is appended as it is. */
  ghost predicate Inert(t: Bytes) {
    forall front: seq<Bytes>, x: Bytes :: !EndsWithPrefix(x) ==> RunFrom(front + [x], t) == front + [x + t]
  }

  lemma RunFromSnoc(start: Segments, t: Bytes, c: Byte)
    ensures RunFrom(start, t + [c]) == Step(RunFrom(start, t), c)
  {
    assert (t + [c])[..|t + [c]| - 1] == t;
  }

  lemma StepOther(front: seq<Bytes>, x: Bytes, c: Byte)
    requires c != OPEN && c != CLOSE
    ensures Step(front + [x], c) == front + [x + [c]]
  {
    assert (front + [x])[..|front|] == front;
  }

  lemma StepClose(front: seq<Bytes>, u: Bytes, inner: Bytes)
    ensures Step(front + [u] + [inner], CLOSE) == front + [ClosePair(u, inner)]
  {
    var segs := front + [u] + [inner];
    assert segs[..|segs| - 2] == front;
  }

  /** A pair already closed is read like the text it follows: converted if that text ended in the prefix, plain if
      not. */
  lemma ClosedPairIsRead(start: Segments, p: Bytes, front: seq<Bytes>, y: Bytes, inner: Bytes)
    requires RunFrom(start, p) == front + [y] && EndsWithPrefix(p) == EndsWithPrefix(y) && Inert(inner)
    ensures RunFrom(start, ClosePair(p, inner)) == front + [ClosePair(y, inner)]
  {
    if EndsWithPrefix(p) {
      BracesAreRead(start, p[..|p| - 1], p, front, y[..|y| - 1], y, inner);
    } else {
      BracketsAreRead(start, p, front, y, inner);
    }
  }

  lemma BracesAreRead(start: Segments, q: Bytes, p: Bytes, front: seq<Bytes>, z: Bytes, y: Bytes, inner: Bytes)
    requires RunFrom(start, p) == front + [y] && p == q + [PREFIX] && y == z + [PREFIX] && Inert(inner)
    ensures RunFrom(start, q + [JSONPATH_OPEN] + inner + [JSONPATH_CLOSE])
            == front + [z + [JSONPATH_OPEN] + inner + [JSONPATH_CLOSE]]
  {
    RunFromSnoc(start, q, PREFIX);
    LastDropped(RunFrom(start, q), front, z);
    RunFromSnoc(start, q, JSONPATH_OPEN);
    StepOther(front, z, JSONPATH_OPEN);
    RunFromConcat(start, q + [JSONPATH_OPEN], inner);
    InertAfter(front, z + [JSONPATH_OPEN], inner);
    RunFromSnoc(start, q + [JSONPATH_OPEN] + inner, JSONPATH_CLOSE);
    StepOther(front, z + [JSONPATH_OPEN] + inner, JSONPATH_CLOSE);
  }

  lemma BracketsAreRead(start: Segments, p: Bytes, front: seq<Bytes>, y: Bytes, inner: Bytes)
    requires RunFrom(start, p) == front + [y] && Inert(inner)
    ensures RunFrom(start, p + [OPEN] + inner + [CLOSE]) == front + [ClosePair(y, inner)]
  {
    RunFromSnoc(start, p, OPEN);
    RunFromConcat(start, p + [OPEN], inner);
    InertAfter(front + [y], [], inner);
    assert [] + inner == inner;
    RunFromSnoc(start, p + [OPEN] + inner, CLOSE);
    StepClose(front, y, inner);
  }

  lemma InertAfter(front: seq<Bytes>, x: Bytes, inner: Bytes)
    requires Inert(inner) && !EndsWithPrefix(x)
    ensures RunFrom(front + [x], inner) == front + [x + inner]
  {
  }

  lemma LastDropped(was: Segments, front: seq<Bytes>, z: Bytes)
    requires Step(was, PREFIX) == front + [z + [PREFIX]]
    ensures was == front + [z]
  {
    var n := |was| - 1;
    assert was == was[..n] + [was[n]];
    StepOther(was[..n], was[n], PREFIX);
    assert (was[..n] + [was[n] + [PREFIX]])[n] == (front + [z + [PREFIX]])[n];
    assert (was[n] + [PREFIX])[..|was[n]|] == (z + [PREFIX])[..|z|];
    assert was[..n] == (front + [z + [PREFIX]])[..n] == front;
  }

  lemma InertSnoc(u: Bytes, c: Byte)
    requires Inert(u) && c != OPEN && c != CLOSE
    ensures Inert(u + [c])
  {
    forall front: seq<Bytes>, x: Bytes | !EndsWithPrefix(x)
      ensures RunFrom(front + [x], u + [c]) == front + [x + (u + [c])]
    {
      assert RunFrom(front + [x], u) == front + [x + u];
      RunFromSnoc(front + [x], u, c);
      StepOther(front, x + u, c);
      assert x + u + [c] == x + (u + [c]);
    }
  }

  lemma InertClosePair(u: Bytes, inner: Bytes)
    requires Inert(u) && Inert(inner)
    ensures Inert(ClosePair(u, inner))
  {
    forall front: seq<Bytes>, x: Bytes | !EndsWithPrefix(x)
      ensures RunFrom(front + [x], ClosePair(u, inner)) == front + [x + ClosePair(u, inner)]
    {
      assert RunFrom(front + [x], u) == front + [x + u];
      assert EndsWithPrefix(x + u) == EndsWithPrefix(u);
      ClosedPairIsRead(front + [x], u, front, x + u, inner);
      ClosePairAfter(x, u, inner);
    }
  }

  lemma ClosePairAfter(x: Bytes, u: Bytes, inner: Bytes)
    requires EndsWithPrefix(x + u) == EndsWithPrefix(u)
    ensures ClosePair(x + u, inner) == x + ClosePair(u, inner)
  {
    if EndsWithPrefix(u) { ConvertedText(x, u, inner); } else { PlainText(x, u, inner); }
  }

  /** Reading the converted text again stops at the same segments. */
  ghost predicate Rereads(segs: Segments) {
    RunFrom([[]], Join(segs)) == segs
  }

  ghost predicate Stable(segs: Segments) {
    && (forall m :: 1 <= m <= |segs| ==> Rereads(segs[..m]))
    && (forall j :: 1 <= j < |segs| ==> Inert(segs[j]))
  }

  lemma CloseStable(segs: Segments)
    requires Stable(segs) && |segs| > 1
    ensures Rereads(Step(segs, CLOSE)) && (|segs| > 2 ==> Inert(ClosePair(segs[|segs| - 2], segs[|segs| - 1])))
  {
    var n := |segs| - 1;
    var front, u, inner := segs[..n - 1], segs[n - 1], segs[n];
    ClosingText(segs);
    assert segs[..n] == front + [u] && Rereads(segs[..n]);
    ClosedPairIsRead([[]], Before(front) + u, front, u, inner);
    ClosePairAfter(Before(front), u, inner);
    if n > 1 { InertClosePair(u, inner); }
  }

  lemma OtherStable(segs: Segments, c: Byte)
    requires Stable(segs) && (c == CLOSE ==> |segs| == 1)
    ensures Rereads(Step(segs, c))
  {
    assert segs[..|segs|] == segs;
    if c == OPEN { StackAfterOpen(segs, Places(segs)); } else { StackAfterOther(segs, Places(segs), c); }
    RunFromSnoc([[]], Join(segs), c);
  }

  lemma EmptyInert()
    ensures Inert([])
  {
    forall front: seq<Bytes>, x: Bytes ensures RunFrom(front + [x], []) == front + [x + []] {
      assert x + [] == x;
    }
  }

  lemma RereadsFront(segs: Segments, k: nat, u: Bytes, after: Segments, m: nat)
    requires Stable(segs) && k <= |segs| && after == segs[..k] + [u] && 1 <= m <= k
    ensures Rereads(after[..m])
  {
    assert after[..m] == segs[..m];
  }

  lemma StableFrom(segs: Segments, k: nat, u: Bytes, after: Segments)
    requires Stable(segs) && k <= |segs| && after == segs[..k] + [u] && Rereads(after) && (k > 0 ==> Inert(u))
    ensures Stable(after)
  {
    assert after[..k + 1] == after;
    forall m | 1 <= m <= |after| ensures Rereads(after[..m]) {
      if m <= k { RereadsFront(segs, k, u, after, m); }
    }
    forall j | 1 <= j < |after| ensures Inert(after[j]) {
      if j < k { assert after[j] == segs[j]; }
    }
  }

  lemma StepStable(segs: Segments, c: Byte)
    requires Stable(segs)
    ensures Stable(Step(segs, c))
  {
    var n, after := |segs| - 1, Step(segs, c);
    if c == CLOSE && n > 0 {
      CloseStable(segs);
      StableFrom(segs, n - 1, ClosePair(segs[n - 1], segs[n]), after);
    } else {
      OtherStable(segs, c);
      if c == OPEN {
        EmptyInert();
        assert segs[..n + 1] == segs;
        StableFrom(segs, n + 1, [], after);
      } else {
        if n > 0 { InertSnoc(segs[n], c); }
        StableFrom(segs, n, segs[n] + [c], after);
      }
    }
  }

  lemma {:induction false} RunStable(s: Bytes)
    ensures Stable(Run(s))
  {
    if s == [] {
      assert Run(s)[..1] == [[]];
    } else {
      RunStable(s[..|s| - 1]);
      StepStable(Run(s[..|s| - 1]), s[|s| - 1]);
    }
  }

  /** Rewriting what has been rewritten changes nothing, for every text. */
  lemma Idempotent(s: Bytes)
    ensures Converted(Converted(s)) == Converted(s)
  {
    RunStable(s);
    var segs := Run(s);
    assert segs[..|segs|] == segs && Rereads(segs);
    RunIsRunFrom(Converted(s));
  }

  // ---- one pair around a text ----

  /** Every bracket of the text has its partner in it. */
  ghost predicate Balanced(t: Bytes) {
    NeverNegative(t, 0, |t|) && Depth(t, 0, |t|) == 0
  }

  lemma StepAbove(front: seq<Bytes>, segs: Segments, c: Byte)
    requires c == CLOSE ==> |segs| > 1
    ensures Step(front + segs, c) == front + Step(segs, c)
  {
    var n := |segs| - 1;
    assert (front + segs)[..|front| + n] == front + segs[..n];
    if c == CLOSE { assert (front + segs)[..|front| + n - 1] == front + segs[..n - 1]; }
  }

  lemma DepthShows(u: Bytes, c: Byte, t: Bytes)
    requires t == u + [c] && NeverNegative(t, 0, |t|)
    ensures NeverNegative(u, 0, |u|) && Depth(t, 0, |t|) == Depth(u, 0, |u|) + Delta(c) >= 0
  {
    assert t[..|u|] == u;
    forall e: nat | e <= |u| ensures Sound(u, 0, e) {
      assert Sound(t, 0, e);
      DepthPrefix(u, t, 0, e);
    }
    DepthPrefix(u, t, 0, |u|);
    assert Sound(t, 0, |t|);
  }

  /** A text that closes nothing but its own brackets is read the same after any segments. */
  lemma {:induction false} RunAbove(front: seq<Bytes>, t: Bytes)
    requires NeverNegative(t, 0, |t|)
    ensures RunFrom(front + [[]], t) == front + Run(t) && |Run(t)| == 1 + Depth(t, 0, |t|)
    decreases |t|
  {
    if t != [] {
      var n := |t| - 1;
      var u, c := t[..n], t[n];
      assert t == u + [c];
      DepthShows(u, c, t);
      RunAbove(front, u);
      RunFromSnoc(front + [[]], u, c);
      StepAbove(front, Run(u), c);
    }
  }

  lemma OneSegment(t: Bytes)
    requires Balanced(t)
    ensures Run(t) == [Converted(t)]
  {
    RunAbove([], t);
  }

  /** Reading "(", t, ")" after the text x. */
  lemma PairAfter(x: Bytes, t: Bytes)
    requires Balanced(t)
    ensures RunFrom([x], [40] + t + [41]) == [ClosePair(x, Converted(t))]
  {
    RunFromConcat([x], [40] + t, [41]);
    RunFromConcat([x], [40], t);
    assert RunFrom([x], [40]) == Step([x], 40) == [x] + [[]] by { assert [40] == [] + [40]; RunFromSnoc([x], [], 40); }
    RunAbove([x], t);
    OneSegment(t);
    RunFromSnoc([x] + [Converted(t)], [], 41);
    assert [41] == [] + [41];
    StepClose([], x, Converted(t));
    assert [] + [x] + [Converted(t)] == [x] + [Converted(t)];
  }

  lemma BarePair(t: Bytes, text: Bytes)
    requires Balanced(t) && text == [40] + t + [41]
    ensures Converted(text) == [40] + Converted(t) + [41]
  {
    PairAfter([], t);
    RunIsRunFrom(text);
    BareText(Converted(t));
  }

  lemma BareText(inner: Bytes)
    ensures ClosePair([], inner) == [40] + inner + [41]
  {
    assert [] + [40] == [40];
  }

  lemma PrefixedRun(pair: Bytes, text: Bytes, after: Segments)
    requires text == [36] + pair && RunFrom([[36]], pair) == after
    ensures Run(text) == after
  {
    RunIsRunFrom(text);
    PrefixRead();
    RunFromConcat([[]], [36], pair);
  }

  lemma PrefixedPair(t: Bytes, pair: Bytes, text: Bytes)
    requires Balanced(t) && pair == [40] + t + [41] && text == [36] + pair
    ensures Converted(text) == [123] + Converted(t) + [125]
  {
    PairAfter([36], t);
    PrefixedRun(pair, text, [ClosePair([36], Converted(t))]);
    BracedText(Converted(t));
  }

  lemma PrefixRead()
    ensures RunFrom([[]], [36]) == [[36]]
  {
    RunFromSnoc([[]], [], 36);
    StepOther([], [], 36);
    assert [] + [36] == [36];
  }

  lemma BracedText(inner: Bytes)
    ensures ClosePair([36], inner) == [123] + inner + [125]
  {
    assert [36][..0] + [123] == [123];
  }

  /** "$(" t ")" becomes "{" t' "}", and "(" t ")" becomes "(" t' ")", where t' is the rewriting of t. */
  lemma PairConverts(t: Bytes)
    requires Balanced(t)
    ensures Converted([36, 40] + t + [41]) == [123] + Converted(t) + [125]
    ensures Converted([40] + t + [41]) == [40] + Converted(t) + [41]
  {
    BarePair(t, [40] + t + [41]);
    PrefixedPair(t, [40] + t + [41], [36, 40] + t + [41]);
  }

  /** A text without brackets stays. */
  lemma {:induction false} BracketFreeStays(t: Bytes)
    requires 40 !in t && 41 !in t
    ensures Run(t) == [t] && Converted(t) == t
  {
    if t != [] {
      var n := |t| - 1;
      BracketFreeStays(t[..n]);
      StepOther([], t[..n], t[n]);
      assert t == t[..n] + [t[n]];
    }
  }
}
