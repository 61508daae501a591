/** Rewriting the template syntax $( ) to the jsonpath syntax { }. */
module JsonPath {
  import opened Kube
  import opened Sequences

  const PREFIX: Byte := 36         // $
  const OPEN: Byte := 40           // (
  const CLOSE: Byte := 41          // )
  const JSONPATH_OPEN: Byte := 123   // {
  const JSONPATH_CLOSE: Byte := 125  // }

  // ---- reading from left to right: the text between the brackets that are still open ----

  /** The converted text so far, cut at each open bracket that has not met its closing one. */
  type Segments = segs: seq<Bytes> | segs != [] witness [[]]

  predicate EndsWithPrefix(u: Bytes) {
    u != [] && u[|u| - 1] == PREFIX
  }

  /** The segment before a bracket pair, the pair, and the text inside it. */
  function ClosePair(u: Bytes, inner: Bytes): Bytes {
    if EndsWithPrefix(u) then u[..|u| - 1] + [JSONPATH_OPEN] + inner + [JSONPATH_CLOSE]
    else u + [OPEN] + inner + [CLOSE]
  }

  function Step(segs: Segments, c: Byte): Segments {
    var n := |segs| - 1;
    if c == OPEN then segs + [[]]
    else if c == CLOSE && n > 0 then segs[..n - 1] + [ClosePair(segs[n - 1], segs[n])]
    else segs[..n] + [segs[n] + [c]]
  }

  function Run(s: Bytes): Segments {
    if s == [] then [[]] else Step(Run(s[..|s| - 1]), s[|s| - 1])
  }

  function Join(segs: Segments): Bytes {
    var n := |segs| - 1;
    if n == 0 then segs[0] else Join(segs[..n]) + [OPEN] + segs[n]
  }

  function Converted(s: Bytes): Bytes {
    Join(Run(s))
  }

  lemma JoinLast(front: seq<Bytes>, u: Bytes, x: Bytes)
    ensures Join(front + [u + x]) == Join(front + [u]) + x
  {
    if front != [] {
      assert (front + [u + x])[..|front|] == front && (front + [u])[..|front|] == front;
    }
  }

  /** Joined text up to the last segment. */
  function Before(front: seq<Bytes>): Bytes {
    if front == [] then [] else Join(front) + [OPEN]
  }

  lemma JoinSplit(front: seq<Bytes>, u: Bytes)
    ensures Join(front + [u]) == Before(front) + u
  {
    if front != [] { assert (front + [u])[..|front|] == front; }
  }

  // ---- the loop ----

  /** The substring `was` at `i` replaced by `now`; the first branch would cut the text off. */
  function Replace(s: Bytes, i: nat, was: Bytes, now: Bytes): Bytes
    requires i <= |s|
  {
    if i + |was| > |s| then s[..i] + now else s[..i] + now + s[i + |was|..]
  }

  function Peek(stack: seq<nat>): int {
    if stack == [] then -1 else stack[|stack| - 1]
  }

  function Pop(stack: seq<nat>): seq<nat> {
    if Peek(stack) == -1 then stack else stack[..|stack| - 1]
  }

  /** The stack holds the places of the open brackets in the text as it is now. */
  ghost predicate StackPoints(stack: seq<nat>, segs: Segments) {
    |stack| == |segs| - 1 && forall j :: 0 <= j < |stack| ==> stack[j] == |Join(segs[..j + 1])|
  }

  /** A replacement of what is there, well inside the text. */
  lemma ReplaceMiddle(a: Bytes, was: Bytes, now: Bytes, b: Bytes)
    ensures Replace(a + was + b, |a|, was, now) == a + now + b
  {
    var s := a + was + b;
    assert s[..|a|] == a && s[|a| + |was|..] == b;
  }

  /** The two replacements for a pair after the text a and the prefix. */
  lemma ReplacePair(a: Bytes, inner: Bytes, rest: Bytes, path: Bytes, at: nat, i: nat, text: Bytes)
    requires path == a + [PREFIX, OPEN] + inner + [CLOSE] + rest && at == |a| && i == |a| + 1 + |inner|
    requires text == a + [JSONPATH_OPEN] + inner + [JSONPATH_CLOSE]
    ensures
      var once := Replace(path, at, [PREFIX, OPEN], [JSONPATH_OPEN]);
      && |once| == |path| - 1
      && Replace(once, i, [CLOSE], [JSONPATH_CLOSE]) == text + rest
  {
    Reassociate(a + [PREFIX, OPEN], inner + [CLOSE], rest);
    Reassociate(a + [PREFIX, OPEN], inner, [CLOSE]);
    Reassociate(a + [JSONPATH_OPEN], inner + [CLOSE], rest);
    Reassociate(a + [JSONPATH_OPEN], inner, [CLOSE]);
    ReplaceMiddle(a, [PREFIX, OPEN], [JSONPATH_OPEN], inner + [CLOSE] + rest);
    ReplaceMiddle(a + [JSONPATH_OPEN] + inner, [CLOSE], [JSONPATH_CLOSE], rest);
  }

  /** The text around a pair that is about to close. */
  lemma ClosingText(segs: Segments)
    requires |segs| > 1
    ensures
      var n := |segs| - 1;
      var b := Before(segs[..n - 1]);
      && Join(segs[..n]) == b + segs[n - 1]
      && Join(segs) == b + segs[n - 1] + [OPEN] + segs[n]
      && Join(Step(segs, CLOSE)) == b + ClosePair(segs[n - 1], segs[n])
      && (b != [] ==> b[|b| - 1] == OPEN)
  {
    var n := |segs| - 1;
    assert segs[..n] == segs[..n - 1] + [segs[n - 1]];
    JoinSplit(segs[..n - 1], segs[n - 1]);
    JoinSplit(segs[..n - 1], ClosePair(segs[n - 1], segs[n]));
  }

  /** Whether the open bracket of the closing pair follows the prefix shows in the text. */
  lemma PrefixShows(segs: Segments, stack: seq<nat>, rest: Bytes)
    requires StackPoints(stack, segs) && stack != []
    ensures
      var path, d := Join(segs) + [CLOSE] + rest, Peek(stack);
      && 0 <= d < |Join(segs)|
      && (EndsWithPrefix(segs[|segs| - 2]) <==> d > 0 && path[d - 1] == PREFIX)
  {
    var n := |segs| - 1;
    ClosingText(segs);
    var bu := Before(segs[..n - 1]) + segs[n - 1];
    assert stack[n - 1] == |bu|;
    assert |bu| > 0 ==> (Join(segs) + [CLOSE] + rest)[|bu| - 1] == bu[|bu| - 1];
  }

  lemma PlainText(b: Bytes, u: Bytes, inner: Bytes)
    ensures b + u + [OPEN] + inner + [CLOSE] == b + (u + [OPEN] + inner + [CLOSE])
  {
  }

  lemma ConvertedText(b: Bytes, u: Bytes, inner: Bytes)
    requires EndsWithPrefix(u)
    ensures EndsWithPrefix(b + u)
    ensures (b + u)[..|b + u| - 1] + [JSONPATH_OPEN] + inner + [JSONPATH_CLOSE] == b + ClosePair(u, inner)
  {
    assert (b + u)[..|b + u| - 1] == b + u[..|u| - 1];
  }

  lemma ClosingPlain(segs: Segments, rest: Bytes)
    requires |segs| > 1 && !EndsWithPrefix(segs[|segs| - 2])
    ensures Join(segs) + [CLOSE] + rest == Join(Step(segs, CLOSE)) + rest
    ensures |Join(Step(segs, CLOSE))| == |Join(segs)| + 1
  {
    ClosingText(segs);
    var n := |segs| - 1;
    PlainText(Before(segs[..n - 1]), segs[n - 1], segs[n]);
  }

  lemma PrefixedText(v: Bytes, a: Bytes, inner: Bytes)
    requires EndsWithPrefix(v) && a == v[..|v| - 1]
    ensures v + [OPEN] + inner == a + [PREFIX, OPEN] + inner && |v| == |a| + 1
  {
    assert v == a + [PREFIX];
    assert v + [OPEN] == a + [PREFIX, OPEN];
  }

  lemma ClosingConverted(segs: Segments, rest: Bytes, path: Bytes, d: nat, i: nat, text: Bytes)
    requires |segs| > 1 && EndsWithPrefix(segs[|segs| - 2]) && path == Join(segs) + [CLOSE] + rest
    requires d == |Join(segs[..|segs| - 1])| && i == |Join(segs)| && text == Join(Step(segs, CLOSE))
    ensures
      && 0 < d < i == |text|
      && var once := Replace(path, d - 1, [PREFIX, OPEN], [JSONPATH_OPEN]);
      && |once| == |path| - 1
      && Replace(once, i - 1, [CLOSE], [JSONPATH_CLOSE]) == text + rest
  {
    ClosingText(segs);
    var n := |segs| - 1;
    var u, inner, b := segs[n - 1], segs[n], Before(segs[..n - 1]);
    ConvertedText(b, u, inner);
    RewrittenPair(b + u, inner, rest, path, d, i, text);
  }

  lemma RewrittenPair(v: Bytes, inner: Bytes, rest: Bytes, path: Bytes, d: nat, i: nat, text: Bytes)
    requires EndsWithPrefix(v) && path == v + [OPEN] + inner + [CLOSE] + rest && d == |v| && i == |v + [OPEN] + inner|
    requires text == v[..|v| - 1] + [JSONPATH_OPEN] + inner + [JSONPATH_CLOSE]
    ensures
      && 0 < d < i == |text|
      && var once := Replace(path, d - 1, [PREFIX, OPEN], [JSONPATH_OPEN]);
      && |once| == |path| - 1
      && Replace(once, i - 1, [CLOSE], [JSONPATH_CLOSE]) == text + rest
  {
    PrefixedText(v, v[..|v| - 1], inner);
    ReplacePair(v[..|v| - 1], inner, rest, path, d - 1, i - 1, text);
  }

  lemma StackAfterClose(segs: Segments, stack: seq<nat>)
    requires StackPoints(stack, segs) && stack != []
    ensures StackPoints(Pop(stack), Step(segs, CLOSE))
  {
    var after := Step(segs, CLOSE);
    forall j | 0 <= j < |stack| - 1 ensures stack[j] == |Join(after[..j + 1])| {
      assert after[..j + 1] == segs[..j + 1];
    }
  }

  lemma StackAfterOpen(segs: Segments, stack: seq<nat>)
    requires StackPoints(stack, segs)
    ensures StackPoints(stack + [|Join(segs)|], Step(segs, OPEN))
    ensures Join(Step(segs, OPEN)) == Join(segs) + [OPEN]
  {
    var after, now := Step(segs, OPEN), stack + [|Join(segs)|];
    assert after[..|segs|] == segs;
    forall j | 0 <= j < |now| ensures now[j] == |Join(after[..j + 1])| { assert after[..j + 1] == segs[..j + 1]; }
  }

  lemma StackAfterOther(segs: Segments, stack: seq<nat>, c: Byte)
    requires StackPoints(stack, segs) && c != OPEN && (c == CLOSE ==> stack == [])
    ensures StackPoints(stack, Step(segs, c))
    ensures Join(Step(segs, c)) == Join(segs) + [c]
  {
    var n, after := |segs| - 1, Step(segs, c);
    assert segs == segs[..n] + [segs[n]];
    JoinLast(segs[..n], segs[n], [c]);
    forall j | 0 <= j < n ensures stack[j] == |Join(after[..j + 1])| { assert after[..j + 1] == segs[..j + 1]; }
  }

  lemma RunExtends(p: Bytes, n: nat)
    requires n < |p|
    ensures Run(p[..n + 1]) == Step(Run(p[..n]), p[n])
  {
    assert p[..n + 1][..n] == p[..n];
  }

  lemma NextByte(path: Bytes, text: Bytes, rest: Bytes)
    requires path == text + rest && rest != []
    ensures path[|text|] == rest[0] && path == text + [rest[0]] + rest[1..]
  {
  }

  /** The closing-bracket case of the loop. The index steps back when a pair is rewritten, and both replacements hit
      what they name. */
  method CloseBracket(path: Bytes, at: nat, openPositions: seq<nat>, ghost segs: Segments, ghost tail: Bytes)
    returns (newPath: Bytes, i: int)
    requires path == Join(segs) + [CLOSE] + tail && at == |Join(segs)| && StackPoints(openPositions, segs)
    ensures newPath == Join(Step(segs, CLOSE)) + tail && i + 1 == |Join(Step(segs, CLOSE))|
  {
    newPath, i := path, at;
    var d := Peek(openPositions);
    if openPositions == [] {
      StackAfterOther(segs, openPositions, CLOSE);
    } else {
      PrefixShows(segs, openPositions, tail);
      if EndsWithPrefix(segs[|segs| - 2]) {
        ClosingConverted(segs, tail, path, d, at, Join(Step(segs, CLOSE)));
      } else {
        ClosingPlain(segs, tail);
      }
    }
    if d > 0 && newPath[d - 1] == PREFIX {
      assert d - 1 + 2 <= |newPath|;
      newPath := Replace(newPath, d - 1, [PREFIX, OPEN], [JSONPATH_OPEN]);
      i := i - 1;  // a character is gone
      assert i + 1 <= |newPath|;
      newPath := Replace(newPath, i, [CLOSE], [JSONPATH_CLOSE]);
    }
  }

  /** The loop over the shrinking text, with its stack of places in that text. */
  method ToK8sJSONPath(p: Bytes) returns (newPath: Bytes)
    ensures newPath == Converted(p)
  {
    newPath := p;
    var openPositions: seq<nat> := [];
    var i := 0;
    ghost var n, segs: Segments, rest := 0, [[]], p;
    while i < |newPath|
      invariant 0 <= n <= |p| && rest == p[n..] && segs == Run(p[..n]) && StackPoints(openPositions, segs)
      invariant newPath == Join(segs) + rest && i == |Join(segs)|
      decreases |newPath| - i
    {
      var c := newPath[i];
      ghost var tail := rest[1..];
      NextByte(newPath, Join(segs), rest);
      RunExtends(p, n);
      if c == OPEN {
        StackAfterOpen(segs, openPositions);
        openPositions := openPositions + [i];
      } else if c == CLOSE {
        newPath, i := CloseBracket(newPath, i, openPositions, segs, tail);
        if openPositions == [] {
          StackAfterOther(segs, openPositions, c);
        } else {
          StackAfterClose(segs, openPositions);
        }
        openPositions := Pop(openPositions);
      } else {
        StackAfterOther(segs, openPositions, c);
      }
      segs, n, rest := Step(segs, c), n + 1, tail;
      i := i + 1;
    }
    assert p[..n] == p;
  }
}
