/** The rewriting described on the original text: which bracket pairs match, and what each character becomes. */
module JsonPathMatching {
  import opened Kube
  import opened Sequences
  import opened JsonPath

  function Delta(c: Byte): int {
    if c == OPEN then 1 else if c == CLOSE then -1 else 0
  }

  /** Opening less closing brackets in s[a..b]. */
  function Depth(s: Bytes, a: nat, b: nat): int
    requires a <= b <= |s|
    decreases b - a
  {
    if a == b then 0 else Depth(s, a, b - 1) + Delta(s[b - 1])
  }

  predicate Sound(s: Bytes, a: nat, e: nat) {
    a <= e <= |s| ==> Depth(s, a, e) >= 0
  }

  /** No prefix of s[a..b] closes a bracket it has not opened. */
  ghost predicate NeverNegative(s: Bytes, a: nat, b: nat) {
    forall e: nat :: e <= b ==> Sound(s, a, e)
  }

  /** The brackets at `o` and `c` are a pair: the text between them is balanced. */
  ghost predicate Match(s: Bytes, o: int, c: int) {
    && 0 <= o < c < |s| && s[o] == OPEN && s[c] == CLOSE
    && NeverNegative(s, o + 1, c) && Depth(s, o + 1, c) == 0
  }

  /** A pair whose opening bracket follows the prefix. */
  ghost predicate Prefixed(s: Bytes, o: int, c: int) {
    Match(s, o, c) && o > 0 && s[o - 1] == PREFIX
  }

  ghost predicate Closes(s: Bytes, o: int) {
    exists c :: Prefixed(s, o, c)
  }

  /** What the character at `q` becomes: of each prefixed pair the prefix turns into an opening brace, the opening
      bracket goes, and the closing bracket turns into a closing brace; everything else stays. */
  ghost function Piece(s: Bytes, q: nat): Bytes
    requires q < |s|
  {
    if s[q] == PREFIX && Closes(s, q + 1) then [JSONPATH_OPEN]
    else if s[q] == OPEN && Closes(s, q) then []
    else if s[q] == CLOSE && exists o :: Prefixed(s, o, q) then [JSONPATH_CLOSE]
    else [s[q]]
  }

  ghost function Pieces(s: Bytes, a: nat, b: nat): Bytes
    requires a <= b <= |s|
    decreases b - a
  {
    if a == b then [] else Pieces(s, a, b - 1) + Piece(s, b - 1)
  }

  // ---- depths ----

  lemma {:induction false} DepthSplit(s: Bytes, a: nat, m: nat, b: nat)
    requires a <= m <= b <= |s|
    ensures Depth(s, a, b) == Depth(s, a, m) + Depth(s, m, b)
    decreases b - m
  {
    if m < b { DepthSplit(s, a, m, b - 1); }
  }

  lemma {:induction false} DepthPrefix(s: Bytes, t: Bytes, a: nat, b: nat)
    requires a <= b <= |s| <= |t| && t[..|s|] == s
    ensures Depth(s, a, b) == Depth(t, a, b)
    decreases b - a
  {
    if a < b {
      DepthPrefix(s, t, a, b - 1);
      assert s[b - 1] == t[b - 1];
    }
  }

  // ---- the pending brackets ----

  /** An opening bracket that has not met its closing one. */
  ghost predicate Pending(s: Bytes, o: nat) {
    o < |s| && s[o] == OPEN && NeverNegative(s, o + 1, |s|)
  }

  /** The places of the pending brackets, as the loop's stack would hold them in the original text. */
  function Opens(s: Bytes): seq<nat> {
    if s == [] then [] else StepOpens(Opens(s[..|s| - 1]), s[|s| - 1], |s| - 1)
  }

  function StepOpens(op: seq<nat>, c: Byte, at: nat): seq<nat> {
    if c == OPEN then op + [at] else if c == CLOSE && op != [] then op[..|op| - 1] else op
  }

  /** Where the j-th segment starts and ends in the original. */
  function Start(op: seq<nat>, j: nat): nat
    requires j <= |op|
  {
    if j == 0 then 0 else op[j - 1] + 1
  }

  function End(s: Bytes, op: seq<nat>, j: nat): nat
    requires j <= |op|
  {
    if j == |op| then |s| else op[j]
  }

  ghost predicate BalancedAt(s: Bytes, op: seq<nat>, j: int) {
    0 <= j <= |op| && Start(op, j) <= End(s, op, j) <= |s| && Depth(s, Start(op, j), End(s, op, j)) == 0
  }

  /** The stack is the ordered list of pending brackets, and the text between two of them is balanced. */
  ghost predicate Tracks(s: Bytes, op: seq<nat>) {
    && (forall j :: 0 <= j < |op| ==> Pending(s, op[j]))
    && (forall j, k :: 0 <= j < k < |op| ==> op[j] < op[k])
    && (forall q: nat :: Pending(s, q) ==> q in op)
    && (forall j :: 1 <= j <= |op| ==> BalancedAt(s, op, j))
  }

  lemma PendingExtends(s: Bytes, c: Byte, o: nat)
    requires o < |s|
    ensures Pending(s + [c], o) <==> Pending(s, o) && Depth(s, o + 1, |s|) + Delta(c) >= 0
  {
    var t, a := s + [c], o + 1;
    assert t[..|s|] == s;
    forall e: nat | e <= |s| ensures Sound(t, a, e) == Sound(s, a, e) {
      if a <= e { DepthPrefix(s, t, a, e); }
    }
    DepthPrefix(s, t, o + 1, |s|);
    assert Depth(t, o + 1, |t|) == Depth(t, o + 1, |s|) + Delta(c);
    assert Sound(t, o + 1, |t|) <==> Depth(s, o + 1, |s|) + Delta(c) >= 0;
  }

  /** Below the innermost pending bracket the depth since any other pending one is positive; since it, zero. */
  lemma DepthSincePending(s: Bytes, op: seq<nat>, j: nat)
    requires Tracks(s, op) && j < |op|
    ensures Depth(s, op[j] + 1, |s|) >= 0
    ensures Depth(s, op[j] + 1, |s|) == 0 <==> j == |op| - 1
  {
    assert Pending(s, op[j]) && Sound(s, op[j] + 1, |s|);
    if j < |op| - 1 {
      var k := op[j + 1];
      assert BalancedAt(s, op, j + 1) && Pending(s, k);
      DepthSplit(s, op[j] + 1, k, |s|);
      DepthSplit(s, k, k + 1, |s|);
      assert Sound(s, k + 1, |s|);
      assert Depth(s, k, k + 1) == 1;
    } else {
      assert BalancedAt(s, op, |op|);
    }
  }

  lemma BalancedExtends(s: Bytes, op: seq<nat>, c: Byte, j: nat, from: nat, to: nat)
    requires BalancedAt(s, op, j) && 1 <= j <= |op| && from == Start(op, j) && to == End(s, op, j)
    ensures from <= to <= |s| && Depth(s + [c], from, to) == 0
  {
    assert (s + [c])[..|s|] == s;
    DepthPrefix(s, s + [c], from, to);
  }

  lemma TracksPush(s: Bytes, op: seq<nat>, t: Bytes)
    requires Tracks(s, op) && t == s + [OPEN]
    ensures Tracks(t, op + [|s|])
  {
    var now := op + [|s|];
    forall q: nat | q < |s| ensures Pending(t, q) <==> Pending(s, q) {
      PendingExtends(s, OPEN, q);
      if Pending(s, q) { assert Sound(s, q + 1, |s|); }
    }
    assert Depth(t, |t|, |t|) == 0;
    assert Pending(t, |s|);
    forall j | 1 <= j <= |now| ensures BalancedAt(t, now, j) {
      if j <= |op| {
        assert BalancedAt(s, op, j);
        BalancedExtends(s, op, OPEN, j, Start(op, j), End(s, op, j));
      }
    }
  }

  lemma TracksOther(s: Bytes, op: seq<nat>, c: Byte, t: Bytes)
    requires Tracks(s, op) && c != OPEN && (c == CLOSE ==> op == []) && t == s + [c]
    ensures Tracks(t, op)
  {
    forall q: nat | q < |s| ensures Pending(t, q) <==> Pending(s, q) {
      PendingExtends(s, c, q);
      if Pending(s, q) { assert Sound(s, q + 1, |s|); }
    }
    forall j | 1 <= j <= |op| ensures BalancedAt(t, op, j) {
      assert BalancedAt(s, op, j);
      BalancedExtends(s, op, c, j, Start(op, j), End(s, op, j));
    }
  }

  /** Once its inner pair is closed, the text since the next pending bracket is balanced. */
  lemma BalancedAfterClose(s: Bytes, op: seq<nat>, t: Bytes, m: nat, o: nat, from: nat, n: nat)
    requires Tracks(s, op) && |op| == m + 1 && m > 0 && o == op[m] && from == Start(op, m)
    requires t == s + [CLOSE] && n == |s|
    ensures from <= n && Depth(t, from, n + 1) == 0
  {
    assert BalancedAt(s, op, m) && Pending(s, o);
    BalancedExtends(s, op, CLOSE, m, from, o);
    DepthSincePending(s, op, m);
    assert t[..n] == s;
    DepthPrefix(s, t, o + 1, n);
    DepthSplit(t, from, o, n);
    DepthSplit(t, o, o + 1, n);
    assert Depth(t, o, o + 1) == 1;
  }

  lemma PendingAfterClose(s: Bytes, op: seq<nat>, t: Bytes, q: nat)
    requires Tracks(s, op) && op != [] && t == s + [CLOSE] && q < |s|
    ensures Pending(t, q) <==> q in op[..|op| - 1]
  {
    PendingExtends(s, CLOSE, q);
    assert q in op ==> Pending(s, q);
    if Pending(s, q) {
      var j :| 0 <= j < |op| && op[j] == q;
      DepthSincePending(s, op, j);
      if j < |op| - 1 { assert op[..|op| - 1][j] == q; }
    }
  }

  lemma TracksPop(s: Bytes, op: seq<nat>, t: Bytes)
    requires Tracks(s, op) && op != [] && t == s + [CLOSE]
    ensures Tracks(t, op[..|op| - 1])
  {
    var m, now := |op| - 1, op[..|op| - 1];
    forall q: nat | q < |s| ensures Pending(t, q) <==> q in now { PendingAfterClose(s, op, t, q); }
    forall j | 0 <= j < |now| ensures Pending(t, now[j]) { assert Pending(s, op[j]); }
    forall j | 1 <= j <= m ensures BalancedAt(t, now, j) {
      assert BalancedAt(s, op, j) && Start(now, j) == Start(op, j);
      if j < m {
        BalancedExtends(s, op, CLOSE, j, Start(op, j), End(s, op, j));
      } else {
        BalancedAfterClose(s, op, t, m, op[m], Start(op, m), |s|);
      }
    }
  }

  /** Reading one more character. */
  lemma TracksStep(s: Bytes, op: seq<nat>, c: Byte, t: Bytes)
    requires Tracks(s, op) && t == s + [c]
    ensures Tracks(t, StepOpens(op, c, |s|))
  {
    if c == OPEN { TracksPush(s, op, t); }
    else if c == CLOSE && op != [] { TracksPop(s, op, t); }
    else { TracksOther(s, op, c, t); }
  }

  lemma {:induction false} OpensTracks(s: Bytes)
    ensures Tracks(s, Opens(s))
  {
    if s != [] {
      var was, c := s[..|s| - 1], s[|s| - 1];
      OpensTracks(was);
      TracksStep(was, Opens(was), c, s);
    }
  }

  // ---- pieces ----

  lemma {:induction false} PiecesSplit(s: Bytes, a: nat, m: nat, b: nat)
    requires a <= m <= b <= |s|
    ensures Pieces(s, a, b) == Pieces(s, a, m) + Pieces(s, m, b)
    decreases b - m
  {
    if m < b {
      PiecesSplit(s, a, m, b - 1);
      Reassociate(Pieces(s, a, m), Pieces(s, m, b - 1), Piece(s, b - 1));
    } else {
      assert Pieces(s, m, m) == [];
    }
  }

  lemma MatchPrefix(s: Bytes, c: Byte, o: int, cl: int)
    requires cl < |s|
    ensures Match(s + [c], o, cl) <==> Match(s, o, cl)
  {
    var t := s + [c];
    assert t[..|s|] == s;
    if 0 <= o < cl {
      var a: nat := o + 1;
      forall e: nat | e <= cl ensures Sound(t, a, e) == Sound(s, a, e) {
        if a <= e { DepthPrefix(s, t, a, e); }
      }
      DepthPrefix(s, t, a, cl);
    }
  }

  lemma PendingIsUnmatched(s: Bytes, o: nat, cl: int)
    requires Pending(s, o)
    ensures !Match(s, o, cl)
  {
    if Match(s, o, cl) {
      assert Sound(s, o + 1, cl + 1);
      assert Depth(s, o + 1, cl + 1) == Depth(s, o + 1, cl) + Delta(s[cl]);
    }
  }

  /** A closing bracket matches the innermost pending one, if there is one. */
  lemma NewMatch(s: Bytes, op: seq<nat>, o: int)
    requires Tracks(s, op)
    ensures Match(s + [CLOSE], o, |s|) <==> op != [] && o == op[|op| - 1]
  {
    var t := s + [CLOSE];
    assert t[..|s|] == s;
    if 0 <= o < |s| && s[o] == OPEN {
      var a: nat := o + 1;
      forall e: nat | e <= |s| ensures Sound(t, a, e) == Sound(s, a, e) {
        if a <= e { DepthPrefix(s, t, a, e); }
      }
      DepthPrefix(s, t, a, |s|);
      assert Match(t, o, |s|) <==> Pending(s, o) && Depth(s, a, |s|) == 0;
      if Pending(s, o) {
        var j :| 0 <= j < |op| && op[j] == o;
        DepthSincePending(s, op, j);
      }
    }
    if op != [] {
      assert Pending(s, op[|op| - 1]);
    }
  }

  /** The open bracket that a new last character closes together with its prefix. */
  ghost predicate NewlyConverted(s: Bytes, op: seq<nat>, c: Byte, o: int) {
    c == CLOSE && op != [] && o == op[|op| - 1] && 0 < o <= |s| && s[o - 1] == PREFIX
  }

  lemma ClosesExtends(s: Bytes, op: seq<nat>, c: Byte, o: int)
    requires Tracks(s, op)
    ensures Closes(s + [c], o) <==> Closes(s, o) || NewlyConverted(s, op, c, o)
  {
    var t := s + [c];
    if c == CLOSE { NewMatch(s, op, o); }
    if op != [] { assert Pending(s, op[|op| - 1]); }
    if Closes(s, o) {
      var cl :| Prefixed(s, o, cl);
      MatchPrefix(s, c, o, cl);
      assert Prefixed(t, o, cl);
    }
    if NewlyConverted(s, op, c, o) {
      assert Prefixed(t, o, |s|);
    }
    if Closes(t, o) {
      var cl :| Prefixed(t, o, cl);
      if cl < |s| {
        MatchPrefix(s, c, o, cl);
        assert Prefixed(s, o, cl);
      }
    }
  }

  lemma PieceExtends(s: Bytes, op: seq<nat>, c: Byte, q: nat)
    requires Tracks(s, op) && q < |s|
    requires !NewlyConverted(s, op, c, q) && !NewlyConverted(s, op, c, q + 1)
    ensures Piece(s + [c], q) == Piece(s, q)
  {
    var t := s + [c];
    ClosesExtends(s, op, c, q);
    ClosesExtends(s, op, c, q + 1);
    forall o ensures Prefixed(t, o, q) <==> Prefixed(s, o, q) { MatchPrefix(s, c, o, q); }
  }

  /** The new last character completes a prefixed pair. */
  ghost predicate Converts(s: Bytes, op: seq<nat>, c: Byte) {
    op != [] && NewlyConverted(s, op, c, op[|op| - 1])
  }

  lemma NewPiece(s: Bytes, op: seq<nat>, c: Byte)
    requires Tracks(s, op)
    ensures Piece(s + [c], |s|) ==
            if Converts(s, op, c) then [JSONPATH_CLOSE] else [c]
  {
    var t := s + [c];
    forall o ensures Prefixed(t, o, |s|) <==> NewlyConverted(s, op, c, o) {
      if c == CLOSE { NewMatch(s, op, o); }
      if op != [] { assert Pending(s, op[|op| - 1]); }
    }
  }

  /** Pieces away from a newly completed pair are as they were. */
  lemma {:induction false} KeptPieces(s: Bytes, op: seq<nat>, c: Byte, t: Bytes, a: nat, b: nat)
    requires Tracks(s, op) && a <= b <= |s| && t == s + [c]
    requires forall o :: NewlyConverted(s, op, c, o) ==> b < o || o < a
    ensures Pieces(t, a, b) == Pieces(s, a, b)
    decreases b - a
  {
    if a < b {
      KeptPieces(s, op, c, t, a, b - 1);
      PieceExtends(s, op, c, b - 1);
      assert Piece(t, b - 1) == Piece(s, b - 1);
      assert Pieces(t, a, b) == Pieces(t, a, b - 1) + Piece(t, b - 1);
    }
  }

  lemma PendingPiece(s: Bytes, o: nat)
    requires Pending(s, o)
    ensures !Closes(s, o) && Piece(s, o) == [OPEN]
  {
    forall cl ensures !Prefixed(s, o, cl) { PendingIsUnmatched(s, o, cl); }
  }

  // ---- the segments are the pieces between the pending brackets ----

  ghost predicate SegmentAt(s: Bytes, segs: Segments, op: seq<nat>, j: int) {
    && 0 <= j <= |op| && j < |segs|
    && Start(op, j) <= End(s, op, j) <= |s| && segs[j] == Pieces(s, Start(op, j), End(s, op, j))
  }

  ghost predicate Cut(s: Bytes, segs: Segments, op: seq<nat>) {
    |segs| == |op| + 1 && forall j :: 0 <= j <= |op| ==> SegmentAt(s, segs, op, j)
  }

  lemma KeptSegment(s: Bytes, segs: Segments, op: seq<nat>, c: Byte, j: nat, t: Bytes, from: nat, to: nat)
    requires Tracks(s, op) && j <= |op| && SegmentAt(s, segs, op, j) && t == s + [c]
    requires from == Start(op, j) && to == End(s, op, j)
    requires Converts(s, op, c) ==> j < |op| - 1
    ensures from <= to <= |s| && segs[j] == Pieces(t, from, to)
  {
    if Converts(s, op, c) { assert op[j] < op[|op| - 1]; }
    KeptPieces(s, op, c, t, from, to);
  }

  lemma CutOpen(s: Bytes, segs: Segments, op: seq<nat>, t: Bytes)
    requires Tracks(s, op) && Cut(s, segs, op) && t == s + [OPEN]
    ensures Cut(t, Step(segs, OPEN), op + [|s|])
  {
    var now, after := op + [|s|], Step(segs, OPEN);
    forall j | 0 <= j <= |now| ensures SegmentAt(t, after, now, j) {
      if j <= |op| {
        assert SegmentAt(s, segs, op, j);
        KeptSegment(s, segs, op, OPEN, j, t, Start(op, j), End(s, op, j));
      }
    }
  }

  lemma LastSegment(s: Bytes, segs: Segments, op: seq<nat>, c: Byte, t: Bytes, from: nat, n: nat)
    requires Tracks(s, op) && c != OPEN && (c == CLOSE ==> op == []) && t == s + [c]
    requires from == Start(op, |op|) && n == |s| && SegmentAt(s, segs, op, |op|)
    ensures from <= n && segs[|op|] + [c] == Pieces(t, from, n + 1)
  {
    KeptSegment(s, segs, op, c, |op|, t, from, n);
    NewPiece(s, op, c);
  }

  lemma CutOther(s: Bytes, segs: Segments, op: seq<nat>, c: Byte, t: Bytes)
    requires Tracks(s, op) && Cut(s, segs, op) && c != OPEN && (c == CLOSE ==> op == []) && t == s + [c]
    ensures Cut(t, Step(segs, c), op)
  {
    var after := Step(segs, c);
    forall j | 0 <= j <= |op| ensures SegmentAt(t, after, op, j) {
      assert SegmentAt(s, segs, op, j);
      if j < |op| {
        KeptSegment(s, segs, op, c, j, t, Start(op, j), End(s, op, j));
      } else {
        LastSegment(s, segs, op, c, t, Start(op, j), |s|);
      }
    }
  }

  lemma OutsidePendingUnmatched(s: Bytes, o: nat, cl: int)
    requires Pending(s, o) && o > 0
    ensures !Match(s, o - 1, cl)
  {
    assert Depth(s, o, o + 1) == 1;
    if o < cl <= |s| {
      DepthSplit(s, o, o + 1, cl);
      assert Sound(s, o + 1, cl);
    }
  }

  /** The segment before a pending bracket ends in the prefix exactly when the original does there. */
  lemma PrefixOfSegment(s: Bytes, segs: Segments, op: seq<nat>, m: nat, o: nat, from: nat)
    requires Tracks(s, op) && SegmentAt(s, segs, op, m) && m < |op| && o == op[m] && from == Start(op, m)
    ensures from <= o < |s|
    ensures o > 0 && s[o - 1] == PREFIX ==> from < o && Piece(s, o - 1) == [PREFIX]
    ensures EndsWithPrefix(segs[m]) <==> o > 0 && s[o - 1] == PREFIX
  {
    assert Pending(s, o);
    assert m > 0 ==> Pending(s, op[m - 1]);
    PendingPiece(s, o);
    if from < o && s[o - 1] == OPEN {
      var before: int := o - 1;
      forall cl ensures !Prefixed(s, before, cl) { OutsidePendingUnmatched(s, o, cl); }
    }
  }

  lemma SegmentAfterClose(s: Bytes, segs: Segments, op: seq<nat>, t: Bytes, now: seq<nat>, m: nat, j: nat,
                          from: nat, to: nat)
    requires Tracks(s, op) && SegmentAt(s, segs, op, j) && t == s + [CLOSE]
    requires |op| == m + 1 && now == op[..m] && j < m && from == Start(op, j) && to == End(s, op, j)
    ensures from == Start(now, j) && to == End(t, now, j) && from <= to <= |s| && segs[j] == Pieces(t, from, to)
  {
    KeptSegment(s, segs, op, CLOSE, j, t, from, to);
  }

  lemma ClosedSegmentAt(s: Bytes, segs: Segments, op: seq<nat>, t: Bytes, now: seq<nat>, m: nat, after: Segments,
                        from: nat)
    requires Tracks(s, op) && SegmentAt(s, segs, op, m) && SegmentAt(s, segs, op, m + 1) && t == s + [CLOSE]
    requires |op| == m + 1 && now == op[..m] && |segs| == m + 2 && after == Step(segs, CLOSE) && from == Start(op, m)
    ensures from == Start(now, m) && SegmentAt(t, after, now, m)
  {
    ClosedSegment(s, segs, op, t, m, op[m], from, |s|, segs[m], segs[m + 1]);
  }

  lemma CutClose(s: Bytes, segs: Segments, op: seq<nat>, t: Bytes, now: seq<nat>, m: nat)
    requires Tracks(s, op) && Cut(s, segs, op) && t == s + [CLOSE] && |op| == m + 1 && now == op[..m]
    ensures Cut(t, Step(segs, CLOSE), now)
  {
    var after := Step(segs, CLOSE);
    assert SegmentAt(s, segs, op, m) && SegmentAt(s, segs, op, m + 1);
    ClosedSegmentAt(s, segs, op, t, now, m, after, Start(op, m));
    forall j: int | 0 <= j < m ensures SegmentAt(t, after, now, j) {
      assert SegmentAt(s, segs, op, j);
      SegmentAfterClose(s, segs, op, t, now, m, j, Start(op, j), End(s, op, j));
    }
  }

  lemma OuterPieces(s: Bytes, segs: Segments, op: seq<nat>, t: Bytes, m: nat, o: nat, from: nat, u: Bytes)
    requires Tracks(s, op) && SegmentAt(s, segs, op, m) && t == s + [CLOSE]
    requires |op| == m + 1 && o == op[m] && from == Start(op, m) && u == segs[m]
    ensures from <= o < |s| && EndsWithPrefix(u) == Converts(s, op, CLOSE)
    ensures Pieces(t, from, o) == if EndsWithPrefix(u) then u[..|u| - 1] + [JSONPATH_OPEN] else u
  {
    PrefixOfSegment(s, segs, op, m, o, from);
    if EndsWithPrefix(u) {
      PrefixedPieces(s, op, t, o, from, o - 1, u, Pieces(s, from, o - 1));
    } else {
      KeptPieces(s, op, CLOSE, t, from, o);
    }
  }

  lemma PrefixedPieces(s: Bytes, op: seq<nat>, t: Bytes, o: nat, from: nat, p: nat, u: Bytes, v: Bytes)
    requires Tracks(s, op) && t == s + [CLOSE] && NewlyConverted(s, op, CLOSE, o) && from <= p == o - 1 && o < |s|
    requires Pieces(s, from, o) == u && Pieces(s, from, p) == v && Piece(s, p) == [PREFIX]
    ensures u == v + [PREFIX] && u[..|u| - 1] == v && Pieces(t, from, o) == v + [JSONPATH_OPEN]
  {
    KeptPieces(s, op, CLOSE, t, from, p);
    ClosesExtends(s, op, CLOSE, o);
    assert t[p] == PREFIX && Piece(t, p) == [JSONPATH_OPEN];
  }

  lemma PartsOfPair(s: Bytes, segs: Segments, op: seq<nat>, t: Bytes, m: nat, o: nat, n: nat, inner: Bytes)
    requires Tracks(s, op) && SegmentAt(s, segs, op, m + 1) && t == s + [CLOSE]
    requires |op| == m + 1 && o == op[m] && n == |s| && inner == segs[m + 1]
    ensures o < n && Piece(t, o) == if Converts(s, op, CLOSE) then [] else [OPEN]
    ensures Pieces(t, o + 1, n) == inner
    ensures Piece(t, n) == if Converts(s, op, CLOSE) then [JSONPATH_CLOSE] else [CLOSE]
  {
    assert Pending(s, o);
    PendingPiece(s, o);
    ClosesExtends(s, op, CLOSE, o);
    NewPiece(s, op, CLOSE);
    KeptPieces(s, op, CLOSE, t, o + 1, n);
  }

  lemma Assembled(u: Bytes, inner: Bytes, t: Bytes, from: nat, o: nat, n: nat)
    requires from <= o < n && |t| == n + 1
    requires Pieces(t, from, o) == if EndsWithPrefix(u) then u[..|u| - 1] + [JSONPATH_OPEN] else u
    requires Piece(t, o) == if EndsWithPrefix(u) then [] else [OPEN]
    requires Pieces(t, o + 1, n) == inner
    requires Piece(t, n) == if EndsWithPrefix(u) then [JSONPATH_CLOSE] else [CLOSE]
    ensures Pieces(t, from, n + 1) == ClosePair(u, inner)
  {
    PiecesSplit(t, from, o + 1, n);
    assert Pieces(t, from, n + 1) == Pieces(t, from, o) + Piece(t, o) + inner + Piece(t, n);
    assert Pieces(t, from, o) + [] == Pieces(t, from, o);
  }

  /** The merged segment. */
  lemma ClosedSegment(s: Bytes, segs: Segments, op: seq<nat>, t: Bytes, m: nat, o: nat, from: nat, n: nat,
                      u: Bytes, inner: Bytes)
    requires Tracks(s, op) && SegmentAt(s, segs, op, m) && SegmentAt(s, segs, op, m + 1) && t == s + [CLOSE]
    requires |op| == m + 1 && o == op[m] && from == Start(op, m) && n == |s| && u == segs[m] && inner == segs[m + 1]
    ensures from <= n && ClosePair(u, inner) == Pieces(t, from, n + 1)
  {
    OuterPieces(s, segs, op, t, m, o, from, u);
    PartsOfPair(s, segs, op, t, m, o, n, inner);
    Assembled(u, inner, t, from, o, n);
  }

  lemma {:induction false} RunIsCut(s: Bytes)
    ensures Cut(s, Run(s), Opens(s))
  {
    if s == [] {
      assert SegmentAt(s, Run(s), Opens(s), 0);
    } else {
      var was, c := s[..|s| - 1], s[|s| - 1];
      RunIsCut(was);
      OpensTracks(was);
      assert s == was + [c];
      if c == OPEN { CutOpen(was, Run(was), Opens(was), s); }
      else if c == CLOSE && Opens(was) != [] { CutClose(was, Run(was), Opens(was), s, Opens(s), |Opens(was)| - 1); }
      else { CutOther(was, Run(was), Opens(was), c, s); }
    }
  }

  lemma JoinNext(segs: Segments, j: nat)
    requires 0 < j < |segs|
    ensures Join(segs[..j + 1]) == Join(segs[..j]) + [OPEN] + segs[j]
  {
    assert segs[..j + 1][..j] == segs[..j];
  }

  lemma PiecesAround(s: Bytes, o: nat, b: nat)
    requires Pending(s, o) && o < b <= |s|
    ensures Pieces(s, 0, b) == Pieces(s, 0, o) + [OPEN] + Pieces(s, o + 1, b)
  {
    PendingPiece(s, o);
    PiecesSplit(s, 0, o + 1, b);
  }

  lemma {:induction false} JoinCut(s: Bytes, segs: Segments, op: seq<nat>, j: nat)
    requires Tracks(s, op) && Cut(s, segs, op) && j <= |op|
    ensures Join(segs[..j + 1]) == Pieces(s, 0, End(s, op, j))
    decreases j
  {
    assert SegmentAt(s, segs, op, j);
    if j > 0 {
      JoinCut(s, segs, op, j - 1);
      JoinNext(segs, j);
      JoinedPieces(s, segs, op, j, op[j - 1], End(s, op, j));
    } else {
      assert segs[..1] == [segs[0]];
    }
  }

  lemma JoinedPieces(s: Bytes, segs: Segments, op: seq<nat>, j: nat, o: nat, to: nat)
    requires Tracks(s, op) && SegmentAt(s, segs, op, j) && 0 < j && o == op[j - 1] && to == End(s, op, j)
    ensures o < to <= |s| && Pieces(s, 0, to) == Pieces(s, 0, o) + [OPEN] + segs[j]
  {
    assert Pending(s, o);
    PiecesAround(s, o, to);
  }

  /** The rewriting, character by character of the original. */
  lemma ConvertedIsPieces(s: Bytes)
    ensures Converted(s) == Pieces(s, 0, |s|)
  {
    RunIsCut(s);
    OpensTracks(s);
    var segs := Run(s);
    assert segs[..|segs|] == segs;
    JoinCut(s, segs, Opens(s), |Opens(s)|);
  }
}
