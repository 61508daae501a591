/** Expansion of $(name) references in a string of bytes. */
module Expansion {
  import opened Kube
  import opened Sequences
  import Quoting

  const OPERATOR: Byte := 36
  const OPENER: Byte := 40
  const CLOSER: Byte := 41

  type Mapping = Bytes -> Bytes

  /** Go's string(b) of a byte: the UTF-8 form of the rune of that number, two bytes from 128 on. */
  function RuneString(b: Byte): Bytes {
    if b < 128 then [b] else [192 + b / 64, 128 + b % 64]
  }

  /** It decodes to the byte it was made of. */
  lemma RuneStringIsUtf8(b: Byte)
    ensures Quoting.Encodes(RuneString(b)) && Quoting.Rune(RuneString(b)) == b
    ensures Quoting.Width(RuneString(b)) == |RuneString(b)|
  {
  }

  function Variable(input: Bytes): Bytes {
    [OPERATOR, OPENER] + input + [CLOSER]
  }

  function Resolve(contexts: seq<map<Bytes, Bytes>>, name: Bytes): Bytes {
    if contexts == [] then Variable(name)
    else if name in contexts[0] then contexts[0][name]
    else Resolve(contexts[1..], name)
  }

  function MappingFuncFor(contexts: seq<map<Bytes, Bytes>>): Mapping {
    name => Resolve(contexts, name)
  }

  /** The first closer at or after `i`, or the length. */
  function FindCloser(s: Bytes, i: nat): (j: nat)
    requires i <= |s|
    ensures i <= j <= |s| && CLOSER !in s[i..j] && (j < |s| ==> s[j] == CLOSER)
    decreases |s| - i
  {
    if i == |s| || s[i] == CLOSER then i else FindCloser(s, i + 1)
  }

  /** What follows an operator: the bytes read, whether they name a variable, and how many bytes were consumed. */
  function TryReadVariableName(input: Bytes): (Bytes, bool, nat)
    requires input != []
  {
    if input[0] == OPERATOR then (input[0..1], false, 1)
    else if input[0] == OPENER then
      var i := FindCloser(input, 1);
      if i < |input| then (input[1..i], true, i + 1) else ([OPERATOR, OPENER], false, 1)
    else ([OPERATOR] + RuneString(input[0]), false, 1)
  }

  // ---- the grammar ----

  datatype Token = Literal(b: Byte) | Escaped | Reference(name: Bytes) | Unterminated | Bare(b: Byte)

  function Source(t: Token): Bytes {
    match t
    case Literal(b) => [b]
    case Escaped => [OPERATOR, OPERATOR]
    case Reference(name) => Variable(name)
    case Unterminated => [OPERATOR, OPENER]
    case Bare(b) => [OPERATOR, b]
  }

  function Sources(ts: seq<Token>): Bytes {
    if ts == [] then [] else Source(ts[0]) + Sources(ts[1..])
  }

  function RenderOne(t: Token, mapping: Mapping): Bytes {
    match t
    case Literal(b) => [b]
    case Escaped => [OPERATOR]
    case Reference(name) => mapping(name)
    case Unterminated => [OPERATOR, OPENER]
    case Bare(b) => [OPERATOR] + RuneString(b)
  }

  function Render(ts: seq<Token>, mapping: Mapping): Bytes {
    if ts == [] then [] else RenderOne(ts[0], mapping) + Render(ts[1..], mapping)
  }

  /** The token lists that are a reading of their own source: a lone operator only at the end, no closer inside a
      name or after an unterminated reference. */
  predicate WellFormed(ts: seq<Token>) {
    ts == [] ||
    (&& WellFormed(ts[1..])
     && match ts[0]
        case Literal(b) => b == OPERATOR ==> |ts| == 1
        case Escaped => true
        case Reference(name) => CLOSER !in name
        case Unterminated => CLOSER !in Sources(ts[1..])
        case Bare(b) => b != OPERATOR && b != OPENER)
  }

  function Tokenize(s: Bytes): seq<Token> {
    if s == [] then []
    else if s[0] != OPERATOR || |s| == 1 then [Literal(s[0])] + Tokenize(s[1..])
    else if s[1] == OPERATOR then [Escaped] + Tokenize(s[2..])
    else if s[1] == OPENER then
      var i := FindCloser(s, 2);
      if i < |s| then [Reference(s[2..i])] + Tokenize(s[i + 1..]) else [Unterminated] + Tokenize(s[2..])
    else [Bare(s[1])] + Tokenize(s[2..])
  }

  /** A token may stand before a text. */
  predicate Fits(t: Token, rest: Bytes) {
    match t
    case Literal(b) => b == OPERATOR ==> rest == []
    case Escaped => true
    case Reference(name) => CLOSER !in name
    case Unterminated => CLOSER !in rest
    case Bare(b) => b != OPERATOR && b != OPENER
  }

  lemma SourcesCons(t: Token, ts: seq<Token>)
    ensures Sources([t] + ts) == Source(t) + Sources(ts)
  {
    assert ([t] + ts)[1..] == ts;
  }

  lemma CloserAfterName(name: Bytes, rest: Bytes)
    requires CLOSER !in name
    ensures FindCloser(Variable(name) + rest, 2) == 2 + |name|
  {
    var s := Variable(name) + rest;
    var i := FindCloser(s, 2);
    assert s[2 + |name|] == CLOSER && s[2..2 + |name|] == name;
    assert forall j :: 2 <= j < 2 + |name| ==> s[j] == name[j - 2];
    assert forall j :: 2 <= j < i ==> s[j] in s[2..i];
  }

  /** Reading starts with any token that fits. */
  lemma ReadsFirst(t: Token, rest: Bytes)
    requires Fits(t, rest)
    ensures Tokenize(Source(t) + rest) == [t] + Tokenize(rest)
  {
    var s := Source(t) + rest;
    match t
    case Literal(b) => assert s[1..] == rest;
    case Reference(name) =>
      CloserAfterName(name, rest);
      assert s[2..2 + |name|] == name && s[3 + |name|..] == rest;
    case Unterminated =>
      assert s[2..] == rest;
      assert forall j :: 2 <= j < |s| ==> s[j] in rest;
    case _ => assert s[2..] == rest;
  }

  /** Every text starts with some token that fits. */
  lemma HasFirst(s: Bytes) returns (t: Token, rest: Bytes)
    requires s != []
    ensures s == Source(t) + rest && Fits(t, rest)
  {
    if s[0] != OPERATOR || |s| == 1 {
      t, rest := Literal(s[0]), s[1..];
    } else if s[1] == OPERATOR {
      t, rest := Escaped, s[2..];
    } else if s[1] == OPENER {
      var i := FindCloser(s, 2);
      if i < |s| {
        t, rest := Reference(s[2..i]), s[i + 1..];
      } else {
        t, rest := Unterminated, s[2..];
        assert rest == s[2..i];
      }
    } else {
      t, rest := Bare(s[1]), s[2..];
    }
  }

  /** Reading loses nothing. */
  lemma {:induction false} TokenizeIsLossless(s: Bytes)
    ensures Sources(Tokenize(s)) == s && WellFormed(Tokenize(s))
    decreases |s|
  {
    if s != [] {
      var t, rest := HasFirst(s);
      ReadsFirst(t, rest);
      TokenizeIsLossless(rest);
      SourcesCons(t, Tokenize(rest));
      assert ([t] + Tokenize(rest))[1..] == Tokenize(rest);
    }
  }

  /** And a well-formed token list is the only reading of its source. */
  lemma {:induction false} TokenizeIsUnique(ts: seq<Token>)
    requires WellFormed(ts)
    ensures Tokenize(Sources(ts)) == ts
    decreases |ts|
  {
    if ts != [] {
      TokenizeIsUnique(ts[1..]);
      ReadsFirst(ts[0], Sources(ts[1..]));
      assert ts == [ts[0]] + ts[1..];
    }
  }

  lemma RendersFirst(t: Token, rest: Bytes, mapping: Mapping)
    requires Fits(t, rest)
    ensures Render(Tokenize(Source(t) + rest), mapping) == RenderOne(t, mapping) + Render(Tokenize(rest), mapping)
  {
    ReadsFirst(t, rest);
    assert ([t] + Tokenize(rest))[1..] == Tokenize(rest);
  }

  // ---- the scanner ----

  lemma {:induction false} SameCloser(s: Bytes, i: nat)
    requires 1 <= i <= |s|
    ensures FindCloser(s[1..], i - 1) == FindCloser(s, i) - 1
    decreases |s| - i
  {
    if i < |s| && s[i] != CLOSER { SameCloser(s, i + 1); }
  }

  /** What is read after the operator of a reference. */
  lemma ReadsReference(name: Bytes, rest: Bytes, s: Bytes)
    requires CLOSER !in name && s == Variable(name) + rest
    ensures TryReadVariableName(s[1..]) == (name, true, |name| + 2)
  {
    CloserAfterName(name, rest);
    SameCloser(s, 2);
    assert s[1..][1..|name| + 1] == name;
  }

  lemma ReadsUnterminated(rest: Bytes, s: Bytes)
    requires CLOSER !in rest && s == [OPERATOR, OPENER] + rest
    ensures TryReadVariableName(s[1..]) == ([OPERATOR, OPENER], false, 1)
  {
    SameCloser(s, 2);
    assert s[2..] == rest;
    assert forall j :: 2 <= j < |s| ==> s[j] in rest;
  }

  /** What the scanner writes for the text after an operator, and how many bytes it consumes of it. */
  predicate Reads(rest: Bytes, mapping: Mapping, out: Bytes, advance: nat)
    requires rest != []
  {
    var (read, isVar, n) := TryReadVariableName(rest);
    advance == n && out == if isVar then mapping(read) else read
  }

  /** What the scanner reads after an operator is the rendering of one token, and it consumes that token's source. */
  lemma ReadsToken(t: Token, left: Bytes, s: Bytes, mapping: Mapping)
    requires Fits(t, left) && s == Source(t) + left && |s| > 1 && s[0] == OPERATOR
    ensures Reads(s[1..], mapping, RenderOne(t, mapping), |Source(t)| - 1)
  {
    match t
    case Reference(name) => ReadsReference(name, left, s);
    case Unterminated => ReadsUnterminated(left, s);
    case _ =>
  }

  /** One step of the scanner at an operator that is not the last byte. */
  lemma ReadIsOneToken(s: Bytes, rest: Bytes, mapping: Mapping, out: Bytes, advance: nat)
    requires |s| > 1 && s[0] == OPERATOR && rest == s[1..] && Reads(rest, mapping, out, advance)
    ensures 1 <= advance < |s|
    ensures Render(Tokenize(s), mapping) == out + Render(Tokenize(s[advance + 1..]), mapping)
  {
    var t, left := HasFirst(s);
    ReadsToken(t, left, s, mapping);
    RendersFirst(t, left, mapping);
    SameReading(rest, mapping, out, advance, RenderOne(t, mapping), |Source(t)| - 1);
    assert s[|Source(t)|..] == left;
  }

  lemma SameReading(rest: Bytes, mapping: Mapping, out: Bytes, n: nat, out': Bytes, n': nat)
    requires rest != [] && Reads(rest, mapping, out, n) && Reads(rest, mapping, out', n')
    ensures out == out' && n == n'
  {
  }

  /** And one at any other byte. */
  lemma LiteralIsOneToken(s: Bytes, mapping: Mapping)
    requires s != [] && (s[0] != OPERATOR || |s| == 1)
    ensures Render(Tokenize(s), mapping) == [s[0]] + Render(Tokenize(s[1..]), mapping)
  {
  }

  /** The bytes written so far and the reading of what is left make up the whole result. */
  predicate Amounts(done: Bytes, rest: Bytes, total: Bytes, mapping: Mapping) {
    done + Render(Tokenize(rest), mapping) == total
  }

  lemma StepAmounts(done: Bytes, rest: Bytes, out: Bytes, rest': Bytes, total: Bytes, mapping: Mapping)
    requires Amounts(done, rest, total, mapping)
    requires Render(Tokenize(rest), mapping) == out + Render(Tokenize(rest'), mapping)
    ensures Amounts(done + out, rest', total, mapping)
  {
    Reassociate(done, out, Render(Tokenize(rest'), mapping));
  }

  lemma Suffix(input: Bytes, from: nat, k: nat, to: nat)
    requires to == from + k <= |input|
    ensures input[from..][k..] == input[to..]
  {
  }

  predicate Splits(input: Bytes, buf: Bytes, checkpoint: nat, cursor: nat, done: Bytes, rest: Bytes) {
    checkpoint <= cursor <= |input| && done == buf + input[checkpoint..cursor] && rest == input[cursor..]
  }

  /** The state of the scan: what is in the buffer and after the checkpoint stands for the text before the cursor. */
  ghost predicate Scanned(input: Bytes, total: Bytes, mapping: Mapping, buf: Bytes, checkpoint: nat, cursor: nat) {
    && checkpoint <= cursor <= |input|
    && forall done, rest :: Splits(input, buf, checkpoint, cursor, done, rest) ==> Amounts(done, rest, total, mapping)
  }

  lemma OperatorAmounts(was: Bytes, s: Bytes, rest: Bytes, total: Bytes, mapping: Mapping, out: Bytes, advance: nat)
    requires Amounts(was, s, total, mapping) && |s| > 1 && s[0] == OPERATOR
    requires rest == s[1..] && Reads(rest, mapping, out, advance)
    ensures advance < |s| && Amounts(was + out, s[advance + 1..], total, mapping)
  {
    ReadIsOneToken(s, rest, mapping, out, advance);
    StepAmounts(was, s, out, s[advance + 1..], total, mapping);
  }

  lemma ScanIsAt(input: Bytes, total: Bytes, mapping: Mapping, buf: Bytes, checkpoint: nat, cursor: nat)
    requires Scanned(input, total, mapping, buf, checkpoint, cursor)
    ensures Amounts(buf + input[checkpoint..cursor], input[cursor..], total, mapping)
  {
    assert Splits(input, buf, checkpoint, cursor, buf + input[checkpoint..cursor], input[cursor..]);
  }

  lemma OperatorStep(input: Bytes, total: Bytes, mapping: Mapping, buf: Bytes, checkpoint: nat, cursor: nat,
                     rest: Bytes, out: Bytes, advance: nat, done: Bytes, next: nat)
    requires Scanned(input, total, mapping, buf, checkpoint, cursor)
    requires cursor + 1 < |input| && input[cursor] == OPERATOR && rest == input[cursor + 1..]
    requires Reads(rest, mapping, out, advance)
    requires done == buf + input[checkpoint..cursor] + out && next == cursor + advance + 1
    ensures Scanned(input, total, mapping, done, next, next)
  {
    ScanIsAt(input, total, mapping, buf, checkpoint, cursor);
    Suffix(input, cursor, 1, cursor + 1);
    OperatorAmounts(buf + input[checkpoint..cursor], input[cursor..], rest, total, mapping, out, advance);
    Suffix(input, cursor, advance + 1, next);
    ScannedAt(input, total, mapping, done, next);
  }

  /** A scan whose checkpoint has caught up with its cursor. */
  lemma ScannedAt(input: Bytes, total: Bytes, mapping: Mapping, done: Bytes, cursor: nat)
    requires cursor <= |input| && Amounts(done, input[cursor..], total, mapping)
    ensures Scanned(input, total, mapping, done, cursor, cursor)
  {
    Nothing(done, input, cursor);
  }

  lemma LiteralStep(input: Bytes, total: Bytes, mapping: Mapping, buf: Bytes, checkpoint: nat, cursor: nat, next: nat)
    requires Scanned(input, total, mapping, buf, checkpoint, cursor)
    requires cursor < |input| && (input[cursor] != OPERATOR || cursor + 1 == |input|) && next == cursor + 1
    ensures Scanned(input, total, mapping, buf, checkpoint, next)
  {
    var was, s := buf + input[checkpoint..cursor], input[cursor..];
    assert Splits(input, buf, checkpoint, cursor, was, s);
    LiteralIsOneToken(s, mapping);
    Suffix(input, cursor, 1, next);
    StepAmounts(was, s, [s[0]], input[next..], total, mapping);
    Extended(buf, input, checkpoint, cursor);
  }

  lemma ScanStarts(input: Bytes, total: Bytes, mapping: Mapping)
    requires total == Render(Tokenize(input), mapping)
    ensures Scanned(input, total, mapping, [], 0, 0)
  {
    assert input[0..] == input;
  }

  lemma ScanEnds(input: Bytes, total: Bytes, mapping: Mapping, buf: Bytes, checkpoint: nat)
    requires Scanned(input, total, mapping, buf, checkpoint, |input|)
    ensures buf + input[checkpoint..] == total
  {
    assert Splits(input, buf, checkpoint, |input|, buf + input[checkpoint..], []);
  }

  /** The scanner with its cursor and checkpoint renders the reading of its input. */
  method Expand(input: Bytes, mapping: Mapping) returns (r: Bytes)
    ensures r == Render(Tokenize(input), mapping)
  {
    ghost var total := Render(Tokenize(input), mapping);
    ScanStarts(input, total, mapping);
    var buf: Bytes := [];
    var checkpoint, cursor := 0, 0;
    while cursor < |input|
      invariant Scanned(input, total, mapping, buf, checkpoint, cursor)
    {
      if input[cursor] == OPERATOR && cursor + 1 < |input| {
        ghost var was := buf;
        buf := buf + input[checkpoint..cursor];
        var (read, isVar, advance) := TryReadVariableName(input[cursor + 1..]);
        var out := if isVar then mapping(read) else read;
        buf := buf + out;
        OperatorStep(input, total, mapping, was, checkpoint, cursor, input[cursor + 1..], out, advance, buf,
                     cursor + advance + 1);
        cursor := cursor + advance;
        checkpoint := cursor + 1;
      } else {
        LiteralStep(input, total, mapping, buf, checkpoint, cursor, cursor + 1);
      }
      cursor := cursor + 1;
    }
    r := buf + input[checkpoint..];
    ScanEnds(input, total, mapping, buf, checkpoint);
  }

  lemma Nothing(buf: Bytes, input: Bytes, i: nat)
    requires i <= |input|
    ensures buf + input[i..i] == buf
  {
  }

  lemma Extended(buf: Bytes, input: Bytes, from: nat, to: nat)
    requires from <= to < |input|
    ensures buf + input[from..to] + [input[to]] == buf + input[from..to + 1]
  {
  }

  // ---- what expansion is for ----

  function Escape(s: Bytes): Bytes {
    if s == [] then []
    else (if s[0] == OPERATOR then [OPERATOR, OPERATOR] else [s[0]]) + Escape(s[1..])
  }

  /** Doubling every operator of a text is undone exactly, for any mapping and any bytes, whatever follows. */
  lemma {:induction false} EscapeRoundTrip(s: Bytes, rest: Bytes, mapping: Mapping)
    ensures Render(Tokenize(Escape(s) + rest), mapping) == s + Render(Tokenize(rest), mapping)
  {
    if s == [] {
      assert Escape(s) + rest == rest;
    } else {
      var t := if s[0] == OPERATOR then Escaped else Literal(s[0]);
      var tail := Escape(s[1..]) + rest;
      Reassociate(Source(t), Escape(s[1..]), rest);
      RendersFirst(t, tail, mapping);
      EscapeRoundTrip(s[1..], rest, mapping);
      Reassociate([s[0]], s[1..], Render(Tokenize(rest), mapping));
      assert s == [s[0]] + s[1..];
    }
  }

  /** A template made of escaped text around one reference yields the text around the value, whatever bytes the
      value has: operators and brackets in it are not read again. */
  lemma ValueIsNotReadAgain(before: Bytes, name: Bytes, after: Bytes, mapping: Mapping)
    requires CLOSER !in name
    ensures Render(Tokenize(Escape(before) + Variable(name) + Escape(after)), mapping) == before + mapping(name) + after
  {
    Reassociate(Escape(before), Variable(name), Escape(after));
    EscapeRoundTrip(before, Variable(name) + Escape(after), mapping);
    RendersFirst(Reference(name), Escape(after), mapping);
    EscapeRoundTrip(after, [], mapping);
    assert Escape(after) + [] == Escape(after) && after + [] == after;
    Reassociate(before, mapping(name), after);
  }

  /** Two references with a byte between them. */
  lemma TwoReferences(a: Bytes, x: Byte, b: Bytes, mapping: Mapping)
    requires CLOSER !in a && CLOSER !in b && x != OPERATOR
    ensures Render(Tokenize(Variable(a) + ([x] + Variable(b))), mapping) == mapping(a) + ([x] + mapping(b))
  {
    RendersFirst(Reference(a), [x] + Variable(b), mapping);
    RendersFirst(Literal(x), Variable(b), mapping);
    PlainNameExpands(b, mapping);
  }

  lemma PlainNameExpands(name: Bytes, mapping: Mapping)
    requires CLOSER !in name
    ensures Render(Tokenize(Variable(name)), mapping) == mapping(name)
  {
    RendersFirst(Reference(name), [], mapping);
    assert Variable(name) + [] == Variable(name) && mapping(name) + [] == mapping(name);
  }

  lemma OddNameShowsNothing(name: Bytes, m0: Mapping, m1: Mapping)
    requires CLOSER in name && forall x: Bytes :: x != name ==> m0(x) == m1(x)
    ensures Render(Tokenize(Variable(name)), m0) == Render(Tokenize(Variable(name)), m1)
  {
    TokenizeIsLossless(Variable(name));
    OnlyReadNamesMatter(Tokenize(Variable(name)), m0, m1, name);
  }

  function Only(name: Bytes, value: Bytes): Mapping {
    x => if x == name then value else []
  }

  /** No reference read can have a name with a closer in it, so its value does not show. */
  lemma OddNameIsNotExpanded(name: Bytes) returns (mapping: Mapping)
    requires CLOSER in name
    ensures Render(Tokenize(Variable(name)), mapping) != mapping(name)
  {
    OddNameShowsNothing(name, Only(name, []), Only(name, [0]));
    mapping := Only(name, []);
    if Render(Tokenize(Variable(name)), mapping) == [] { mapping := Only(name, [0]); }
  }

  /** A reference stands for its value, unread, exactly when its name holds no closer. */
  lemma VariableExpandsToValue(name: Bytes)
    ensures (forall mapping: Mapping :: Render(Tokenize(Variable(name)), mapping) == mapping(name)) <==> CLOSER !in name
  {
    if CLOSER !in name {
      forall mapping: Mapping ensures Render(Tokenize(Variable(name)), mapping) == mapping(name) {
        PlainNameExpands(name, mapping);
      }
    } else {
      var mapping := OddNameIsNotExpanded(name);
    }
  }

  lemma {:induction false} OnlyReadNamesMatter(ts: seq<Token>, m0: Mapping, m1: Mapping, name: Bytes)
    requires WellFormed(ts) && CLOSER in name
    requires forall x: Bytes :: x != name ==> m0(x) == m1(x)
    ensures Render(ts, m0) == Render(ts, m1)
  {
    if ts != [] { OnlyReadNamesMatter(ts[1..], m0, m1, name); }
  }

  // ---- text that nothing resolves ----

  /** No escape, and ASCII after each operator that starts no reference. */
  predicate Plain(ts: seq<Token>) {
    forall t :: t in ts ==> !t.Escaped? && (t.Bare? ==> t.b < 128)
  }

  lemma {:induction false} PlainIsVerbatim(ts: seq<Token>)
    requires Plain(ts)
    ensures Render(ts, MappingFuncFor([])) == Sources(ts)
  {
    if ts != [] {
      PlainParts(ts);
      PlainIsVerbatim(ts[1..]);
    }
  }

  lemma PlainParts(ts: seq<Token>)
    requires Plain(ts) && ts != []
    ensures RenderOne(ts[0], MappingFuncFor([])) == Source(ts[0]) && Plain(ts[1..])
  {
    assert forall t :: t in ts[1..] ==> t in ts;
    assert ts[0] in ts;
  }

  function Operators(n: nat): Bytes {
    seq(n, i => OPERATOR)
  }

  /** Only another escape fits a result that is behind by operators, and it puts the result one more behind. */
  lemma BehindByOneMore(t: Token, out: Bytes, rest: Bytes, n: nat)
    requires Fits(t, rest) && n > 0 && (t == Literal(OPERATOR) ==> out == [])
    requires RenderOne(t, MappingFuncFor([])) + out == Operators(n) + (Source(t) + rest)
    ensures t.Escaped? && out == Operators(n + 1) + rest
  {
    var x, y := RenderOne(t, MappingFuncFor([])) + out, Operators(n) + (Source(t) + rest);
    assert |y| > 1 && x[0] == y[0] == OPERATOR && y[1] == if n == 1 then Source(t)[0] else OPERATOR;
    assert x[1] == y[1] == OPERATOR;
    if t.Escaped? {
      assert y == [OPERATOR] + (Operators(n + 1) + rest);
      Heads([OPERATOR], [OPERATOR], out, Operators(n + 1) + rest);
    }
  }

  /** Once an escape has dropped an operator the result stays behind the text by operators alone, so it is not the
      text. */
  lemma {:induction false} NotBehind(ts: seq<Token>, n: nat)
    requires WellFormed(ts) && n > 0
    ensures Render(ts, MappingFuncFor([])) != Operators(n) + Sources(ts)
  {
    if ts != [] {
      NotBehind(ts[1..], n + 1);
      if Render(ts, MappingFuncFor([])) == Operators(n) + Sources(ts) {
        BehindByOneMore(ts[0], Render(ts[1..], MappingFuncFor([])), Sources(ts[1..]), n);
      }
    }
  }

  /** The rune of byte 195 starts with 195, so there the result runs ahead by its second byte, 131; and stays ahead. */
  lemma {:induction false} NotAhead(ts: seq<Token>)
    requires WellFormed(ts)
    ensures Sources(ts) != [131] + Render(ts, MappingFuncFor([]))
  {
    if ts != [] {
      var m := MappingFuncFor([]);
      var t, out, rest := ts[0], Render(ts[1..], m), Sources(ts[1..]);
      NotAhead(ts[1..]);
      if Sources(ts) == [131] + Render(ts, m) {
        assert Sources(ts)[0] == Source(t)[0] == 131;
        assert t == Literal(131);
        Heads([131], [131], rest, [131] + out);
      }
    }
  }

  /** The first token that is not plain shows. */
  lemma NotPlainShows(t: Token, ts: seq<Token>)
    requires WellFormed(ts) && (t.Escaped? || (t.Bare? && t.b >= 128))
    ensures RenderOne(t, MappingFuncFor([])) + Render(ts, MappingFuncFor([])) != Source(t) + Sources(ts)
  {
    if t.Escaped? {
      NotBehind(ts, 1);
      EscapeShows(Render(ts, MappingFuncFor([])), Sources(ts));
    } else {
      NotAhead(ts);
      HighByteShows(t.b, Render(ts, MappingFuncFor([])), Sources(ts));
    }
  }

  lemma EscapeShows(out: Bytes, rest: Bytes)
    requires out != Operators(1) + rest
    ensures [OPERATOR] + out != [OPERATOR, OPERATOR] + rest
  {
    if [OPERATOR] + out == [OPERATOR, OPERATOR] + rest {
      assert [OPERATOR, OPERATOR] + rest == [OPERATOR] + (Operators(1) + rest);
      Heads([OPERATOR], [OPERATOR], out, Operators(1) + rest);
    }
  }

  lemma HighByteShows(b: Byte, out: Bytes, rest: Bytes)
    requires b >= 128 && rest != [131] + out
    ensures [OPERATOR] + RuneString(b) + out != [OPERATOR, b] + rest
  {
    var x, y := [OPERATOR] + RuneString(b) + out, [OPERATOR, b] + rest;
    if x == y {
      assert x[1] == 192 + b / 64 && y[1] == b;
      assert b == 195;
      assert x == [OPERATOR, b] + ([131] + out);
      Heads([OPERATOR, b], [OPERATOR, b], [131] + out, rest);
    }
  }

  /** A first token that is plain leaves the rest as equal as the whole. */
  lemma PlainSame(t: Token, out: Bytes, rest: Bytes)
    requires !t.Escaped? && (t.Bare? ==> t.b < 128)
    requires RenderOne(t, MappingFuncFor([])) + out == Source(t) + rest
    ensures out == rest
  {
    Heads(RenderOne(t, MappingFuncFor([])), Source(t), out, rest);
  }

  lemma PlainCons(ts: seq<Token>)
    requires ts != [] && Plain(ts[1..]) && !ts[0].Escaped? && (ts[0].Bare? ==> ts[0].b < 128)
    ensures Plain(ts)
  {
    assert ts == [ts[0]] + ts[1..];
  }

  lemma {:induction false} VerbatimIsPlain(ts: seq<Token>)
    requires WellFormed(ts) && Render(ts, MappingFuncFor([])) == Sources(ts)
    ensures Plain(ts)
  {
    if ts != [] {
      if ts[0].Escaped? || (ts[0].Bare? && ts[0].b >= 128) {
        NotPlainShows(ts[0], ts[1..]);
      } else {
        PlainSame(ts[0], Render(ts[1..], MappingFuncFor([])), Sources(ts[1..]));
        VerbatimIsPlain(ts[1..]);
        PlainCons(ts);
      }
    }
  }

  // ---- contexts ----

  /** No context has the name. */
  ghost predicate Missing(contexts: seq<map<Bytes, Bytes>>, name: Bytes) {
    forall c :: c in contexts ==> name !in c
  }

  /** A name that no context has stands for its own reference. */
  lemma {:induction false} MissingIsReference(contexts: seq<map<Bytes, Bytes>>, name: Bytes)
    requires Missing(contexts, name)
    ensures MappingFuncFor(contexts)(name) == [36, 40] + name + [41]
  {
    if contexts != [] {
      assert contexts[0] in contexts;
      assert forall c :: c in contexts[1..] ==> c in contexts;
      MissingIsReference(contexts[1..], name);
    }
  }

  /** The first context that has the name decides. */
  lemma {:induction false} FirstContextDecides(contexts: seq<map<Bytes, Bytes>>, i: nat, name: Bytes)
    requires i < |contexts| && name in contexts[i] && forall j :: 0 <= j < i ==> name !in contexts[j]
    ensures MappingFuncFor(contexts)(name) == contexts[i][name]
  {
    if i > 0 {
      assert contexts[1..][i - 1] == contexts[i];
      FirstContextDecides(contexts[1..], i - 1, name);
    }
  }

  /** So a template keeps a reference it has no value for, between texts of its own. */
  lemma MissingStaysInTemplate(contexts: seq<map<Bytes, Bytes>>, before: Bytes, name: Bytes, after: Bytes)
    requires Missing(contexts, name) && 41 !in name
    ensures Render(Tokenize(Escape(before) + ([36, 40] + name + [41]) + Escape(after)), MappingFuncFor(contexts))
            == before + ([36, 40] + name + [41]) + after
  {
    MissingIsReference(contexts, name);
    ValueIsNotReadAgain(before, name, after, MappingFuncFor(contexts));
  }

  lemma {:induction false} SameRendering(ts: seq<Token>, m0: Mapping, m1: Mapping)
    requires forall t :: t in ts && t.Reference? ==> m0(t.name) == m1(t.name)
    ensures Render(ts, m0) == Render(ts, m1)
  {
    if ts != [] {
      assert ts[0] in ts && forall t :: t in ts[1..] ==> t in ts;
      SameRendering(ts[1..], m0, m1);
    }
  }

  /** A text none of whose references has a value comes out as it went in exactly when it holds no escape and no
      byte from 128 on after an operator that starts no reference: such a byte comes out as the two bytes of its
      rune. */
  lemma UnresolvedIsVerbatim(contexts: seq<map<Bytes, Bytes>>, s: Bytes)
    requires forall t :: t in Tokenize(s) && t.Reference? ==> Missing(contexts, t.name)
    ensures Render(Tokenize(s), MappingFuncFor(contexts)) == s <==> Plain(Tokenize(s))
  {
    var ts := Tokenize(s);
    TokenizeIsLossless(s);
    forall t | t in ts && t.Reference? ensures MappingFuncFor(contexts)(t.name) == MappingFuncFor([])(t.name) {
      MissingIsReference(contexts, t.name);
      MissingIsReference([], t.name);
    }
    SameRendering(ts, MappingFuncFor(contexts), MappingFuncFor([]));
    if Plain(ts) { PlainIsVerbatim(ts); }
    if Render(ts, MappingFuncFor([])) == s { VerbatimIsPlain(ts); }
  }

  /** "$" and the byte 200. */
  lemma HighByteIsNotVerbatim()
    ensures Render(Tokenize([36, 200]), MappingFuncFor([])) == [36, 195, 136]
  {
    assert Tokenize([36, 200]) == [Bare(200)];
  }
}
