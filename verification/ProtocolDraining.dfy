/** Whether the queues empty once edits and failures stop: they do when no import feeds itself through others, and two
    imports of each other can keep the controllers busy for ever. */
module ProtocolDraining {
  import opened Kube
  import opened Sequences
  import opened ExportSpec
  import opened Protocol
  import opened ProtocolCache
  import opened ProtocolSafety
  import opened ProtocolHazards

  /** A Reconcile call without failures that changes something, if only a queue. */
  ghost predicate Works(w: World, step: Step) {
    w.warmed && (step.RunExport? || step.RunImport?) && Flawless(step) && Enabled(w, step) && Next(w, step) != w
  }

  /** A run of such calls, in any order. */
  ghost predicate Working(w: World, steps: seq<Step>)
    decreases |steps|
  {
    steps == [] || (Works(w, steps[0]) && Working(Next(w, steps[0]), steps[1..]))
  }

  // ---- what a call does ----

  lemma ExportCall(w: World, k: Key)
    ensures ReconcileExport(w, k, EXPORT_OK) ==
            if Live(w, k) && w.exports[k].status != StatusNow(w, k)
            then NewStatus(SetCache(w, k, Ideal(w, k)), k, StatusNow(w, k), true)
            else DequeueExport(SetCache(w, k, Ideal(w, k)), k)
  {
  }

  lemma ImportCall(w: World, i: Key)
    requires Active(w, i)
    ensures
      var (w', result) := SyncDestination(w, i, IMPORT_OK);
      ReconcileImport(w, i, IMPORT_OK) == if result.InSync? then Dequeue(w, i) else w'
    ensures !SyncDestination(w, i, IMPORT_OK).1.Wrote? ==> SyncDestination(w, i, IMPORT_OK).0 == w
  {
  }

  /** The reconcile of the export would change its entry or its status. */
  predicate StaleExport(w: World, k: Key) {
    Lookup(w.cache, k) != Ideal(w, k) || (Live(w, k) && w.exports[k].status != StatusNow(w, k))
  }

  /** The reconcile of the import would write its secret. */
  predicate StaleImport(w: World, i: Key) {
    Active(w, i) && SyncDestination(w, i, IMPORT_OK).1.Wrote?
  }

  lemma SameExport(w: World, w': World, k: Key)
    requires Lookup(w'.exports, k) == Lookup(w.exports, k) && Lookup(w'.secrets, k) == Lookup(w.secrets, k)
    requires Lookup(w'.cache, k) == Lookup(w.cache, k)
    ensures StaleExport(w', k) <==> StaleExport(w, k)
  {
  }

  lemma SameImport(w: World, w': World, i: Key)
    requires Lookup(w'.imports, i) == Lookup(w.imports, i) && Lookup(w'.secrets, i) == Lookup(w.secrets, i)
    requires w'.namespaces == w.namespaces && w'.blank == w.blank
    requires Active(w, i) ==>
               Lookup(w'.cache, Source(i, w.imports[i])) == Lookup(w.cache, Source(i, w.imports[i]))
    ensures StaleImport(w', i) <==> StaleImport(w, i)
  {
    assert Truth(w', i.ns) == Truth(w, i.ns);
  }

  // ---- a measure: what is stale, the sources first ----

  /** Each import ranks above its source. */
  type Rank = Key -> nat

  ghost predicate Ranks(w: World, rank: Rank) {
    forall i :: Active(w, i) ==> rank(Source(i, w.imports[i])) < rank(i)
  }

  /** At an even place the imports of one rank, at the odd place after it the exports of that rank. */
  predicate Stale(w: World, rank: Rank, k: Key, p: nat) {
    (p == 2 * rank(k) && StaleImport(w, k)) || (p == 2 * rank(k) + 1 && StaleExport(w, k))
  }

  ghost function StaleAt(w: World, u: set<Key>, rank: Rank, p: nat): set<Key> {
    set k | k in u && Stale(w, rank, k, p)
  }

  /** The numbers of stale keys at the first p places, as digits. */
  ghost function Value(w: World, u: set<Key>, rank: Rank, p: nat): nat {
    if p == 0 then 0 else Value(w, u, rank, p - 1) * (|u| + 1) + |StaleAt(w, u, rank, p - 1)|
  }

  /** Key x is no longer stale at place q, nothing else has become stale there, and nothing has changed before it. */
  ghost predicate Improves(w: World, w': World, rank: Rank, q: nat, x: Key) {
    && (forall k, p: nat :: p < q ==> (Stale(w', rank, k, p) <==> Stale(w, rank, k, p)))
    && (forall k :: Stale(w', rank, k, q) ==> Stale(w, rank, k, q))
    && Stale(w, rank, x, q) && !Stale(w', rank, x, q)
  }

  lemma FewerStale(w: World, w': World, u: set<Key>, rank: Rank, q: nat, x: Key)
    requires Improves(w, w', rank, q, x) && x in u
    ensures |StaleAt(w', u, rank, q)| < |StaleAt(w, u, rank, q)|
  {
    SubsetSize(StaleAt(w', u, rank, q), StaleAt(w, u, rank, q) - {x});
  }

  lemma {:induction false} SameValue(w: World, w': World, u: set<Key>, rank: Rank, q: nat, x: Key, p: nat)
    requires Improves(w, w', rank, q, x) && p <= q
    ensures Value(w', u, rank, p) == Value(w, u, rank, p)
  {
    if p > 0 {
      SameValue(w, w', u, rank, q, x, p - 1);
      assert StaleAt(w', u, rank, p - 1) == StaleAt(w, u, rank, p - 1);
    }
  }

  lemma Carry(a: nat, b: nat, base: nat, digit: nat)
    requires a < b && digit < base
    ensures a * base + digit < b * base
  {
    assert (a + 1) * base <= b * base;
  }

  lemma {:induction false} ValueDrops(w: World, w': World, u: set<Key>, rank: Rank, q: nat, x: Key, p: nat)
    requires Improves(w, w', rank, q, x) && x in u && q < p
    ensures Value(w', u, rank, p) < Value(w, u, rank, p)
    decreases p
  {
    if p == q + 1 {
      SameValue(w, w', u, rank, q, x, q);
      FewerStale(w, w', u, rank, q, x);
    } else {
      ValueDrops(w, w', u, rank, q, x, p - 1);
      SubsetSize(StaleAt(w', u, rank, p - 1), u);
      Carry(Value(w', u, rank, p - 1), Value(w, u, rank, p - 1), |u| + 1, |StaleAt(w', u, rank, p - 1)|);
    }
  }

  lemma {:induction false} ValueKept(w: World, w': World, u: set<Key>, rank: Rank, p: nat)
    requires forall k, q: nat :: Stale(w', rank, k, q) <==> Stale(w, rank, k, q)
    ensures Value(w', u, rank, p) == Value(w, u, rank, p)
  {
    if p > 0 {
      ValueKept(w, w', u, rank, p - 1);
      assert StaleAt(w', u, rank, p - 1) == StaleAt(w, u, rank, p - 1);
    }
  }

  // ---- each call lowers it, or empties a queue ----

  /** The keys the queues can hold. */
  ghost predicate Within(w: World, u: set<Key>) {
    w.exportQ <= u && w.importQ <= u && w.imports.Keys <= u
  }

  ghost function Queued(w: World): nat {
    |w.exportQ| + |w.importQ|
  }

  lemma StaleExportCall(w: World, w': World, rank: Rank, k: Key)
    requires Ranks(w, rank) && StaleExport(w, k) && w' == ReconcileExport(w, k, EXPORT_OK)
    ensures Improves(w, w', rank, 2 * rank(k) + 1, k)
  {
    ExportCall(w, k);
    forall j ensures j != k ==> (StaleExport(w', j) <==> StaleExport(w, j)) {
      if j != k { SameExport(w, w', j); }
    }
    forall i ensures rank(i) <= rank(k) ==> (StaleImport(w', i) <==> StaleImport(w, i)) {
      if rank(i) <= rank(k) { SameImport(w, w', i); }
    }
    assert !StaleExport(w', k);
  }

  ghost predicate SecretOnly(w: World, w': World, i: Key) {
    && w'.exports == w.exports && w'.imports == w.imports && w'.cache == w.cache && w'.warmed == w.warmed
    && w'.namespaces == w.namespaces && w'.blank == w.blank
    && (forall j :: j != i ==> Lookup(w'.secrets, j) == Lookup(w.secrets, j))
    && w'.exportQ == w.exportQ + {i} && w'.importQ == w.importQ + {i}
  }

  lemma DeleteOnly(w: World, i: Key)
    ensures SecretOnly(w, DeleteSecret(w, i), i)
  {
  }

  lemma PutOnly(w: World, s: Secret)
    ensures SecretOnly(w, PutSecret(w, s), s.key)
  {
  }

  /** Writing the secret of an import changes no other secret, and nothing else but the queues. */
  lemma WriteOnly(w: World, w': World, i: Key)
    requires StaleImport(w, i) && w' == SyncDestination(w, i, IMPORT_OK).0
    ensures SecretOnly(w, w', i)
  {
    match SeenOffer(w, i, IMPORT_OK)
    case None => DeleteOnly(w, i);
    case Some(src) => PutOnly(w, CopyFor(i, w.imports[i], src, 0));
  }

  lemma StaleImportCall(w: World, w': World, rank: Rank, i: Key)
    requires Ranks(w, rank) && StaleImport(w, i) && w' == ReconcileImport(w, i, IMPORT_OK)
    ensures Improves(w, w', rank, 2 * rank(i), i)
  {
    ImportCall(w, i);
    WriteOnly(w, w', i);
    WrittenIsInSync(w, w', i);
    forall j ensures j != i ==> (StaleExport(w', j) <==> StaleExport(w, j)) {
      if j != i { SameExport(w, w', j); }
    }
    forall j ensures j != i ==> (StaleImport(w', j) <==> StaleImport(w, j)) {
      if j != i { SameImport(w, w', j); }
    }
    ImportImproves(w, w', rank, i);
  }

  lemma ImportImproves(w: World, w': World, rank: Rank, i: Key)
    requires StaleImport(w, i) && !StaleImport(w', i)
    requires forall j :: j != i ==>
               (StaleExport(w', j) <==> StaleExport(w, j)) && (StaleImport(w', j) <==> StaleImport(w, j))
    ensures Improves(w, w', rank, 2 * rank(i), i)
  {
  }

  lemma WrittenIsInSync(w: World, w': World, i: Key)
    requires StaleImport(w, i) && Source(i, w.imports[i]) != i && w' == SyncDestination(w, i, IMPORT_OK).0
    ensures !StaleImport(w', i)
  {
    WriteOnly(w, w', i);
    assert Truth(w', i.ns) == Truth(w, i.ns);
    match SeenOffer(w, i, IMPORT_OK)
    case None => assert i !in w'.secrets;
    case Some(src) => assert w'.secrets[i].(rv := 0) == CopyFor(i, w.imports[i], src, 0);
  }

  /** A call that finds nothing stale takes its key off the queue, and that is all. */
  lemma IdleExportCall(w: World, w': World, rank: Rank, k: Key)
    requires !StaleExport(w, k) && k in w.exportQ && w' == ReconcileExport(w, k, EXPORT_OK)
    ensures w' == DequeueExport(w, k)
    ensures forall j, q: nat :: Stale(w', rank, j, q) <==> Stale(w, rank, j, q)
  {
    ExportCall(w, k);
    assert SetOrDelete(w.cache, k, Lookup(w.cache, k)) == w.cache;
    forall j ensures (StaleExport(w', j) <==> StaleExport(w, j)) && (StaleImport(w', j) <==> StaleImport(w, j)) {
      SameExport(w, w', j);
      SameImport(w, w', j);
    }
  }

  lemma IdleImportCall(w: World, w': World, rank: Rank, i: Key)
    requires !StaleImport(w, i) && w' == ReconcileImport(w, i, IMPORT_OK) && w' != w
    ensures w' == Dequeue(w, i)
    ensures forall j, q: nat :: Stale(w', rank, j, q) <==> Stale(w, rank, j, q)
  {
    if Active(w, i) { ImportCall(w, i); }
    forall j ensures (StaleExport(w', j) <==> StaleExport(w, j)) && (StaleImport(w', j) <==> StaleImport(w, j)) {
      SameExport(w, w', j);
      SameImport(w, w', j);
    }
  }

  // ---- draining ----

  /** How many calls can still change something. */
  ghost function Work(w: World, u: set<Key>, rank: Rank, places: nat): nat {
    Value(w, u, rank, places) * (2 * |u| + 1) + Queued(w)
  }

  lemma QueuedBound(w: World, u: set<Key>)
    requires Within(w, u)
    ensures Queued(w) <= 2 * |u|
  {
    SubsetSize(w.exportQ, u);
    SubsetSize(w.importQ, u);
  }

  lemma ExportWithin(w: World, u: set<Key>, k: Key)
    requires Within(w, u) && k in u
    ensures
      var w' := ReconcileExport(w, k, EXPORT_OK);
      Within(w', u) && w'.imports == w.imports && w'.warmed == w.warmed
  {
    ExportCall(w, k);
  }

  lemma ImportWithin(w: World, u: set<Key>, i: Key)
    requires Within(w, u) && i in u
    ensures
      var w' := ReconcileImport(w, i, IMPORT_OK);
      Within(w', u) && w'.imports == w.imports && w'.warmed == w.warmed
  {
    if Active(w, i) {
      ImportCall(w, i);
      if StaleImport(w, i) { WriteOnly(w, SyncDestination(w, i, IMPORT_OK).0, i); }
    }
  }

  lemma RanksKept(w: World, w': World, rank: Rank)
    requires Ranks(w, rank) && w'.imports == w.imports
    ensures Ranks(w', rank)
  {
    forall i | Active(w', i) ensures rank(Source(i, w'.imports[i])) < rank(i) { assert Active(w, i); }
  }

  /** All keys have their places. */
  ghost predicate Fits(u: set<Key>, rank: Rank, places: nat) {
    forall k :: k in u ==> 2 * rank(k) + 1 < places
  }

  lemma LessWork(w: World, w': World, u: set<Key>, rank: Rank, places: nat)
    requires Within(w', u) && Value(w', u, rank, places) < Value(w, u, rank, places)
    ensures Work(w', u, rank, places) < Work(w, u, rank, places)
  {
    QueuedBound(w', u);
    Carry(Value(w', u, rank, places), Value(w, u, rank, places), 2 * |u| + 1, Queued(w'));
  }

  lemma ShorterQueue(w: World, w': World, u: set<Key>, rank: Rank, places: nat)
    requires Value(w', u, rank, places) == Value(w, u, rank, places) && Queued(w') < Queued(w)
    ensures Work(w', u, rank, places) < Work(w, u, rank, places)
  {
  }

  lemma OneLess<T>(q: set<T>, x: T)
    requires x in q
    ensures |q - {x}| == |q| - 1
  {
  }

  lemma StaleExportWorks(w: World, w': World, u: set<Key>, rank: Rank, places: nat, k: Key)
    requires Improves(w, w', rank, 2 * rank(k) + 1, k) && k in u && Within(w', u) && Fits(u, rank, places)
    ensures Work(w', u, rank, places) < Work(w, u, rank, places)
  {
    ValueDrops(w, w', u, rank, 2 * rank(k) + 1, k, places);
    LessWork(w, w', u, rank, places);
  }

  lemma IdleExportWorks(w: World, w': World, u: set<Key>, rank: Rank, places: nat, k: Key)
    requires k in w.exportQ && w' == DequeueExport(w, k)
    requires forall j, q: nat :: Stale(w', rank, j, q) <==> Stale(w, rank, j, q)
    ensures Work(w', u, rank, places) < Work(w, u, rank, places)
  {
    ValueKept(w, w', u, rank, places);
    OneLess(w.exportQ, k);
    ShorterQueue(w, w', u, rank, places);
  }

  lemma ExportCallWorks(w: World, w': World, u: set<Key>, rank: Rank, places: nat, k: Key)
    requires Within(w, u) && Within(w', u) && Ranks(w, rank) && Fits(u, rank, places)
    requires k in w.exportQ && w' == ReconcileExport(w, k, EXPORT_OK)
    ensures Work(w', u, rank, places) < Work(w, u, rank, places)
  {
    if StaleExport(w, k) {
      StaleExportCall(w, w', rank, k);
      StaleExportWorks(w, w', u, rank, places, k);
    } else {
      IdleExportCall(w, w', rank, k);
      IdleExportWorks(w, w', u, rank, places, k);
    }
  }

  lemma ImportCallWorks(w: World, w': World, u: set<Key>, rank: Rank, places: nat, i: Key)
    requires Within(w, u) && Within(w', u) && Ranks(w, rank) && Fits(u, rank, places)
    requires i in w.importQ && w' == ReconcileImport(w, i, IMPORT_OK) && w' != w
    ensures Work(w', u, rank, places) < Work(w, u, rank, places)
  {
    if StaleImport(w, i) {
      StaleImportCall(w, w', rank, i);
      ValueDrops(w, w', u, rank, 2 * rank(i), i, places);
      LessWork(w, w', u, rank, places);
    } else {
      IdleImportCall(w, w', rank, i);
      ValueKept(w, w', u, rank, places);
      OneLess(w.importQ, i);
      ShorterQueue(w, w', u, rank, places);
    }
  }

  lemma WorkDrops(w: World, step: Step, u: set<Key>, rank: Rank, places: nat)
    requires Works(w, step) && Within(w, u) && Ranks(w, rank) && Fits(u, rank, places)
    ensures
      var w' := Next(w, step);
      && Work(w', u, rank, places) < Work(w, u, rank, places)
      && Within(w', u) && Ranks(w', rank) && w'.warmed
  {
    var w' := Next(w, step);
    match step
    case RunExport(k, _) =>
      ExportWithin(w, u, k);
      ExportCallWorks(w, w', u, rank, places, k);
      RanksKept(w, w', rank);
    case RunImport(i, _) =>
      ImportWithin(w, u, i);
      ImportCallWorks(w, w', u, rank, places, i);
      RanksKept(w, w', rank);
  }

  /** No run of working calls is longer than the work there is. */
  lemma {:induction false} WorkEnds(w: World, steps: seq<Step>, u: set<Key>, rank: Rank, places: nat)
    requires Working(w, steps) && Within(w, u) && Ranks(w, rank) && Fits(u, rank, places)
    ensures |steps| <= Work(w, u, rank, places)
    decreases |steps|
  {
    if steps != [] {
      WorkDrops(w, steps[0], u, rank, places);
      WorkEnds(Next(w, steps[0]), steps[1..], u, rank, places);
    }
  }

  // ---- what is left when no call works ----

  ghost predicate Drained(w: World) {
    forall step :: !Works(w, step)
  }

  /** The destination has a type other than the source's, and a type cannot be changed. */
  predicate Conflicts(w: World, i: Key) {
    && Active(w, i) && i in w.secrets
    && var offer := SeenOffer(w, i, IMPORT_OK);
       offer.Some? && w.secrets[i].typ != offer.value.typ
  }

  lemma ExportWorks(w: World, k: Key)
    requires w.warmed && k in w.exportQ
    ensures Works(w, RunExport(k, EXPORT_OK))
  {
    ExportCall(w, k);
    var w' := ReconcileExport(w, k, EXPORT_OK);
    if Live(w, k) && w.exports[k].status != StatusNow(w, k) {
      assert w'.exports[k].status != w.exports[k].status;
    } else {
      assert k !in w'.exportQ;
    }
  }

  lemma ImportWorks(w: World, i: Key)
    requires w.warmed && i in w.importQ
    ensures Works(w, RunImport(i, IMPORT_OK)) <==> !Conflicts(w, i)
  {
    if Active(w, i) {
      ImportCall(w, i);
      if StaleImport(w, i) {
        WriteShows(w, i);
      } else {
        assert i !in Dequeue(w, i).importQ;
      }
    } else {
      assert i !in ReconcileImport(w, i, IMPORT_OK).importQ;
    }
  }

  lemma WriteShows(w: World, i: Key)
    requires StaleImport(w, i)
    ensures SyncDestination(w, i, IMPORT_OK).0 != w && !Conflicts(w, i)
  {
    match SeenOffer(w, i, IMPORT_OK)
    case None => assert i !in DeleteSecret(w, i).secrets;
    case Some(src) => assert PutSecret(w, CopyFor(i, w.imports[i], src, 0)).nextRV != w.nextRV;
  }

  /** The queues are empty, but for imports that no call can bring in line. */
  lemma DrainedIffEmpty(w: World)
    requires w.warmed
    ensures Drained(w) <==> w.exportQ == {} && forall i :: i in w.importQ ==> Conflicts(w, i)
  {
    forall k | k in w.exportQ ensures Works(w, RunExport(k, EXPORT_OK)) { ExportWorks(w, k); }
    forall i | i in w.importQ ensures Works(w, RunImport(i, IMPORT_OK)) <==> !Conflicts(w, i) { ImportWorks(w, i); }
    if k :| k in w.exportQ { assert !Drained(w); }
  }

  /** And under the invariant every other import is right. */
  lemma DrainedIsCorrect(w: World, i: Key)
    requires Inv(w) && w.warmed && Drained(w) && Active(w, i)
    ensures Correct(w, i) || Conflicts(w, i)
  {
    DrainedIffEmpty(w);
    InvForgetsNothing(w, i);
  }

  // ---- no import feeds itself ----

  /** The source of the source, and so on, n times, as long as they are imports themselves. */
  function Ancestor(w: World, i: Key, n: nat): Option<Key> {
    if n == 0 then Some(i)
    else
      match Ancestor(w, i, n - 1)
      case None => None
      case Some(j) => if Active(w, j) then Some(Source(j, w.imports[j])) else None
  }

  ghost predicate NoCycle(w: World) {
    forall i, n: nat :: n > 0 ==> Ancestor(w, i, n) != Some(i)
  }

  lemma {:induction false} AncestorAdds(w: World, i: Key, a: nat, b: nat)
    requires Ancestor(w, i, a).Some?
    ensures Ancestor(w, i, a + b) == Ancestor(w, Ancestor(w, i, a).value, b)
  {
    if b > 0 { AncestorAdds(w, i, a, b - 1); }
  }

  lemma {:induction false} AncestorsBefore(w: World, i: Key, a: nat, b: nat)
    requires a < b && Ancestor(w, i, b).Some?
    ensures Ancestor(w, i, a).Some? && Active(w, Ancestor(w, i, a).value)
    decreases b
  {
    if a < b - 1 { AncestorsBefore(w, i, a, b - 1); }
  }

  lemma AncestorsDiffer(w: World, i: Key, a: nat, b: nat)
    requires NoCycle(w) && a < b && Ancestor(w, i, b).Some?
    ensures Ancestor(w, i, a) != Ancestor(w, i, b)
  {
    AncestorsBefore(w, i, a, b);
    AncestorAdds(w, i, a, b - a);
  }

  /** Going up ends, because there are only so many imports. */
  lemma AncestorsEnd(w: World, i: Key)
    requires NoCycle(w)
    ensures Ancestor(w, i, |w.imports| + 1) == None
  {
    var n := |w.imports| + 1;
    if Ancestor(w, i, n).Some? {
      forall a | 0 <= a < n ensures Ancestor(w, i, a).Some? && Ancestor(w, i, a).value in w.imports.Keys {
        AncestorsBefore(w, i, a, n);
      }
      var line := seq(n, a requires 0 <= a < n => Ancestor(w, i, a).GetOr(i));
      forall a, b | 0 <= a < b < n ensures line[a] != line[b] { AncestorsDiffer(w, i, a, b); }
      NoDupFits(line, w.imports.Keys);
    }
  }

  /** How many ancestors there are, if no more than `most`. */
  function Height(w: World, i: Key, most: nat): (h: nat)
    ensures h <= most
    decreases most
  {
    if most == 0 || !Active(w, i) then 0 else 1 + Height(w, Source(i, w.imports[i]), most - 1)
  }

  lemma {:induction false} HeightSettles(w: World, i: Key, most: nat)
    requires Ancestor(w, i, most) == None
    ensures Height(w, i, most + 1) == Height(w, i, most)
    decreases most
  {
    if Active(w, i) {
      assert Ancestor(w, i, 1) == Some(Source(i, w.imports[i]));
      AncestorAdds(w, i, 1, most - 1);
      HeightSettles(w, Source(i, w.imports[i]), most - 1);
    }
  }

  function HeightIn(w: World): Rank {
    i => Height(w, i, |w.imports| + 1)
  }

  /** Then height ranks imports above their sources. */
  lemma HeightRanks(w: World)
    requires NoCycle(w)
    ensures Ranks(w, HeightIn(w))
  {
    forall i | Active(w, i) ensures HeightIn(w)(Source(i, w.imports[i])) < HeightIn(w)(i) {
      var k := Source(i, w.imports[i]);
      AncestorsEnd(w, i);
      assert Ancestor(w, i, 1) == Some(k);
      AncestorAdds(w, i, 1, |w.imports|);
      HeightSettles(w, k, |w.imports|);
    }
  }

  ghost function Universe(w: World): set<Key> {
    w.exportQ + w.importQ + w.imports.Keys
  }

  function Places(w: World): nat {
    2 * |w.imports| + 4
  }

  lemma HeightFits(w: World)
    ensures Within(w, Universe(w)) && Fits(Universe(w), HeightIn(w), Places(w))
  {
    forall k ensures HeightIn(w)(k) <= |w.imports| + 1 {}
  }

  /** Without a cycle among imports, and without edits and failures, the calls that still change something are
      numbered, whatever their order. */
  lemma DrainingEnds(w: World, steps: seq<Step>)
    requires NoCycle(w) && Working(w, steps)
    ensures |steps| <= Work(w, Universe(w), HeightIn(w), Places(w))
  {
    HeightRanks(w);
    HeightFits(w);
    WorkEnds(w, steps, Universe(w), HeightIn(w), Places(w));
  }

  /** So calls in any order bring the queues to rest. */
  lemma DrainsFrom(w: World, u: set<Key>, rank: Rank, places: nat) returns (steps: seq<Step>)
    requires w.warmed && Within(w, u) && Ranks(w, rank) && Fits(u, rank, places)
    ensures Working(w, steps) && Drained(Final(w, steps)) && Final(w, steps).warmed
    decreases Work(w, u, rank, places)
  {
    if Drained(w) {
      steps := [];
    } else {
      var step :| Works(w, step);
      WorkDrops(w, step, u, rank, places);
      var rest := DrainsFrom(Next(w, step), u, rank, places);
      steps := [step] + rest;
      assert steps[0] == step && steps[1..] == rest;
    }
  }

  lemma Drains(w: World) returns (steps: seq<Step>)
    requires w.warmed && NoCycle(w)
    ensures Working(w, steps) && Drained(Final(w, steps)) && Final(w, steps).warmed
  {
    HeightRanks(w);
    HeightFits(w);
    steps := DrainsFrom(w, Universe(w), HeightIn(w), Places(w));
  }

  // ---- two imports of each other ----

  /** Import i gets what export k offers it, and the cache is up to date on that. */
  predicate Feeds(w: World, i: Key, k: Key) {
    && Active(w, i) && Source(i, w.imports[i]) == k
    && Ideal(w, k).Some? && Lookup(w.cache, k) == Ideal(w, k) && Offered(w, i, Ideal(w, k)).Some?
  }

  ghost predicate Mutual(w: World, a: Key, b: Key) {
    && Sane(w) && w.warmed && a != b && Feeds(w, a, b) && Feeds(w, b, a)
    && w.secrets[a].typ == w.secrets[b].typ && w.secrets[a].data != w.secrets[b].data
    && {a, b} <= w.exportQ && {a, b} <= w.importQ
  }

  /** Both imports copy, each what the other had. */
  ghost predicate Swapped(w: World, w': World, a: Key, b: Key)
    requires a in w.secrets && b in w.secrets
  {
    && w'.exports == w.exports && w'.imports == w.imports && w'.cache == w.cache && w'.warmed
    && w'.namespaces == w.namespaces && w'.blank == w.blank && Sane(w')
    && {a, b} <= w'.exportQ && {a, b} <= w'.importQ
    && a in w'.secrets && b in w'.secrets && w'.secrets[a].rv >= w.nextRV && w'.secrets[b].rv >= w.nextRV
    && w'.secrets[a].data == w.secrets[b].data && w'.secrets[b].data == w.secrets[a].data
    && w'.secrets[a].typ == w'.secrets[b].typ
  }

  lemma CopyWorks(w: World, i: Key, src: Secret)
    requires w.warmed && i in w.importQ && Active(w, i) && SeenOffer(w, i, IMPORT_OK) == Some(src)
    requires i in w.secrets && w.secrets[i].typ == src.typ && w.secrets[i].data != src.data
    ensures Works(w, RunImport(i, IMPORT_OK))
    ensures Next(w, RunImport(i, IMPORT_OK)) == PutSecret(w, CopyFor(i, w.imports[i], src, 0))
  {
    assert PutSecret(w, CopyFor(i, w.imports[i], src, 0)).nextRV != w.nextRV;
  }

  lemma CopyBoth(w: World, a: Key, b: Key)
    requires Mutual(w, a, b)
    ensures Works(w, RunImport(a, IMPORT_OK)) && Works(Next(w, RunImport(a, IMPORT_OK)), RunImport(b, IMPORT_OK))
    ensures Swapped(w, Next(Next(w, RunImport(a, IMPORT_OK)), RunImport(b, IMPORT_OK)), a, b)
  {
    assert SeenOffer(w, a, IMPORT_OK) == Some(w.secrets[b]);
    CopyWorks(w, a, w.secrets[b]);
    var w1 := Next(w, RunImport(a, IMPORT_OK));
    assert Truth(w1, b.ns) == Truth(w, b.ns);
    assert SeenOffer(w1, b, IMPORT_OK) == Some(w.secrets[a]);
    CopyWorks(w1, b, w.secrets[a]);
  }

  lemma ExportAnnounces(w: World, k: Key)
    requires Sane(w) && w.warmed && k in w.exportQ && Ideal(w, k).Some?
    requires w.exports[k].status.observedRV != Some(w.secrets[k].rv)
    ensures Works(w, RunExport(k, EXPORT_OK))
    ensures Next(w, RunExport(k, EXPORT_OK)) == NewStatus(SetCache(w, k, Ideal(w, k)), k, StatusNow(w, k), true)
  {
    ExportWorks(w, k);
    ExportCall(w, k);
  }

  lemma AnnounceBoth(w: World, w2: World, a: Key, b: Key)
    requires Mutual(w, a, b) && Swapped(w, w2, a, b)
    ensures
      var w3 := Next(w2, RunExport(a, EXPORT_OK));
      && Works(w2, RunExport(a, EXPORT_OK)) && Works(w3, RunExport(b, EXPORT_OK))
      && Mutual(Next(w3, RunExport(b, EXPORT_OK)), a, b)
  {
    ExportAnnounces(w2, a);
    var w3 := Next(w2, RunExport(a, EXPORT_OK));
    NewStatusSane(w2, a, Ideal(w2, a), StatusNow(w2, a), w3);
    assert Ideal(w3, a) == Ideal(w2, a) && Ideal(w3, b) == Ideal(w2, b);
    ExportAnnounces(w3, b);
    var w4 := Next(w3, RunExport(b, EXPORT_OK));
    NewStatusSane(w3, b, Ideal(w3, b), StatusNow(w3, b), w4);
    assert Ideal(w4, a) == Ideal(w2, a) && Ideal(w4, b) == Ideal(w2, b);
    assert Truth(w4, a.ns) == Truth(w, a.ns) && Truth(w4, b.ns) == Truth(w, b.ns);
  }

  function Round(a: Key, b: Key): seq<Step> {
    [RunImport(a, IMPORT_OK), RunImport(b, IMPORT_OK), RunExport(a, EXPORT_OK), RunExport(b, EXPORT_OK)]
  }

  /** One call each swaps the two secrets, and everything is queued again. */
  lemma RoundRepeats(w: World, a: Key, b: Key)
    requires Mutual(w, a, b)
    ensures Working(w, Round(a, b)) && Mutual(Final(w, Round(a, b)), a, b)
  {
    CopyBoth(w, a, b);
    var w2 := Next(Next(w, RunImport(a, IMPORT_OK)), RunImport(b, IMPORT_OK));
    AnnounceBoth(w, w2, a, b);
    var x, y := RunExport(a, EXPORT_OK), RunExport(b, EXPORT_OK);
    TwoWork(w2, x, y);
    TwoWork(w, RunImport(a, IMPORT_OK), RunImport(b, IMPORT_OK));
    WorkingJoins(w, [RunImport(a, IMPORT_OK), RunImport(b, IMPORT_OK)], [x, y]);
    assert Round(a, b) == [RunImport(a, IMPORT_OK), RunImport(b, IMPORT_OK)] + [x, y];
  }

  lemma TwoWork(w: World, x: Step, y: Step)
    requires Works(w, x) && Works(Next(w, x), y)
    ensures Working(w, [x, y]) && Final(w, [x, y]) == Next(Next(w, x), y)
  {
    FirstStep(w, x, [y]);
    FirstStep(Next(w, x), y, []);
    assert [x, y] == [x] + [y] && [y] == [y] + [];
  }

  lemma FirstStep(w: World, step: Step, rest: seq<Step>)
    requires Enabled(w, step)
    ensures Working(w, [step] + rest) <==> Works(w, step) && Working(Next(w, step), rest)
    ensures Final(w, [step] + rest) == Final(Next(w, step), rest)
  {
    assert ([step] + rest)[0] == step && ([step] + rest)[1..] == rest;
  }

  lemma JoinFirst(w: World, x: Step, rest: seq<Step>, a: seq<Step>, b: seq<Step>)
    requires a == [x] + rest && Enabled(w, x)
    ensures Working(w, a + b) <==> Works(w, x) && Working(Next(w, x), rest + b)
    ensures Final(w, a + b) == Final(Next(w, x), rest + b) && Final(w, a) == Final(Next(w, x), rest)
  {
    assert a + b == [x] + (rest + b);
    FirstStep(w, x, rest + b);
    FirstStep(w, x, rest);
  }

  lemma {:induction false} WorkingJoins(w: World, a: seq<Step>, b: seq<Step>)
    requires Working(w, a) && Working(Final(w, a), b)
    ensures Working(w, a + b) && Final(w, a + b) == Final(Final(w, a), b)
    decreases |a|
  {
    if a == [] {
      assert a + b == b;
    } else {
      JoinFirst(w, a[0], a[1..], a, b);
      WorkingJoins(Next(w, a[0]), a[1..], b);
    }
  }

  /** Two imports of each other, with different data, never drain by themselves: there is a run of working calls of
      any length. */
  lemma {:induction false} MutualNeverDrains(w: World, a: Key, b: Key, n: nat) returns (steps: seq<Step>)
    requires Mutual(w, a, b)
    ensures |steps| == 4 * n && Working(w, steps) && Mutual(Final(w, steps), a, b)
    decreases n
  {
    if n == 0 {
      steps := [];
    } else {
      RoundRepeats(w, a, b);
      var rest := MutualNeverDrains(Final(w, Round(a, b)), a, b, n - 1);
      WorkingJoins(w, Round(a, b), rest);
      steps := Round(a, b) + rest;
    }
  }

  /** Such imports are a cycle. */
  lemma MutualIsCycle(w: World, a: Key, b: Key)
    requires Mutual(w, a, b)
    ensures !NoCycle(w)
  {
    assert Ancestor(w, a, 1) == Some(b);
    assert Ancestor(w, a, 2) == Some(a);
  }

  /** A cluster that gets there with the warm-up: each namespace exports its secret to the other and imports the
      other's. */
  const TWINS := World(
    map[DB := Export(1, None, Spec("b", [], []), false, NO_STATUS),
        COPY := Export(1, None, Spec("a", [], []), false, NO_STATUS)],
    map[DB := Secret(DB, 1, "Opaque", map["password" := [115]], Meta(map[], map[], None)),
        COPY := Secret(COPY, 2, "Opaque", map["password" := [116]], Meta(map[], map[], None))],
    map[DB := Import("b", false, map[], map[]), COPY := Import("a", false, map[], map[])],
    map["a" := OPEN, "b" := OPEN], map[], 3, map[], false, {DB, COPY}, {DB, COPY})

  lemma TwinsStart()
    ensures Init(TWINS)
  {
  }

  lemma TwinsFeed(i: Key, k: Key)
    requires (i == DB && k == COPY) || (i == COPY && k == DB)
    ensures Feeds(Next(TWINS, RunWarmUp(WARM_UP_OK)), i, k)
  {
    assert StaticToNamespaces(TWINS.exports[DB].spec) == ["b"] && StaticToNamespaces(TWINS.exports[COPY].spec) == ["a"];
    WarmUpReachesIdeal(TWINS, k);
  }

  lemma TwinsAreMutual()
    ensures Init(TWINS) && Mutual(Next(TWINS, RunWarmUp(WARM_UP_OK)), DB, COPY)
  {
    TwinsStart();
    InitCoherent(TWINS);
    WarmUpCoherent(TWINS, WARM_UP_OK);
    TwinsFeed(DB, COPY);
    TwinsFeed(COPY, DB);
    TwinsWarm(Next(TWINS, RunWarmUp(WARM_UP_OK)));
  }

  lemma TwinsWarm(w: World)
    requires w == TWINS.(warmed := true, cache := w.cache) && Sane(w) && Feeds(w, DB, COPY) && Feeds(w, COPY, DB)
    ensures Mutual(w, DB, COPY)
  {
    assert TWINS.secrets[DB].data["password"] != TWINS.secrets[COPY].data["password"];
  }
}
