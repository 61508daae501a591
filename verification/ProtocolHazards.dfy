/** The invariant is exact: from every state without it, and so after every hazard, a run in which no call fails
    ends with an import whose copy is out of date and which nothing will mend. */
module ProtocolHazards {
  import opened Kube
  import opened ExportSpec
  import opened Protocol
  import opened ProtocolCache
  import opened ProtocolSafety

  const EXPORT_OK := ExportApi(true, None, true, true)
  const IMPORT_OK := ImportApi(true, true, true, true, true, true)
  const WARM_UP_OK := WarmUpApi(true, {})

  /** Every API call of the step succeeds. */
  predicate Flawless(step: Step) {
    match step
    case RemoveExport(_, listOk) => listOk
    case SetNamespace(_, _, listOk) => listOk
    case RunWarmUp(api) => api == WARM_UP_OK
    case RunExport(_, api) => api == EXPORT_OK
    case RunImport(_, api) => api == IMPORT_OK
    case _ => true
  }

  /** A run without hazards and without failures. */
  ghost predicate Smooth(w: World, steps: seq<Step>) {
    Calm(w, steps) && forall j :: 0 <= j < |steps| ==> Flawless(steps[j])
  }

  lemma {:induction false} Extend(w: World, steps: seq<Step>, step: Step)
    requires Calm(w, steps)
    requires Enabled(Final(w, steps), step) && !Hazard(Final(w, steps), step)
    ensures Calm(w, steps + [step]) && Final(w, steps + [step]) == Next(Final(w, steps), step)
    decreases |steps|
  {
    if steps == [] {
      assert steps + [step] == [step];
      assert [step][1..] == [];
    } else {
      Extend(Next(w, steps[0]), steps[1..], step);
      assert (steps + [step])[0] == steps[0] && (steps + [step])[1..] == steps[1..] + [step];
    }
  }

  /** A step appended to a smooth run. */
  lemma Go(w: World, steps: seq<Step>, step: Step) returns (longer: seq<Step>)
    requires Smooth(w, steps) && Flawless(step)
    requires Enabled(Final(w, steps), step) && !Hazard(Final(w, steps), step)
    ensures longer == steps + [step] && Smooth(w, longer) && Final(w, longer) == Next(Final(w, steps), step)
  {
    longer := steps + [step];
    Extend(w, steps, step);
  }

  // ---- steps that are no hazard ----

  lemma ExportIsCalm(w: World, k: Key)
    requires !Terminating(w, k)
    ensures !Hazard(w, RunExport(k, EXPORT_OK))
  {
  }

  lemma ImportIsCalm(w: World, i: Key)
    requires i in w.imports && Source(i, w.imports[i]) != i
    ensures !Hazard(w, RunImport(i, IMPORT_OK))
  {
    ReadsDoNotSlip(w, i, IMPORT_OK);
  }

  lemma FlipIsCalm(w: World, ns: string, n: Namespace)
    requires Sane(w) && (Flips(w, ns, n) || ns !in w.namespaces || w.namespaces[ns] == n)
    ensures !Hazard(w, SetNamespace(ns, n, true))
  {
  }

  // ---- an import set up for the purpose ----

  /** What the runs below leave alone about export `k` while an import of it is set up. */
  ghost predicate SameFor(w: World, w': World, k: Key) {
    && w'.warmed == w.warmed && w'.blank == w.blank
    && Lookup(w'.exports, k) == Lookup(w.exports, k) && Lookup(w'.secrets, k) == Lookup(w.secrets, k)
    && Lookup(w'.cache, k) == Lookup(w.cache, k) && (k in w.exportQ <==> k in w'.exportQ)
  }

  /** A run that gives a namespace the fields `f`, unexcluded, and queues whoever reads it. */
  lemma OpenNamespace(w: World, k: Key, ns: string, f: Fields) returns (steps: seq<Step>)
    requires Sane(w) && SameKeys(f, w.blank)
    ensures Smooth(w, steps)
    ensures
      var w' := Final(w, steps);
      SameFor(w, w', k) && w'.secrets == w.secrets && ns in w'.namespaces && w'.namespaces[ns] == Namespace(false, f)
  {
    var shut := Namespace(true, if ns in w.namespaces then w.namespaces[ns].fields else w.blank);
    FlipIsCalm(w, ns, shut);
    steps := Go(w, [], SetNamespace(ns, shut, true));
    var w1 := Final(w, steps);
    assert w1.namespaces[ns] == shut;
    assert Sane(w1);
    FlipIsCalm(w1, ns, Namespace(false, f));
    steps := Go(w, steps, SetNamespace(ns, Namespace(false, f), true));
  }

  /** A run that sets up a fresh import of `k` in such a namespace, with no destination yet. */
  lemma FreshImport(w: World, k: Key, ns: string, f: Fields) returns (steps: seq<Step>)
    requires Sane(w) && SameKeys(f, w.blank) && ns != k.ns
    ensures Smooth(w, steps)
    ensures
      var w', i := Final(w, steps), Key(ns, k.name);
      && SameFor(w, w', k)
      && Truth(w', ns) == View(false, f) && i in w'.importQ && i !in w'.secrets
      && i in w'.imports && w'.imports[i] == Import(k.ns, false, map[], map[])
  {
    var i := Key(ns, k.name);
    steps := OpenNamespace(w, k, ns, f);
    var w1 := Final(w, steps);
    if i in w1.secrets {
      steps := Go(w, steps, RemoveSecret(i));
      assert Final(w, steps) == DeleteSecret(w1, i);
    }
    var w2 := Final(w, steps);
    assert SameFor(w, w2, k) && ns in w2.namespaces && i !in w2.secrets;
    steps := Go(w, steps, StoreImport(i, Import(k.ns, false, map[], map[])));
  }

  lemma CopyStep(w: World, i: Key, src: Secret)
    requires Active(w, i) && SeenOffer(w, i, IMPORT_OK) == Some(src) && i !in w.secrets
    ensures ReconcileImport(w, i, IMPORT_OK) == PutSecret(w, CopyFor(i, w.imports[i], src, 0))
  {
  }

  lemma InSyncStep(w: World, i: Key, src: Secret)
    requires Active(w, i) && SeenOffer(w, i, IMPORT_OK) == Some(src)
    requires i in w.secrets && w.secrets[i].(rv := 0) == CopyFor(i, w.imports[i], src, 0)
    ensures ReconcileImport(w, i, IMPORT_OK) == Dequeue(w, i)
  {
  }

  /** A run after which a fresh import of `k` holds a copy of the cached entry, and is not queued. */
  lemma CopiedImport(w: World, k: Key, ns: string, f: Fields) returns (steps: seq<Step>)
    requires Sane(w) && SameKeys(f, w.blank) && ns != k.ns && k.ns != ""
    requires w.warmed && k in w.cache && OfferedTo(w.cache[k].spec, ns, View(false, f))
    ensures Smooth(w, steps)
    ensures
      var w', i := Final(w, steps), Key(ns, k.name);
      && SameFor(w, w', k)
      && Truth(w', ns) == View(false, f) && i !in w'.importQ && i in w'.secrets
      && i in w'.imports && w'.imports[i] == Import(k.ns, false, map[], map[])
  {
    var i := Key(ns, k.name);
    steps := FreshImport(w, k, ns, f);
    var w1 := Final(w, steps);
    var copy := CopyFor(i, w1.imports[i], w.cache[k].secret, 0);
    assert SeenOffer(w1, i, IMPORT_OK) == Some(w.cache[k].secret);
    ImportIsCalm(w1, i);
    CopyStep(w1, i, w.cache[k].secret);
    steps := Go(w, steps, RunImport(i, IMPORT_OK));
    var w2 := Final(w, steps);
    ImportIsCalm(w2, i);
    InSyncStep(w2, i, w.cache[k].secret);
    steps := Go(w, steps, RunImport(i, IMPORT_OK));
  }

  // ---- a perilous export ----

  /** A reconcile of an export whose secret is missing and whose status says so. */
  lemma SilentDrop(w: World, k: Key)
    requires SaysMissing(w, k) && k !in w.secrets
    ensures ReconcileExport(w, k, EXPORT_OK) == DequeueExport(SetCache(w, k, None), k)
  {
  }

  /** A reconcile that caches a secret of which the status tells already. */
  lemma SilentGain(w: World, k: Key)
    requires Live(w, k) && Ideal(w, k).Some? && w.exports[k].status == StatusNow(w, k)
    ensures ReconcileExport(w, k, EXPORT_OK) == DequeueExport(SetCache(w, k, Ideal(w, k)), k)
  {
  }

  lemma CopyForgotten(w: World, k: Key, ns: string, w': World)
    requires w.warmed && ns != k.ns && k.ns != "" && Key(ns, k.name) !in w.importQ
    requires
      var i := Key(ns, k.name);
      i in w.imports && i in w.secrets && w.imports[i] == Import(k.ns, false, map[], map[])
    requires k !in w.secrets && w' == DequeueExport(SetCache(w, k, None), k)
    ensures Forgotten(w', Key(ns, k.name))
  {
  }

  /** The cache holds a secret the status calls missing: once it is deleted its copies are forgotten. */
  lemma MissingIsForgotten(w: World, k: Key, ns: string, f: Fields) returns (steps: seq<Step>)
    requires Coherent(w) && w.warmed && SaysMissing(w, k) && k in w.cache && OutsideTo(w, k, ns, f)
    ensures Smooth(w, steps) && Forgotten(Final(w, steps), Key(ns, k.name))
  {
    assert EntryOk(w, k);
    steps := CopiedImport(w, k, ns, f);
    var w1 := Final(w, steps);
    if k in w1.secrets {
      steps := Go(w, steps, RemoveSecret(k));
      assert Final(w, steps) == DeleteSecret(w1, k);
    }
    var w2 := Final(w, steps);
    assert SaysMissing(w2, k) && k in w2.exportQ;
    ExportIsCalm(w2, k);
    SilentDrop(w2, k);
    steps := Go(w, steps, RunExport(k, EXPORT_OK));
    CopyForgotten(w2, k, ns, Final(w, steps));
  }

  /** The status calls a secret available that is not cached: an import is left without its copy. */
  lemma AvailableIsForgotten(w: World, k: Key, ns: string, f: Fields) returns (steps: seq<Step>)
    requires Coherent(w) && w.warmed && Live(w, k) && k !in w.cache && OutsideTo(w, k, ns, f)
    requires Ideal(w, k).Some? && w.exports[k].status == StatusNow(w, k)
    ensures Smooth(w, steps) && Forgotten(Final(w, steps), Key(ns, k.name))
  {
    assert EntryOk(w, k);
    var i := Key(ns, k.name);
    steps := FreshImport(w, k, ns, f);
    var w1 := Final(w, steps);
    ImportIsCalm(w1, i);
    steps := Go(w, steps, RunImport(i, IMPORT_OK));
    var w2 := Final(w, steps);
    assert w2 == Dequeue(w1, i);
    ExportIsCalm(w2, k);
    SilentGain(w2, k);
    steps := Go(w, steps, RunExport(k, EXPORT_OK));
  }

  /** The cache holds the secret of an export that is being deleted and was reconciled before: imports still copy
      it. */
  lemma LingeringIsForgotten(w: World, k: Key, ns: string, f: Fields) returns (steps: seq<Step>)
    requires Coherent(w) && w.warmed && Terminating(w, k) && k in w.cache && k !in w.exportQ && OutsideTo(w, k, ns, f)
    ensures Smooth(w, steps) && Forgotten(Final(w, steps), Key(ns, k.name))
  {
    assert EntryOk(w, k);
    steps := CopiedImport(w, k, ns, f);
  }

  lemma PerilIsForgotten(w: World, k: Key) returns (steps: seq<Step>, i: Key)
    requires Coherent(w) && w.warmed && Perilous(w, k)
    ensures Smooth(w, steps) && Forgotten(Final(w, steps), i)
  {
    var ns, f :| OutsideTo(w, k, ns, f);
    i := Key(ns, k.name);
    if SaysMissing(w, k) && k in w.cache {
      steps := MissingIsForgotten(w, k, ns, f);
    } else if Live(w, k) {
      steps := AvailableIsForgotten(w, k, ns, f);
    } else {
      steps := LingeringIsForgotten(w, k, ns, f);
    }
  }

  // ---- an import left behind ----

  /** What the cluster offers the import is what decided about it. */
  lemma DueIsOffered(w: World, i: Key)
    requires Coherent(w) && i in w.imports
    requires
      var k := Source(i, w.imports[i]);
      !Perilous(w, k) && (Live(w, k) ==> !Obsolete(w, k) && (SaysMissing(w, k) ==> k !in w.secrets))
      && (Terminating(w, k) ==> k !in w.exportQ)
    ensures Correct(w, i) <==> InOrder(w, i)
  {
    var k := Source(i, w.imports[i]);
    assert EntryOk(w, k);
    if k != i {
      if Live(w, k) {
        SameOffers(w, k, i);
      } else if k in w.cache && k in w.exports && !Outside(w, k) && w.cache[k].spec == w.exports[k].spec {
        NotOutside(w, i, k, w.cache[k]);
      }
    }
  }

  /** An import that is out of order, not queued and not to be told: its source is reconciled in silence, if need be
      after its secret is gone, and the import is forgotten. */
  lemma StuckIsForgotten(w: World, i: Key) returns (steps: seq<Step>)
    requires Coherent(w) && w.warmed && Unqueued(w, i) && !InOrder(w, i) && !Told(w, i)
    requires forall k :: !Perilous(w, k)
    ensures Smooth(w, steps) && Forgotten(Final(w, steps), i)
  {
    var k := Source(i, w.imports[i]);
    assert EntryOk(w, k);
    steps := [];
    if k !in w.exportQ {
      SettledDue(w, i);
    } else if SaysMissing(w, k) && k in w.secrets {
      steps := StuckOnMissing(w, i, k);
    } else {
      DueIsOffered(w, i);
      ExportIsCalm(w, k);
      steps := Go(w, steps, RunExport(k, EXPORT_OK));
      assert Final(w, steps) == DequeueExport(SetCache(w, k, Ideal(w, k)), k);
    }
  }

  lemma SettledDue(w: World, i: Key)
    requires Coherent(w) && i in w.imports
    requires Source(i, w.imports[i]) !in w.exportQ && !Perilous(w, Source(i, w.imports[i]))
    ensures Correct(w, i) <==> InOrder(w, i)
  {
    var k := Source(i, w.imports[i]);
    assert EntryOk(w, k);
    if k != i && k in w.cache && k in w.exports && !Outside(w, k) && w.cache[k].spec == w.exports[k].spec {
      NotOutside(w, i, k, w.cache[k]);
    }
  }

  lemma StuckOnMissing(w: World, i: Key, k: Key) returns (steps: seq<Step>)
    requires Coherent(w) && w.warmed && Unqueued(w, i) && !InOrder(w, i) && !Told(w, i) && !Perilous(w, k)
    requires k == Source(i, w.imports[i]) && k in w.exportQ && SaysMissing(w, k) && k in w.secrets
    ensures Smooth(w, steps) && Forgotten(Final(w, steps), i)
  {
    assert EntryOk(w, k);
    if k in w.cache { NotOutside(w, i, k, w.cache[k]); }
    steps := Go(w, [], RemoveSecret(k));
    var w1 := Final(w, steps);
    assert w1 == DeleteSecret(w, k);
    ExportIsCalm(w1, k);
    SilentDrop(w1, k);
    steps := Go(w, steps, RunExport(k, EXPORT_OK));
    DropForgotten(w1, i, k, Final(w, steps));
  }

  lemma DropForgotten(w: World, i: Key, k: Key, w': World)
    requires w.warmed && Unqueued(w, i) && k == Source(i, w.imports[i]) && i in w.secrets && k !in w.secrets
    requires w' == DequeueExport(SetCache(w, k, None), k)
    ensures Forgotten(w', i)
  {
  }

  // ---- the theorems ----

  /** No run of possible steps without a hazard forgets an import. */
  ghost predicate NeverForgets(w: World) {
    forall steps, i :: Calm(w, steps) ==> !Forgotten(Final(w, steps), i)
  }

  /** The invariant holds of exactly the states from which no import is ever forgotten. */
  lemma InvIsExact(w: World)
    requires Coherent(w) && w.warmed
    ensures NeverForgets(w) <==> Inv(w)
  {
    if Inv(w) {
      forall steps, i | Calm(w, steps) ensures !Forgotten(Final(w, steps), i) {
        RunKeepsInv(w, steps);
        InvForgetsNothing(Final(w, steps), i);
      }
    } else {
      var steps, i := NoInvForgets(w);
    }
  }

  lemma NoInvForgets(w: World) returns (steps: seq<Step>, i: Key)
    requires Coherent(w) && w.warmed && !Inv(w)
    ensures Smooth(w, steps) && Forgotten(Final(w, steps), i)
  {
    if k :| Perilous(w, k) {
      steps, i := PerilIsForgotten(w, k);
    } else {
      i :| !ImportOk(w, i);
      steps := StuckIsForgotten(w, i);
    }
  }

  lemma HazardIsWarm(w: World, step: Step)
    requires Inv(w) && Enabled(w, step) && Hazard(w, step)
    ensures Next(w, step).warmed
  {
    if i :| ImportHazard(w, step, i) { assert ImportOk(w, i); }
  }

  /** After any hazard a run in which no call fails leaves an import forgotten. */
  lemma HazardForgets(w: World, step: Step) returns (steps: seq<Step>, i: Key)
    requires Inv(w) && Enabled(w, step) && Hazard(w, step)
    ensures Smooth(Next(w, step), steps) && Forgotten(Final(Next(w, step), steps), i)
  {
    HazardIsWarm(w, step);
    StepKeepsInv(w, step);
    StepCoherent(w, step);
    steps, i := NoInvForgets(Next(w, step));
  }

  /** So a step is safe for every future exactly when it is no hazard. */
  lemma SafeIffNoHazard(w: World, step: Step)
    requires Inv(w) && Enabled(w, step)
    ensures NeverForgets(Next(w, step)) <==> !Hazard(w, step)
  {
    if Hazard(w, step) {
      var steps, i := HazardForgets(w, step);
    } else {
      StepKeepsInv(w, step);
      forall steps, i | Calm(Next(w, step), steps) ensures !Forgotten(Final(Next(w, step), steps), i) {
        RunKeepsInv(Next(w, step), steps);
        InvForgetsNothing(Final(Next(w, step), steps), i);
      }
    }
  }

  /** Deleting an export that a finalizer holds: with no call failing, the drop of its entry is a hazard, and a copy
      made before stays, unqueued. */
  lemma TerminatingForgets(w: World, k: Key, ns: string, f: Fields) returns (steps: seq<Step>, i: Key)
    requires Inv(w) && w.warmed && Live(w, k) && k !in w.exportQ
    requires Ideal(w, k).Some? && OutsideTo(w, k, ns, f)
    ensures Smooth(w, steps) && Enabled(Final(w, steps), RunExport(k, EXPORT_OK))
    ensures ImportHazard(Final(w, steps), RunExport(k, EXPORT_OK), i)
    ensures Forgotten(Next(Final(w, steps), RunExport(k, EXPORT_OK)), i)
  {
    assert EntryOk(w, k);
    i := Key(ns, k.name);
    steps := CopiedImport(w, k, ns, f);
    var w1 := Final(w, steps);
    steps := Go(w, steps, MarkExportDeleted(k));
    assert Final(w, steps) == StoreExport(w1, k, w1.exports[k].(terminating := true));
  }

  // ---- concrete clusters ----

  const DB := Key("a", "db")
  const COPY := Key("b", "db")
  const OPEN := Namespace(false, map[])

  /** The last controller saw the export without its secret; the secret came while no controller was running. */
  const RESTART := World(
    map[DB := Export(1, None, Spec("b", [], []), false, MissingStatus(1))],
    map[DB := Secret(DB, 7, "Opaque", map["password" := [115]], Meta(map[], map[], None))],
    map[], map["a" := OPEN, "b" := OPEN], map[], 8, map[], false, {DB}, {})

  /** No call fails from the start, and a copy is forgotten all the same. */
  lemma RestartForgets() returns (steps: seq<Step>, i: Key)
    ensures Init(RESTART) && Enabled(RESTART, RunWarmUp(WARM_UP_OK))
    ensures Smooth(Next(RESTART, RunWarmUp(WARM_UP_OK)), steps)
    ensures Forgotten(Final(Next(RESTART, RunWarmUp(WARM_UP_OK)), steps), i)
  {
    InitInv(RESTART);
    assert StaticToNamespaces(RESTART.exports[DB].spec) == ["b"];
    WarmUpLookup(RESTART, DB, WARM_UP_OK);
    assert SameKeys(map[], RESTART.blank);
    assert OutsideTo(RESTART, DB, "b", map[]);
    assert ExportHazard(RESTART, RunWarmUp(WARM_UP_OK), DB);
    steps, i := HazardForgets(RESTART, RunWarmUp(WARM_UP_OK));
  }

  /** A copy of a secret that is no longer exported. */
  const LEFTOVER := World(
    map[], map[COPY := Secret(COPY, 7, "Opaque", map["password" := [115]], Meta(map[], map[], Some(COPY)))],
    map[COPY := Import("a", false, map[], map[])], map["a" := OPEN, "b" := OPEN], map[], 8, map[], false, {}, {COPY})

  /** One failed read of the copy, and it is never deleted. */
  lemma UnreadCopyStays()
    ensures Init(LEFTOVER) && Enabled(LEFTOVER, RunWarmUp(WARM_UP_OK))
    ensures
      var w, api := Next(LEFTOVER, RunWarmUp(WARM_UP_OK)), IMPORT_OK.(destOk := false);
      && Enabled(w, RunImport(COPY, api)) && Forgotten(Next(w, RunImport(COPY, api)), COPY)
  {
  }

  /** An export that is being deleted, valid and with its secret. */
  const ENDING := World(
    map[DB := Export(1, None, Spec("b", [], []), true, NO_STATUS)],
    map[DB := Secret(DB, 7, "Opaque", map["password" := [115]], Meta(map[], map[], None))],
    map[], map["a" := OPEN, "b" := OPEN], map[], 8, map[], false, {DB}, {})

  /** The same two calls in either order empty the queue over the same cluster, and leave different caches. */
  lemma OrderShows()
    ensures Init(ENDING)
    ensures
      var a, b := [RunWarmUp(WARM_UP_OK), RunExport(DB, EXPORT_OK)], [RunExport(DB, EXPORT_OK), RunWarmUp(WARM_UP_OK)];
      && Possible(ENDING, a) && Possible(ENDING, b)
      && Final(ENDING, a).exportQ == Final(ENDING, b).exportQ == {}
      && Final(ENDING, a).exports == Final(ENDING, b).exports && Final(ENDING, a).secrets == Final(ENDING, b).secrets
      && DB !in Final(ENDING, a).cache && DB in Final(ENDING, b).cache
  {
    assert StaticToNamespaces(ENDING.exports[DB].spec) == ["b"];
    var up, down := RunWarmUp(WARM_UP_OK), RunExport(DB, EXPORT_OK);
    var w1 := Next(ENDING, down);
    WarmUpLookup(ENDING, DB, WARM_UP_OK);
    WarmUpLookup(w1, DB, WARM_UP_OK);
    TwoSteps(ENDING, up, down);
    TwoSteps(ENDING, down, up);
  }

  lemma TwoSteps(w: World, a: Step, b: Step)
    requires Enabled(w, a) && Enabled(Next(w, a), b)
    ensures Possible(w, [a, b]) && Final(w, [a, b]) == Next(Next(w, a), b)
  {
    assert [a, b][0] == a && [a, b][1..] == [b] && [b][0] == b && [b][1..] == [];
    assert Final(Next(w, a), [b]) == Final(Next(Next(w, a), b), []);
  }
}
