/** What every possible run keeps, whichever calls fail and whatever goes unannounced: the cache follows the
    cluster. */
module ProtocolCache {
  import opened Kube
  import opened ExportSpec
  import opened ExportedSecrets
  import opened Protocol

  function StatusNow(w: World, k: Key): ExportStatus
    requires k in w.exports
  {
    StatusAfter(w, k, None)
  }

  /** The status says the secret is missing from the current spec's export. */
  predicate SaysMissing(w: World, k: Key) {
    Live(w, k) && ValidSpec(w.exports[k].spec) && w.exports[k].status == MissingStatus(w.exports[k].generation)
  }

  predicate SameOffer(a: ExportedSecret, b: ExportedSecret) {
    a.spec == b.spec && a.secret == b.secret
  }

  /** The entry of one export: as the cluster has it unless the export is queued or was warmed up while it was being
      deleted, and never ahead of what a current status says. */
  ghost predicate EntryOk(w: World, k: Key) {
    var c, want := Lookup(w.cache, k), Ideal(w, k);
    && (k !in w.exportQ ==> c == want || (Terminating(w, k) && c.Some? && c.value.spec == w.exports[k].spec))
    && (k !in w.exports ==> c.None?)
    && (c.Some? && want.Some? && !SameOffer(c.value, want.value) ==> w.exports[k].status != StatusNow(w, k))
    && (Live(w, k) && !ValidSpec(w.exports[k].spec) && w.exports[k].status == StatusNow(w, k) ==> c.None?)
    && (SaysMissing(w, k) && c.Some? ==> c.value.spec == w.exports[k].spec)
  }

  ghost predicate Coherent(w: World) {
    Sane(w) && forall k :: EntryOk(w, k)
  }

  /** An entry is unaffected by a step that leaves its export, its secret and itself alone and does not take the
      export off the queue. */
  lemma EntryKept(w: World, w': World, k: Key)
    requires EntryOk(w, k)
    requires Lookup(w'.exports, k) == Lookup(w.exports, k) && Lookup(w'.secrets, k) == Lookup(w.secrets, k)
    requires Lookup(w'.cache, k) == Lookup(w.cache, k)
    requires k in w.exportQ ==> k in w'.exportQ
    ensures EntryOk(w', k)
  {
  }

  /** A step that concerns the entry of one export only. */
  lemma OneEntry(w: World, w': World, x: Key)
    requires Coherent(w) && Sane(w') && EntryOk(w', x)
    requires forall k :: k != x ==>
               && Lookup(w'.exports, k) == Lookup(w.exports, k) && Lookup(w'.secrets, k) == Lookup(w.secrets, k)
               && Lookup(w'.cache, k) == Lookup(w.cache, k) && (k in w.exportQ ==> k in w'.exportQ)
    ensures Coherent(w')
  {
    forall k | k != x ensures EntryOk(w', k) { EntryKept(w, w', k); }
  }

  lemma PutSecretCoherent(w: World, s: Secret)
    requires Coherent(w)
    ensures Coherent(PutSecret(w, s))
  {
    assert EntryOk(w, s.key);
    OneEntry(w, PutSecret(w, s), s.key);
  }

  lemma DeleteSecretCoherent(w: World, d: Key)
    requires Coherent(w)
    ensures Coherent(DeleteSecret(w, d))
  {
    assert EntryOk(w, d);
    OneEntry(w, DeleteSecret(w, d), d);
  }

  /** What the API server makes of an edit: a new export has no status, an existing one keeps its status, and its spec
      changes only together with its generation. */
  predicate ExportEdit(w: World, k: Key, e: Export) {
    if k !in w.exports then k.ns != "" && e.generation > 0 && e.status == NO_STATUS
    else
      var was := w.exports[k];
      && e.status == was.status && (was.terminating ==> e.terminating)
      && (e.generation > was.generation || (e.generation == was.generation && e.spec == was.spec))
  }

  lemma StoreExportCoherent(w: World, k: Key, e: Export)
    requires Coherent(w) && ExportEdit(w, k, e)
    ensures Coherent(StoreExport(w, k, e))
  {
    assert EntryOk(w, k);
    OneEntry(w, StoreExport(w, k, e), k);
  }

  lemma RemoveExportCoherent(w: World, k: Key, listOk: bool)
    requires Coherent(w) && k in w.exports
    ensures Coherent(Next(w, RemoveExport(k, listOk)))
  {
    OneEntry(w, Next(w, RemoveExport(k, listOk)), k);
  }

  lemma SetCacheCoherent(w: World, x: Key, getFails: bool)
    requires Coherent(w) && Live(w, x) && x in w.exportQ
    ensures Coherent(SetCache(w, x, CachedAfter(w, x, getFails)))
  {
    assert EntryOk(w, x);
    OneEntry(w, SetCache(w, x, CachedAfter(w, x, getFails)), x);
  }

  /** What a reconcile leaves that writes its status. */
  function Written(w: World, x: Key, secretErr: Option<string>, listOk: bool): World
    requires x in w.exports
  {
    NewStatus(SetCache(w, x, CachedAfter(w, x, secretErr.Some?)), x, StatusAfter(w, x, secretErr), listOk)
  }

  lemma NewStatusEntry(w: World, x: Key, secretErr: Option<string>, w': World)
    requires EntryOk(w, x) && Live(w, x) && x in w'.exportQ && w'.secrets == w.secrets
    requires Lookup(w'.exports, x) == Some(w.exports[x].(status := StatusAfter(w, x, secretErr)))
    requires Lookup(w'.cache, x) == CachedAfter(w, x, secretErr.Some?)
    ensures EntryOk(w', x)
  {
  }

  lemma NewStatusSane(w: World, x: Key, e: Option<ExportedSecret>, s: ExportStatus, w': World)
    requires Sane(w) && x in w.exports && (e.Some? ==> e.value.secret.key == x)
    requires s.observedGeneration <= w.exports[x].generation && (s.observedRV.Some? ==> s.observedRV.value < w.nextRV)
    requires w' == NewStatus(SetCache(w, x, e), x, s, true) || w' == NewStatus(SetCache(w, x, e), x, s, false)
    ensures Sane(w')
  {
  }

  lemma NewStatusCoherent(w: World, x: Key, secretErr: Option<string>, listOk: bool)
    requires Coherent(w) && Live(w, x)
    ensures Coherent(Written(w, x, secretErr, listOk))
  {
    assert EntryOk(w, x);
    var w' := Written(w, x, secretErr, listOk);
    NewStatusEntry(w, x, secretErr, w');
    NewStatusSane(w, x, CachedAfter(w, x, secretErr.Some?), StatusAfter(w, x, secretErr), w');
    OneEntry(w, w', x);
  }

  lemma DropCoherent(w: World, x: Key)
    requires Coherent(w) && !Live(w, x)
    ensures Coherent(DequeueExport(SetCache(w, x, None), x))
  {
    OneEntry(w, DequeueExport(SetCache(w, x, None), x), x);
  }

  lemma ReconcileExportCoherent(w: World, x: Key, api: ExportApi)
    requires Coherent(w) && x in w.exportQ
    ensures Coherent(ReconcileExport(w, x, api))
  {
    if api.getOk && !Live(w, x) {
      DropCoherent(w, x);
    } else if api.getOk {
      var w1 := SetCache(w, x, CachedAfter(w, x, api.secretErr.Some?));
      SetCacheCoherent(w, x, api.secretErr.Some?);
      if api.statusOk {
        if StatusAfter(w, x, api.secretErr) != w.exports[x].status {
          NewStatusCoherent(w, x, api.secretErr, api.listOk);
        } else if !Fails(w, x, api) {
          OneEntry(w1, DequeueExport(w1, x), x);
        }
      }
    }
  }

  lemma ImportsEditedCoherent(w: World, w': World)
    requires Coherent(w) && Sane(w') && w'.exports == w.exports && w'.secrets == w.secrets && w'.cache == w.cache
    requires w.exportQ <= w'.exportQ
    ensures Coherent(w')
  {
    forall k ensures EntryOk(w', k) { EntryKept(w, w', k); }
  }

  lemma SyncCoherent(w: World, i: Key, api: ImportApi)
    requires Coherent(w) && i in w.imports
    ensures Coherent(SyncDestination(w, i, api).0)
  {
    match SeenOffer(w, i, api)
    case None => DeleteSecretCoherent(w, i);
    case Some(src) => PutSecretCoherent(w, CopyFor(i, w.imports[i], src, 0));
  }

  lemma DequeueCoherent(w: World, i: Key)
    requires Coherent(w)
    ensures Coherent(Dequeue(w, i))
  {
    ImportsEditedCoherent(w, Dequeue(w, i));
  }

  lemma ReconcileImportCoherent(w: World, i: Key, api: ImportApi)
    requires Coherent(w)
    ensures Coherent(ReconcileImport(w, i, api))
  {
    if api.getOk && Active(w, i) {
      SyncCoherent(w, i, api);
      DequeueCoherent(SyncDestination(w, i, api).0, i);
    } else {
      DequeueCoherent(w, i);
    }
  }

  lemma WarmUpLookup(w: World, k: Key, api: WarmUpApi)
    requires k !in w.exports ==> k !in w.cache
    ensures Lookup(WarmUp(w, api).cache, k) == CachedAfterWarmUp(w, k, api)
  {
  }

  lemma WarmUpEntry(w: World, w': World, k: Key, api: WarmUpApi)
    requires EntryOk(w, k) && Lookup(w'.cache, k) == CachedAfterWarmUp(w, k, api)
    requires w'.exports == w.exports && w'.secrets == w.secrets && w'.exportQ == w.exportQ
    ensures EntryOk(w', k)
  {
  }

  lemma WarmUpCoherent(w: World, api: WarmUpApi)
    requires Coherent(w)
    ensures Coherent(WarmUp(w, api))
  {
    forall k ensures EntryOk(WarmUp(w, api), k) {
      assert EntryOk(w, k);
      WarmUpLookup(w, k, api);
      WarmUpEntry(w, WarmUp(w, api), k, api);
    }
  }

  /** Every step that is possible at all keeps the cache coherent. */
  lemma StepCoherent(w: World, step: Step)
    requires Coherent(w) && Enabled(w, step)
    ensures Coherent(Next(w, step))
  {
    match step
    case CreateExport(k, weight, spec) => StoreExportCoherent(w, k, Export(1, weight, spec, false, NO_STATUS));
    case UpdateExport(k, weight, spec) =>
      var e := w.exports[k];
      var generation := if spec == e.spec then e.generation else e.generation + 1;
      StoreExportCoherent(w, k, e.(generation := generation, weight := weight, spec := spec));
    case MarkExportDeleted(k) => StoreExportCoherent(w, k, w.exports[k].(terminating := true));
    case RemoveExport(k, listOk) => RemoveExportCoherent(w, k, listOk);
    case StoreSecret(k, typ, data, meta) => PutSecretCoherent(w, Secret(k, 0, typ, data, meta));
    case RemoveSecret(k) => DeleteSecretCoherent(w, k);
    case RunWarmUp(api) => WarmUpCoherent(w, api);
    case RunExport(k, api) => ReconcileExportCoherent(w, k, api);
    case RunImport(i, api) => ReconcileImportCoherent(w, i, api);
    case _ => ImportsEditedCoherent(w, Next(w, step));
  }

  // ---- runs ----

  /** Each step of the run can be taken. */
  ghost predicate Possible(w: World, steps: seq<Step>)
    decreases |steps|
  {
    steps == [] || (Enabled(w, steps[0]) && Possible(Next(w, steps[0]), steps[1..]))
  }

  /** Where a run ends. */
  ghost function Final(w: World, steps: seq<Step>): World
    decreases |steps|
  {
    if steps == [] || !Enabled(w, steps[0]) then w else Final(Next(w, steps[0]), steps[1..])
  }

  lemma InitCoherent(w: World)
    requires Init(w)
    ensures Coherent(w)
  {
  }

  lemma {:induction false} RunCoherent(w: World, steps: seq<Step>)
    requires Coherent(w) && Possible(w, steps)
    ensures Coherent(Final(w, steps))
    decreases |steps|
  {
    if steps != [] {
      StepCoherent(w, steps[0]);
      RunCoherent(Next(w, steps[0]), steps[1..]);
    }
  }

  // ---- exports that are being deleted ----

  /** The secret of an export that is being deleted is cached, and no reconcile is due to drop it. */
  predicate Lingers(w: World, k: Key) {
    Terminating(w, k) && k !in w.exportQ && k in w.cache
  }

  /** An export that is not queued is cached as the cluster has it, unless it lingers. */
  lemma SettledUnlessLingering(w: World, k: Key)
    requires Coherent(w) && k !in w.exportQ
    ensures Lookup(w.cache, k) == Ideal(w, k) <==> !Lingers(w, k)
  {
    assert EntryOk(w, k);
  }

  /** The warm-up caches an export that is being deleted and whose own reconcile has been and gone. */
  predicate WarmsLate(w: World, step: Step, k: Key) {
    step.RunWarmUp? && Terminating(w, k) && k !in w.exportQ && CachedAfterWarmUp(w, k, step.warm).Some?
  }

  lemma WarmUpLingers(w: World, api: WarmUpApi, k: Key)
    requires Coherent(w)
    ensures Lingers(WarmUp(w, api), k) <==> WarmsLate(w, RunWarmUp(api), k)
  {
    assert EntryOk(w, k);
    WarmUpLookup(w, k, api);
  }

  lemma LingersKept(w: World, w': World, k: Key)
    requires Lookup(w'.exports, k) == Lookup(w.exports, k) && Lookup(w'.cache, k) == Lookup(w.cache, k)
    ensures Lingers(w', k) <==> Terminating(w, k) && k in w.cache && k !in w'.exportQ
  {
  }

  lemma NewStatusElsewhere(w: World, x: Key, s: ExportStatus, listOk: bool, k: Key)
    requires x in w.exports
    ensures
      var w' := NewStatus(w, x, s, listOk);
      && (k != x ==> Lookup(w'.exports, k) == Lookup(w.exports, k) && (k in w'.exportQ <==> k in w.exportQ))
      && w'.cache == w.cache && (Terminating(w', k) <==> Terminating(w, k))
  {
  }

  lemma FinishElsewhere(w: World, x: Key, s: ExportStatus, api: ExportApi, failed: bool, k: Key)
    requires x in w.exports
    ensures
      var w' := Finish(w, x, s, api, failed);
      && (k != x ==> Lookup(w'.exports, k) == Lookup(w.exports, k) && (k in w'.exportQ <==> k in w.exportQ))
      && w'.cache == w.cache && (Terminating(w', k) <==> Terminating(w, k))
  {
    NewStatusElsewhere(w, x, s, api.listOk, k);
  }

  lemma ReconcileExportLingers(w: World, x: Key, api: ExportApi, k: Key)
    requires x in w.exportQ
    ensures Lingers(ReconcileExport(w, x, api), k) <==> Lingers(w, k)
  {
    if api.getOk && Live(w, x) {
      var w1 := SetCache(w, x, CachedAfter(w, x, api.secretErr.Some?));
      assert k != x ==> Lookup(w1.cache, k) == Lookup(w.cache, k);
      FinishElsewhere(w1, x, StatusAfter(w, x, api.secretErr), api, Fails(w, x, api), k);
    } else if api.getOk {
      var w1 := SetCache(w, x, None);
      assert k != x ==> Lookup(w1.cache, k) == Lookup(w.cache, k);
    }
  }

  lemma ReconcileImportLingers(w: World, i: Key, api: ImportApi, k: Key)
    ensures Lingers(ReconcileImport(w, i, api), k) <==> Lingers(w, k) && k !in ReconcileImport(w, i, api).exportQ
  {
  }

  /** Nothing else makes an export linger, and only its being queued ends it. */
  lemma StepLingers(w: World, step: Step, k: Key)
    requires Coherent(w) && Enabled(w, step)
    ensures Lingers(Next(w, step), k) <==>
            WarmsLate(w, step, k) || (!step.RunWarmUp? && Lingers(w, k) && k !in Next(w, step).exportQ)
  {
    assert EntryOk(w, k);
    match step
    case RunWarmUp(api) => WarmUpLingers(w, api, k);
    case RunExport(x, api) => ReconcileExportLingers(w, x, api, k);
    case RunImport(i, api) => ReconcileImportLingers(w, i, api, k);
    case StoreSecret(_, _, _, _) =>
    case RemoveSecret(_) =>
    case _ => EditLingers(w, step, k);
  }

  lemma EditLingers(w: World, step: Step, k: Key)
    requires EntryOk(w, k) && Enabled(w, step)
    requires !step.RunWarmUp? && !step.RunExport? && !step.RunImport? && !step.StoreSecret? && !step.RemoveSecret?
    ensures Lingers(Next(w, step), k) <==> Lingers(w, k) && k !in Next(w, step).exportQ
  {
  }

  // ---- what the cache is at the end of a run ----

  lemma {:induction false} PrefixStep(w: World, steps: seq<Step>, m: nat)
    requires Possible(w, steps) && m < |steps|
    ensures Possible(w, steps[..m]) && Enabled(Final(w, steps[..m]), steps[m])
    ensures Final(w, steps[..m + 1]) == Next(Final(w, steps[..m]), steps[m])
    decreases |steps|
  {
    var rest := steps[1..];
    if m == 0 {
      assert steps[..1][1..] == [];
    } else {
      PrefixStep(Next(w, steps[0]), rest, m - 1);
      assert steps[..m][1..] == rest[..m - 1] && steps[..m + 1][1..] == rest[..m];
    }
  }

  /** Step j warmed the export up late, and it has not been queued since. */
  ghost predicate WarmedLateAt(w: World, steps: seq<Step>, k: Key, j: int) {
    && 0 <= j < |steps| && WarmsLate(Final(w, steps[..j]), steps[j], k)
    && forall m :: j < m <= |steps| ==> k !in Final(w, steps[..m]).exportQ
  }

  lemma WarmedLateEarlier(w: World, steps: seq<Step>, k: Key, n: nat, j: int)
    requires |steps| == n + 1 && j < n
    ensures WarmedLateAt(w, steps, k, j) <==>
            WarmedLateAt(w, steps[..n], k, j) && k !in Final(w, steps).exportQ
  {
    var before := steps[..n];
    assert steps[..n + 1] == steps;
    forall m | 0 <= m <= n ensures steps[..m] == before[..m] {}
    assert 0 <= j ==> steps[j] == before[j];
  }

  lemma WarmedLateLast(w: World, steps: seq<Step>, k: Key, n: nat)
    requires |steps| == n + 1 && Possible(w, steps)
    ensures WarmedLateAt(w, steps, k, n) <==> WarmsLate(Final(w, steps[..n]), steps[n], k)
  {
    PrefixStep(w, steps, n);
    assert steps[..n + 1] == steps;
  }

  ghost predicate WarmedLate(w: World, steps: seq<Step>, k: Key) {
    exists j :: WarmedLateAt(w, steps, k, j)
  }

  lemma WarmedLateNow(w: World, steps: seq<Step>, k: Key, n: nat)
    requires |steps| == n + 1 && Possible(w, steps)
    ensures WarmedLate(w, steps, k) <==>
            || WarmsLate(Final(w, steps[..n]), steps[n], k)
            || (WarmedLate(w, steps[..n], k) && k !in Final(w, steps).exportQ)
  {
    WarmedLateLast(w, steps, k, n);
    forall j | j < n
      ensures WarmedLateAt(w, steps, k, j) <==> WarmedLateAt(w, steps[..n], k, j) && k !in Final(w, steps).exportQ
    {
      WarmedLateEarlier(w, steps, k, n, j);
    }
    if WarmedLate(w, steps[..n], k) && k !in Final(w, steps).exportQ {
      var j :| WarmedLateAt(w, steps[..n], k, j);
      assert WarmedLateAt(w, steps, k, j);
    }
  }

  lemma FinishStaysWarm(w: World, x: Key, s: ExportStatus, api: ExportApi, failed: bool)
    requires x in w.exports
    ensures Finish(w, x, s, api, failed).warmed == w.warmed
  {
    if api.statusOk && s != w.exports[x].status {
      assert Finish(w, x, s, api, failed) == NewStatus(w, x, s, api.listOk);
    } else if api.statusOk && !failed {
      assert Finish(w, x, s, api, failed) == DequeueExport(w, x);
    } else {
      assert Finish(w, x, s, api, failed) == w;
    }
  }

  lemma ExportStaysWarm(w: World, x: Key, api: ExportApi)
    ensures ReconcileExport(w, x, api).warmed == w.warmed
  {
    if api.getOk && Live(w, x) {
      var w1 := SetCache(w, x, CachedAfter(w, x, api.secretErr.Some?));
      FinishStaysWarm(w1, x, StatusAfter(w, x, api.secretErr), api, Fails(w, x, api));
    }
  }

  lemma ImportStaysWarm(w: World, i: Key, api: ImportApi)
    ensures ReconcileImport(w, i, api).warmed == w.warmed
  {
  }

  lemma StaysWarm(w: World, step: Step)
    requires Enabled(w, step) && (w.warmed || step.RunWarmUp?)
    ensures Next(w, step).warmed
  {
    match step
    case RunExport(k, api) => ExportStaysWarm(w, k, api);
    case RunImport(i, api) => ImportStaysWarm(w, i, api);
    case _ =>
  }

  /** On any run, an export lingers at the end exactly when it was warmed up late and not queued since. */
  lemma {:induction false} LingersIffWarmedLate(w: World, steps: seq<Step>, k: Key)
    requires Init(w) && Possible(w, steps)
    ensures Lingers(Final(w, steps), k) <==> WarmedLate(w, steps, k)
    ensures Lingers(Final(w, steps), k) ==> Final(w, steps).warmed
    decreases |steps|
  {
    if steps != [] {
      var n := |steps| - 1;
      var v := Final(w, steps[..n]);
      PrefixStep(w, steps, n);
      LingersIffWarmedLate(w, steps[..n], k);
      InitCoherent(w);
      RunCoherent(w, steps[..n]);
      assert steps[..n + 1] == steps;
      WarmedLateNow(w, steps, k, n);
      StepLingers(v, steps[n], k);
      if v.warmed || steps[n].RunWarmUp? { StaysWarm(v, steps[n]); }
    }
  }

  /** The entry of an export is settled by its own queue alone: on any run at all, whatever was edited, reconciled
      or failed and whatever else is pending, an export that is not queued is cached as the cluster has it, except
      exactly when it is being deleted and was warmed up after its last reconcile. */
  lemma CacheConfluence(w: World, steps: seq<Step>, k: Key)
    requires Init(w) && Possible(w, steps) && k !in Final(w, steps).exportQ
    ensures Lookup(Final(w, steps).cache, k) == Ideal(Final(w, steps), k) <==> !WarmedLate(w, steps, k)
    ensures !Terminating(Final(w, steps), k) ==> Lookup(Final(w, steps).cache, k) == Ideal(Final(w, steps), k)
  {
    InitCoherent(w);
    RunCoherent(w, steps);
    SettledUnlessLingering(Final(w, steps), k);
    LingersIffWarmedLate(w, steps, k);
  }

  /** With every export reconciled the cache is a function of the cluster, but for exports that linger. */
  lemma QuietCache(w: World, steps: seq<Step>)
    requires Init(w) && Possible(w, steps) && Final(w, steps).exportQ == {}
    ensures
      var w' := Final(w, steps);
      forall k :: Lookup(w'.cache, k) == Ideal(w', k) <==> !WarmedLate(w, steps, k)
  {
    var w' := Final(w, steps);
    forall k ensures Lookup(w'.cache, k) == Ideal(w', k) <==> !WarmedLate(w, steps, k) {
      CacheConfluence(w, steps, k);
    }
  }

  /** A warm-up whose calls all succeed reaches that cache at once, from any cache without entries of exports that
      are gone. It also caches the exports being deleted, as it does not look at the deletion timestamp. */
  lemma WarmUpReachesIdeal(w: World, k: Key)
    requires k !in w.exports ==> k !in w.cache
    ensures
      var c := Lookup(WarmUp(w, WarmUpApi(true, {})).cache, k);
      && (!Terminating(w, k) ==> c == Ideal(w, k))
      && (Terminating(w, k) && ValidSpec(w.exports[k].spec) && k in w.secrets ==>
            c == Some(ExportedSecret(w.exports[k].weight, w.exports[k].spec, w.secrets[k])))
  {
    WarmUpLookup(w, k, WarmUpApi(true, {}));
  }
}
