/** What every reachable state of the sharing protocol keeps, and exactly which steps break it. */
module ProtocolSafety {
  import opened Kube
  import opened ExportSpec
  import opened ExportedSecrets
  import opened Protocol
  import opened ProtocolCache

  // ---- changes of the cache that no reader hears of ----

  /** Namespace `ns` is offered the secret of export `k` when its fields are `f` and it is not excluded. */
  ghost predicate OutsideTo(w: World, k: Key, ns: string, f: Fields)
    requires k in w.exports
  {
    ns != k.ns && SameKeys(f, w.blank) && OfferedTo(w.exports[k].spec, ns, View(false, f))
  }

  /** Some namespace, there or not, other than the export's own can be offered its secret. */
  ghost predicate Outside(w: World, k: Key)
    requires k in w.exports
  {
    exists ns, f :: OutsideTo(w, k, ns, f)
  }

  /** The cache differs from what the stored status says, in a way that no later status will tell: a secret called
      missing is cached, a secret called available is not, or a secret is cached of an export that is being deleted
      and not queued. */
  predicate Unannounced(w: World, k: Key)
    requires k in w.exports
  {
    || (SaysMissing(w, k) && k in w.cache)
    || (Live(w, k) && k !in w.cache && Ideal(w, k).Some? && w.exports[k].status == StatusNow(w, k))
    || (Terminating(w, k) && k in w.cache && k !in w.exportQ)
  }

  ghost predicate Perilous(w: World, k: Key) {
    k in w.exports && Unannounced(w, k) && Outside(w, k)
  }

  // ---- imports ----

  /** No reconcile that succeeds can write the stored status again, so the next one to succeed notifies every
      reader. */
  predicate Obsolete(w: World, k: Key) {
    Live(w, k) && w.exports[k].status != StatusNow(w, k) && !SaysMissing(w, k)
  }

  /** The entry that decides about the import: that of the cache, but where an import names itself as its source,
      whose secret is its own destination, that of the cluster. */
  function Entry(w: World, i: Key): Option<ExportedSecret>
    requires i in w.imports
  {
    var k := Source(i, w.imports[i]);
    if k == i then Ideal(w, k) else Lookup(w.cache, k)
  }

  function Due(w: World, i: Key): Option<Secret>
    requires i in w.imports
  {
    Offered(w, i, Entry(w, i))
  }

  predicate InOrder(w: World, i: Key)
    requires i in w.imports
  {
    DestinationIs(w, i, Due(w, i))
  }

  /** The export is queued, and its reconcile will tell the readers, or drop the entry without a word. */
  predicate Told(w: World, i: Key)
    requires i in w.imports
  {
    var k := Source(i, w.imports[i]);
    k in w.exportQ && (Obsolete(w, k) || Terminating(w, k) || (k == i && SaysMissing(w, k) && k in w.secrets))
  }

  predicate Unqueued(w: World, i: Key) {
    Active(w, i) && i !in w.importQ
  }

  ghost predicate ImportOk(w: World, i: Key) {
    Unqueued(w, i) ==> w.warmed && (InOrder(w, i) || Told(w, i))
  }

  ghost predicate Inv(w: World) {
    && Coherent(w)
    && (w.warmed ==> forall k :: !Perilous(w, k))
    && (forall i :: ImportOk(w, i))
  }

  // ---- the steps that lose a notification ----

  ghost predicate Hazard(w: World, step: Step) {
    (exists k :: ExportHazard(w, step, k)) || (exists i :: ImportHazard(w, step, i))
  }

  /** Steps that leave an export perilous: caching a secret the status calls missing and then failing to write the
      status, and a warm-up, which writes none. */
  ghost predicate ExportHazard(w: World, step: Step, k: Key) {
    match step
    case RunExport(x, api) =>
      && x == k && w.warmed && api.getOk && api.secretErr.None? && !api.statusOk
      && SaysMissing(w, k) && k in w.secrets && Outside(w, k)
    case RunWarmUp(api) => k in w.exports && Outside(w, k) && WarmUpHides(w, k, api)
    case _ => false
  }

  predicate WarmUpHides(w: World, k: Key, api: WarmUpApi)
    requires k in w.exports
  {
    var cached := CachedAfterWarmUp(w, k, api).Some?;
    || (SaysMissing(w, k) && cached)
    || (Live(w, k) && !cached && Ideal(w, k).Some? && w.exports[k].status == StatusNow(w, k))
    || (Terminating(w, k) && cached && k !in w.exportQ)
  }

  /** Steps that leave an import behind: an entry dropped with its export on the way out, a list that fails when
      readers are to be queued, an edit of a namespace that queues nobody, and a read that fails while the import is
      reconciled. */
  ghost predicate ImportHazard(w: World, step: Step, i: Key) {
    match step
    case RunExport(x, api) =>
      Unqueued(w, i) && x == Source(i, w.imports[i]) && api.getOk
      && if Live(w, x) then Announces(w, x, api) && !api.listOk && !Correct(w, i)
         else Terminating(w, x) && i in w.secrets
    case RemoveExport(x, listOk) => Unqueued(w, i) && x == Source(i, w.imports[i]) && !listOk && i in w.secrets
    case SetNamespace(ns, n, listOk) =>
      Unqueued(w, i) && i.ns == ns && !(Flips(w, ns, n) && listOk) && !Told(w, i) && OfferChanges(w, i, n)
    case RunImport(j, api) => j == i && Slips(w, i, api)
    case _ => false
  }

  /** The reconcile writes a status that is new and final. */
  predicate Announces(w: World, x: Key, api: ExportApi)
    requires x in w.exports
  {
    api.statusOk && !Fails(w, x, api) && StatusAfter(w, x, api.secretErr) != w.exports[x].status
  }

  predicate OfferChanges(w: World, i: Key, n: Namespace)
    requires i in w.imports
  {
    var e := Entry(w, i);
    && e.Some?
    && OfferedTo(e.value.spec, i.ns, View(n.excluded, n.fields)) != OfferedTo(e.value.spec, i.ns, Truth(w, i.ns))
  }

  /** The reconcile leaves the queue with the destination wrong: it does not see the secret it should delete, or
      does not see the namespace as it is and finds the destination right for that. */
  predicate Slips(w: World, i: Key, api: ImportApi) {
    && api.getOk && api.statusOk && Active(w, i) && !Told(w, i)
    && match (SeenOffer(w, i, api), Due(w, i))
       case (None, None) => i in w.secrets && !api.destOk
       case (None, Some(src)) => (i !in w.secrets || !api.destOk) && !DestinationIs(w, i, Some(src))
       case (Some(src), None) =>
         api.writeOk && i in w.secrets && w.secrets[i].(rv := 0) == CopyFor(i, w.imports[i], src, 0)
       case (Some(_), Some(_)) => false
  }

  /** With every read answered no import of another object slips. */
  lemma ReadsDoNotSlip(w: World, i: Key, api: ImportApi)
    requires i in w.imports && Source(i, w.imports[i]) != i
    requires api.exclusionOk && api.fieldsOk && api.destOk
    ensures !Slips(w, i, api)
  {
  }

  // ---- the invariant holds at the start ----

  lemma InitInv(w: World)
    requires Init(w)
    ensures Inv(w)
  {
  }

  // ---- what steps leave alone ----

  lemma PerilKept(w: World, w': World, k: Key)
    requires !Perilous(w, k) && w'.blank == w.blank
    requires k in w'.exports ==> k in w.exports && w'.exports[k].spec == w.exports[k].spec
    requires k in w'.exports && Unannounced(w', k) ==> Unannounced(w, k)
    ensures !Perilous(w', k)
  {
    if Perilous(w', k) {
      var ns, f :| OutsideTo(w', k, ns, f);
      assert OutsideTo(w, k, ns, f);
    }
  }

  /** An export none of whose parts changes. */
  lemma ExportKept(w: World, w': World, k: Key)
    requires !Perilous(w, k) && w'.blank == w.blank
    requires Lookup(w'.exports, k) == Lookup(w.exports, k) && Lookup(w'.secrets, k) == Lookup(w.secrets, k)
    requires Lookup(w'.cache, k) == Lookup(w.cache, k) && (k in w.exportQ ==> k in w'.exportQ)
    ensures !Perilous(w', k)
  {
    PerilKept(w, w', k);
  }

  /** An import is unaffected by a step that leaves it, its destination, its namespace and its entry alone, takes
      nothing off the queue of imports, and what it was to be told it still is. */
  lemma ImportKept(w: World, w': World, i: Key)
    requires ImportOk(w, i)
    requires Lookup(w'.imports, i) == Lookup(w.imports, i) && Lookup(w'.secrets, i) == Lookup(w.secrets, i)
    requires (i in w.importQ ==> i in w'.importQ) && w'.warmed == w.warmed
    requires Active(w, i) ==> Truth(w', i.ns) == Truth(w, i.ns) && Entry(w', i) == Entry(w, i)
    requires Active(w, i) && Told(w, i) ==> Told(w', i)
    ensures ImportOk(w', i)
  {
  }

  /** An export that cannot be offered outside is offered to no import of it but its own. */
  lemma NotOutside(w: World, i: Key, k: Key, e: ExportedSecret)
    requires Sane(w) && i in w.imports && Source(i, w.imports[i]) == k && k != i
    requires k in w.exports && !Outside(w, k) && e.spec == w.exports[k].spec
    ensures Offered(w, i, Some(e)) == None
  {
    var v := Truth(w, i.ns);
    assert !OutsideTo(w, k, i.ns, v.fields);
    ExclusionMatters(e.spec, i.ns, v.fields);
  }

  // ---- secrets ----

  lemma PutSecretTold(w: World, s: Secret, i: Key)
    requires Coherent(w) && Active(w, i) && i != s.key && Told(w, i)
    ensures Told(PutSecret(w, s), i)
  {
  }

  lemma PutSecretExport(w: World, s: Secret, k: Key)
    requires Coherent(w) && !Perilous(w, k)
    ensures !Perilous(PutSecret(w, s), k)
  {
    PerilKept(w, PutSecret(w, s), k);
  }

  /** Storing a secret disturbs only the export of its name, and queues it together with the import of its name. */
  lemma PutSecretInv(w: World, s: Secret)
    requires Inv(w)
    ensures Inv(PutSecret(w, s))
  {
    var w' := PutSecret(w, s);
    PutSecretCoherent(w, s);
    forall k ensures w.warmed ==> !Perilous(w', k) {
      if w.warmed { PutSecretExport(w, s, k); }
    }
    forall i ensures ImportOk(w', i) {
      if i != s.key {
        if Active(w, i) && Told(w, i) { PutSecretTold(w, s, i); }
        ImportKept(w, w', i);
      }
    }
  }

  lemma DeleteSecretTold(w: World, d: Key, i: Key)
    requires Active(w, i) && i != d && Told(w, i)
    ensures Told(DeleteSecret(w, d), i)
  {
  }

  lemma DeleteSecretInv(w: World, d: Key)
    requires Inv(w)
    ensures Inv(DeleteSecret(w, d))
  {
    var w' := DeleteSecret(w, d);
    DeleteSecretCoherent(w, d);
    forall k ensures w.warmed ==> !Perilous(w', k) {
      if w.warmed { PerilKept(w, w', k); }
    }
    forall i ensures ImportOk(w', i) {
      if i != d {
        if Active(w, i) && Told(w, i) { DeleteSecretTold(w, d, i); }
        ImportKept(w, w', i);
      }
    }
  }

  // ---- exports ----

  lemma StoreExportKey(w: World, k: Key, e: Export)
    requires Coherent(w) && !Perilous(w, k) && ExportEdit(w, k, e)
    ensures !Perilous(StoreExport(w, k, e), k)
  {
    var w' := StoreExport(w, k, e);
    assert EntryOk(w, k);
    if Perilous(w', k) {
      assert w'.exports[k].spec == w.exports[k].spec;
      PerilKept(w, w', k);
    }
  }

  lemma StoreExportTold(w: World, k: Key, e: Export, i: Key)
    requires Coherent(w) && ExportEdit(w, k, e) && Active(w, i) && Source(i, w.imports[i]) == k
    ensures
      var w' := StoreExport(w, k, e);
      Told(w', i) || (Entry(w', i) == Entry(w, i) && !Told(w, i))
      || (&& k == i && Ideal(w', k).Some? && Ideal(w, k).Some? && !Told(w, i)
          && SameOffer(Ideal(w', k).value, Ideal(w, k).value))
  {
    assert EntryOk(w, k);
  }

  lemma StoreExportImport(w: World, k: Key, e: Export, i: Key)
    requires Inv(w) && ExportEdit(w, k, e) && Active(w, i) && Source(i, w.imports[i]) == k
    ensures ImportOk(StoreExport(w, k, e), i)
  {
    assert ImportOk(w, i);
    assert Truth(StoreExport(w, k, e), i.ns) == Truth(w, i.ns);
    StoreExportTold(w, k, e, i);
  }

  lemma StoreExportInv(w: World, k: Key, e: Export)
    requires Inv(w) && ExportEdit(w, k, e)
    ensures Inv(StoreExport(w, k, e))
  {
    var w' := StoreExport(w, k, e);
    StoreExportCoherent(w, k, e);
    forall j ensures w.warmed ==> !Perilous(w', j) {
      if w.warmed {
        if j == k { StoreExportKey(w, k, e); } else { ExportKept(w, w', j); }
      }
    }
    forall i ensures ImportOk(w', i) {
      if Active(w, i) && Source(i, w.imports[i]) == k { StoreExportImport(w, k, e, i); } else { ImportKept(w, w', i); }
    }
  }

  lemma RemoveExportImport(w: World, k: Key, listOk: bool, i: Key)
    requires ImportOk(w, i) && k in w.exports
    ensures ImportOk(Next(w, RemoveExport(k, listOk)), i) <==> !ImportHazard(w, RemoveExport(k, listOk), i)
  {
    assert Truth(Next(w, RemoveExport(k, listOk)), i.ns) == Truth(w, i.ns);
  }

  /** The disappearance of an export drops its entry and queues every import, if the list of them succeeds. */
  lemma RemoveExportInv(w: World, k: Key, listOk: bool)
    requires Inv(w) && k in w.exports
    ensures Inv(Next(w, RemoveExport(k, listOk))) <==> !Hazard(w, RemoveExport(k, listOk))
  {
    var w' := Next(w, RemoveExport(k, listOk));
    RemoveExportCoherent(w, k, listOk);
    forall j ensures w.warmed ==> !Perilous(w', j) {
      if w.warmed && j != k { ExportKept(w, w', j); }
    }
    forall i ensures ImportOk(w', i) <==> !ImportHazard(w, RemoveExport(k, listOk), i) {
      assert ImportOk(w, i);
      RemoveExportImport(w, k, listOk, i);
    }
  }

  // ---- imports and namespaces ----

  /** A step that leaves exports, secrets and cache alone. */
  lemma ImportsEdited(w: World, w': World)
    requires Inv(w) && Sane(w') && w'.blank == w.blank
    requires w'.exports == w.exports && w'.secrets == w.secrets && w'.cache == w.cache
    requires w'.warmed == w.warmed && w.exportQ <= w'.exportQ
    requires forall i :: ImportOk(w', i)
    ensures Inv(w')
  {
    ImportsEditedCoherent(w, w');
    forall k ensures w.warmed ==> !Perilous(w', k) {
      if w.warmed { ExportKept(w, w', k); }
    }
  }

  lemma StoreImportInv(w: World, i: Key, imp: Import)
    requires Inv(w) && i.ns in w.namespaces
    ensures Inv(Next(w, StoreImport(i, imp)))
  {
    var w' := Next(w, StoreImport(i, imp));
    forall j ensures ImportOk(w', j) {
      if j != i { ImportKept(w, w', j); }
    }
    ImportsEdited(w, w');
  }

  lemma RemoveImportInv(w: World, i: Key)
    requires Inv(w) && i in w.imports
    ensures Inv(Next(w, RemoveImport(i)))
  {
    var w' := Next(w, RemoveImport(i));
    forall j ensures ImportOk(w', j) {
      if j != i { ImportKept(w, w', j); }
    }
    ImportsEdited(w, w');
  }

  /** An import in order is put out of order by an edit of its namespace exactly when the edit changes its offer. */
  lemma EditedOrder(w: World, w': World, i: Key, n: Namespace)
    requires i in w.imports && InOrder(w, i) && w'.imports == w.imports && w'.secrets == w.secrets
    requires Entry(w', i) == Entry(w, i) && Truth(w', i.ns) == View(n.excluded, n.fields)
    ensures InOrder(w', i) <==> !OfferChanges(w, i, n)
  {
  }

  lemma SetNamespaceImport(w: World, ns: string, n: Namespace, listOk: bool, i: Key)
    requires ImportOk(w, i) && SameKeys(n.fields, w.blank)
    ensures ImportOk(Next(w, SetNamespace(ns, n, listOk)), i) <==> !ImportHazard(w, SetNamespace(ns, n, listOk), i)
  {
    var w' := Next(w, SetNamespace(ns, n, listOk));
    if i.ns != ns {
      ElsewhereImport(w, w', ns, n, i);
    } else if Unqueued(w, i) && InOrder(w, i) {
      EditedOrder(w, w', i, n);
    }
  }

  lemma ElsewhereImport(w: World, w': World, ns: string, n: Namespace, i: Key)
    requires ImportOk(w, i) && i.ns != ns && w.importQ <= w'.importQ
    requires w' == w.(namespaces := w.namespaces[ns := n], importQ := w'.importQ)
    ensures ImportOk(w', i)
  {
    assert Truth(w', i.ns) == Truth(w, i.ns);
  }

  /** An edit of a namespace keeps the invariant unless it changes what an import is offered and queues nobody. */
  lemma SetNamespaceInv(w: World, ns: string, n: Namespace, listOk: bool)
    requires Inv(w) && SameKeys(n.fields, w.blank)
    ensures Inv(Next(w, SetNamespace(ns, n, listOk))) <==> !Hazard(w, SetNamespace(ns, n, listOk))
  {
    var w' := Next(w, SetNamespace(ns, n, listOk));
    forall i ensures ImportOk(w', i) <==> !ImportHazard(w, SetNamespace(ns, n, listOk), i) {
      assert ImportOk(w, i);
      SetNamespaceImport(w, ns, n, listOk, i);
    }
    if forall i :: ImportOk(w', i) { ImportsEdited(w, w'); }
  }

  lemma RemoveNamespaceInv(w: World, ns: string)
    requires Inv(w) && Enabled(w, RemoveNamespace(ns))
    ensures Inv(Next(w, RemoveNamespace(ns)))
  {
    var w' := Next(w, RemoveNamespace(ns));
    forall j ensures ImportOk(w', j) { ImportKept(w, w', j); }
    ImportsEdited(w, w');
  }

  lemma ResyncInv(w: World, exportKeys: set<Key>, importKeys: set<Key>)
    requires Inv(w)
    ensures Inv(Next(w, Resync(exportKeys, importKeys)))
  {
    var w' := Next(w, Resync(exportKeys, importKeys));
    forall j ensures ImportOk(w', j) { ImportKept(w, w', j); }
    ImportsEdited(w, w');
  }

  // ---- the warm-up ----

  lemma WarmUpPeril(w: World, w': World, k: Key, api: WarmUpApi)
    requires k in w.exports && Lookup(w'.cache, k) == CachedAfterWarmUp(w, k, api)
    requires w'.exports == w.exports && w'.secrets == w.secrets && w'.exportQ == w.exportQ && w'.blank == w.blank
    ensures Perilous(w', k) <==> Outside(w, k) && WarmUpHides(w, k, api)
  {
    assert forall ns, f :: OutsideTo(w', k, ns, f) <==> OutsideTo(w, k, ns, f);
  }

  lemma WarmUpInv(w: World, api: WarmUpApi)
    requires Inv(w) && Enabled(w, RunWarmUp(api))
    ensures Inv(WarmUp(w, api)) <==> !Hazard(w, RunWarmUp(api))
  {
    var w' := WarmUp(w, api);
    WarmUpCoherent(w, api);
    forall k ensures Perilous(w', k) <==> ExportHazard(w, RunWarmUp(api), k) {
      assert EntryOk(w, k);
      WarmUpLookup(w, k, api);
      if k in w.exports { WarmUpPeril(w, w', k, api); }
    }
    forall i ensures ImportOk(w', i) && !ImportHazard(w, RunWarmUp(api), i) { assert ImportOk(w, i); }
  }

  // ---- the reconcile of an export ----

  /** What the cache offers an import is what the cluster offers it, unless the readers are still to be told. */
  lemma SameOffers(w: World, x: Key, i: Key)
    requires Coherent(w) && !Perilous(w, x) && Live(w, x) && !Obsolete(w, x)
    requires SaysMissing(w, x) && x in w.secrets ==> !Outside(w, x)
    requires i in w.imports && Source(i, w.imports[i]) == x && x != i
    ensures Offered(w, i, Lookup(w.cache, x)) == Offered(w, i, Ideal(w, x))
  {
    assert EntryOk(w, x);
    var c, want := Lookup(w.cache, x), Ideal(w, x);
    if c.Some? && c.value.spec == w.exports[x].spec && !Outside(w, x) { NotOutside(w, i, x, c.value); }
    if want.Some? && !Outside(w, x) { NotOutside(w, i, x, want.value); }
  }

  /** The step concerns export `x` only, and takes no other export and no import off the queues. */
  ghost predicate OnlyExport(w: World, w': World, x: Key) {
    && w'.secrets == w.secrets && w'.imports == w.imports && w'.namespaces == w.namespaces && w'.blank == w.blank
    && w'.warmed == w.warmed && w'.nextRV == w.nextRV && w.importQ <= w'.importQ
    && forall k :: k != x ==>
         && Lookup(w'.exports, k) == Lookup(w.exports, k) && Lookup(w'.cache, k) == Lookup(w.cache, k)
         && (k in w.exportQ ==> k in w'.exportQ)
  }

  lemma EntryOnly(w: World, x: Key, e: Option<ExportedSecret>)
    ensures OnlyExport(w, SetCache(w, x, e), x)
    ensures OnlyExport(w, DequeueExport(SetCache(w, x, e), x), x)
  {
  }

  lemma StatusOnly(w: World, x: Key, e: Option<ExportedSecret>, s: ExportStatus, listOk: bool)
    requires x in w.exports
    ensures OnlyExport(w, NewStatus(SetCache(w, x, e), x, s, listOk), x)
  {
  }

  predicate Reads(w: World, i: Key, x: Key) {
    Active(w, i) && Source(i, w.imports[i]) == x
  }

  /** Such a step keeps the invariant exactly when it leaves `x` and the imports of `x` in order. */
  lemma OnlyExportInv(w: World, w': World, x: Key)
    requires Inv(w) && Coherent(w') && OnlyExport(w, w', x)
    ensures Inv(w') <==> (w.warmed ==> !Perilous(w', x)) && forall i :: Reads(w, i, x) ==> ImportOk(w', i)
  {
    forall k ensures k != x && w.warmed ==> !Perilous(w', k) {
      if k != x && w.warmed { ExportKept(w, w', k); }
    }
    forall i ensures !Reads(w, i, x) ==> ImportOk(w', i) {
      if !Reads(w, i, x) { OtherImport(w, w', x, i); }
    }
  }

  lemma OtherImport(w: World, w': World, x: Key, i: Key)
    requires ImportOk(w, i) && OnlyExport(w, w', x) && !Reads(w, i, x)
    ensures ImportOk(w', i)
  {
    assert Truth(w', i.ns) == Truth(w, i.ns);
    if Active(w, i) {
      var k := Source(i, w.imports[i]);
      assert Lookup(w'.exports, k) == Lookup(w.exports, k) && Lookup(w'.cache, k) == Lookup(w.cache, k);
    }
    ImportKept(w, w', i);
  }

  /** Before the warm-up every import is queued. */
  lemma ColdImport(w: World, w': World, x: Key, i: Key)
    requires ImportOk(w, i) && OnlyExport(w, w', x) && !w.warmed
    ensures ImportOk(w', i) && !Unqueued(w, i)
  {
  }

  lemma DropImport(w: World, x: Key, api: ExportApi, i: Key)
    requires Inv(w) && !Live(w, x) && api.getOk && Reads(w, i, x)
    ensures ImportOk(DequeueExport(SetCache(w, x, None), x), i) <==> !ImportHazard(w, RunExport(x, api), i)
  {
    assert ImportOk(w, i) && EntryOk(w, x);
  }

  /** The entry of an export that is gone or going is dropped, and nobody is told. */
  lemma DropInv(w: World, x: Key, api: ExportApi)
    requires Inv(w) && !Live(w, x) && api.getOk
    ensures Inv(DequeueExport(SetCache(w, x, None), x)) <==> !Hazard(w, RunExport(x, api))
  {
    var w' := DequeueExport(SetCache(w, x, None), x);
    DropCoherent(w, x);
    EntryOnly(w, x, None);
    forall i | Reads(w, i, x) ensures ImportOk(w', i) <==> !ImportHazard(w, RunExport(x, api), i) {
      DropImport(w, x, api, i);
    }
    forall i ensures ImportHazard(w, RunExport(x, api), i) ==> Reads(w, i, x) {}
    OnlyExportInv(w, w', x);
  }

  lemma SetCachePeril(w: World, x: Key, getFails: bool)
    requires Coherent(w) && !Perilous(w, x) && Live(w, x)
    ensures Perilous(SetCache(w, x, CachedAfter(w, x, getFails)), x) <==>
            !getFails && SaysMissing(w, x) && x in w.secrets && Outside(w, x)
  {
    var w' := SetCache(w, x, CachedAfter(w, x, getFails));
    assert EntryOk(w, x);
    assert forall ns, f :: OutsideTo(w', x, ns, f) <==> OutsideTo(w, x, ns, f);
  }

  lemma SetCacheImport(w: World, w': World, x: Key, getFails: bool, i: Key)
    requires Inv(w) && w.warmed && Live(w, x) && w' == SetCache(w, x, CachedAfter(w, x, getFails))
    requires !getFails && SaysMissing(w, x) && x in w.secrets ==> !Outside(w, x)
    requires Reads(w, i, x)
    ensures ImportOk(w', i)
  {
    assert ImportOk(w, i) && EntryOk(w, x);
    assert Truth(w', i.ns) == Truth(w, i.ns);
    if !Obsolete(w, x) && !Told(w, i) && x != i && Lookup(w'.cache, x) != Lookup(w.cache, x) { SameOffers(w, x, i); }
  }

  /** An entry replaced without a status write. */
  lemma SetCacheInv(w: World, x: Key, getFails: bool)
    requires Inv(w) && Live(w, x) && x in w.exportQ
    ensures Inv(SetCache(w, x, CachedAfter(w, x, getFails))) <==>
            !(w.warmed && !getFails && SaysMissing(w, x) && x in w.secrets && Outside(w, x))
  {
    var w' := SetCache(w, x, CachedAfter(w, x, getFails));
    SetCacheCoherent(w, x, getFails);
    EntryOnly(w, x, CachedAfter(w, x, getFails));
    OnlyExportInv(w, w', x);
    if w.warmed {
      SetCachePeril(w, x, getFails);
      if !Perilous(w', x) {
        forall i | Reads(w, i, x) ensures ImportOk(w', i) { SetCacheImport(w, w', x, getFails, i); }
      }
    } else {
      forall i | Reads(w, i, x) ensures ImportOk(w', i) { ColdImport(w, w', x, i); }
    }
  }

  lemma SettledImport(w: World, x: Key, getFails: bool, i: Key)
    requires Inv(w) && w.warmed && Live(w, x) && Reads(w, i, x)
    requires w.exports[x].status == StatusNow(w, x) && (ValidSpec(w.exports[x].spec) ==> !getFails)
    ensures ImportOk(DequeueExport(SetCache(w, x, CachedAfter(w, x, getFails)), x), i)
  {
    var w' := DequeueExport(SetCache(w, x, CachedAfter(w, x, getFails)), x);
    assert ImportOk(w, i) && EntryOk(w, x);
    assert Truth(w', i.ns) == Truth(w, i.ns);
    if x != i { SameOffers(w, x, i); }
  }

  /** A reconcile that finds the stored status current. */
  lemma SettledInv(w: World, x: Key, getFails: bool)
    requires Inv(w) && Live(w, x) && x in w.exportQ
    requires w.exports[x].status == StatusNow(w, x) && (ValidSpec(w.exports[x].spec) ==> !getFails)
    ensures Inv(DequeueExport(SetCache(w, x, CachedAfter(w, x, getFails)), x))
  {
    var w1 := SetCache(w, x, CachedAfter(w, x, getFails));
    var w' := DequeueExport(w1, x);
    SetCacheCoherent(w, x, getFails);
    SettledCoherent(w1, x);
    EntryOnly(w, x, CachedAfter(w, x, getFails));
    OnlyExportInv(w, w', x);
    forall i | Reads(w, i, x) ensures ImportOk(w', i) {
      if w.warmed { SettledImport(w, x, getFails, i); } else { ColdImport(w, w', x, i); }
    }
  }

  lemma SettledCoherent(w: World, x: Key)
    requires Coherent(w) && Lookup(w.cache, x) == Ideal(w, x)
    ensures Coherent(DequeueExport(w, x))
  {
    assert EntryOk(w, x);
    OneEntry(w, DequeueExport(w, x), x);
  }

  lemma NewStatusImport(w: World, x: Key, api: ExportApi, i: Key)
    requires ImportOk(w, i) && Live(w, x) && api.getOk && api.statusOk && Reads(w, i, x)
    requires StatusAfter(w, x, api.secretErr) != w.exports[x].status
    ensures
      var w' := Written(w, x, api.secretErr, api.listOk);
      ImportOk(w', i) <==> !ImportHazard(w, RunExport(x, api), i)
  {
    if Live(w, x) && !api.listOk && Unqueued(w, i) {
      if Fails(w, x, api) { FailedImport(w, x, api, i); } else { AnnouncedImport(w, x, api, i); }
    }
  }

  lemma FailedImport(w: World, x: Key, api: ExportApi, i: Key)
    requires Live(w, x) && Fails(w, x, api) && Reads(w, i, x)
    ensures
      Told(Written(w, x, api.secretErr, api.listOk), i)
  {
  }

  lemma AnnouncedImport(w: World, x: Key, api: ExportApi, i: Key)
    requires Live(w, x) && !Fails(w, x, api) && Reads(w, i, x)
    ensures
      var w' := Written(w, x, api.secretErr, api.listOk);
      !Told(w', i) && (InOrder(w', i) <==> Correct(w, i))
  {
    var w' := Written(w, x, api.secretErr, api.listOk);
    assert Truth(w', i.ns) == Truth(w, i.ns);
  }

  lemma NewStatusPeril(w: World, x: Key, secretErr: Option<string>, w': World)
    requires Live(w, x) && x in w'.exportQ && w'.secrets == w.secrets
    requires Lookup(w'.exports, x) == Some(w.exports[x].(status := StatusAfter(w, x, secretErr)))
    requires Lookup(w'.cache, x) == CachedAfter(w, x, secretErr.Some?)
    ensures !Perilous(w', x)
  {
  }

  /** What a successful status write leaves: every import is queued, or its list failed. */
  lemma NewStatusInv(w: World, x: Key, api: ExportApi)
    requires Inv(w) && Live(w, x) && api.getOk && api.statusOk
    requires StatusAfter(w, x, api.secretErr) != w.exports[x].status
    ensures
      Inv(Written(w, x, api.secretErr, api.listOk))
      <==> !Hazard(w, RunExport(x, api))
  {
    var w' := Written(w, x, api.secretErr, api.listOk);
    NewStatusCoherent(w, x, api.secretErr, api.listOk);
    NewStatusPeril(w, x, api.secretErr, w');
    StatusOnly(w, x, CachedAfter(w, x, api.secretErr.Some?), StatusAfter(w, x, api.secretErr), api.listOk);
    forall i | Reads(w, i, x) ensures ImportOk(w', i) <==> !ImportHazard(w, RunExport(x, api), i) {
      assert ImportOk(w, i);
      NewStatusImport(w, x, api, i);
    }
    forall i ensures ImportHazard(w, RunExport(x, api), i) ==> Reads(w, i, x) {}
    OnlyExportInv(w, w', x);
  }

  /** A reconcile that changes no status blames no import. */
  lemma QuietExport(w: World, x: Key, api: ExportApi)
    requires Live(w, x) && (api.getOk ==> !Announces(w, x, api))
    ensures Hazard(w, RunExport(x, api)) <==> ExportHazard(w, RunExport(x, api), x)
  {
    forall i ensures !ImportHazard(w, RunExport(x, api), i) {}
  }

  lemma ReconcileExportInv(w: World, x: Key, api: ExportApi)
    requires Inv(w) && x in w.exportQ
    ensures Inv(ReconcileExport(w, x, api)) <==> !Hazard(w, RunExport(x, api))
  {
    if !api.getOk {
    } else if !Live(w, x) {
      DropInv(w, x, api);
    } else if api.statusOk && StatusAfter(w, x, api.secretErr) != w.exports[x].status {
      NewStatusInv(w, x, api);
    } else {
      QuietExport(w, x, api);
      SetCacheInv(w, x, api.secretErr.Some?);
      if api.statusOk && !Fails(w, x, api) { SettledInv(w, x, api.secretErr.Some?); }
    }
  }

  // ---- the reconcile of an import ----

  /** An import may leave the queue when it is in order or will be told. */
  lemma DequeueInv(w: World, i: Key)
    requires Inv(w) && (Active(w, i) ==> w.warmed)
    ensures Inv(Dequeue(w, i)) <==> (Active(w, i) ==> InOrder(w, i) || Told(w, i))
  {
    var w' := Dequeue(w, i);
    forall j ensures j != i ==> ImportOk(w', j) {
      if j != i { ImportKept(w, w', j); }
    }
    DequeuedImport(w, i);
    if ImportOk(w', i) { ImportsEdited(w, w'); }
  }

  lemma DequeuedImport(w: World, i: Key)
    requires Active(w, i) ==> w.warmed
    ensures ImportOk(Dequeue(w, i), i) <==> (Active(w, i) ==> InOrder(w, i) || Told(w, i))
  {
    assert Truth(Dequeue(w, i), i.ns) == Truth(w, i.ns);
  }

  /** A reconcile that finds nothing to do is right, or slips. */
  lemma InSyncOrSlips(w: World, i: Key, api: ImportApi)
    requires Inv(w) && Active(w, i) && api.getOk && api.statusOk && SyncDestination(w, i, api).1.InSync?
    ensures InOrder(w, i) || Told(w, i) <==> !Slips(w, i, api)
  {
  }

  lemma SyncInv(w: World, i: Key, api: ImportApi)
    requires Inv(w) && i in w.imports
    ensures Inv(SyncDestination(w, i, api).0)
    ensures SyncDestination(w, i, api).1.InSync? ==> SyncDestination(w, i, api).0 == w
  {
    match SeenOffer(w, i, api)
    case None => DeleteSecretInv(w, i);
    case Some(src) => PutSecretInv(w, CopyFor(i, w.imports[i], src, 0));
  }

  lemma SlipsInSync(w: World, i: Key, api: ImportApi)
    requires Slips(w, i, api)
    ensures SyncDestination(w, i, api).1.InSync?
  {
  }

  lemma ReconcileImportInv(w: World, i: Key, api: ImportApi)
    requires Inv(w) && Enabled(w, RunImport(i, api))
    ensures Inv(ReconcileImport(w, i, api)) <==> !Hazard(w, RunImport(i, api))
  {
    assert Hazard(w, RunImport(i, api)) <==> Slips(w, i, api) by {
      assert Slips(w, i, api) ==> ImportHazard(w, RunImport(i, api), i);
    }
    if api.getOk && Active(w, i) {
      SyncInv(w, i, api);
      if Slips(w, i, api) { SlipsInSync(w, i, api); }
      if SyncDestination(w, i, api).1.InSync? && api.statusOk {
        InSyncOrSlips(w, i, api);
        DequeueInv(w, i);
      }
    } else if api.getOk {
      DequeueInv(w, i);
    }
  }

  // ---- the theorems ----

  /** From a state with the invariant, a step keeps it exactly when it is no hazard. */
  lemma StepKeepsInv(w: World, step: Step)
    requires Inv(w) && Enabled(w, step)
    ensures Inv(Next(w, step)) <==> !Hazard(w, step)
  {
    match step
    case CreateExport(k, weight, spec) => StoreExportInv(w, k, Export(1, weight, spec, false, NO_STATUS));
    case UpdateExport(k, weight, spec) =>
      var e := w.exports[k];
      var generation := if spec == e.spec then e.generation else e.generation + 1;
      StoreExportInv(w, k, e.(generation := generation, weight := weight, spec := spec));
    case MarkExportDeleted(k) => StoreExportInv(w, k, w.exports[k].(terminating := true));
    case RemoveExport(k, listOk) => RemoveExportInv(w, k, listOk);
    case StoreSecret(k, typ, data, meta) => PutSecretInv(w, Secret(k, 0, typ, data, meta));
    case RemoveSecret(k) => DeleteSecretInv(w, k);
    case StoreImport(i, imp) => StoreImportInv(w, i, imp);
    case RemoveImport(i) => RemoveImportInv(w, i);
    case SetNamespace(ns, n, listOk) => SetNamespaceInv(w, ns, n, listOk);
    case RemoveNamespace(ns) => RemoveNamespaceInv(w, ns);
    case Resync(exportKeys, importKeys) => ResyncInv(w, exportKeys, importKeys);
    case RunWarmUp(api) => WarmUpInv(w, api);
    case RunExport(k, api) => ReconcileExportInv(w, k, api);
    case RunImport(i, api) => ReconcileImportInv(w, i, api);
  }

  /** A run in which every step is possible and none is a hazard. */
  ghost predicate Calm(w: World, steps: seq<Step>)
    decreases |steps|
  {
    steps == [] || (Enabled(w, steps[0]) && !Hazard(w, steps[0]) && Calm(Next(w, steps[0]), steps[1..]))
  }

  lemma {:induction false} RunKeepsInv(w: World, steps: seq<Step>)
    requires Inv(w) && Calm(w, steps)
    ensures Inv(Final(w, steps))
    decreases |steps|
  {
    if steps != [] {
      StepKeepsInv(w, steps[0]);
      RunKeepsInv(Next(w, steps[0]), steps[1..]);
    }
  }

  /** Under the invariant nothing is forgotten. */
  lemma InvForgetsNothing(w: World, i: Key)
    requires Inv(w)
    ensures !Forgotten(w, i)
  {
    if Forgotten(w, i) {
      var k := Source(i, w.imports[i]);
      assert ImportOk(w, i) && EntryOk(w, k);
      if k != i && k in w.cache && k in w.exports {
        assert !Perilous(w, k);
        if !Outside(w, k) && w.cache[k].spec == w.exports[k].spec { NotOutside(w, i, k, w.cache[k]); }
      }
    }
  }

  /** Out of date implies queued, whatever the cluster the controller starts on and in whatever order edits,
      reconciles and failures come, as long as no step is a hazard. */
  lemma OutOfDateImpliesQueued(w: World, steps: seq<Step>, i: Key)
    requires Init(w) && Calm(w, steps)
    ensures !Forgotten(Final(w, steps), i)
  {
    InitInv(w);
    RunKeepsInv(w, steps);
    InvForgetsNothing(Final(w, steps), i);
  }

  /** With nothing left to reconcile, every destination is right. */
  lemma QuietMeansCorrect(w: World, steps: seq<Step>)
    requires Init(w) && Calm(w, steps)
    requires Final(w, steps).exportQ == {} && Final(w, steps).importQ == {} && Final(w, steps).warmed
    ensures
      var w' := Final(w, steps);
      forall i :: Active(w', i) ==> Correct(w', i)
  {
    var w' := Final(w, steps);
    forall i | Active(w', i) ensures Correct(w', i) {
      OutOfDateImpliesQueued(w, steps, i);
    }
  }
}
