/** The protocol's promises in the terms of the stored objects alone. */
module ProtocolMeaning {
  import opened Kube
  import opened ExportSpec
  import opened Protocol
  import opened ProtocolCache
  import opened ProtocolHazards

  /** Export `k` is there, undeleted and valid, and its secret is there: it is worth caching. */
  predicate Ready(w: World, k: Key) {
    k in w.exports && !w.exports[k].terminating && ValidSpec(w.exports[k].spec) && k in w.secrets
  }

  /** What a query sees of a namespace: what is stored, unless the read fails or there is nothing to read. */
  lemma SeenMeans(w: World, ns: string, exclusionOk: bool, fieldsOk: bool)
    ensures
      var v := Seen(w, ns, exclusionOk, fieldsOk);
      && (v.excluded <==> exclusionOk && ns in w.namespaces && w.namespaces[ns].excluded)
      && v.fields == if fieldsOk && ns in w.namespaces then w.namespaces[ns].fields else w.blank
  {
  }

  /** An import is right when its secret has the type and data of the source's secret, if the source's export is
      ready and offers it to the import's namespace as that is stored, and when it has no secret otherwise. */
  lemma CorrectMeans(w: World, i: Key)
    requires i in w.imports && i.ns in w.namespaces
    ensures
      var k, n := Key(w.imports[i].fromNamespace, i.name), w.namespaces[i.ns];
      Correct(w, i) <==>
      if Ready(w, k) && OfferedTo(w.exports[k].spec, i.ns, View(n.excluded, n.fields))
      then i in w.secrets && w.secrets[i].typ == w.secrets[k].typ && w.secrets[i].data == w.secrets[k].data
      else i !in w.secrets
  {
  }

  /** On any run, an export that is neither queued nor being deleted is cached exactly when it is ready, and then
      with its own weight, spec and secret. */
  lemma CachedMeans(w: World, steps: seq<Step>, k: Key)
    requires Init(w) && Possible(w, steps)
    requires k !in Final(w, steps).exportQ && !Terminating(Final(w, steps), k)
    ensures
      var w' := Final(w, steps);
      && (k in w'.cache <==> Ready(w', k))
      && (k in w'.cache ==>
            && w'.cache[k].weight == w'.exports[k].weight && w'.cache[k].spec == w'.exports[k].spec
            && w'.cache[k].secret == w'.secrets[k])
  {
    CacheConfluence(w, steps, k);
  }

  /** A reconcile of an undeleted export whose calls succeed leaves a status that says how things stand: the
      generation it is about, and success with the version of the secret, an invalid spec, or a missing secret. */
  lemma StatusMeans(w: World, k: Key)
    requires Live(w, k)
    ensures
      var e := w.exports[k];
      var s := ReconcileExport(w, k, EXPORT_OK).exports[k].status;
      && s.observedGeneration == e.generation
      && (Ready(w, k) ==> s.conditions == [ReconcileSucceeded] && s.observedRV == Some(w.secrets[k].rv))
      && (!ValidSpec(e.spec) ==> s.conditions == [ReconcileFailed(Invalid)] && s.observedRV == None)
      && (ValidSpec(e.spec) && k !in w.secrets ==>
            s.conditions == [ReconcileFailed(MissingSecret)] && s.observedRV == None)
  {
  }

  /** The copy that an import's reconcile stores, field by field. */
  lemma StoredCopyMeans(w: World, i: Key, src: Secret)
    requires Active(w, i) && SeenOffer(w, i, IMPORT_OK) == Some(src)
    requires SyncDestination(w, i, IMPORT_OK).1.Wrote?
    ensures
      var s := ReconcileImport(w, i, IMPORT_OK).secrets;
      && s.Keys == w.secrets.Keys + {i}
      && s[i].key == i && s[i].rv == w.nextRV && s[i].typ == src.typ && s[i].data == src.data
      && s[i].meta.labels == w.imports[i].labels && s[i].meta.annotations == w.imports[i].annotations
      && s[i].meta.owner == Some(i)
      && forall j :: j in w.secrets && j != i ==> s[j] == w.secrets[j]
  {
  }

  /** What makes an import's reconcile take a secret for the offer: the source named by the import is cached, and
      its spec offers it to the namespace as it is seen. */
  lemma OfferMeans(w: World, i: Key, api: ImportApi)
    requires i in w.imports
    ensures
      var k := Key(w.imports[i].fromNamespace, i.name);
      SeenOffer(w, i, api) ==
      if k in w.cache && OfferedTo(w.cache[k].spec, i.ns, Seen(w, i.ns, api.exclusionOk, api.fieldsOk))
      then Some(w.cache[k].secret) else None
  {
  }

  /** What a stored namespace queues: its imports when it was there before and the exclusion annotation is put on or
      taken off, if their list succeeds; nothing for any other edit. */
  lemma NamespaceEventMeans(w: World, ns: string, n: Namespace, listOk: bool, i: Key)
    requires SameKeys(n.fields, w.blank)
    ensures
      var w' := Next(w, SetNamespace(ns, n, listOk));
      && w'.exportQ == w.exportQ
      && (i in w'.importQ <==>
          || i in w.importQ
          || (&& listOk && i in w.imports && i.ns == ns
              && ns in w.namespaces && w.namespaces[ns].excluded != n.excluded))
  {
  }

  /** What the disappearance of an export does: its entry goes, and every import is queued if the list of them
      succeeds. */
  lemma ExportGoneMeans(w: World, k: Key, listOk: bool, i: Key)
    requires k in w.exports
    ensures
      var w' := Next(w, RemoveExport(k, listOk));
      && k !in w'.exports && k !in w'.cache && w'.exportQ == w.exportQ + {k}
      && (i in w'.importQ <==> i in w.importQ || (listOk && i in w.imports))
  {
  }

  /** Saving a status tells every import if it is not the stored one and the list of them succeeds, and nobody
      otherwise. */
  ghost predicate Tells(w: World, w': World, k: Key, listOk: bool)
    requires k in w.exports
  {
    && k in w'.exports
    && (w'.exports[k].status != w.exports[k].status ==> k in w'.exportQ)
    && w'.importQ == w.importQ + if w'.exports[k].status != w.exports[k].status && listOk then w.imports.Keys else {}
  }

  lemma FinishTells(w: World, k: Key, s: ExportStatus, api: ExportApi, failed: bool)
    requires k in w.exports
    ensures Tells(w, Finish(w, k, s, api, failed), k, api.listOk)
    ensures !api.statusOk ==> Finish(w, k, s, api, failed) == w
    ensures api.statusOk ==> Finish(w, k, s, api, failed).exports[k].status == s
  {
    if api.statusOk && s != w.exports[k].status {
      assert Finish(w, k, s, api, failed) == NewStatus(w, k, s, api.listOk);
    }
  }

  /** Whom a reconcile of an export tells, and what it saves. */
  lemma ReconcileTells(w: World, k: Key, api: ExportApi)
    requires api.getOk && Live(w, k)
    ensures
      var w' := ReconcileExport(w, k, api);
      && Tells(w, w', k, api.listOk)
      && w'.exports[k].status == if api.statusOk then StatusAfter(w, k, api.secretErr) else w.exports[k].status
  {
    var w1 := SetCache(w, k, CachedAfter(w, k, api.secretErr.Some?));
    FinishTells(w1, k, StatusAfter(w, k, api.secretErr), api, Fails(w, k, api));
  }
}
