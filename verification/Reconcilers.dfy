/** The sharing controllers' code, call by call, over a cluster they share: each Reconcile is one step of the
    protocol. */
module Reconcilers {
  import opened Kube
  import opened ExportSpec
  import opened ExportedSecrets
  import opened ExportCache
  import opened Protocol
  import OutputSecret
  import ReconcileStatus

  /** A secret with the import's metadata and the source's type and data. */
  method NewCopy(i: Key, imp: Import, src: Secret) returns (copy: Secret)
    ensures copy == CopyFor(i, imp, src, 0)
    ensures copy.key == i && copy.typ == src.typ && copy.data == src.data
    ensures copy.meta.labels == imp.labels && copy.meta.annotations == imp.annotations && copy.meta.owner == Some(i)
  {
    var secret := new OutputSecret.OutputSecret(i, imp.labels, imp.annotations, map[]);
    secret.ApplySecret(src);
    return Secret(i, 0, secret.typ, secret.data, Meta(secret.labels, secret.annotations, Some(i)));
  }

  class Controllers {
    const secretExports: SecretExports
    var exports: map<Key, Export>
    var secrets: map<Key, Secret>
    var imports: map<Key, Import>
    const blank: Fields
    var namespaces: map<string, Namespace>
    var nextRV: nat
    var warmed: bool
    var exportQ: set<Key>
    var importQ: set<Key>

    ghost function State(): World
      reads this, secretExports
    {
      World(exports, secrets, imports, namespaces, blank, nextRV, secretExports.exportedSecrets, warmed,
            exportQ, importQ)
    }

    ghost predicate Valid()
      reads this, secretExports
    {
      && secretExports.Valid()
      && forall k :: k in secrets ==> secrets[k].key == k
    }

    constructor (cluster: World, cache: SecretExports)
      requires cluster.cache == cache.exportedSecrets && cache.Valid()
      requires forall k :: k in cluster.secrets ==> cluster.secrets[k].key == k
      ensures secretExports == cache && State() == cluster && Valid()
    {
      secretExports := cache;
      exports, secrets, imports := cluster.exports, cluster.secrets, cluster.imports;
      namespaces, blank, nextRV := cluster.namespaces, cluster.blank, cluster.nextRV;
      warmed, exportQ, importQ := cluster.warmed, cluster.exportQ, cluster.importQ;
    }

    // ---- the handlers that queue readers ----

    method EnqueueAll(listOk: bool)
      modifies this`importQ
      ensures importQ == old(importQ) + FanOut(imports.Keys, listOk)
    {
      if listOk {
        importQ := importQ + imports.Keys;
      }
    }

    /** An update of an export counts only when its status has changed. */
    method OnExportUpdate(was: ExportStatus, now: ExportStatus, listOk: bool)
      modifies this`importQ
      ensures importQ == old(importQ) + if was == now then {} else FanOut(imports.Keys, listOk)
    {
      if was != now {
        EnqueueAll(listOk);
      }
    }

    /** The event of an export that is gone: its entry goes before the readers are queued. */
    method OnExportDelete(k: Key, listOk: bool)
      requires Valid() && k in exports
      modifies this, secretExports
      ensures Valid() && State() == Next(old(State()), RemoveExport(k, listOk))
    {
      exports := exports - {k};
      secretExports.Unexport(k);
      EnqueueAll(listOk);
      exportQ := exportQ + {k};
    }

    /** The event of a namespace that was created or edited. */
    method OnNamespaceStored(ns: string, now: Namespace, listOk: bool)
      requires Valid() && SameKeys(now.fields, blank)
      modifies this
      ensures Valid() && State() == Next(old(State()), SetNamespace(ns, now, listOk))
    {
      if ns in namespaces && namespaces[ns].excluded != now.excluded && listOk {
        importQ := importQ + set i | i in imports && i.ns == ns;
      }
      namespaces := namespaces[ns := now];
    }

    // ---- the reconcile of an export ----

    /** Looks for the secret of an export and caches the pair, or drops the entry. */
    method InnerReconcileExport(k: Key, secretErr: Option<string>)
      returns (observedRV: Option<nat>, cause: Option<Cause>)
      requires Valid() && k in exports
      modifies secretExports
      ensures Valid()
      ensures State() == SetCache(old(State()), k, CachedAfter(old(State()), k, secretErr.Some?))
      ensures
        var s := StatusAfter(old(State()), k, secretErr);
        s == ExportStatus(exports[k].generation,
                          [if cause.Some? then ReconcileFailed(cause.value) else ReconcileSucceeded], observedRV)
      ensures Fails(old(State()), k, ExportApi(true, secretErr, true, true)) <==> cause.Some? && cause.value.GetError?
    {
      var e := exports[k];
      observedRV := None;
      var errs := Validate(e.spec);
      if errs != [] {
        secretExports.Unexport(k);
        return observedRV, Some(Invalid);
      }
      if secretErr.Some? {
        ghost var cache := secretExports.exportedSecrets;
        assert SetOrDelete(cache, k, Lookup(cache, k)) == cache;
        return observedRV, Some(GetError(secretErr.value));
      }
      if k !in secrets {
        secretExports.Unexport(k);
        return observedRV, Some(MissingSecret);
      }
      observedRV := Some(secrets[k].rv);
      secretExports.Export(k, e.weight, e.spec, secrets[k]);
      return observedRV, None;
    }

    method ReconcileExport(k: Key, api: ExportApi)
      requires Valid() && k in exportQ
      modifies this, secretExports
      ensures Valid() && State() == Protocol.ReconcileExport(old(State()), k, api)
    {
      if !api.getOk {
        return;
      }
      if k !in exports || exports[k].terminating {
        secretExports.Unexport(k);
        exportQ := exportQ - {k};
        return;
      }
      var e := exports[k];
      var generic := new ReconcileStatus.Status(e.status);
      generic.SetReconciling(e.generation);
      var observedRV, cause := InnerReconcileExport(k, api.secretErr);
      var requeue := generic.WithReconcileCompleted(cause);
      var status := ExportStatus(generic.observedGeneration, generic.conditions, observedRV);
      SaveStatus(k, status, api, requeue.Some?);
    }

    /** Writes the status, and leaves the export queued if the write or the reconcile failed, or the write caused an
        event. */
    method SaveStatus(k: Key, status: ExportStatus, api: ExportApi, failed: bool)
      requires Valid() && k in exports
      modifies this
      ensures Valid() && State() == Finish(old(State()), k, status, api, failed)
    {
      if !api.statusOk {
        return;
      }
      var was := exports[k].status;
      if status != was {
        exports := exports[k := exports[k].(status := status)];
        exportQ := exportQ + {k};
        OnExportUpdate(was, status, api.listOk);
      } else if !failed {
        exportQ := exportQ - {k};
      }
    }

    /** The warm-up has dealt with every export but those under `keys`. */
    static ghost predicate WarmedBut(was: World, w: World, keys: set<Key>, api: WarmUpApi) {
      && w == was.(warmed := true, cache := w.cache)
      && forall k :: Lookup(w.cache, k) == if k in keys then Lookup(was.cache, k) else CachedAfterWarmUp(was, k, api)
    }

    static lemma WarmedOneMore(was: World, w: World, w': World, keys: set<Key>, k: Key, api: WarmUpApi)
      requires WarmedBut(was, w, keys, api) && api.listOk && k in keys
      requires w' == SetCache(w, k, CachedAfter(w, k, k in api.getFails))
      ensures WarmedBut(was, w', keys - {k}, api)
    {
    }

    /** The loop over the listed exports. */
    method WarmUp(api: WarmUpApi)
      requires Valid()
      modifies this, secretExports
      ensures Valid() && State() == Protocol.WarmUp(old(State()), api)
    {
      ghost var was := State();
      warmed := true;
      var keys := exports.Keys;
      if !api.listOk {
        SameLookups(was, State(), api);
        return;
      }
      while keys != {}
        invariant keys <= exports.Keys && Valid()
        invariant WarmedBut(was, State(), keys, api)
        decreases |keys|
      {
        var k :| k in keys;
        ghost var before := State();
        var _, _ := InnerReconcileExport(k, if k in api.getFails then Some("") else None);
        WarmedOneMore(was, before, State(), keys, k, api);
        keys := keys - {k};
      }
      SameLookups(was, State(), api);
    }

    static lemma SameLookups(was: World, w: World, api: WarmUpApi)
      requires WarmedBut(was, w, {}, api)
      ensures w == Protocol.WarmUp(was, api)
    {
      var a, b := w.cache, Protocol.WarmUp(was, api).cache;
      forall k ensures Lookup(a, k) == Lookup(b, k) {
        assert CachedAfterWarmUp(was, k, api).Some? ==> k in was.cache.Keys + was.exports.Keys;
      }
      assert forall k :: k in a <==> Lookup(a, k).Some?;
      assert forall k :: k in b <==> Lookup(b, k).Some?;
      assert forall k :: k in a ==> a[k] == Lookup(a, k).value;
      assert forall k :: k in b ==> b[k] == Lookup(b, k).value;
      assert a == b;
    }

    /** Creating the copy, or updating the secret that is there already. */
    method CopyAssociatedSecret(i: Key, src: Secret, writeOk: bool) returns (result: SyncResult)
      requires Valid() && i in imports
      modifies this
      ensures Valid()
      ensures
        var was, copy := old(State()), CopyFor(i, old(imports)[i], src, 0);
        && result == (if !writeOk || (i in was.secrets && was.secrets[i].typ != copy.typ) then Failed
                      else if i in was.secrets && was.secrets[i].(rv := 0) == copy then InSync
                      else Wrote)
        && State() == if result.Wrote? then PutSecret(was, copy) else was
    {
      var copy := NewCopy(i, imports[i], src);
      if !writeOk {
        return Failed;
      }
      if i in secrets {
        if secrets[i].typ != copy.typ {
          return Failed;  // a type is immutable
        }
        if secrets[i].(rv := 0) == copy {
          return InSync;  // nothing to update
        }
      }
      secrets := secrets[i := copy.(rv := nextRV)];
      nextRV := nextRV + 1;
      exportQ, importQ := exportQ + {i}, importQ + {i};
      return Wrote;
    }

    /** Any secret of the import's name is deleted, whoever made it; any error on reading it counts as its absence. */
    method DeleteAssociatedSecret(i: Key, destOk: bool, writeOk: bool) returns (result: SyncResult)
      requires Valid()
      modifies this
      ensures Valid()
      ensures result == if i !in old(secrets) || !destOk then InSync else if writeOk then Wrote else Failed
      ensures State() == if result.Wrote? then DeleteSecret(old(State()), i) else old(State())
    {
      if !destOk || i !in secrets {
        return InSync;
      }
      if !writeOk {
        return Failed;
      }
      secrets := secrets - {i};
      exportQ, importQ := exportQ + {i}, importQ + {i};
      return Wrote;
    }

    /** The exclusion check: what it cannot read is not excluded. */
    method IsExcluded(ns: string, readOk: bool) returns (excluded: bool)
      ensures excluded == Seen(State(), ns, readOk, true).excluded
    {
      if !readOk || ns !in namespaces {
        return false;
      }
      return namespaces[ns].excluded;
    }

    /** The object that selectors are matched against: an empty one when the namespace cannot be read. */
    method FieldsOf(ns: string, readOk: bool) returns (fields: Fields)
      ensures fields == Seen(State(), ns, true, readOk).fields
    {
      if !readOk || ns !in namespaces {
        return blank;
      }
      return namespaces[ns].fields;
    }

    /** What the cache answers an import. */
    method Query(i: Key, api: ImportApi) returns (matched: seq<Secret>)
      requires Valid() && Active(State(), i) && i.name != ""
      ensures matched == match SeenOffer(State(), i, api) case None => [] case Some(src) => [src]
    {
      var source := Key(imports[i].fromNamespace, i.name);
      var excluded := IsExcluded(i.ns, api.exclusionOk);
      var fields := FieldsOf(i.ns, api.fieldsOk);
      var views: Views := k => View(excluded, fields);
      matched := secretExports.MatchedSecretsForImport(ImportMatcher(source, i.ns), views);
      ImportQueryResult(matched, secretExports.exportedSecrets, source, i.ns, views);
    }

    /** Queries the cache and brings the destination in line with the answer. */
    method SyncImport(i: Key, api: ImportApi) returns (result: SyncResult)
      requires Valid() && Active(State(), i) && i.name != ""
      modifies this
      ensures Valid() && SyncDestination(old(State()), i, api) == (State(), result)
    {
      var matched := Query(i, api);
      if |matched| == 0 {
        result := DeleteAssociatedSecret(i, api.destOk, api.writeOk);
      } else if |matched| == 1 {
        result := CopyAssociatedSecret(i, matched[0], api.writeOk);
      } else {
        assert false;  // "multiple exports/secrets matched one ns+name"
      }
    }

    /** The import's Reconcile; its query runs the warm-up when it is the first. */
    method ReconcileImport(i: Key, api: ImportApi, warm: WarmUpApi)
      requires Valid() && i in importQ && i.name != ""
      modifies this, secretExports
      ensures Valid()
      ensures
        var was := old(State());
        var w := if api.getOk && Active(was, i) && !was.warmed then Protocol.WarmUp(was, warm) else was;
        State() == Protocol.ReconcileImport(w, i, api)
    {
      if !api.getOk {
        return;
      }
      if i !in imports || imports[i].terminating {
        importQ := importQ - {i};
        return;
      }
      if imports[i].fromNamespace == "" {
        if api.statusOk {
          importQ := importQ - {i};
        }
        return;
      }
      if !warmed {
        WarmUp(warm);
      }
      var result := SyncImport(i, api);
      if result.InSync? && api.statusOk {
        importQ := importQ - {i};
      }
    }
  }
}
