/** The sharing protocol as a state machine: the cluster, the cache of exports, the two work queues, and one atomic
    step for each edit of the cluster and each Reconcile call. */
module Protocol {
  import opened Kube
  import opened ExportSpec
  import opened ExportedSecrets

  /** Why a reconcile of an export failed; the three messages written to its status start with different words. */
  datatype Cause = Invalid | MissingSecret | GetError(msg: string)

  datatype Condition = Reconciling | ReconcileFailed(cause: Cause) | ReconcileSucceeded

  datatype ExportStatus = ExportStatus(observedGeneration: nat, conditions: seq<Condition>, observedRV: Option<nat>)

  const NO_STATUS := ExportStatus(0, [], None)

  datatype Export = Export(generation: nat, weight: Option<Float>, spec: Spec, terminating: bool, status: ExportStatus)

  datatype Import = Import(fromNamespace: string, terminating: bool, labels: map<string, string>,
                           annotations: map<string, string>)

  /** Whether the namespace is excluded from wildcard matching, and its fields as selectors read them. */
  datatype Namespace = Namespace(excluded: bool, fields: Fields)

  /** `blank` holds the fields of an empty namespace object; `nextRV` is a resource version no object has had yet. */
  datatype World = World(
    exports: map<Key, Export>, secrets: map<Key, Secret>, imports: map<Key, Import>,
    namespaces: map<string, Namespace>, blank: Fields, nextRV: nat,
    cache: Cache, warmed: bool,
    exportQ: set<Key>, importQ: set<Key>)

  // ---- what the controllers compute ----

  /** What a query sees of a namespace, given which of its two reads succeed; NotFound is an error like any other. */
  function Seen(w: World, ns: string, exclusionOk: bool, fieldsOk: bool): View {
    var n := Lookup(w.namespaces, ns);
    ViewOf(if exclusionOk && n.Some? then Some(n.value.excluded) else None,
           if fieldsOk && n.Some? then Some(n.value.fields) else None, w.blank)
  }

  /** What there is to see. */
  function Truth(w: World, ns: string): View {
    Seen(w, ns, true, true)
  }

  predicate Live(w: World, k: Key) {
    k in w.exports && !w.exports[k].terminating
  }

  /** What a finished reconcile of a live export leaves in the cache. */
  function Ideal(w: World, k: Key): Option<ExportedSecret> {
    if Live(w, k) && ValidSpec(w.exports[k].spec) && k in w.secrets
    then Some(ExportedSecret(w.exports[k].weight, w.exports[k].spec, w.secrets[k]))
    else None
  }

  function MissingStatus(generation: nat): ExportStatus {
    ExportStatus(generation, [ReconcileFailed(MissingSecret)], None)
  }

  /** The status a reconcile of the export writes now; `secretErr` is an error other than NotFound on reading the
      secret. */
  function StatusAfter(w: World, k: Key, secretErr: Option<string>): ExportStatus
    requires k in w.exports
  {
    var e := w.exports[k];
    if !ValidSpec(e.spec) then ExportStatus(e.generation, [ReconcileFailed(Invalid)], None)
    else if secretErr.Some? then ExportStatus(e.generation, [ReconcileFailed(GetError(secretErr.value))], None)
    else if k !in w.secrets then MissingStatus(e.generation)
    else ExportStatus(e.generation, [ReconcileSucceeded], Some(w.secrets[k].rv))
  }

  /** The cache entry after the inner reconcile, which does not look at the deletion timestamp. */
  function CachedAfter(w: World, k: Key, getFails: bool): Option<ExportedSecret> {
    if k !in w.exports then Lookup(w.cache, k)
    else if !ValidSpec(w.exports[k].spec) then None
    else if getFails then Lookup(w.cache, k)
    else if k !in w.secrets then None
    else Some(ExportedSecret(w.exports[k].weight, w.exports[k].spec, w.secrets[k]))
  }

  function Source(i: Key, imp: Import): Key {
    Key(imp.fromNamespace, i.name)
  }

  /** An import the reconciler acts on. */
  predicate Active(w: World, i: Key) {
    i in w.imports && !w.imports[i].terminating && w.imports[i].fromNamespace != ""
  }

  /** The secret that entry `e` offers to a reader in namespace `ns` that is seen as `v`. */
  function OfferOf(e: Option<ExportedSecret>, ns: string, v: View): Option<Secret> {
    if e.Some? && OfferedTo(e.value.spec, ns, v) then Some(e.value.secret) else None
  }

  function Offered(w: World, i: Key, e: Option<ExportedSecret>): Option<Secret> {
    OfferOf(e, i.ns, Truth(w, i.ns))
  }

  /** The copy a reconcile of import `i` creates: its own metadata, the type and data of the source. */
  function CopyFor(i: Key, imp: Import, src: Secret, rv: nat): Secret {
    Secret(i, rv, src.typ, src.data, Meta(imp.labels, imp.annotations, Some(i)))
  }

  // ---- writes to the cluster, with the events they cause ----

  function Dequeue(w: World, i: Key): World {
    w.(importQ := w.importQ - {i})
  }

  function DequeueExport(w: World, k: Key): World {
    w.(exportQ := w.exportQ - {k})
  }

  function Requeue(w: World, i: Key): World {
    w.(importQ := w.importQ + {i})
  }

  function RequeueExport(w: World, k: Key): World {
    w.(exportQ := w.exportQ + {k})
  }

  /** Every write of a secret gives it a version never used before and queues the same-named export and import. */
  function PutSecret(w: World, s: Secret): World {
    w.(secrets := w.secrets[s.key := s.(rv := w.nextRV)], nextRV := w.nextRV + 1,
       exportQ := w.exportQ + {s.key}, importQ := w.importQ + {s.key})
  }

  function DeleteSecret(w: World, k: Key): World {
    w.(secrets := w.secrets - {k}, exportQ := w.exportQ + {k}, importQ := w.importQ + {k})
  }

  function StoreExport(w: World, k: Key, e: Export): World {
    RequeueExport(w.(exports := w.exports[k := e]), k)
  }

  function SetCache(w: World, k: Key, e: Option<ExportedSecret>): World {
    w.(cache := SetOrDelete(w.cache, k, e))
  }

  /** The imports that a handler queues when it is to queue all of them; a list that fails is logged and queues
      none. */
  function FanOut(imports: set<Key>, listOk: bool): set<Key> {
    if listOk then imports else {}
  }

  /** An update of the status queues the export again and every import. */
  function NewStatus(w: World, k: Key, s: ExportStatus, listOk: bool): World
    requires k in w.exports
  {
    w.(exports := w.exports[k := w.exports[k].(status := s)],
       exportQ := w.exportQ + {k}, importQ := w.importQ + FanOut(w.imports.Keys, listOk))
  }

  // ---- Reconcile calls ----

  // A key stays queued when the call returns an error, and when a write of its own causes an event that queues it
  // again.

  /** How the API calls of one export reconcile end, and the list made when its status write is announced. */
  datatype ExportApi = ExportApi(getOk: bool, secretErr: Option<string>, statusOk: bool, listOk: bool)

  /** Saving the status: writing one that is stored already is no update. */
  function Finish(w: World, k: Key, s: ExportStatus, api: ExportApi, failed: bool): World
    requires k in w.exports
  {
    if !api.statusOk then w
    else if s != w.exports[k].status then NewStatus(w, k, s, api.listOk)
    else if failed then w
    else DequeueExport(w, k)
  }

  /** An error other than NotFound on reading the secret is returned to the queue. */
  predicate Fails(w: World, k: Key, api: ExportApi)
    requires k in w.exports
  {
    ValidSpec(w.exports[k].spec) && api.secretErr.Some?
  }

  function ReconcileExport(w: World, k: Key, api: ExportApi): World {
    if !api.getOk then w
    else if !Live(w, k) then DequeueExport(SetCache(w, k, None), k)
    else
      Finish(SetCache(w, k, CachedAfter(w, k, api.secretErr.Some?)), k,
             StatusAfter(w, k, api.secretErr), api, Fails(w, k, api))
  }

  datatype WarmUpApi = WarmUpApi(listOk: bool, getFails: set<Key>)

  function CachedAfterWarmUp(w: World, k: Key, api: WarmUpApi): Option<ExportedSecret> {
    if api.listOk then CachedAfter(w, k, k in api.getFails) else Lookup(w.cache, k)
  }

  /** The first query runs the inner reconcile on every listed export, also on those being deleted; no status is
      saved. */
  function WarmUp(w: World, api: WarmUpApi): World {
    w.(warmed := true,
       cache := map k | k in w.cache.Keys + w.exports.Keys && CachedAfterWarmUp(w, k, api).Some?
                      :: CachedAfterWarmUp(w, k, api).value)
  }

  /** How the API calls of one import reconcile end: fetching the import, reading its namespace for the exclusion
      check and for selectors, reading the secret to delete, writing the secret, writing the import's status. */
  datatype ImportApi = ImportApi(getOk: bool, exclusionOk: bool, fieldsOk: bool, destOk: bool, writeOk: bool,
                                 statusOk: bool)

  datatype SyncResult = InSync | Wrote | Failed

  /** What the reconcile takes for the offer of the cache. */
  function SeenOffer(w: World, i: Key, api: ImportApi): Option<Secret>
    requires i in w.imports
  {
    OfferOf(Lookup(w.cache, Source(i, w.imports[i])), i.ns, Seen(w, i.ns, api.exclusionOk, api.fieldsOk))
  }

  /** Making the destination that. A secret that cannot be read counts as deleted. A type cannot be changed in
      place, and an update that changes nothing is no update. */
  function SyncDestination(w: World, i: Key, api: ImportApi): (World, SyncResult)
    requires i in w.imports
  {
    match SeenOffer(w, i, api)
    case None =>
      if i !in w.secrets || !api.destOk then (w, InSync)
      else if !api.writeOk then (w, Failed)
      else (DeleteSecret(w, i), Wrote)
    case Some(src) =>
      var copy := CopyFor(i, w.imports[i], src, 0);
      if !api.writeOk || (i in w.secrets && w.secrets[i].typ != copy.typ) then (w, Failed)
      else if i in w.secrets && w.secrets[i].(rv := 0) == copy then (w, InSync)
      else (PutSecret(w, copy), Wrote)
  }

  function ReconcileImport(w: World, i: Key, api: ImportApi): World {
    if !api.getOk then w
    else if i !in w.imports || w.imports[i].terminating then Dequeue(w, i)
    else if !Active(w, i) then (if api.statusOk then Dequeue(w, i) else w)
    else
      var (w1, result) := SyncDestination(w, i, api);
      if result.InSync? && api.statusOk then Dequeue(w1, i) else w1
  }

  // ---- steps ----

  function ImportsIn(w: World, ns: string): (r: set<Key>)
    ensures forall i :: i in r <==> i in w.imports && i.ns == ns
  {
    set i | i in w.imports && i.ns == ns
  }

  /** Only a flip of the exclusion annotation on an existing namespace queues its imports; its other fields do not
      count. */
  predicate Flips(w: World, ns: string, n: Namespace) {
    ns in w.namespaces && w.namespaces[ns].excluded != n.excluded
  }

  datatype Step =
    | CreateExport(k: Key, weight: Option<Float>, spec: Spec)
    | UpdateExport(k: Key, weight: Option<Float>, spec: Spec)
    | MarkExportDeleted(k: Key)
    | RemoveExport(k: Key, listOk: bool)
    | StoreSecret(k: Key, typ: SecretType, data: map<string, Bytes>, meta: Meta)
    | RemoveSecret(k: Key)
    | StoreImport(k: Key, imp: Import)
    | RemoveImport(k: Key)
    | SetNamespace(ns: string, namespace: Namespace, listOk: bool)
    | RemoveNamespace(ns: string)
    | Resync(exportKeys: set<Key>, importKeys: set<Key>)
    | RunWarmUp(warm: WarmUpApi)
    | RunExport(k: Key, exportApi: ExportApi)
    | RunImport(k: Key, importApi: ImportApi)

  ghost predicate Enabled(w: World, step: Step) {
    match step
    case CreateExport(k, _, _) => k !in w.exports && k.ns != ""
    case UpdateExport(k, _, _) => k in w.exports
    case MarkExportDeleted(k) => k in w.exports
    case RemoveExport(k, _) => k in w.exports
    case StoreSecret(_, _, _, _) => true
    case RemoveSecret(k) => k in w.secrets
    case StoreImport(k, _) => k.ns in w.namespaces
    case RemoveImport(k) => k in w.imports
    case SetNamespace(_, n, _) => SameKeys(n.fields, w.blank)
    case RemoveNamespace(ns) => ns in w.namespaces && forall i :: i in w.imports ==> i.ns != ns
    case Resync(_, _) => true
    case RunWarmUp(_) => !w.warmed
    case RunExport(k, _) => k in w.exportQ
    // an import that gets as far as a query runs the warm-up first
    case RunImport(i, api) => i in w.importQ && (api.getOk && Active(w, i) ==> w.warmed)
  }

  ghost function Next(w: World, step: Step): World
    requires Enabled(w, step)
  {
    match step
    case CreateExport(k, weight, spec) =>
      StoreExport(w, k, Export(1, weight, spec, false, NO_STATUS))
    case UpdateExport(k, weight, spec) =>
      var e := w.exports[k];
      var generation := if spec == e.spec then e.generation else e.generation + 1;
      StoreExport(w, k, e.(generation := generation, weight := weight, spec := spec))
    case MarkExportDeleted(k) =>
      StoreExport(w, k, w.exports[k].(terminating := true))
    case RemoveExport(k, listOk) =>
      // the readers' handlers drop the entry and queue everything when an export disappears
      RequeueExport(w.(exports := w.exports - {k}, cache := w.cache - {k},
                       importQ := w.importQ + FanOut(w.imports.Keys, listOk)), k)
    case StoreSecret(k, typ, data, meta) => PutSecret(w, Secret(k, 0, typ, data, meta))
    case RemoveSecret(k) => DeleteSecret(w, k)
    case StoreImport(i, imp) => Requeue(w.(imports := w.imports[i := imp]), i)
    case RemoveImport(i) => Requeue(w.(imports := w.imports - {i}), i)
    case SetNamespace(ns, n, listOk) =>
      w.(namespaces := w.namespaces[ns := n],
         importQ := w.importQ + if Flips(w, ns, n) then FanOut(ImportsIn(w, ns), listOk) else {})
    case RemoveNamespace(ns) => w.(namespaces := w.namespaces - {ns})
    case Resync(exportKeys, importKeys) => w.(exportQ := w.exportQ + exportKeys, importQ := w.importQ + importKeys)
    case RunWarmUp(api) => WarmUp(w, api)
    case RunExport(k, api) => ReconcileExport(w, k, api)
    case RunImport(i, api) => ReconcileImport(w, i, api)
  }

  // ---- what readers are promised ----

  predicate DestinationIs(w: World, i: Key, want: Option<Secret>) {
    match want
    case None => i !in w.secrets
    case Some(src) => i in w.secrets && w.secrets[i].typ == src.typ && w.secrets[i].data == src.data
  }

  /** The destination holds what the cluster's exports and secrets offer the import now. */
  predicate Correct(w: World, i: Key)
    requires i in w.imports
  {
    DestinationIs(w, i, Offered(w, i, Ideal(w, Source(i, w.imports[i]))))
  }

  predicate Terminating(w: World, k: Key) {
    k in w.exports && w.exports[k].terminating
  }

  /** The import's copy is out of date and nothing is queued that will mend it. */
  predicate Forgotten(w: World, i: Key) {
    && w.warmed && Active(w, i) && !Correct(w, i)
    && i !in w.importQ && Source(i, w.imports[i]) !in w.exportQ
  }

  /** A controller that has just started on a cluster left by an earlier one: nothing cached, everything queued. */
  ghost predicate Init(w: World) {
    && Sane(w)
    && w.cache == map[] && !w.warmed
    && w.exports.Keys <= w.exportQ && w.imports.Keys <= w.importQ
  }

  /** Facts about stored objects that the API server sees to. */
  ghost predicate Sane(w: World) {
    && (forall k :: k in w.secrets ==> w.secrets[k].key == k && w.secrets[k].rv < w.nextRV)
    && (forall k :: k in w.exports ==>
          && k.ns != ""
          && w.exports[k].status.observedGeneration <= w.exports[k].generation
          && w.exports[k].generation > 0
          && (w.exports[k].status.observedRV.Some? ==> w.exports[k].status.observedRV.value < w.nextRV))
    && (forall i :: i in w.imports ==> i.ns in w.namespaces)
    && (forall ns :: ns in w.namespaces ==> SameKeys(w.namespaces[ns].fields, w.blank))
    && ValidCache(w.cache)
  }
}
