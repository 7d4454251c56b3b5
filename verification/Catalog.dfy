/** Media-catalog mutations and the bin forest they build (crates/core/src/media_catalog_mutation.rs). */
module Catalog {
  import opened Sequences
  import opened Strings

  datatype AssetBin = AssetBin(id: string, name: string, parentId: Option<string>)

  datatype AssetRecord = AssetRecord(
    id: string, path: string, role: string, binId: Option<string>, tags: seq<string>, labelName: Option<string>,
    rating: Option<nat>, readiness: string, provenance: Option<string>, usage: string)

  datatype AssetCatalog = AssetCatalog(assets: seq<AssetRecord>, bins: seq<AssetBin>)

  datatype CatalogError =
    | DuplicateBin(id: string)
    | MissingParentBin(id: string)
    | MissingBin(id: string)
    | MissingAsset(id: string)

  datatype Outcome = Done | Refused(error: CatalogError)

  /** The metadata block: source assets and, once something asked for it, a catalog. */
  datatype Meta = Meta(sourceAssets: seq<string>, catalog: Option<AssetCatalog>)

  const EMPTY_META := Meta([], None)

  // ---------------------------------------------------------------- the three mutations

  function Ensured(meta: Meta): AssetCatalog { if meta.catalog.Some? then meta.catalog.value else AssetCatalog([], []) }

  function AssetId(a: AssetRecord): string { a.id }
  function BinId(b: AssetBin): string { b.id }
  predicate AssetIdLeq(a: AssetRecord, b: AssetRecord) { Leq(a.id, b.id) }
  predicate BinIdLeq(a: AssetBin, b: AssetBin) { Leq(a.id, b.id) }

  predicate HasBin(bins: seq<AssetBin>, id: string) { exists b :: b in bins && b.id == id }

  /** Index of the first asset with this id, or the length. */
  function AssetIndex(assets: seq<AssetRecord>, id: string): (i: nat)
    ensures i <= |assets| && (i < |assets| ==> assets[i].id == id) && forall j :: 0 <= j < i ==> assets[j].id != id
  {
    if assets == [] || assets[0].id == id then 0 else 1 + AssetIndex(assets[1..], id)
  }

  function OrElse<T>(a: Option<T>, b: Option<T>): Option<T> { if a.Some? then a else b }

  /** An upsert onto an existing asset keeps its id, unites the tags and keeps what the record omits. */
  function MergedRecord(existing: AssetRecord, record: AssetRecord): AssetRecord {
    AssetRecord(existing.id, record.path, record.role, record.binId, SortDedup(existing.tags + record.tags),
                OrElse(record.labelName, existing.labelName), OrElse(record.rating, existing.rating), record.readiness,
                OrElse(record.provenance, existing.provenance), record.usage)
  }

  function UpsertedSources(sources: seq<string>, path: string): seq<string> {
    if path in sources then sources else SortBy(sources + [path], Leq)
  }

  /** The assets before sorting: the record in place of its namesake, or at the end. */
  function Placed(assets: seq<AssetRecord>, record: AssetRecord): seq<AssetRecord> {
    var i := AssetIndex(assets, record.id);
    if i < |assets| then assets[i := MergedRecord(assets[i], record)] else assets + [record]
  }

  function UpsertedAssets(assets: seq<AssetRecord>, record: AssetRecord): seq<AssetRecord> {
    SortBy(Placed(assets, record), AssetIdLeq)
  }

  function UpsertAsset(meta: Meta, record: AssetRecord): Meta {
    var catalog := Ensured(meta);
    Meta(UpsertedSources(meta.sourceAssets, record.path),
         Some(catalog.(assets := UpsertedAssets(catalog.assets, record))))
  }

  function CreateBin(meta: Meta, id: string, name: string, parentId: Option<string>): (Meta, Outcome) {
    var catalog := Ensured(meta);
    var ensured := meta.(catalog := Some(catalog));
    if HasBin(catalog.bins, id) then (ensured, Refused(DuplicateBin(id)))
    else if parentId.Some? && !HasBin(catalog.bins, parentId.value) then
      (ensured, Refused(MissingParentBin(parentId.value)))
    else
      var bins := SortBy(catalog.bins + [AssetBin(id, name, parentId)], BinIdLeq);
      (meta.(catalog := Some(catalog.(bins := bins))), Done)
  }

  function MoveAssetToBin(meta: Meta, assetId: string, binId: Option<string>): (Meta, Outcome) {
    var catalog := Ensured(meta);
    var ensured := meta.(catalog := Some(catalog));
    var i := AssetIndex(catalog.assets, assetId);
    if binId.Some? && !HasBin(catalog.bins, binId.value) then (ensured, Refused(MissingBin(binId.value)))
    else if i == |catalog.assets| then (ensured, Refused(MissingAsset(assetId)))
    else
      var assets := catalog.assets[i := catalog.assets[i].(binId := binId)];
      (meta.(catalog := Some(catalog.(assets := assets))), Done)
  }

  datatype Mutation =
    | Upsert(record: AssetRecord)
    | Create(id: string, name: string, parentId: Option<string>)
    | Move(assetId: string, binId: Option<string>)

  function Apply(meta: Meta, m: Mutation): Meta {
    match m
    case Upsert(record) => UpsertAsset(meta, record)
    case Create(id, name, parentId) => CreateBin(meta, id, name, parentId).0
    case Move(assetId, binId) => MoveAssetToBin(meta, assetId, binId).0
  }

  function Run(meta: Meta, ms: seq<Mutation>): Meta
    decreases |ms|
  {
    if ms == [] then meta else Run(Apply(meta, ms[0]), ms[1..])
  }

  /** The durable metadata, mutated in place. */
  class MontageMetadata {
    var sourceAssets: seq<string>
    var catalog: Option<AssetCatalog>

    ghost function State(): Meta
      reads this
    {
      Meta(sourceAssets, catalog)
    }

    constructor ()
      ensures State() == EMPTY_META
    {
      sourceAssets, catalog := [], None;
    }

    method EnsureAssetCatalog()
      modifies this`catalog
      ensures State() == old(State()).(catalog := Some(Ensured(old(State()))))
    {
      if catalog.None? { catalog := Some(AssetCatalog([], [])); }
    }

    method Upsert(record: AssetRecord)
      modifies this
      ensures State() == UpsertAsset(old(State()), record)
    {
      hide MergedRecord, SortBy, Leq, AssetIndex;
      if record.path !in sourceAssets {
        sourceAssets := sourceAssets + [record.path];
        sourceAssets := SortBy(sourceAssets, Leq);
      }
      EnsureAssetCatalog();
      var assets := catalog.value.assets;
      var i := AssetIndex(assets, record.id);
      if i < |assets| {
        assets := assets[i := MergedRecord(assets[i], record)];
      } else {
        assets := assets + [record];
      }
      catalog := Some(catalog.value.(assets := SortBy(assets, AssetIdLeq)));
    }

    method Create(id: string, name: string, parentId: Option<string>) returns (outcome: Outcome)
      modifies this
      ensures (State(), outcome) == CreateBin(old(State()), id, name, parentId)
    {
      EnsureAssetCatalog();
      var bins := catalog.value.bins;
      if HasBin(bins, id) { return Refused(DuplicateBin(id)); }
      if parentId.Some? && !HasBin(bins, parentId.value) { return Refused(MissingParentBin(parentId.value)); }
      bins := SortBy(bins + [AssetBin(id, name, parentId)], BinIdLeq);
      catalog := Some(catalog.value.(bins := bins));
      return Done;
    }

    method Move(assetId: string, binId: Option<string>) returns (outcome: Outcome)
      modifies this
      ensures (State(), outcome) == MoveAssetToBin(old(State()), assetId, binId)
    {
      EnsureAssetCatalog();
      if binId.Some? && !HasBin(catalog.value.bins, binId.value) { return Refused(MissingBin(binId.value)); }
      var assets := catalog.value.assets;
      var i := AssetIndex(assets, assetId);
      if i == |assets| { return Refused(MissingAsset(assetId)); }
      catalog := Some(catalog.value.(assets := assets[i := assets[i].(binId := binId)]));
      return Done;
    }
  }

  // ---------------------------------------------------------------- what every mutation keeps

  /** Each bin has a rank below the number of bins, above its parent's; the parent exists. */
  ghost predicate Ranked(bins: seq<AssetBin>, rank: map<string, nat>) {
    forall b :: b in bins ==>
      && b.id in rank && rank[b.id] < |bins|
      && (b.parentId.Some? ==>
            HasBin(bins, b.parentId.value) && b.parentId.value in rank && rank[b.parentId.value] < rank[b.id])
  }

  ghost predicate BinsInv(bins: seq<AssetBin>) {
    && SortedBy(bins, BinIdLeq) && DistinctBy(bins, BinId)
    && exists rank :: Ranked(bins, rank)
  }

  ghost predicate AssetsInv(assets: seq<AssetRecord>, sources: seq<string>) {
    && SortedBy(assets, AssetIdLeq) && DistinctBy(assets, AssetId)
    && forall a :: a in assets ==> a.path in sources
  }

  ghost predicate Inv(meta: Meta) {
    Canonical(meta.sourceAssets) && BinsInv(Ensured(meta).bins) && AssetsInv(Ensured(meta).assets, meta.sourceAssets)
  }

  lemma IdOrders()
    ensures TotalOrder(Leq) && TotalOrder(AssetIdLeq) && TotalOrder(BinIdLeq)
  {
    hide MergedRecord, SortBy, Leq;
    LeqIsOrder();
  }

  lemma SourcesKept(sources: seq<string>, path: string)
    requires Canonical(sources)
    ensures Canonical(UpsertedSources(sources, path))
    ensures forall s :: s in UpsertedSources(sources, path) <==> s in sources || s == path
  {
    if path !in sources {
      var more := sources + [path];
      LeqIsOrder();
      SortBySorted(more, Leq);
      SameElements(more, SortBy(more, Leq));
      var self := (s: string) => s;
      assert DistinctBy(more, self);
      DistinctUnderPermutation(more, SortBy(more, Leq), self);
      forall i, j | 0 <= i < j < |more| ensures SortBy(more, Leq)[i] != SortBy(more, Leq)[j] {
        assert self(SortBy(more, Leq)[i]) != self(SortBy(more, Leq)[j]);
      }
    }
  }

  lemma MergedKeeps(existing: AssetRecord, record: AssetRecord)
    ensures var merged := MergedRecord(existing, record);
      merged.id == existing.id && merged.path == record.path && merged.binId == record.binId
  {}

  lemma PlacedFacts(assets: seq<AssetRecord>, record: AssetRecord)
    ensures DistinctBy(assets, AssetId) ==> DistinctBy(Placed(assets, record), AssetId)
    ensures forall a :: a in Placed(assets, record) ==>
      a in assets || (a.path == record.path && a.binId == record.binId)
    ensures exists a :: a in Placed(assets, record) && a.binId == record.binId
  {
    var i := AssetIndex(assets, record.id);
    if i < |assets| { MergedKeeps(assets[i], record); }
    hide MergedRecord;
    assert Placed(assets, record)[i] in Placed(assets, record);
  }

  lemma AssetsKept(assets: seq<AssetRecord>, sources: seq<string>, record: AssetRecord)
    requires AssetsInv(assets, sources) && Canonical(sources)
    ensures AssetsInv(UpsertedAssets(assets, record), UpsertedSources(sources, record.path))
  {
    var placed := Placed(assets, record);
    PlacedFacts(assets, record);
    IdOrders();
    SourcesKept(sources, record.path);
    hide Placed, Leq, UpsertedSources;
    SortBySorted(placed, AssetIdLeq);
    SameElements(placed, SortBy(placed, AssetIdLeq));
    DistinctUnderPermutation(placed, SortBy(placed, AssetIdLeq), AssetId);
  }

  /** A new bin ranks above every older one. */
  lemma NewBinRanks(bins: seq<AssetBin>, bin: AssetBin, rank: map<string, nat>, sorted: seq<AssetBin>)
    requires Ranked(bins, rank) && !HasBin(bins, bin.id) && (bin.parentId.Some? ==> HasBin(bins, bin.parentId.value))
    requires |sorted| == |bins| + 1 && forall b :: b in sorted <==> b in bins || b == bin
    ensures Ranked(sorted, rank[bin.id := |bins|])
  {
    var rank' := rank[bin.id := |bins|];
    forall b | b in sorted
      ensures b.id in rank' && rank'[b.id] < |sorted|
      ensures b.parentId.Some? ==>
        HasBin(sorted, b.parentId.value) && b.parentId.value in rank' && rank'[b.parentId.value] < rank'[b.id]
    {
      if b.parentId.Some? {
        assert HasBin(bins, b.parentId.value);
        var p :| p in bins && p.id == b.parentId.value;
        assert p in sorted;
      }
    }
  }

  lemma BinsKept(bins: seq<AssetBin>, bin: AssetBin)
    requires BinsInv(bins) && !HasBin(bins, bin.id) && (bin.parentId.Some? ==> HasBin(bins, bin.parentId.value))
    ensures BinsInv(SortBy(bins + [bin], BinIdLeq))
  {
    hide Leq, SortBy, Ranked;
    var next := bins + [bin];
    var sorted := SortBy(next, BinIdLeq);
    var rank :| Ranked(bins, rank);
    IdOrders();
    SortBySorted(next, BinIdLeq);
    SameElements(next, sorted);
    assert DistinctBy(next, BinId);
    DistinctUnderPermutation(next, sorted, BinId);
    NewBinRanks(bins, bin, rank, sorted);
  }

  lemma MoveKept(assets: seq<AssetRecord>, sources: seq<string>, i: nat, binId: Option<string>)
    requires AssetsInv(assets, sources) && i < |assets|
    ensures AssetsInv(assets[i := assets[i].(binId := binId)], sources)
  {
    var next := assets[i := assets[i].(binId := binId)];
    forall j, k | 0 <= j < k < |next| ensures AssetIdLeq(next[j], next[k]) && AssetId(next[j]) != AssetId(next[k]) {
      assert AssetIdLeq(assets[j], assets[k]) && AssetId(assets[j]) != AssetId(assets[k]);
    }
    forall a | a in next ensures a.path in sources {
      assert assets[i] in assets;
      assert a in assets || a.path == assets[i].path;
    }
  }

  /** Every mutation, accepted or refused, keeps the catalog in order. */
  lemma ApplyKeepsInv(meta: Meta, m: Mutation)
    requires Inv(meta)
    ensures Inv(Apply(meta, m))
  {
    var catalog := Ensured(meta);
    match m
    case Upsert(record) =>
      SourcesKept(meta.sourceAssets, record.path);
      AssetsKept(catalog.assets, meta.sourceAssets, record);
    case Create(id, name, parentId) =>
      if !HasBin(catalog.bins, id) && (parentId.Some? ==> HasBin(catalog.bins, parentId.value)) {
        BinsKept(catalog.bins, AssetBin(id, name, parentId));
      }
    case Move(assetId, binId) =>
      var i := AssetIndex(catalog.assets, assetId);
      if i < |catalog.assets| { MoveKept(catalog.assets, meta.sourceAssets, i, binId); }
  }

  lemma {:induction false} RunKeepsInv(meta: Meta, ms: seq<Mutation>)
    requires Inv(meta)
    ensures Inv(Run(meta, ms))
    decreases |ms|
  {
    if ms == [] {
    } else {
      ApplyKeepsInv(meta, ms[0]);
      RunKeepsInv(Apply(meta, ms[0]), ms[1..]);
    }
  }

  // ---------------------------------------------------------------- the forest

  /** The parent of the bin with this id; None at a root. */
  function ParentOf(bins: seq<AssetBin>, id: string): Option<string> {
    if bins == [] then None else if bins[0].id == id then bins[0].parentId else ParentOf(bins[1..], id)
  }

  /** From this bin, `n` steps up the parents reach a root. */
  predicate RootAfter(bins: seq<AssetBin>, id: string, n: nat)
    decreases n
  {
    HasBin(bins, id) && if n == 0 then ParentOf(bins, id).None?
                        else ParentOf(bins, id).Some? && RootAfter(bins, ParentOf(bins, id).value, n - 1)
  }

  lemma {:induction false} ParentIsOwn(bins: seq<AssetBin>, b: AssetBin)
    requires DistinctBy(bins, BinId) && b in bins
    ensures ParentOf(bins, b.id) == b.parentId
  {
    if bins[0] != b {
      var i :| 0 <= i < |bins| && bins[i] == b;
      assert BinId(bins[0]) != BinId(bins[i]);
      assert bins[1..][i-1] == b;
      ParentIsOwn(bins[1..], b);
    }
  }

  lemma {:induction false} RootReached(bins: seq<AssetBin>, rank: map<string, nat>, b: AssetBin) returns (n: nat)
    requires DistinctBy(bins, BinId) && Ranked(bins, rank) && b in bins
    ensures n <= rank[b.id] && RootAfter(bins, b.id, n)
    decreases rank[b.id]
  {
    ParentIsOwn(bins, b);
    assert HasBin(bins, b.id);
    if b.parentId.None? { return 0; }
    var p :| p in bins && p.id == b.parentId.value;
    n := RootReached(bins, rank, p);
    n := n + 1;
  }

  /** From every bin the parents lead to a root in fewer steps than there are bins. */
  ghost predicate Forest(bins: seq<AssetBin>) {
    && (forall b :: b in bins && b.parentId.Some? ==> HasBin(bins, b.parentId.value))
    && (forall b :: b in bins ==> exists n: nat :: n < |bins| && RootAfter(bins, b.id, n))
  }

  lemma InvMeansForest(bins: seq<AssetBin>)
    requires BinsInv(bins)
    ensures Forest(bins)
  {
    hide RootAfter, HasBin, Leq;
    var rank :| Ranked(bins, rank);
    forall b | b in bins ensures exists n: nat :: n < |bins| && RootAfter(bins, b.id, n) {
      assert rank[b.id] < |bins|;
      var n := RootReached(bins, rank, b);
      assert n < |bins| && RootAfter(bins, b.id, n);
    }
  }

  lemma EmptyIsSound()
    ensures Inv(EMPTY_META)
  {
    assert Ranked([], map[]);
  }

  /** After any sequence of mutations from an empty catalog: sources, bins and assets are sorted and
      free of duplicates, every asset's path is a source, and the bins are a forest. */
  lemma CatalogStaysSound(ms: seq<Mutation>)
    ensures var meta := Run(EMPTY_META, ms);
      var catalog := Ensured(meta);
      && Canonical(meta.sourceAssets)
      && SortedBy(catalog.bins, BinIdLeq) && DistinctBy(catalog.bins, BinId)
      && SortedBy(catalog.assets, AssetIdLeq) && DistinctBy(catalog.assets, AssetId)
      && (forall a :: a in catalog.assets ==> a.path in meta.sourceAssets)
      && Forest(catalog.bins)
  {
    EmptyIsSound();
    RunKeepsInv(EMPTY_META, ms);
    hide Run, Forest, RootAfter, SortedBy, Canonical, DistinctBy;
    InvMeansForest(Ensured(Run(EMPTY_META, ms)).bins);
  }

  // ---------------------------------------------------------------- dangling bin references

  /** Every asset that names a bin names one that exists. */
  ghost predicate BinRefsOk(meta: Meta) {
    RefsOk(Ensured(meta).assets, Ensured(meta).bins)
  }

  /** Moves check their bin and upserts do not: a mutation leaves every reference good exactly when it
      is not an upsert of a record that names a missing bin. */
  lemma OnlyUpsertsDangle(meta: Meta, m: Mutation)
    requires BinRefsOk(meta)
    ensures BinRefsOk(Apply(meta, m)) <==>
      (m.Upsert? && m.record.binId.Some? ==> HasBin(Ensured(meta).bins, m.record.binId.value))
  {
    var catalog := Ensured(meta);
    match m
    case Upsert(record) => UpsertRefs(catalog.assets, catalog.bins, record);
    case Create(id, name, parentId) => BinsOnlyGrow(catalog.bins, AssetBin(id, name, parentId));
    case Move(_, _) =>
  }

  ghost predicate RefsOk(assets: seq<AssetRecord>, bins: seq<AssetBin>) {
    forall a :: a in assets && a.binId.Some? ==> HasBin(bins, a.binId.value)
  }

  lemma UpsertRefs(assets: seq<AssetRecord>, bins: seq<AssetBin>, record: AssetRecord)
    requires RefsOk(assets, bins)
    ensures RefsOk(UpsertedAssets(assets, record), bins) <==> (record.binId.Some? ==> HasBin(bins, record.binId.value))
  {
    var placed := Placed(assets, record);
    PlacedFacts(assets, record);
    hide Placed, HasBin;
    SameElements(placed, SortBy(placed, AssetIdLeq));
  }

  lemma BinsOnlyGrow(bins: seq<AssetBin>, bin: AssetBin)
    ensures forall id :: HasBin(bins, id) ==> HasBin(SortBy(bins + [bin], BinIdLeq), id)
  {
    SameElements(bins + [bin], SortBy(bins + [bin], BinIdLeq));
    forall id | HasBin(bins, id) ensures HasBin(SortBy(bins + [bin], BinIdLeq), id) {
      var b :| b in bins && b.id == id;
      assert b in bins + [bin];
    }
  }

  // ---------------------------------------------------------------- what each mutation does

  predicate IsBin(bins: seq<AssetBin>, id: string) { exists b :: b in bins && b.id == id }
  predicate IsAsset(assets: seq<AssetRecord>, id: string) { exists a :: a in assets && a.id == id }

  /** What an upsert makes of the asset it names: the record, with what it leaves out and the tags it does not repeat
      taken over from the asset as it was. */
  ghost predicate IsUpdated(a: AssetRecord, was: AssetRecord, record: AssetRecord) {
    && a.id == record.id && a.path == record.path && a.role == record.role && a.binId == record.binId
    && a.readiness == record.readiness && a.usage == record.usage
    && a.labelName == (if record.labelName.Some? then record.labelName else was.labelName)
    && a.rating == (if record.rating.Some? then record.rating else was.rating)
    && a.provenance == (if record.provenance.Some? then record.provenance else was.provenance)
    && Canonical(a.tags) && forall t :: t in a.tags <==> t in was.tags || t in record.tags
  }

  lemma MergedIsUpdated(was: AssetRecord, record: AssetRecord)
    requires was.id == record.id
    ensures IsUpdated(MergedRecord(was, record), was, record)
  {
    SortDedupCanonical(was.tags + record.tags);
  }

  /** Without a catalog there are no assets and no bins; each mutation leaves one behind, also when it refuses. */
  lemma EnsuredExactly(meta: Meta, m: Mutation)
    ensures meta.catalog.Some? ==> Ensured(meta) == meta.catalog.value
    ensures meta.catalog.None? ==> Ensured(meta).assets == [] && Ensured(meta).bins == []
    ensures Apply(meta, m).catalog.Some?
  {}

  /** A sound catalog lists its sources, bins and assets by their strings, each once. */
  lemma SoundIsSorted(meta: Meta)
    requires Inv(meta)
    ensures var bins, assets := Ensured(meta).bins, Ensured(meta).assets;
      && (forall i, j :: 0 <= i < j < |meta.sourceAssets| ==> Earlier(meta.sourceAssets[i], meta.sourceAssets[j]))
      && (forall i, j :: 0 <= i < j < |bins| ==> Earlier(bins[i].id, bins[j].id))
      && (forall i, j :: 0 <= i < j < |assets| ==> Earlier(assets[i].id, assets[j].id))
  {
    hide Leq, NoLater;
    var bins, assets, sources := Ensured(meta).bins, Ensured(meta).assets, meta.sourceAssets;
    forall i, j | 0 <= i < j < |sources| ensures Earlier(sources[i], sources[j]) { LeqExactly(sources[i], sources[j]); }
    forall i, j | 0 <= i < j < |bins| ensures Earlier(bins[i].id, bins[j].id) {
      assert BinIdLeq(bins[i], bins[j]) && BinId(bins[i]) != BinId(bins[j]);
      LeqExactly(bins[i].id, bins[j].id);
    }
    forall i, j | 0 <= i < j < |assets| ensures Earlier(assets[i].id, assets[j].id) {
      assert AssetIdLeq(assets[i], assets[j]) && AssetId(assets[i]) != AssetId(assets[j]);
      LeqExactly(assets[i].id, assets[j].id);
    }
  }

  ghost predicate Earlier(a: string, b: string) { a != b && NoLater(a, b) }

  /** An upsert changes the asset it names, or adds it, and no other; its path becomes a source. */
  lemma UpsertExactly(meta: Meta, record: AssetRecord)
    requires Inv(meta)
    ensures var next := Apply(meta, Upsert(record));
      var before, after := Ensured(meta).assets, Ensured(next).assets;
      && Ensured(next).bins == Ensured(meta).bins
      && (forall p :: p in next.sourceAssets <==> p in meta.sourceAssets || p == record.path)
      && (forall a: AssetRecord :: a.id != record.id ==> (a in after <==> a in before))
      && (if IsAsset(before, record.id) then
            exists a, was :: a in after && was in before && was.id == record.id && IsUpdated(a, was, record)
          else record in after)
  {
    SourcesKept(meta.sourceAssets, record.path);
    PlacedExactly(Ensured(meta).assets, record);
    hide Placed, UpsertedSources, IsUpdated, Inv;
    var placed := Placed(Ensured(meta).assets, record);
    SameElements(placed, SortBy(placed, AssetIdLeq));
  }

  lemma PlacedExactly(assets: seq<AssetRecord>, record: AssetRecord)
    requires DistinctBy(assets, AssetId)
    ensures var placed := Placed(assets, record);
      && (forall a: AssetRecord :: a.id != record.id ==> (a in placed <==> a in assets))
      && (if IsAsset(assets, record.id) then
            exists a, was :: a in placed && was in assets && was.id == record.id && IsUpdated(a, was, record)
          else record in placed)
  {
    var i, placed := AssetIndex(assets, record.id), Placed(assets, record);
    if i < |assets| {
      MergedIsUpdated(assets[i], record);
      hide IsUpdated;
      assert placed[i] in placed && assets[i] in assets;
      forall a: AssetRecord | a.id != record.id ensures a in placed <==> a in assets {
        if a in assets { var j :| 0 <= j < |assets| && assets[j] == a; assert placed[j] == a; }
      }
    } else {
      assert !IsAsset(assets, record.id);
      assert placed[|assets|] in placed;
    }
  }

  /** A move is refused for a missing bin, then for a missing asset; otherwise the named asset is in the named bin
      and nothing else has changed. */
  lemma MoveExactly(meta: Meta, assetId: string, binId: Option<string>)
    ensures var (next, outcome) := MoveAssetToBin(meta, assetId, binId);
      var before, after := Ensured(meta), Ensured(next);
      && next.sourceAssets == meta.sourceAssets && after.bins == before.bins
      && outcome == (if binId.Some? && !IsBin(before.bins, binId.value) then Refused(MissingBin(binId.value))
                     else if !IsAsset(before.assets, assetId) then Refused(MissingAsset(assetId)) else Done)
      && (outcome != Done ==> after.assets == before.assets)
      && (outcome == Done ==>
            exists i ::
              && 0 <= i < |before.assets| && before.assets[i].id == assetId
              && (forall j :: 0 <= j < i ==> before.assets[j].id != assetId)
              && after.assets == before.assets[i := before.assets[i].(binId := binId)])
  {
    var assets := Ensured(meta).assets;
    var i := AssetIndex(assets, assetId);
    if i < |assets| { assert assets[i] in assets; }
    assert IsAsset(assets, assetId) <==> i < |assets|;
  }

  /** A creation is refused for a bin that exists, then for a missing parent; otherwise it adds the one bin. */
  lemma CreateExactly(meta: Meta, id: string, name: string, parentId: Option<string>)
    ensures var (next, outcome) := CreateBin(meta, id, name, parentId);
      var before, after := Ensured(meta), Ensured(next);
      && next.sourceAssets == meta.sourceAssets && after.assets == before.assets
      && outcome == (if IsBin(before.bins, id) then Refused(DuplicateBin(id))
                     else if parentId.Some? && !IsBin(before.bins, parentId.value) then
                       Refused(MissingParentBin(parentId.value))
                     else Done)
      && (outcome != Done ==> after.bins == before.bins)
      && (outcome == Done ==> forall b :: b in after.bins <==> b in before.bins || b == AssetBin(id, name, parentId))
  {
    hide SortBy, BinIdLeq;
    var bins := Ensured(meta).bins + [AssetBin(id, name, parentId)];
    SameElements(bins, SortBy(bins, BinIdLeq));
  }
}
