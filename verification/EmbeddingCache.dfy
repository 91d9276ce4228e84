/**
  The persistent cache of lost-image embeddings
  (matching_pipeline/image_blocking/embedding_cache.py).

  Files may change while a run reads them: the t-th file read of a run sees the
  bytes `disk` lists for time `t`. A run fingerprints row `i` at time `i`, embeds the `k`-th
  row it must generate right after, and then fingerprints all rows again.
  Content hashes are idealised as the bytes; embedding one image is a function of
  the model and the bytes; vectors are abstract, and normalising is idempotent.
*/
module EmbeddingCaches {
  import opened Results
  import opened Artworks

  type Bytes = nat

  datatype Path = Path(text: string)

  datatype Vector = Vector(components: seq<real>)
  datatype Reading = Reading(path: Path, time: nat)

  /** The bytes a read sees; a read that is not listed fails. */
  type Disk = map<Reading, Bytes>

  datatype Row = Row(id: Id, path: Path, embedded: Option<bool>, version: Option<nat>, contentDigest: Option<Bytes>)

  datatype Identity = Identity(path: Path, content: Bytes, version: Option<nat>)

  datatype Metadata = Metadata(
    modelId: string, dim: nat, dtype: string,
    sources: Option<map<Id, Identity>>, sourceDigest: Option<map<Id, Identity>>)

  datatype CacheFile = CacheFile(ids: seq<Id>, vectors: seq<Vector>, metadata: Metadata)

  datatype Model = Model(id: string, embed: (string, Bytes) -> Vector, normalize: Vector -> Vector)

  ghost predicate Normalizing(m: Model) {
    forall v :: m.normalize(m.normalize(v)) == m.normalize(v)
  }

  /** What regenerating from these bytes gives. */
  function Regenerated(m: Model, content: Bytes): Vector {
    m.normalize(m.embed(m.id, content))
  }

  datatype CacheError = InvalidInput | UnreadableFile | DigestMismatch | ChangedDuringPreparation

  // ----------------------------------------------------------- Source identities

  predicate Digested(row: Row, content: Bytes) {
    row.contentDigest.Some? ==> row.contentDigest.value == content
  }

  function IdSet(rows: seq<Row>): set<Id> {
    if rows == [] then {} else IdSet(rows[..|rows| - 1]) + {rows[|rows| - 1].id}
  }

  predicate DistinctIds(rows: seq<Row>) {
    rows == [] || (DistinctIds(rows[..|rows| - 1]) && rows[|rows| - 1].id !in IdSet(rows[..|rows| - 1]))
  }

  lemma {:induction false} DistinctRows(rows: seq<Row>)
    requires DistinctIds(rows)
    ensures forall i, j :: 0 <= i < j < |rows| ==> rows[i].id != rows[j].id
  {
    if rows != [] {
      DistinctRows(rows[..|rows| - 1]);
      IdsAreThere(rows[..|rows| - 1]);
    }
  }

  lemma {:induction false} IdsAreThere(rows: seq<Row>)
    ensures forall i :: 0 <= i < |rows| ==> rows[i].id in IdSet(rows)
  {
    if rows != [] {
      IdsAreThere(rows[..|rows| - 1]);
    }
  }

  /** `_source_identities` with row `i` read at time `at + i`: the fingerprints, or the first row's error. */
  function IdentitiesAt(disk: Disk, rows: seq<Row>, at: nat): Result<map<Id, Identity>, CacheError> {
    if rows == [] then Ok(map[])
    else
      var n := |rows| - 1;
      var row := rows[n];
      var m :- IdentitiesAt(disk, rows[..n], at);
      if row.id in m then Err(InvalidInput)
      else if Reading(row.path, at + n) !in disk then Err(UnreadableFile)
      else if !Digested(row, disk[Reading(row.path, at + n)]) then Err(DigestMismatch)
      else Ok(m[row.id := Identity(row.path, disk[Reading(row.path, at + n)], row.version)])
  }

  /** At time `t` the row's file was readable, as its database digest says, and `m` names what was read. */
  predicate ReadAs(disk: Disk, row: Row, t: nat, m: map<Id, Identity>) {
    && Reading(row.path, t) in disk
    && (row.contentDigest.Some? ==> row.contentDigest == Some(disk[Reading(row.path, t)]))
    && row.id in m && m[row.id] == Identity(row.path, disk[Reading(row.path, t)], row.version)
  }

  /** `m` fingerprints distinct rows, the `i`-th read at time `at + i`, and nothing else. */
  ghost predicate Identifies(disk: Disk, rows: seq<Row>, m: map<Id, Identity>, at: nat) {
    && DistinctIds(rows) && m.Keys == IdSet(rows)
    && forall i :: 0 <= i < |rows| ==> ReadAs(disk, rows[i], at + i, m)
  }

  lemma {:induction false} IdentitiesExactly(disk: Disk, rows: seq<Row>, at: nat, m: map<Id, Identity>)
    ensures IdentitiesAt(disk, rows, at) == Ok(m) <==> Identifies(disk, rows, m, at)
  {
    hide Identifies;
    if rows == [] {
      NothingIdentified(disk, at, m);
    } else {
      var n := |rows| - 1;
      var row, before := rows[n], rows[..n];
      if IdentitiesAt(disk, rows, at) == Ok(m) {
        var shorter := IdentitiesAt(disk, before, at).value;
        IdentitiesExactly(disk, before, at, shorter);
        IdentifiesOneMore(disk, before, row, at, shorter);
        assert before + [row] == rows;
      }
      if Identifies(disk, rows, m, at) {
        assert before + [row] == rows;
        IdentifiesOneLess(disk, before, row, at, m);
        IdentitiesExactly(disk, before, at, m - {row.id});
        assert m == (m - {row.id})[row.id := m[row.id]];
      }
    }
  }

  lemma NothingIdentified(disk: Disk, at: nat, m: map<Id, Identity>)
    ensures Identifies(disk, [], m, at) <==> m == map[]
  {
    assert IdSet([]) == {};
  }

  lemma OneMoreId(before: seq<Row>, row: Row)
    ensures IdSet(before + [row]) == IdSet(before) + {row.id}
    ensures DistinctIds(before + [row]) <==> DistinctIds(before) && row.id !in IdSet(before)
  {
    assert (before + [row])[..|before|] == before;
  }

  lemma IdentifiesOneMore(disk: Disk, before: seq<Row>, row: Row, at: nat, m: map<Id, Identity>)
    requires Identifies(disk, before, m, at) && row.id !in m
    requires var t := at + |before|; Reading(row.path, t) in disk && Digested(row, disk[Reading(row.path, t)])
    ensures Identifies(disk, before + [row], m[row.id := Identity(row.path, disk[Reading(row.path, at + |before|)], row.version)], at)
  {
    var rows, all := before + [row], m[row.id := Identity(row.path, disk[Reading(row.path, at + |before|)], row.version)];
    OneMoreId(before, row);
    IdsAreThere(before);
    hide DistinctIds, IdSet;
    forall i | 0 <= i < |rows| ensures ReadAs(disk, rows[i], at + i, all) {
      assert i < |before| ==> rows[i] == before[i] && ReadAs(disk, before[i], at + i, m) && before[i].id in IdSet(before);
    }
  }

  lemma IdentifiesOneLess(disk: Disk, before: seq<Row>, row: Row, at: nat, m: map<Id, Identity>)
    requires Identifies(disk, before + [row], m, at)
    ensures Identifies(disk, before, m - {row.id}, at)
    ensures ReadAs(disk, row, at + |before|, m)
  {
    var rows := before + [row];
    OneMoreId(before, row);
    IdsAreThere(before);
    hide DistinctIds, IdSet;
    assert rows[|before|] == row && ReadAs(disk, rows[|before|], at + |before|, m);
    forall i | 0 <= i < |before| ensures ReadAs(disk, before[i], at + i, m - {row.id}) {
      assert rows[i] == before[i] && ReadAs(disk, rows[i], at + i, m);
      assert before[i] in before && before[i].id in IdSet(before);
    }
    assert (m - {row.id}).Keys == IdSet(before);
  }

  lemma {:induction false} IdentitiesFail(disk: Disk, rows: seq<Row>, at: nat, k: nat)
    requires k <= |rows| && IdentitiesAt(disk, rows[..k], at).Err?
    ensures IdentitiesAt(disk, rows, at) == IdentitiesAt(disk, rows[..k], at)
    decreases |rows|
  {
    if k == |rows| {
      assert rows[..k] == rows;
    } else {
      assert rows[..|rows| - 1][..k] == rows[..k];
      IdentitiesFail(disk, rows[..|rows| - 1], at, k);
    }
  }

  /** One fingerprint per row, in order. */
  method SourceIdentities(disk: Disk, rows: seq<Row>, at: nat) returns (r: Result<map<Id, Identity>, CacheError>)
    ensures r == IdentitiesAt(disk, rows, at)
  {
    var identities: map<Id, Identity> := map[];
    for i := 0 to |rows|
      invariant IdentitiesAt(disk, rows[..i], at) == Ok(identities)
    {
      var row := rows[i];
      assert rows[..i + 1][..i] == rows[..i];
      if row.id in identities {
        IdentitiesFail(disk, rows, at, i + 1);
        return Err(InvalidInput);
      }
      if Reading(row.path, at + i) !in disk {
        IdentitiesFail(disk, rows, at, i + 1);
        return Err(UnreadableFile);
      }
      var content := disk[Reading(row.path, at + i)];
      if !Digested(row, content) {
        IdentitiesFail(disk, rows, at, i + 1);
        return Err(DigestMismatch);
      }
      identities := identities[row.id := Identity(row.path, content, row.version)];
    }
    assert rows[..|rows|] == rows;
    return Ok(identities);
  }

  // ------------------------------------------------------------ Reusable vectors

  /** `dict(zip(ids, vectors))`, normalised. */
  function CachedMap(m: Model, ids: seq<Id>, vectors: seq<Vector>): map<Id, Vector>
    requires |ids| == |vectors|
  {
    if ids == [] then map[]
    else CachedMap(m, ids[..|ids| - 1], vectors[..|ids| - 1])[ids[|ids| - 1] := m.normalize(vectors[|ids| - 1])]
  }

  predicate Readable(cache: CacheFile) {
    |cache.ids| == |cache.vectors| && forall i :: 0 <= i < |cache.vectors| ==> |cache.vectors[i].components| == cache.metadata.dim
  }

  /** `_valid_cached_embeddings` */
  function ValidCached(m: Model, cache: Option<CacheFile>, identities: map<Id, Identity>): map<Id, Vector> {
    if cache.None? || cache.value.metadata.modelId != m.id || !Readable(cache.value) then map[]
    else if cache.value.metadata.sources.None? || cache.value.metadata.sourceDigest != cache.value.metadata.sources then map[]
    else
      var sources := cache.value.metadata.sources.value;
      var all := CachedMap(m, cache.value.ids, cache.value.vectors);
      map id | id in all && id in sources && id in identities && sources[id] == identities[id] :: all[id]
  }

  /** A file of this model whose vectors have the dimension it states and whose identities match their digest. */
  predicate Intact(m: Model, c: CacheFile) {
    && c.metadata.modelId == m.id && |c.ids| == |c.vectors|
    && (forall i :: 0 <= i < |c.vectors| ==> |c.vectors[i].components| == c.metadata.dim)
    && c.metadata.sources.Some? && c.metadata.sourceDigest == c.metadata.sources
  }

  /**
    Row by row: an intact file gives back the vector of a row exactly if that row's
    identity is the stored one, whatever became of the other rows; a broken file
    gives back nothing. With an id listed twice the last vector counts.
  */
  lemma ReusedRowByRow(m: Model, c: CacheFile, identities: map<Id, Identity>, id: Id)
    ensures id in ValidCached(m, Some(c), identities) <==>
              && Intact(m, c) && id in c.ids && id in identities
              && id in c.metadata.sources.value && c.metadata.sources.value[id] == identities[id]
    ensures id in ValidCached(m, Some(c), identities) ==>
              exists i :: 0 <= i < |c.ids| && c.ids[i] == id && (forall j :: i < j < |c.ids| ==> c.ids[j] != id)
                && ValidCached(m, Some(c), identities)[id] == m.normalize(c.vectors[i])
  {
    if |c.ids| == |c.vectors| {
      CachedLast(m, c.ids, c.vectors, id);
    }
  }

  lemma {:induction false} CachedLast(m: Model, ids: seq<Id>, vectors: seq<Vector>, id: Id)
    requires |ids| == |vectors|
    ensures id in CachedMap(m, ids, vectors) <==> id in ids
    ensures id in ids ==>
              exists i :: 0 <= i < |ids| && ids[i] == id && (forall j :: i < j < |ids| ==> ids[j] != id)
                && CachedMap(m, ids, vectors)[id] == m.normalize(vectors[i])
  {
    if ids != [] {
      var n := |ids| - 1;
      CachedLast(m, ids[..n], vectors[..n], id);
      assert ids == ids[..n] + [ids[n]];
      if id != ids[n] && id in ids {
        var i :| 0 <= i < n && ids[..n][i] == id && (forall j :: i < j < n ==> ids[..n][j] != id)
          && CachedMap(m, ids[..n], vectors[..n])[id] == m.normalize(vectors[..n][i]);
        assert forall j :: i < j < |ids| ==> ids[j] != id by {
          assert forall j :: i < j < n ==> ids[j] == ids[..n][j];
        }
        assert ids[i] == id && vectors[i] == vectors[..n][i];
      }
    }
  }

  /** Every stored vector was computed, by the model the file names, from the bytes its source identity names. */
  ghost predicate CacheSound(m: Model, cache: Option<CacheFile>) {
    cache.Some? ==>
      var c := cache.value;
      && |c.ids| == |c.vectors|
      && (c.metadata.sources.Some? && c.metadata.sourceDigest == c.metadata.sources ==>
            forall i :: 0 <= i < |c.ids| && c.ids[i] in c.metadata.sources.value ==>
              c.vectors[i] == Regenerated(m.(id := c.metadata.modelId), c.metadata.sources.value[c.ids[i]].content))
  }

  lemma {:induction false} CachedMapIsSound(m: Model, ids: seq<Id>, vectors: seq<Vector>, sources: map<Id, Identity>)
    requires Normalizing(m) && |ids| == |vectors|
    requires forall i :: 0 <= i < |ids| && ids[i] in sources ==> vectors[i] == Regenerated(m, sources[ids[i]].content)
    ensures forall id :: id in CachedMap(m, ids, vectors) && id in sources ==>
              CachedMap(m, ids, vectors)[id] == Regenerated(m, sources[id].content)
  {
    if ids != [] {
      CachedMapIsSound(m, ids[..|ids| - 1], vectors[..|ids| - 1], sources);
    }
  }

  lemma ValidCachedIsSound(m: Model, cache: Option<CacheFile>, identities: map<Id, Identity>)
    requires Normalizing(m) && CacheSound(m, cache)
    ensures forall id :: id in ValidCached(m, cache, identities) ==>
              id in identities && ValidCached(m, cache, identities)[id] == Regenerated(m, identities[id].content)
  {
    if cache.Some? && cache.value.metadata.modelId == m.id && cache.value.metadata.sources.Some?
       && m.(id := cache.value.metadata.modelId) == m
       && cache.value.metadata.sourceDigest == cache.value.metadata.sources {
      CachedMapIsSound(m, cache.value.ids, cache.value.vectors, cache.value.metadata.sources.value);
    }
  }

  lemma {:induction false} CachedAt(m: Model, ids: seq<Id>, vectors: seq<Vector>)
    requires |ids| == |vectors| && forall i, j :: 0 <= i < j < |ids| ==> ids[i] != ids[j]
    ensures forall i :: 0 <= i < |ids| ==>
              ids[i] in CachedMap(m, ids, vectors) && CachedMap(m, ids, vectors)[ids[i]] == m.normalize(vectors[i])
  {
    if ids != [] {
      CachedAt(m, ids[..|ids| - 1], vectors[..|ids| - 1]);
    }
  }

  /** Ids the database marks as not embedded. */
  function Invalidated(rows: seq<Row>): set<Id> {
    if rows == [] then {}
    else
      var last := rows[|rows| - 1];
      Invalidated(rows[..|rows| - 1]) + if last.embedded == Some(false) then {last.id} else {}
  }

  lemma {:induction false} InvalidatedExactly(rows: seq<Row>)
    requires DistinctIds(rows)
    ensures Invalidated(rows) <= IdSet(rows)
    ensures forall i :: 0 <= i < |rows| ==> (rows[i].id in Invalidated(rows) <==> rows[i].embedded == Some(false))
  {
    if rows != [] {
      InvalidatedExactly(rows[..|rows| - 1]);
      IdsAreThere(rows[..|rows| - 1]);
    }
  }

  /** The part of the cache a run may use: still fitting, and not marked as not embedded. */
  function Usable(m: Model, cache: Option<CacheFile>, rows: seq<Row>, identities: map<Id, Identity>): map<Id, Vector> {
    var cached := ValidCached(m, cache, identities);
    map id | id in cached && id !in Invalidated(rows) :: cached[id]
  }

  /** The rows without a usable vector, in order. */
  function Missing(rows: seq<Row>, usable: map<Id, Vector>): seq<Row> {
    if rows == [] then []
    else Missing(rows[..|rows| - 1], usable) + if rows[|rows| - 1].id in usable then [] else [rows[|rows| - 1]]
  }

  lemma {:induction false} MissingExactly(rows: seq<Row>, usable: map<Id, Vector>, row: Row)
    ensures row in Missing(rows, usable) <==> row in rows && row.id !in usable
  {
    if rows != [] {
      MissingExactly(rows[..|rows| - 1], usable, row);
    }
  }

  lemma {:induction false} MissingIds(rows: seq<Row>, usable: map<Id, Vector>)
    ensures IdSet(Missing(rows, usable)) == IdSet(rows) - usable.Keys
    ensures DistinctIds(rows) ==> DistinctIds(Missing(rows, usable))
  {
    if rows != [] {
      var before, last := rows[..|rows| - 1], rows[|rows| - 1];
      MissingIds(before, usable);
      if last.id !in usable {
        assert Missing(rows, usable) == Missing(before, usable) + [last];
        OneMoreId(Missing(before, usable), last);
      } else {
        assert Missing(rows, usable) == Missing(before, usable);
      }
    }
  }

  // ------------------------------------------------------------------ Generation

  /** The vectors of `rows`, the `k`-th read at time `at + k`; one failing image fails the run. */
  function GeneratedAt(m: Model, disk: Disk, rows: seq<Row>, at: nat): (r: Option<map<Id, Vector>>)
    ensures r.Some? ==> r.value.Keys == IdSet(rows)
  {
    if rows == [] then Some(map[])
    else
      var n := |rows| - 1;
      var g :- GeneratedAt(m, disk, rows[..n], at);
      if Reading(rows[n].path, at + n) !in disk then None
      else Some(g[rows[n].id := Regenerated(m, disk[Reading(rows[n].path, at + n)])])
  }

  lemma {:induction false} GenerationFails(m: Model, disk: Disk, rows: seq<Row>, at: nat, k: nat)
    requires k <= |rows|
    ensures GeneratedAt(m, disk, rows[..k], at).None? ==> GeneratedAt(m, disk, rows, at).None?
    decreases |rows|
  {
    if k == |rows| {
      assert rows[..k] == rows;
    } else {
      assert rows[..|rows| - 1][..k] == rows[..k];
      GenerationFails(m, disk, rows[..|rows| - 1], at, k);
    }
  }

  /** The row's file was readable at `t`, and its vector is what regenerating from the bytes it then had gives. */
  predicate GeneratedFrom(m: Model, disk: Disk, row: Row, t: nat, g: map<Id, Vector>) {
    Reading(row.path, t) in disk && row.id in g && g[row.id] == Regenerated(m, disk[Reading(row.path, t)])
  }

  ghost predicate AllGenerated(m: Model, disk: Disk, rows: seq<Row>, at: nat, g: map<Id, Vector>) {
    && g.Keys == IdSet(rows)
    && forall k :: 0 <= k < |rows| ==> GeneratedFrom(m, disk, rows[k], at + k, g)
  }

  lemma {:induction false} GeneratedFromReads(m: Model, disk: Disk, rows: seq<Row>, at: nat)
    requires DistinctIds(rows) && GeneratedAt(m, disk, rows, at).Some?
    ensures AllGenerated(m, disk, rows, at, GeneratedAt(m, disk, rows, at).value)
  {
    if rows == [] {
      assert AllGenerated(m, disk, [], at, map[]);
    } else {
      hide *;
      var before, row := rows[..|rows| - 1], rows[|rows| - 1];
      assert rows == before + [row];
      OneMoreId(before, row);
      GenerationFails(m, disk, rows, at, |rows| - 1);
      GeneratedFromReads(m, disk, before, at);
      GeneratedFromLast(m, disk, before, row, at);
    }
  }

  lemma GeneratedFromLast(m: Model, disk: Disk, before: seq<Row>, row: Row, at: nat)
    requires row.id !in IdSet(before) && GeneratedAt(m, disk, before + [row], at).Some?
    requires GeneratedAt(m, disk, before, at).Some?
    requires AllGenerated(m, disk, before, at, GeneratedAt(m, disk, before, at).value)
    ensures AllGenerated(m, disk, before + [row], at, GeneratedAt(m, disk, before + [row], at).value)
  {
    var rows := before + [row];
    assert rows[..|before|] == before && rows[..|before| + 1] == rows;
    hide *;
    GeneratedOneMore(m, disk, rows, at, |before|);
    GeneratedFromOneMore(m, disk, before, row, at, GeneratedAt(m, disk, before, at).value);
  }

  lemma GeneratedFromOneMore(m: Model, disk: Disk, before: seq<Row>, row: Row, at: nat, g: map<Id, Vector>)
    requires row.id !in IdSet(before) && AllGenerated(m, disk, before, at, g) && Reading(row.path, at + |before|) in disk
    ensures AllGenerated(m, disk, before + [row], at, g[row.id := Regenerated(m, disk[Reading(row.path, at + |before|)])])
  {
    hide Regenerated;
    var all := g[row.id := Regenerated(m, disk[Reading(row.path, at + |before|)])];
    OneMoreId(before, row);
    IdsAreThere(before);
    hide DistinctIds, IdSet;
    forall k | 0 <= k < |before| ensures GeneratedFrom(m, disk, before[k], at + k, all) {
      assert GeneratedFrom(m, disk, before[k], at + k, g) && before[k].id in IdSet(before);
    }
  }

  lemma GeneratedOneMore(m: Model, disk: Disk, rows: seq<Row>, at: nat, k: nat)
    requires k < |rows| && GeneratedAt(m, disk, rows[..k], at).Some?
    ensures GeneratedAt(m, disk, rows[..k + 1], at) ==
              if Reading(rows[k].path, at + k) !in disk then None
              else Some(GeneratedAt(m, disk, rows[..k], at).value[rows[k].id := Regenerated(m, disk[Reading(rows[k].path, at + k)])])
  {
    assert rows[..k + 1][..k] == rows[..k];
  }

  /** `_generate_embeddings`: batch after batch. */
  method GenerateEmbeddings(m: Model, disk: Disk, rows: seq<Row>, batchSize: int, at: nat)
    returns (g: Option<map<Id, Vector>>)
    requires batchSize > 0
    ensures g == GeneratedAt(m, disk, rows, at)
  {
    hide Regenerated;
    var generated: map<Id, Vector> := map[];
    var start := 0;
    assert rows[..0] == [];
    hide GeneratedAt;
    while start < |rows|
      invariant start <= |rows|
      invariant GeneratedAt(m, disk, rows[..start], at) == Some(generated)
    {
      var end := if start + batchSize < |rows| then start + batchSize else |rows|;
      for k := start to end
        invariant GeneratedAt(m, disk, rows[..k], at) == Some(generated)
      {
        GeneratedOneMore(m, disk, rows, at, k);
        if Reading(rows[k].path, at + k) !in disk {
          GenerationFails(m, disk, rows, at, k + 1);
          return None;
        }
        generated := generated[rows[k].id := Regenerated(m, disk[Reading(rows[k].path, at + k)])];
      }
      start := end;
    }
    assert rows[..|rows|] == rows;
    return Some(generated);
  }

  // ---------------------------------------------------------------- The whole run

  function NewMetadata(m: Model, dtype: string, dim: nat, identities: map<Id, Identity>): Metadata {
    Metadata(m.id, dim, dtype, Some(identities), Some(identities))
  }

  /** `_cache_needs_rewrite` */
  predicate NeedsRewrite(
    m: Model, cache: Option<CacheFile>, ids: seq<Id>, dtype: string, dim: nat, identities: map<Id, Identity>)
  {
    cache.None? || cache.value.ids != ids || cache.value.metadata.dtype != dtype || cache.value.metadata.modelId != m.id
    || cache.value.metadata.dim != dim || cache.value.metadata.sources != Some(identities)
    || cache.value.metadata.sourceDigest != Some(identities)
  }

  /** The vectors in row order, what they were made from, and the rows generated in this run. */
  datatype Outcome = Outcome(ids: seq<Id>, vectors: seq<Vector>, identities: map<Id, Identity>, generated: seq<Row>)

  function IdsOf(rows: seq<Row>): seq<Id> {
    seq(|rows|, i requires 0 <= i < |rows| => rows[i].id)
  }

  /** Generated first, then cached; normalised once more. */
  function Assemble(m: Model, rows: seq<Row>, usable: map<Id, Vector>, g: map<Id, Vector>): (r: seq<Vector>)
    requires IdSet(rows) <= usable.Keys + g.Keys
    ensures |r| == |rows|
  {
    IdsAreThere(rows);
    seq(|rows|, i requires 0 <= i < |rows| =>
      m.normalize(if rows[i].id in g then g[rows[i].id] else usable[rows[i].id]))
  }

  /** A two-dimensional array: at least one vector, all of one positive dimension. */
  predicate Stackable(vectors: seq<Vector>) {
    && vectors != [] && vectors[0].components != []
    && forall i :: 0 <= i < |vectors| ==> |vectors[i].components| == |vectors[0].components|
  }

  /** What a run returns, given what its reads see. */
  function Prepared(m: Model, disk: Disk, cache: Option<CacheFile>, rows: seq<Row>, batchSize: int):
    (r: Result<Outcome, CacheError>)
    ensures r.Ok? ==> Stackable(r.value.vectors)
  {
    if batchSize <= 0 then Err(InvalidInput)
    else
      var first :- IdentitiesAt(disk, rows, 0);
      var usable := Usable(m, cache, rows, first);
      var missing := Missing(rows, usable);
      var g := GeneratedAt(m, disk, missing, |rows|);
      if g.None? then Err(UnreadableFile)
      else
        var second :- IdentitiesAt(disk, rows, |rows| + |missing|);
        MissingIds(rows, usable);
        var vectors := Assemble(m, rows, usable, g.value);
        if second != first then Err(ChangedDuringPreparation)
        else if !Stackable(vectors) then Err(InvalidInput)
        else Ok(Outcome(IdsOf(rows), vectors, first, missing))
  }

  /** The cache file a run leaves. */
  function FileAfter(m: Model, dtype: string, disk: Disk, cache: Option<CacheFile>, rows: seq<Row>, batchSize: int):
    Option<CacheFile>
  {
    var r := Prepared(m, disk, cache, rows, batchSize);
    if r.Err? then cache
    else
      var o, dim := r.value, |r.value.vectors[0].components|;
      if o.generated != [] || NeedsRewrite(m, cache, o.ids, dtype, dim, o.identities)
      then Some(CacheFile(o.ids, o.vectors, NewMetadata(m, dtype, dim, o.identities)))
      else cache
  }

  class EmbeddingCache {
    const dtype: string
    var file: Option<CacheFile>

    constructor (dtype: string, file: Option<CacheFile>)
      ensures this.dtype == dtype && this.file == file
    {
      this.dtype, this.file := dtype, file;
    }

    /**
      `ensure_lost_embedding_cache`: fingerprints, reuses what still fits, generates
      the rest, fingerprints again, and stores the vectors if they changed. A failing
      run leaves the file alone.
    */
    method Ensure(m: Model, disk: Disk, rows: seq<Row>, batchSize: int) returns (r: Result<Outcome, CacheError>)
      modifies this
      ensures r == Prepared(m, disk, old(file), rows, batchSize)
      ensures file == FileAfter(m, dtype, disk, old(file), rows, batchSize)
      ensures r.Err? ==> file == old(file)
      ensures r.Ok? ==> TrueRun(m, disk, old(file), rows, r.value) && Holds(m, dtype, file, r.value)
    {
      hide IdentitiesAt, GeneratedAt, ValidCached, TrueRun, Holds;
      FileHoldsTheRun(m, dtype, disk, file, rows, batchSize);
      if batchSize <= 0 {
        return Err(InvalidInput);
      }
      var first :- SourceIdentities(disk, rows, 0);
      var usable := Usable(m, file, rows, first);
      var missing := Missing(rows, usable);
      var g := GenerateEmbeddings(m, disk, missing, batchSize, |rows|);
      if g.None? {
        return Err(UnreadableFile);
      }
      MissingIds(rows, usable);
      var vectors := Assemble(m, rows, usable, g.value);
      var second :- SourceIdentities(disk, rows, |rows| + |missing|);
      if second != first {
        return Err(ChangedDuringPreparation);
      }
      if !Stackable(vectors) {
        return Err(InvalidInput);
      }
      var ids, dim := IdsOf(rows), |vectors[0].components|;
      if missing != [] || NeedsRewrite(m, file, ids, dtype, dim, first) {
        file := Some(CacheFile(ids, vectors, NewMetadata(m, dtype, dim, first)));
      }
      return Ok(Outcome(ids, vectors, first, missing));
    }
  }

  /**
    A result whose identities name the bytes read at both ends of the run, and that
    generated the rows marked as not embedded and those no cached vector fits, and
    no others.
  */
  ghost predicate TrueRun(m: Model, disk: Disk, cache: Option<CacheFile>, rows: seq<Row>, o: Outcome) {
    && rows != [] && o.ids == IdsOf(rows) && |o.vectors| == |rows|
    && Identifies(disk, rows, o.identities, 0)
    && Identifies(disk, rows, o.identities, |rows| + |o.generated|)
    && forall row {:trigger row in o.generated} {:trigger row in rows} :: row in o.generated <==>
         row in rows && (row.embedded == Some(false) || row.id !in ValidCached(m, cache, o.identities))
  }

  /** The file names this run's model and identities, and a later run reading it gets this run's vectors. */
  ghost predicate Holds(m: Model, dtype: string, file: Option<CacheFile>, o: Outcome) {
    && file.Some? && |o.ids| == |o.vectors| > 0
    && !NeedsRewrite(m, file, o.ids, dtype, |o.vectors[0].components|, o.identities)
    && (Normalizing(m) ==>
          var stored := ValidCached(m, file, o.identities);
          forall i :: 0 <= i < |o.ids| ==> o.ids[i] in stored && stored[o.ids[i]] == o.vectors[i])
  }

  /** A successful run, step by step. */
  ghost predicate PreparedBy(m: Model, disk: Disk, cache: Option<CacheFile>, rows: seq<Row>, o: Outcome) {
    var usable := Usable(m, cache, rows, o.identities);
    var g := GeneratedAt(m, disk, o.generated, |rows|);
    MissingIds(rows, usable);
    && IdentitiesAt(disk, rows, 0) == Ok(o.identities)
    && IdentitiesAt(disk, rows, |rows| + |o.generated|) == Ok(o.identities)
    && o.generated == Missing(rows, usable)
    && g.Some? && o.vectors == Assemble(m, rows, usable, g.value)
    && o.ids == IdsOf(rows) && Stackable(o.vectors)
  }

  lemma PreparedSteps(m: Model, disk: Disk, cache: Option<CacheFile>, rows: seq<Row>, batchSize: int)
    ensures var r := Prepared(m, disk, cache, rows, batchSize); r.Ok? ==> PreparedBy(m, disk, cache, rows, r.value)
  {
    hide IdentitiesAt, GeneratedAt, ValidCached, Usable, Stackable;
  }

  lemma StepsAreTrue(m: Model, disk: Disk, cache: Option<CacheFile>, rows: seq<Row>, o: Outcome)
    requires PreparedBy(m, disk, cache, rows, o)
    ensures TrueRun(m, disk, cache, rows, o)
  {
    hide IdentitiesAt, GeneratedAt, ValidCached, Identifies, ReadAs;
    IdentitiesExactly(disk, rows, 0, o.identities);
    IdentitiesExactly(disk, rows, |rows| + |o.generated|, o.identities);
    GeneratesAsNeeded(m, disk, cache, rows, o.identities);
  }

  lemma GeneratesAsNeeded(m: Model, disk: Disk, cache: Option<CacheFile>, rows: seq<Row>, identities: map<Id, Identity>)
    requires Identifies(disk, rows, identities, 0)
    ensures var generated := Missing(rows, Usable(m, cache, rows, identities));
            forall row {:trigger row in generated} {:trigger row in rows} :: row in generated <==>
              row in rows && (row.embedded == Some(false) || row.id !in ValidCached(m, cache, identities))
  {
    hide ValidCached, Missing;
    InvalidatedExactly(rows);
    forall row ensures row in Missing(rows, Usable(m, cache, rows, identities)) <==>
                       row in rows && (row.embedded == Some(false) || row.id !in ValidCached(m, cache, identities))
    {
      MissingExactly(rows, Usable(m, cache, rows, identities), row);
    }
  }

  /** What regenerating from the bytes the row's file has at `t` gives. */
  predicate FromDisk(m: Model, disk: Disk, row: Row, t: nat, v: Vector) {
    Reading(row.path, t) in disk && v == Regenerated(m, disk[Reading(row.path, t)])
  }

  /** The cached vector that still fits the row's identity. */
  predicate FromCache(m: Model, cache: Option<CacheFile>, identities: map<Id, Identity>, row: Row, v: Vector) {
    row.id in ValidCached(m, cache, identities) && v == ValidCached(m, cache, identities)[row.id]
  }

  lemma StepsGenerate(m: Model, disk: Disk, cache: Option<CacheFile>, rows: seq<Row>, o: Outcome)
    requires PreparedBy(m, disk, cache, rows, o)
    ensures AllGenerated(m, disk, o.generated, |rows|, GeneratedAt(m, disk, o.generated, |rows|).value)
  {
    hide IdentitiesAt, GeneratedAt, Usable, AllGenerated;
    IdentitiesExactly(disk, rows, 0, o.identities);
    hide DistinctIds;
    MissingIds(rows, Usable(m, cache, rows, o.identities));
    GeneratedFromReads(m, disk, o.generated, |rows|);
  }

  /** Where each returned vector comes from. */
  lemma GeneratedRowFromDisk(m: Model, disk: Disk, cache: Option<CacheFile>, rows: seq<Row>, o: Outcome, i: nat, k: nat)
    requires PreparedBy(m, disk, cache, rows, o) && Normalizing(m)
    requires i < |rows| && k < |o.generated| && o.generated[k] == rows[i]
    ensures FromDisk(m, disk, rows[i], |rows| + k, o.vectors[i])
  {
    StepsGenerate(m, disk, cache, rows, o);
    hide IdentitiesAt, GeneratedAt, Usable, Missing, Stackable, Normalizing;
    var g := GeneratedAt(m, disk, o.generated, |rows|).value;
    assert GeneratedFrom(m, disk, o.generated[k], |rows| + k, g);
    NormalizedTwice(m, m.embed(m.id, disk[Reading(rows[i].path, |rows| + k)]));
  }

  lemma ReusedRowFromCache(m: Model, disk: Disk, cache: Option<CacheFile>, rows: seq<Row>, o: Outcome, i: nat)
    requires PreparedBy(m, disk, cache, rows, o) && Normalizing(m)
    requires i < |rows| && rows[i] !in o.generated
    ensures FromCache(m, cache, o.identities, rows[i], o.vectors[i])
  {
    hide IdentitiesAt, GeneratedAt, ValidCached, DistinctIds, IdSet, Stackable, Invalidated, Missing, Normalizing;
    StepsGenerate(m, disk, cache, rows, o);
    ReusedVectorsAreNormalized(m, cache, o.identities);
    IdentitiesExactly(disk, rows, 0, o.identities);
    MissingIds(rows, Usable(m, cache, rows, o.identities));
    MissingExactly(rows, Usable(m, cache, rows, o.identities), rows[i]);
  }

  lemma NormalizedTwice(m: Model, v: Vector)
    requires Normalizing(m)
    ensures m.normalize(m.normalize(v)) == m.normalize(v)
  {
  }

  lemma ReusedVectorsAreNormalized(m: Model, cache: Option<CacheFile>, identities: map<Id, Identity>)
    requires Normalizing(m)
    ensures forall id :: id in ValidCached(m, cache, identities) ==>
              m.normalize(ValidCached(m, cache, identities)[id]) == ValidCached(m, cache, identities)[id]
  {
    hide Normalizing, CachedMap;
    if cache.Some? && |cache.value.ids| == |cache.value.vectors| {
      CachedIsNormalized(m, cache.value.ids, cache.value.vectors);
    }
  }

  lemma {:induction false} CachedIsNormalized(m: Model, ids: seq<Id>, vectors: seq<Vector>)
    requires Normalizing(m) && |ids| == |vectors|
    ensures forall id :: id in CachedMap(m, ids, vectors) ==>
              m.normalize(CachedMap(m, ids, vectors)[id]) == CachedMap(m, ids, vectors)[id]
  {
    if ids != [] {
      CachedIsNormalized(m, ids[..|ids| - 1], vectors[..|ids| - 1]);
    }
  }

  lemma FileHoldsTheRun(m: Model, dtype: string, disk: Disk, cache: Option<CacheFile>, rows: seq<Row>, batchSize: int)
    ensures var r := Prepared(m, disk, cache, rows, batchSize);
            r.Ok? ==> && TrueRun(m, disk, cache, rows, r.value)
                      && Holds(m, dtype, FileAfter(m, dtype, disk, cache, rows, batchSize), r.value)
  {
    var r := Prepared(m, disk, cache, rows, batchSize);
    PreparedSteps(m, disk, cache, rows, batchSize);
    hide Prepared, PreparedBy, TrueRun, NeedsRewrite, Holds;
    if r.Ok? {
      var o, dim := r.value, |r.value.vectors[0].components|;
      StepsAreTrue(m, disk, cache, rows, o);
      if o.generated != [] || NeedsRewrite(m, cache, o.ids, dtype, dim, o.identities) {
        NewFileHolds(m, dtype, disk, cache, rows, o);
      } else {
        OldFileHolds(m, dtype, disk, cache, rows, o);
      }
    }
  }

  lemma VectorsAreNormalized(m: Model, disk: Disk, cache: Option<CacheFile>, rows: seq<Row>, o: Outcome)
    requires PreparedBy(m, disk, cache, rows, o) && Normalizing(m)
    ensures forall i :: 0 <= i < |o.vectors| ==> m.normalize(o.vectors[i]) == o.vectors[i]
  {
    hide IdentitiesAt, GeneratedAt, Usable, Missing, IdSet, Stackable;
    var usable, g := Usable(m, cache, rows, o.identities), GeneratedAt(m, disk, o.generated, |rows|).value;
    MissingIds(rows, usable);
    IdsAreThere(rows);
    forall i | 0 <= i < |o.vectors| ensures m.normalize(o.vectors[i]) == o.vectors[i] {
      NormalizedTwice(m, if rows[i].id in g then g[rows[i].id] else usable[rows[i].id]);
    }
  }

  lemma OldFileHolds(m: Model, dtype: string, disk: Disk, cache: Option<CacheFile>, rows: seq<Row>, o: Outcome)
    requires PreparedBy(m, disk, cache, rows, o) && o.generated == []
    requires !NeedsRewrite(m, cache, o.ids, dtype, |o.vectors[0].components|, o.identities)
    ensures Holds(m, dtype, cache, o)
  {
    hide PreparedBy, ValidCached;
    AssembledInOrder(m, disk, cache, rows, o);
    hide Identifies;
    if Normalizing(m) {
      hide Normalizing;
      forall i | 0 <= i < |rows| ensures FromCache(m, cache, o.identities, rows[i], o.vectors[i]) {
        ReusedRowFromCache(m, disk, cache, rows, o, i);
      }
    }
  }

  lemma AssembledInOrder(m: Model, disk: Disk, cache: Option<CacheFile>, rows: seq<Row>, o: Outcome)
    requires PreparedBy(m, disk, cache, rows, o)
    ensures |o.vectors| == |rows| && o.ids == IdsOf(rows) && Stackable(o.vectors)
    ensures Identifies(disk, rows, o.identities, 0)
  {
    hide IdentitiesAt, GeneratedAt, Usable, Missing, Identifies;
    IdentitiesExactly(disk, rows, 0, o.identities);
  }

  lemma NewFileHolds(m: Model, dtype: string, disk: Disk, cache: Option<CacheFile>, rows: seq<Row>, o: Outcome)
    requires PreparedBy(m, disk, cache, rows, o)
    ensures var file := CacheFile(o.ids, o.vectors, NewMetadata(m, dtype, |o.vectors[0].components|, o.identities));
            Holds(m, dtype, Some(file), o)
  {
    AssembledInOrder(m, disk, cache, rows, o);
    if Normalizing(m) {
      VectorsAreNormalized(m, disk, cache, rows, o);
      hide PreparedBy;
      NewFileGivesBack(m, dtype, disk, rows, o);
    }
  }

  lemma NewFileGivesBack(m: Model, dtype: string, disk: Disk, rows: seq<Row>, o: Outcome)
    requires Stackable(o.vectors) && |o.vectors| == |rows| && o.ids == IdsOf(rows)
    requires forall i :: 0 <= i < |rows| ==> m.normalize(o.vectors[i]) == o.vectors[i]
    requires Identifies(disk, rows, o.identities, 0)
    ensures var file := CacheFile(o.ids, o.vectors, NewMetadata(m, dtype, |o.vectors[0].components|, o.identities));
            forall i :: 0 <= i < |o.ids| ==> o.ids[i] in ValidCached(m, Some(file), o.identities)
                                             && ValidCached(m, Some(file), o.identities)[o.ids[i]] == o.vectors[i]
  {
    DistinctRows(rows);
    CachedAt(m, o.ids, o.vectors);
    hide CachedMap, Identifies, ReadAs;
    forall i | 0 <= i < |o.ids| ensures o.ids[i] in o.identities {
      IdentifiedRow(disk, rows, o.identities, 0, i);
    }
  }

  lemma IdentifiedRow(disk: Disk, rows: seq<Row>, m: map<Id, Identity>, at: nat, i: nat)
    requires Identifies(disk, rows, m, at) && i < |rows|
    ensures ReadAs(disk, rows[i], at + i, m)
  {
  }

  // -------------------------------------------------- Agreement with regeneration

  /** Rows in order, each with what regenerating it from its identity's bytes would give. */
  ghost predicate AgreesWithRegeneration(m: Model, rows: seq<Row>, o: Outcome) {
    && o.ids == IdsOf(rows) && |o.vectors| == |rows|
    && forall i :: 0 <= i < |rows| ==> AgreesAt(m, rows[i], o, i)
  }

  predicate AgreesAt(m: Model, row: Row, o: Outcome, i: nat)
    requires i < |o.vectors|
  {
    row.id in o.identities && o.vectors[i] == Regenerated(m, o.identities[row.id].content)
  }

  /** The rows a run generates, in the order it reads them. */
  function ToGenerate(m: Model, disk: Disk, cache: Option<CacheFile>, rows: seq<Row>): seq<Row> {
    var identities := IdentitiesAt(disk, rows, 0);
    if identities.Err? then [] else Missing(rows, Usable(m, cache, rows, identities.value))
  }

  function Read(disk: Disk, p: Path, t: nat): Option<Bytes> {
    if Reading(p, t) in disk then Some(disk[Reading(p, t)]) else None
  }

  /** If the file reads the same at `a` and `c`, it read the same at `b`. */
  predicate Steady(disk: Disk, p: Path, a: nat, b: nat, c: nat) {
    Read(disk, p, a) == Read(disk, p, c) ==> Read(disk, p, b) == Read(disk, p, a)
  }

  /** No generated row's file changes for its second read and changes back for its third. */
  ghost predicate SteadyRun(disk: Disk, rows: seq<Row>, generated: seq<Row>) {
    forall i, k :: 0 <= i < |rows| && 0 <= k < |generated| && generated[k] == rows[i] ==>
      Steady(disk, rows[i].path, i, |rows| + k, |rows| + |generated| + i)
  }

  /** The bytes read at `a` and the bytes read at `b` give one vector. */
  predicate SameVector(m: Model, disk: Disk, p: Path, a: nat, b: nat) {
    var first, second := Read(disk, p, a), Read(disk, p, b);
    first.Some? && second.Some? && Regenerated(m, first.value) == Regenerated(m, second.value)
  }

  ghost predicate SameVectors(m: Model, disk: Disk, rows: seq<Row>, generated: seq<Row>) {
    forall i, k :: 0 <= i < |rows| && 0 <= k < |generated| && generated[k] == rows[i] ==>
      SameVector(m, disk, rows[i].path, i, |rows| + k)
  }

  ghost predicate Distinguishing(m: Model) {
    forall a, b :: Regenerated(m, a) == Regenerated(m, b) ==> a == b
  }

  /** Fingerprinted as `content` at `a` and `c` and embedded at `b`, a file gives the vector of `content` or not. */
  lemma ReadsDecide(m: Model, disk: Disk, p: Path, a: nat, b: nat, c: nat, content: Bytes)
    requires Read(disk, p, a) == Read(disk, p, c) == Some(content) && Read(disk, p, b).Some?
    ensures var agrees := Regenerated(m, Read(disk, p, b).value) == Regenerated(m, content);
            && (agrees <==> SameVector(m, disk, p, a, b))
            && (Steady(disk, p, a, b, c) ==> agrees)
            && (Distinguishing(m) && agrees ==> Steady(disk, p, a, b, c))
  {
    hide Regenerated;
  }

  lemma GeneratedAgrees(m: Model, disk: Disk, cache: Option<CacheFile>, rows: seq<Row>, o: Outcome, i: nat, k: nat)
    requires PreparedBy(m, disk, cache, rows, o) && Normalizing(m)
    requires i < |rows| == |o.vectors| && k < |o.generated| && o.generated[k] == rows[i]
    ensures AgreesAt(m, rows[i], o, i) <==> SameVector(m, disk, rows[i].path, i, |rows| + k)
    ensures var steady := Steady(disk, rows[i].path, i, |rows| + k, |rows| + |o.generated| + i);
            (steady ==> AgreesAt(m, rows[i], o, i)) && (Distinguishing(m) && AgreesAt(m, rows[i], o, i) ==> steady)
  {
    GeneratedRowFromDisk(m, disk, cache, rows, o, i, k);
    IdentifiedTwice(m, disk, cache, rows, o, i);
    hide PreparedBy, Normalizing, Regenerated, SameVector, Steady, Distinguishing;
    ReadsDecide(m, disk, rows[i].path, i, |rows| + k, |rows| + |o.generated| + i, o.identities[rows[i].id].content);
  }

  lemma IdentifiedTwice(m: Model, disk: Disk, cache: Option<CacheFile>, rows: seq<Row>, o: Outcome, i: nat)
    requires PreparedBy(m, disk, cache, rows, o) && i < |rows|
    ensures ReadAs(disk, rows[i], i, o.identities)
    ensures ReadAs(disk, rows[i], |rows| + |o.generated| + i, o.identities)
  {
    var later := |rows| + |o.generated|;
    assert IdentitiesAt(disk, rows, 0) == IdentitiesAt(disk, rows, later) == Ok(o.identities);
    hide *;
    IdentitiesExactly(disk, rows, 0, o.identities);
    IdentitiesExactly(disk, rows, later, o.identities);
    IdentifiedRow(disk, rows, o.identities, 0, i);
    IdentifiedRow(disk, rows, o.identities, later, i);
  }

  lemma ReusedAgrees(m: Model, disk: Disk, cache: Option<CacheFile>, rows: seq<Row>, o: Outcome, i: nat)
    requires PreparedBy(m, disk, cache, rows, o) && Normalizing(m) && CacheSound(m, cache)
    requires i < |rows| && rows[i] !in o.generated && |o.vectors| == |rows|
    ensures AgreesAt(m, rows[i], o, i)
  {
    ReusedRowFromCache(m, disk, cache, rows, o, i);
    ValidCachedIsSound(m, cache, o.identities);
  }

  /**
    A successful run over a sound cache agrees with regenerating everything exactly
    if, for every row it generated, the bytes it embedded give the vector the
    fingerprinted bytes give. The file it leaves is sound exactly then.
  */
  lemma AgreementExactly(m: Model, dtype: string, disk: Disk, cache: Option<CacheFile>, rows: seq<Row>, batchSize: int)
    requires Normalizing(m) && CacheSound(m, cache) && Prepared(m, disk, cache, rows, batchSize).Ok?
    ensures var o := Prepared(m, disk, cache, rows, batchSize).value;
            && o.generated == ToGenerate(m, disk, cache, rows)
            && (AgreesWithRegeneration(m, rows, o) <==> SameVectors(m, disk, rows, o.generated))
            && (SteadyRun(disk, rows, o.generated) ==> AgreesWithRegeneration(m, rows, o))
            && (Distinguishing(m) && AgreesWithRegeneration(m, rows, o) ==> SteadyRun(disk, rows, o.generated))
            && (AgreesWithRegeneration(m, rows, o) <==> CacheSound(m, FileAfter(m, dtype, disk, cache, rows, batchSize)))
  {
    var o := Prepared(m, disk, cache, rows, batchSize).value;
    PreparedSteps(m, disk, cache, rows, batchSize);
    StepsAgree(m, disk, cache, rows, o);
    StepsGenerateThese(m, disk, cache, rows, o);
    FileIsSoundExactly(m, dtype, disk, cache, rows, batchSize);
    hide *;
  }

  lemma StepsGenerateThese(m: Model, disk: Disk, cache: Option<CacheFile>, rows: seq<Row>, o: Outcome)
    requires PreparedBy(m, disk, cache, rows, o)
    ensures o.generated == ToGenerate(m, disk, cache, rows)
  {
    hide IdentitiesAt, GeneratedAt, Usable, Missing;
  }

  /** Row by row: a generated row agrees exactly if its two reads give one vector, and does if it was steady. */
  ghost predicate RowsDecided(m: Model, disk: Disk, rows: seq<Row>, o: Outcome)
    requires |o.vectors| == |rows|
  {
    && (forall i, k :: 0 <= i < |rows| && 0 <= k < |o.generated| && o.generated[k] == rows[i] ==>
          var agrees, steady :=
            AgreesAt(m, rows[i], o, i), Steady(disk, rows[i].path, i, |rows| + k, |rows| + |o.generated| + i);
          && (agrees <==> SameVector(m, disk, rows[i].path, i, |rows| + k))
          && (steady ==> agrees) && (Distinguishing(m) && agrees ==> steady))
    && (forall i :: 0 <= i < |rows| && rows[i] !in o.generated ==> AgreesAt(m, rows[i], o, i))
  }

  lemma StepsDecideRows(m: Model, disk: Disk, cache: Option<CacheFile>, rows: seq<Row>, o: Outcome)
    requires Normalizing(m) && CacheSound(m, cache) && PreparedBy(m, disk, cache, rows, o) && |o.vectors| == |rows|
    ensures RowsDecided(m, disk, rows, o)
  {
    hide PreparedBy, AgreesAt, Steady, SameVector, Distinguishing, CacheSound, Normalizing;
    forall i, k | 0 <= i < |rows| && 0 <= k < |o.generated| && o.generated[k] == rows[i]
      ensures var agrees, steady :=
                AgreesAt(m, rows[i], o, i), Steady(disk, rows[i].path, i, |rows| + k, |rows| + |o.generated| + i);
              && (agrees <==> SameVector(m, disk, rows[i].path, i, |rows| + k))
              && (steady ==> agrees) && (Distinguishing(m) && agrees ==> steady)
    {
      GeneratedAgrees(m, disk, cache, rows, o, i, k);
    }
    forall i | 0 <= i < |rows| && rows[i] !in o.generated ensures AgreesAt(m, rows[i], o, i) {
      ReusedAgrees(m, disk, cache, rows, o, i);
    }
  }

  lemma StepsAgree(m: Model, disk: Disk, cache: Option<CacheFile>, rows: seq<Row>, o: Outcome)
    requires Normalizing(m) && CacheSound(m, cache) && PreparedBy(m, disk, cache, rows, o)
    ensures AgreesWithRegeneration(m, rows, o) <==> SameVectors(m, disk, rows, o.generated)
    ensures SteadyRun(disk, rows, o.generated) ==> AgreesWithRegeneration(m, rows, o)
    ensures Distinguishing(m) && AgreesWithRegeneration(m, rows, o) ==> SteadyRun(disk, rows, o.generated)
  {
    AssembledInOrder(m, disk, cache, rows, o);
    StepsDecideRows(m, disk, cache, rows, o);
    DecidedRowsAgree(m, disk, rows, o);
  }

  lemma DecidedRowsAgree(m: Model, disk: Disk, rows: seq<Row>, o: Outcome)
    requires |o.vectors| == |rows| && o.ids == IdsOf(rows) && RowsDecided(m, disk, rows, o)
    ensures AgreesWithRegeneration(m, rows, o) <==> SameVectors(m, disk, rows, o.generated)
    ensures SteadyRun(disk, rows, o.generated) ==> AgreesWithRegeneration(m, rows, o)
    ensures Distinguishing(m) && AgreesWithRegeneration(m, rows, o) ==> SteadyRun(disk, rows, o.generated)
  {
    hide AgreesAt, Steady, SameVector, Distinguishing;
    forall i | 0 <= i < |rows| && (SameVectors(m, disk, rows, o.generated) || SteadyRun(disk, rows, o.generated))
      ensures AgreesAt(m, rows[i], o, i)
    {
      if rows[i] in o.generated {
        var k :| 0 <= k < |o.generated| && o.generated[k] == rows[i];
      }
    }
  }

  lemma FileIsSoundExactly(m: Model, dtype: string, disk: Disk, cache: Option<CacheFile>, rows: seq<Row>, batchSize: int)
    requires Normalizing(m) && CacheSound(m, cache) && Prepared(m, disk, cache, rows, batchSize).Ok?
    ensures AgreesWithRegeneration(m, rows, Prepared(m, disk, cache, rows, batchSize).value)
            <==> CacheSound(m, FileAfter(m, dtype, disk, cache, rows, batchSize))
  {
    var o, dim := Prepared(m, disk, cache, rows, batchSize).value, |Prepared(m, disk, cache, rows, batchSize).value.vectors[0].components|;
    PreparedSteps(m, disk, cache, rows, batchSize);
    hide Prepared;
    AssembledInOrder(m, disk, cache, rows, o);
    if o.generated != [] || NeedsRewrite(m, cache, o.ids, dtype, dim, o.identities) {
      NewFileIsSoundExactly(m, dtype, disk, rows, o);
    } else {
      hide PreparedBy, AgreesAt, CacheSound, Normalizing, Identifies;
      forall i | 0 <= i < |rows| ensures AgreesAt(m, rows[i], o, i) {
        ReusedAgrees(m, disk, cache, rows, o, i);
      }
    }
  }

  lemma NewFileIsSoundExactly(m: Model, dtype: string, disk: Disk, rows: seq<Row>, o: Outcome)
    requires Stackable(o.vectors) && |o.vectors| == |rows| && o.ids == IdsOf(rows)
    requires Identifies(disk, rows, o.identities, 0)
    ensures var file := CacheFile(o.ids, o.vectors, NewMetadata(m, dtype, |o.vectors[0].components|, o.identities));
            AgreesWithRegeneration(m, rows, o) <==> CacheSound(m, Some(file))
  {
    assert m.(id := m.id) == m;
    hide Identifies, ReadAs, Regenerated;
    forall i | 0 <= i < |o.ids| ensures o.ids[i] in o.identities {
      IdentifiedRow(disk, rows, o.identities, 0, i);
    }
  }

  // ------------------------------------------------------------------ Over many runs

  datatype RunInput = RunInput(modelId: string, disk: Disk, rows: seq<Row>, batchSize: int)

  function ActiveModel(m: Model, run: RunInput): Model {
    m.(id := run.modelId)
  }

  function FileAfterRun(m: Model, dtype: string, file: Option<CacheFile>, run: RunInput): Option<CacheFile> {
    FileAfter(ActiveModel(m, run), dtype, run.disk, file, run.rows, run.batchSize)
  }

  function ResultOf(m: Model, file: Option<CacheFile>, run: RunInput): Result<Outcome, CacheError> {
    Prepared(ActiveModel(m, run), run.disk, file, run.rows, run.batchSize)
  }

  function FileAfterRuns(m: Model, dtype: string, file: Option<CacheFile>, runs: seq<RunInput>): Option<CacheFile> {
    if runs == [] then file
    else FileAfterRun(m, dtype, FileAfterRuns(m, dtype, file, runs[..|runs| - 1]), runs[|runs| - 1])
  }

  /** The run starting with `file`, if it succeeds, agrees with regenerating everything by its own model. */
  ghost predicate RunAgrees(m: Model, file: Option<CacheFile>, run: RunInput) {
    var r := ResultOf(m, file, run);
    r.Ok? ==> AgreesWithRegeneration(ActiveModel(m, run), run.rows, r.value)
  }

  /** The run, if it succeeds, embedded bytes that give the vectors of the fingerprinted ones. */
  ghost predicate RunUndisturbed(m: Model, file: Option<CacheFile>, run: RunInput) {
    ResultOf(m, file, run).Ok? ==>
      SameVectors(ActiveModel(m, run), run.disk, run.rows, ToGenerate(ActiveModel(m, run), run.disk, file, run.rows))
  }

  lemma SoundForAnyModel(m: Model, run: RunInput, file: Option<CacheFile>)
    ensures CacheSound(ActiveModel(m, run), file) <==> CacheSound(m, file)
    ensures Normalizing(ActiveModel(m, run)) <==> Normalizing(m)
  {
    if file.Some? {
      assert ActiveModel(m, run).(id := file.value.metadata.modelId) == m.(id := file.value.metadata.modelId);
    }
    hide Regenerated;
    assert ActiveModel(m, run).normalize == m.normalize;
  }

  lemma RunAgreesExactly(m: Model, dtype: string, file: Option<CacheFile>, run: RunInput)
    requires Normalizing(m) && CacheSound(m, file)
    ensures RunAgrees(m, file, run) <==> RunUndisturbed(m, file, run)
    ensures RunAgrees(m, file, run) ==> CacheSound(m, FileAfterRun(m, dtype, file, run))
  {
    hide CacheSound, Normalizing, Prepared, AgreesWithRegeneration, SameVectors, ToGenerate;
    SoundForAnyModel(m, run, file);
    SoundForAnyModel(m, run, FileAfterRun(m, dtype, file, run));
    if ResultOf(m, file, run).Ok? {
      AgreementExactly(ActiveModel(m, run), dtype, run.disk, file, run.rows, run.batchSize);
    }
  }

  ghost predicate AllAgree(m: Model, dtype: string, file: Option<CacheFile>, runs: seq<RunInput>) {
    forall i :: 0 <= i < |runs| ==> RunAgrees(m, FileAfterRuns(m, dtype, file, runs[..i]), runs[i])
  }

  ghost predicate AllUndisturbed(m: Model, dtype: string, file: Option<CacheFile>, runs: seq<RunInput>) {
    forall i :: 0 <= i < |runs| ==> RunUndisturbed(m, FileAfterRuns(m, dtype, file, runs[..i]), runs[i])
  }

  lemma AllAgreeOneMore(m: Model, dtype: string, file: Option<CacheFile>, runs: seq<RunInput>, run: RunInput)
    ensures AllAgree(m, dtype, file, runs + [run]) <==>
              AllAgree(m, dtype, file, runs) && RunAgrees(m, FileAfterRuns(m, dtype, file, runs), run)
  {
    hide RunAgrees, FileAfterRuns;
    var all := runs + [run];
    assert all[..|runs|] == runs && all[|runs|] == run;
    assert forall i :: 0 <= i < |runs| ==> runs[..i] == all[..i] && runs[i] == all[i];
  }

  lemma AllUndisturbedOneMore(m: Model, dtype: string, file: Option<CacheFile>, runs: seq<RunInput>, run: RunInput)
    ensures AllUndisturbed(m, dtype, file, runs + [run]) <==>
              AllUndisturbed(m, dtype, file, runs) && RunUndisturbed(m, FileAfterRuns(m, dtype, file, runs), run)
  {
    hide RunUndisturbed, FileAfterRuns;
    var all := runs + [run];
    assert all[..|runs|] == runs && all[|runs|] == run;
    assert forall i :: 0 <= i < |runs| ==> runs[..i] == all[..i] && runs[i] == all[i];
  }

  /** Over any sequence of runs: all successful ones agree with regeneration exactly if none was disturbed. */
  lemma {:induction false} RunsAgreeExactly(m: Model, dtype: string, file: Option<CacheFile>, runs: seq<RunInput>)
    requires Normalizing(m) && CacheSound(m, file)
    ensures AllAgree(m, dtype, file, runs) <==> AllUndisturbed(m, dtype, file, runs)
    ensures AllAgree(m, dtype, file, runs) ==> CacheSound(m, FileAfterRuns(m, dtype, file, runs))
  {
    if runs != [] {
      hide CacheSound, Normalizing, RunAgrees, RunUndisturbed, FileAfterRun, AllAgree, AllUndisturbed;
      var before, last := runs[..|runs| - 1], runs[|runs| - 1];
      assert runs == before + [last];
      RunsAgreeExactly(m, dtype, file, before);
      AllAgreeOneMore(m, dtype, file, before, last);
      AllUndisturbedOneMore(m, dtype, file, before, last);
      if AllAgree(m, dtype, file, before) {
        RunAgreesExactly(m, dtype, FileAfterRuns(m, dtype, file, before), last);
      }
    }
  }

  /** What one run promises whatever happens to the files: see `TrueRun` and `Holds`. */
  ghost predicate RunKept(
    m: Model, dtype: string, before: Option<CacheFile>, run: RunInput, r: Result<Outcome, CacheError>, after: Option<CacheFile>)
  {
    && r == ResultOf(m, before, run) && after == FileAfterRun(m, dtype, before, run)
    && (r.Err? ==> after == before)
    && (r.Ok? ==> && TrueRun(ActiveModel(m, run), run.disk, before, run.rows, r.value)
                  && Holds(ActiveModel(m, run), dtype, after, r.value))
  }

  /**
    Any sequence of runs, with any models, files and rows in between. `files` are
    the cache files between the runs. Every successful run returns true identities,
    generates what it must and stores what it returns; and if no run was disturbed,
    they all agree with regenerating everything.
  */
  method EnsureOverRuns(m: Model, cache: EmbeddingCache, runs: seq<RunInput>)
    returns (results: seq<Result<Outcome, CacheError>>, ghost files: seq<Option<CacheFile>>)
    modifies cache
    ensures |results| == |runs| && |files| == |runs| + 1
    ensures files[0] == old(cache.file) && files[|runs|] == cache.file
    ensures forall i :: 0 <= i < |runs| ==> RunKept(m, cache.dtype, files[i], runs[i], results[i], files[i + 1])
    ensures Normalizing(m) && CacheSound(m, old(cache.file)) ==>
              && (AllUndisturbed(m, cache.dtype, old(cache.file), runs) <==>
                    forall i :: 0 <= i < |runs| && results[i].Ok? ==>
                      AgreesWithRegeneration(ActiveModel(m, runs[i]), runs[i].rows, results[i].value))
              && (AllUndisturbed(m, cache.dtype, old(cache.file), runs) ==> CacheSound(m, cache.file))
  {
    hide AgreesWithRegeneration, TrueRun, Holds, Prepared, FileAfter, CacheSound, Normalizing, AllUndisturbed;
    results, files := [], [cache.file];
    ghost var start := cache.file;
    for i := 0 to |runs|
      invariant |results| == i && |files| == i + 1 && files[0] == start && files[i] == cache.file
      invariant forall k :: 0 <= k <= i ==> files[k] == FileAfterRuns(m, cache.dtype, start, runs[..k])
      invariant forall k :: 0 <= k < i ==> RunKept(m, cache.dtype, files[k], runs[k], results[k], files[k + 1])
    {
      var run := runs[i];
      var r := cache.Ensure(m.(id := run.modelId), run.disk, run.rows, run.batchSize);
      assert runs[..i + 1][..i] == runs[..i];
      results, files := results + [r], files + [cache.file];
    }
    assert runs[..|runs|] == runs;
    KeptRunsAgree(m, cache.dtype, start, runs, results, files);
  }

  lemma KeptRunsAgree(
    m: Model, dtype: string, start: Option<CacheFile>, runs: seq<RunInput>,
    results: seq<Result<Outcome, CacheError>>, files: seq<Option<CacheFile>>)
    requires |results| == |runs| && |files| == |runs| + 1
    requires forall i :: 0 <= i <= |runs| ==> files[i] == FileAfterRuns(m, dtype, start, runs[..i])
    requires forall i :: 0 <= i < |runs| ==> RunKept(m, dtype, files[i], runs[i], results[i], files[i + 1])
    ensures Normalizing(m) && CacheSound(m, start) ==>
              && (AllUndisturbed(m, dtype, start, runs) <==>
                    forall i :: 0 <= i < |runs| && results[i].Ok? ==>
                      AgreesWithRegeneration(ActiveModel(m, runs[i]), runs[i].rows, results[i].value))
              && (AllUndisturbed(m, dtype, start, runs) ==> CacheSound(m, files[|runs|]))
  {
    hide AgreesWithRegeneration, TrueRun, Holds, ResultOf, FileAfterRun, FileAfterRuns, CacheSound, Normalizing;
    assert runs[..|runs|] == runs;
    if Normalizing(m) && CacheSound(m, start) {
      RunsAgreeExactly(m, dtype, start, runs);
      forall i | 0 <= i < |runs|
        ensures RunAgrees(m, FileAfterRuns(m, dtype, start, runs[..i]), runs[i]) <==>
                  (results[i].Ok? ==> AgreesWithRegeneration(ActiveModel(m, runs[i]), runs[i].rows, results[i].value))
      {
        assert RunKept(m, dtype, files[i], runs[i], results[i], files[i + 1]);
      }
      hide RunAgrees, RunKept, AllUndisturbed;
    }
  }

  // ------------------------------------------------------------------ A quiet second run

  /**
    Nothing changed since a run, and no row is marked: a second run generates
    nothing, returns the same vectors and leaves the file as it is.
  */
  lemma SecondRunReuses(
    m: Model, dtype: string, disk: Disk, cache: Option<CacheFile>, rows: seq<Row>, batchSize: int, later: Disk, again: int)
    requires Normalizing(m) && Prepared(m, disk, cache, rows, batchSize).Ok? && again > 0
    requires var o := Prepared(m, disk, cache, rows, batchSize).value;
             Identifies(later, rows, o.identities, 0) && Identifies(later, rows, o.identities, |rows|)
    requires forall i :: 0 <= i < |rows| ==> rows[i].embedded != Some(false)
    ensures var o, file := Prepared(m, disk, cache, rows, batchSize).value, FileAfter(m, dtype, disk, cache, rows, batchSize);
            && Prepared(m, later, file, rows, again) == Ok(o.(generated := []))
            && FileAfter(m, dtype, later, file, rows, again) == file
  {
    var o, file := Prepared(m, disk, cache, rows, batchSize).value, FileAfter(m, dtype, disk, cache, rows, batchSize);
    PreparedSteps(m, disk, cache, rows, batchSize);
    AssembledInOrder(m, disk, cache, rows, o);
    VectorsAreNormalized(m, disk, cache, rows, o);
    FileHoldsTheRun(m, dtype, disk, cache, rows, batchSize);
    IdentitiesExactly(later, rows, 0, o.identities);
    IdentitiesExactly(later, rows, |rows|, o.identities);
    hide PreparedBy, TrueRun, FileAfter;
    ReusesAll(m, dtype, file, rows, o);
    hide *;
    NothingToGenerate(m, later, file, rows, o, again);
  }

  /** Every row's vector is in the file, so none is missing and they assemble to what was stored. */
  lemma ReusesAll(m: Model, dtype: string, file: Option<CacheFile>, rows: seq<Row>, o: Outcome)
    requires Normalizing(m) && Holds(m, dtype, file, o) && DistinctIds(rows) && o.ids == IdsOf(rows)
    requires forall i :: 0 <= i < |o.vectors| ==> m.normalize(o.vectors[i]) == o.vectors[i]
    requires forall i :: 0 <= i < |rows| ==> rows[i].embedded != Some(false)
    ensures var usable := Usable(m, file, rows, o.identities);
            && Missing(rows, usable) == [] && IdSet(rows) <= usable.Keys
            && Assemble(m, rows, usable, map[]) == o.vectors
  {
    hide ValidCached, Normalizing, NeedsRewrite, Missing;
    var usable := Usable(m, file, rows, o.identities);
    InvalidatedExactly(rows);
    IdsAreThere(rows);
    hide IdSet, Invalidated, DistinctIds;
    forall i | 0 <= i < |rows| ensures rows[i].id in usable && usable[rows[i].id] == o.vectors[i] {
      assert o.ids[i] == rows[i].id;
    }
    NoneMissing(rows, usable);
  }

  lemma {:induction false} NoneMissing(rows: seq<Row>, usable: map<Id, Vector>)
    requires forall i :: 0 <= i < |rows| ==> rows[i].id in usable
    ensures Missing(rows, usable) == [] && IdSet(rows) <= usable.Keys
  {
    if rows != [] {
      NoneMissing(rows[..|rows| - 1], usable);
    }
  }

  lemma NothingToGenerate(m: Model, later: Disk, file: Option<CacheFile>, rows: seq<Row>, o: Outcome, again: int)
    requires again > 0 && Stackable(o.vectors) && o.ids == IdsOf(rows)
    requires IdentitiesAt(later, rows, 0) == IdentitiesAt(later, rows, |rows|) == Ok(o.identities)
    requires var usable := Usable(m, file, rows, o.identities);
             && Missing(rows, usable) == [] && IdSet(rows) <= usable.Keys
             && Assemble(m, rows, usable, map[]) == o.vectors
    ensures Prepared(m, later, file, rows, again) == Ok(o.(generated := []))
  {
    hide IdentitiesAt, Usable, Missing, Assemble, IdSet, Stackable, IdsOf;
    assert GeneratedAt(m, later, [], |rows|) == Some(map[]);
  }

  /**
    A file that holds other bytes just while it is embedded, and a model that tells
    them apart: the run succeeds, and its vector is not that of its identity's bytes.
  */
  lemma ChangeAndRevertIsInvisible(m: Model) returns (disk: Disk, row: Row)
    requires Normalizing(m) && Regenerated(m, 1) != Regenerated(m, 2) && Regenerated(m, 2).components != []
    ensures var r := Prepared(m, disk, None, [row], 1);
            && r.Ok? && r.value.identities[row.id].content == 1 && r.value.vectors == [Regenerated(m, 2)]
            && !AgreesWithRegeneration(m, [row], r.value)
  {
    var p := Path("lost.jpg");
    disk := map[Reading(p, 0) := 1, Reading(p, 1) := 2, Reading(p, 2) := 1];
    row := Row(7, p, None, None, None);
    hide IdentitiesAt, Missing, GeneratedAt, Assemble, Usable;
    FirstRow(disk, row, 0);
    FirstRow(disk, row, 2);
    OneRowRun(m, disk, row, map[row.id := Identity(p, 1, None)], 2);
    var r := Prepared(m, disk, None, [row], 1);
    assert !AgreesAt(m, [row][0], r.value, 0);
  }

  lemma FirstRow(disk: Disk, row: Row, at: nat)
    requires Reading(row.path, at) in disk && row.contentDigest == None
    ensures IdentitiesAt(disk, [row], at) == Ok(map[row.id := Identity(row.path, disk[Reading(row.path, at)], row.version)])
  {
    assert [row][..0] == [] && IdentitiesAt(disk, [], at) == Ok(map[]);
  }

  /** A run over one row and no cache, whose file holds `content` when it is embedded. */
  lemma OneRowRun(m: Model, disk: Disk, row: Row, identities: map<Id, Identity>, content: Bytes)
    requires Normalizing(m) && Regenerated(m, content).components != []
    requires IdentitiesAt(disk, [row], 0) == IdentitiesAt(disk, [row], 2) == Ok(identities)
    requires Reading(row.path, 1) in disk && disk[Reading(row.path, 1)] == content
    ensures Prepared(m, disk, None, [row], 1) == Ok(Outcome(IdsOf([row]), [Regenerated(m, content)], identities, [row]))
  {
    OneRowMissing(row);
    OneRowGenerated(m, disk, row, 1, content);
    NormalizedTwice(m, m.embed(m.id, content));
    OneRowAssembled(m, row, Regenerated(m, content));
    NothingUsable(m, row, identities);
    hide IdentitiesAt, Missing, GeneratedAt, Assemble, Usable, Regenerated, Normalizing, IdSet;
  }

  lemma NothingUsable(m: Model, row: Row, identities: map<Id, Identity>)
    ensures Usable(m, None, [row], identities) == map[]
  {
  }

  lemma OneRowMissing(row: Row)
    ensures Missing([row], map[]) == [row] && IdSet([row]) == {row.id}
  {
    assert [row][..0] == [] && Missing([], map[]) == [] && IdSet([]) == {};
  }

  lemma OneRowGenerated(m: Model, disk: Disk, row: Row, at: nat, content: Bytes)
    requires Reading(row.path, at) in disk && disk[Reading(row.path, at)] == content
    ensures GeneratedAt(m, disk, [row], at) == Some(map[row.id := Regenerated(m, content)])
  {
    hide Regenerated;
    assert [row][..0] == [] && GeneratedAt(m, disk, [], at) == Some(map[]);
  }

  lemma OneRowAssembled(m: Model, row: Row, v: Vector)
    requires m.normalize(v) == v && IdSet([row]) == {row.id}
    ensures Assemble(m, [row], map[], map[row.id := v]) == [v]
  {
  }
}
