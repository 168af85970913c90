/** How the rows of `cas_manifest_chunks` spell out one file. */
module Layout {
  import opened Tables

  type ChunkTable = map<Id, ChunkRow>
  type SlotTable = map<Slot, ManifestChunkRow>

  /** The slots of manifest `m` from position `k` on. */
  function SlotsFrom(rows: SlotTable, m: Id, k: nat): set<Slot> {
    set s | s in rows.Keys && s.owner == m && s.position >= k
  }

  /** The rows of manifest `m` from position `k` on, in order, up to the first gap. */
  function ChunkList(rows: SlotTable, m: Id, k: nat): (list: seq<ManifestChunkRow>)
    decreases SlotsFrom(rows, m, k)
  {
    if Slot(m, k) in rows then
      assert SlotsFrom(rows, m, k + 1) <= SlotsFrom(rows, m, k);
      assert Slot(m, k) in SlotsFrom(rows, m, k) - SlotsFrom(rows, m, k + 1);
      [rows[Slot(m, k)]] + ChunkList(rows, m, k + 1)
    else []
  }

  /** `list` is in the table at positions `k`, `k + 1`, ... */
  predicate RunAt(rows: SlotTable, m: Id, k: nat, list: seq<ManifestChunkRow>) {
    forall j :: k <= j < k + |list| ==> Slot(m, j) in rows && rows[Slot(m, j)] == list[j - k]
  }

  lemma {:induction false} ChunkListRows(rows: SlotTable, m: Id, k: nat)
    ensures RunAt(rows, m, k, ChunkList(rows, m, k))
    ensures Slot(m, k + |ChunkList(rows, m, k)|) !in rows
    decreases |ChunkList(rows, m, k)|
  {
    if Slot(m, k) in rows {
      ChunkListRows(rows, m, k + 1);
    }
  }

  /** A run of rows ended by a gap is the whole list. */
  lemma {:induction false} ChunkListUnique(rows: SlotTable, m: Id, k: nat, list: seq<ManifestChunkRow>)
    requires RunAt(rows, m, k, list)
    requires Slot(m, k + |list|) !in rows
    ensures ChunkList(rows, m, k) == list
    decreases |list|
  {
    if list != [] {
      assert Slot(m, k) in rows && rows[Slot(m, k)] == list[0];
      ChunkListUnique(rows, m, k + 1, list[1..]);
    }
  }

  /** The list of a manifest depends on that manifest's rows alone. */
  lemma ChunkListFrame(rows: SlotTable, rows': SlotTable, m: Id)
    requires forall s: Slot :: s.owner == m ==> (s in rows <==> s in rows')
    requires forall s :: s in rows && s in rows' && s.owner == m ==> rows[s] == rows'[s]
    ensures ChunkList(rows, m, 0) == ChunkList(rows', m, 0)
  {
    ChunkListRows(rows, m, 0);
    var list := ChunkList(rows, m, 0);
    assert Slot(m, 0 + |list|).owner == m;
    forall j | 0 <= j < |list|
      ensures Slot(m, j) in rows' && rows'[Slot(m, j)] == list[j]
    {
      assert Slot(m, j) in rows && Slot(m, j).owner == m;
    }
    ChunkListUnique(rows', m, 0, list);
  }

  /** Every listed chunk has its row, with the size the list gives it. */
  predicate Known(chunks: ChunkTable, list: seq<ManifestChunkRow>) {
    forall i :: 0 <= i < |list| ==>
      list[i].chunk in chunks && list[i].plainSize == chunks[list[i].chunk].size
  }

  /** The bytes a list spells: its chunks in order. */
  function Spelled(chunks: ChunkTable, list: seq<ManifestChunkRow>): Bytes
    requires Known(chunks, list)
  {
    if list == [] then []
    else
      Spelled(chunks, list[..|list| - 1]) + chunks[list[|list| - 1].chunk].sha256.of
  }

  function TotalSize(list: seq<ManifestChunkRow>): nat {
    if list == [] then 0 else TotalSize(list[..|list| - 1]) + list[|list| - 1].plainSize
  }

  lemma {:induction false} SpelledFrame(chunks: ChunkTable, chunks': ChunkTable, list: seq<ManifestChunkRow>)
    requires Known(chunks, list)
    requires forall i :: 0 <= i < |list| ==>
      list[i].chunk in chunks' && chunks'[list[i].chunk] == chunks[list[i].chunk]
    ensures Known(chunks', list) && Spelled(chunks', list) == Spelled(chunks, list)
  {
    if list != [] {
      SpelledFrame(chunks, chunks', list[..|list| - 1]);
    }
  }

  lemma SpelledSnoc(chunks: ChunkTable, list: seq<ManifestChunkRow>, row: ManifestChunkRow)
    requires Known(chunks, list)
    requires row.chunk in chunks && row.plainSize == chunks[row.chunk].size
    ensures Known(chunks, list + [row])
    ensures Spelled(chunks, list + [row]) == Spelled(chunks, list) + chunks[row.chunk].sha256.of
  {
    assert (list + [row])[..|list|] == list;
  }

  /** Each prefix of a list spells a prefix of the file. */
  lemma {:induction false} SpelledPrefix(chunks: ChunkTable, list: seq<ManifestChunkRow>, n: nat)
    requires Known(chunks, list) && n <= |list|
    ensures Known(chunks, list[..n]) && Spelled(chunks, list[..n]) <= Spelled(chunks, list)
    decreases |list|
  {
    if n < |list| {
      var front := list[..|list| - 1];
      SpelledPrefix(chunks, front, n);
      assert front[..n] == list[..n];
    } else {
      assert list[..n] == list;
    }
  }

  /** A chunk row is consistent: both digests are of the same bytes, as many as it says. */
  ghost predicate GoodChunk(row: ChunkRow) {
    row.sha256 == Sha256(row.sha256.of) && row.sha512 == Sha512(row.sha256.of) &&
    row.size == |row.sha256.of|
  }

  /** The table has, for manifest `m`, rows at positions 0, 1, ... with no gap, and they spell
      the bytes whose size and digests the manifest row gives. */
  ghost predicate WellLaid(rows: SlotTable, chunks: ChunkTable, m: Id, manifest: ManifestRow) {
    var list := ChunkList(rows, m, 0);
    && (forall s :: s in rows && s.owner == m ==> s.position < |list|)
    && Known(chunks, list)
    && manifest.sha256 == Sha256(Spelled(chunks, list))
    && manifest.sha512 == Sha512(Spelled(chunks, list))
    && manifest.size == |Spelled(chunks, list)|
  }

  /** The bytes a manifest row stands for. */
  function Plain(manifest: ManifestRow): Bytes {
    manifest.sha256.of
  }

  /** The recorded chunk sizes sum to the file size. */
  lemma {:induction false} SizesSum(chunks: ChunkTable, list: seq<ManifestChunkRow>)
    requires Known(chunks, list)
    requires forall c :: c in chunks ==> GoodChunk(chunks[c])
    ensures TotalSize(list) == |Spelled(chunks, list)|
  {
    if list != [] {
      SizesSum(chunks, list[..|list| - 1]);
      assert GoodChunk(chunks[list[|list| - 1].chunk]);
    }
  }

  /** Rows of other manifests, and chunk rows outside the list, do not matter. */
  lemma WellLaidFrame(rows: SlotTable, rows': SlotTable, chunks: ChunkTable, chunks': ChunkTable,
                      m: Id, manifest: ManifestRow)
    requires WellLaid(rows, chunks, m, manifest)
    requires forall s: Slot :: s.owner == m ==> (s in rows <==> s in rows')
    requires forall s :: s in rows && s in rows' && s.owner == m ==> rows[s] == rows'[s]
    requires forall s :: s in rows && s.owner == m && rows[s].chunk in chunks ==>
      rows[s].chunk in chunks' && chunks'[rows[s].chunk] == chunks[rows[s].chunk]
    ensures WellLaid(rows', chunks', m, manifest)
    ensures ChunkList(rows', m, 0) == ChunkList(rows, m, 0)
  {
    ChunkListFrame(rows, rows', m);
    ChunkListRows(rows, m, 0);
    var list := ChunkList(rows, m, 0);
    forall i | 0 <= i < |list|
      ensures list[i].chunk in chunks' && chunks'[list[i].chunk] == chunks[list[i].chunk]
    {
      assert Slot(m, i) in rows && rows[Slot(m, i)] == list[i];
    }
    SpelledFrame(chunks, chunks', list);
  }

  /** The table after a transaction inserted `list` for a manifest without rows. */
  function Inserted(rows: SlotTable, m: Id, list: seq<ManifestChunkRow>): SlotTable {
    rows + map i | 0 <= i < |list| :: Slot(m, i) := list[i]
  }

  lemma InsertedList(rows: SlotTable, m: Id, list: seq<ManifestChunkRow>)
    requires forall s :: s in rows ==> s.owner != m
    ensures ChunkList(Inserted(rows, m, list), m, 0) == list
    ensures forall s :: s in Inserted(rows, m, list) && s.owner == m ==> s.position < |list|
    ensures forall s: Slot :: s.owner != m ==> (s in rows <==> s in Inserted(rows, m, list))
    ensures forall s :: s in rows ==> s in Inserted(rows, m, list) && Inserted(rows, m, list)[s] == rows[s]
  {
    var rows' := Inserted(rows, m, list);
    assert RunAt(rows', m, 0, list);
    ChunkListUnique(rows', m, 0, list);
  }

  function WithoutOwner<V>(rows: map<Slot, V>, m: Id): (r: map<Slot, V>) {
    map s | s in rows && s.owner != m :: rows[s]
  }
}
