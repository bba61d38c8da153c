/** The ingestion side of the handlers: `updatePineconeWithDocs` joins the pages of a
    document into one text, and `updatePineconeWithText` turns the chunks of a text and
    their embeddings into vector records that it upserts in batches of 100.

    The text splitter and the embedding service are external: the chunks and the
    embeddings arrive as inputs, and the upsert calls are returned as the sequence of
    batches in the order they were sent. */
module Ingestion {
  import opened Wrappers
  import opened Text

  /** An embedding vector; its numbers are never inspected here. */
  type Embedding = seq<real>

  /** The metadata stored with each vector; an absent optional argument stays absent. */
  datatype Metadata = Metadata(
    pageContent: string,
    userId: Option<string>,
    dataKey: Option<string>,
    uniqueId: Option<string>)

  datatype VectorRecord = VectorRecord(id: string, values: Embedding, metadata: Metadata)

  /** Records per upsert call. */
  const BatchSize: nat := 100

  /** `x ?? ''`. */
  function OrEmpty(x: Option<string>): string {
    match x
    case None => ""
    case Some(v) => v
  }

  /** The id of the `i`-th vector: `${uniqueId ?? ''}${dataKey ?? ''}${userId ?? ''}_${i}`. */
  function VectorId(uniqueId: Option<string>, dataKey: Option<string>, userId: Option<string>, i: nat): string {
    OrEmpty(uniqueId) + OrEmpty(dataKey) + OrEmpty(userId) + "_" + NatToDecimal(i)
  }

  /** Within one call the prefix is fixed, so the ordinal alone keeps the ids apart. */
  lemma VectorIdsDistinct(uniqueId: Option<string>, dataKey: Option<string>, userId: Option<string>, i: nat, j: nat)
    requires i != j
    ensures VectorId(uniqueId, dataKey, userId, i) != VectorId(uniqueId, dataKey, userId, j)
  {
    var prefix := OrEmpty(uniqueId) + OrEmpty(dataKey) + OrEmpty(userId) + "_";
    if VectorId(uniqueId, dataKey, userId, i) == VectorId(uniqueId, dataKey, userId, j) {
      assert (prefix + NatToDecimal(i))[|prefix|..] == NatToDecimal(i);
      assert (prefix + NatToDecimal(j))[|prefix|..] == NatToDecimal(j);
      DecimalInjective(i, j);
    }
  }

  /** Across calls the prefix does not separate the fields: two different argument
      triples can give the same id, and the later upsert overwrites the earlier vector. */
  lemma VectorIdPrefixIsAmbiguous()
    ensures VectorId(Some("a"), Some("b"), None, 0) == VectorId(Some("ab"), None, None, 0)
  {
  }

  /** What is sent to the embedding service: each chunk with its newlines turned into spaces. */
  function EmbeddingInputs(chunks: seq<string>): (r: seq<string>)
    ensures |r| == |chunks|
    ensures forall k :: 0 <= k < |r| ==> '\n' !in r[k] && |r[k]| == |chunks[k]|
  {
    seq(|chunks|, k requires 0 <= k < |chunks| => NewlinesToSpaces(chunks[k]))
  }

  /** The record built for chunk `i`. */
  function MakeRecord(chunk: string, values: Embedding, userId: Option<string>, dataKey: Option<string>,
                      uniqueId: Option<string>, i: nat): VectorRecord
  {
    VectorRecord(VectorId(uniqueId, dataKey, userId, i), values, Metadata(chunk, userId, dataKey, uniqueId))
  }

  /** All the records of one call, in chunk order. */
  function Records(chunks: seq<string>, embeddings: seq<Embedding>, userId: Option<string>,
                   dataKey: Option<string>, uniqueId: Option<string>): (r: seq<VectorRecord>)
    requires |embeddings| == |chunks|
    ensures |r| == |embeddings|
  {
    seq(|embeddings|, k requires 0 <= k < |embeddings| =>
      MakeRecord(chunks[k], embeddings[k], userId, dataKey, uniqueId, k))
  }

  /** The records of one call have pairwise distinct ids, keep the chunk text unmodified
      (the newline rewrite reaches only the embedding input) and carry the call's arguments. */
  lemma RecordsWellFormed(chunks: seq<string>, embeddings: seq<Embedding>, userId: Option<string>,
                          dataKey: Option<string>, uniqueId: Option<string>)
    requires |embeddings| == |chunks|
    ensures var r := Records(chunks, embeddings, userId, dataKey, uniqueId);
      && (forall i, j :: 0 <= i < j < |r| ==> r[i].id != r[j].id)
      && (forall i :: 0 <= i < |r| ==>
            r[i].metadata == Metadata(chunks[i], userId, dataKey, uniqueId) && r[i].values == embeddings[i])
  {
    var r := Records(chunks, embeddings, userId, dataKey, uniqueId);
    forall i, j | 0 <= i < j < |r| ensures r[i].id != r[j].id {
      VectorIdsDistinct(uniqueId, dataKey, userId, i, j);
    }
  }

  /** `u` full batches followed by a last one of `b` records make `u + 1` batches, the
      rounded-up quotient of the record count by 100. */
  lemma LastBatchCount(u: nat, b: nat)
    requires 0 < b <= BatchSize
    ensures (u * BatchSize + b + BatchSize - 1) / BatchSize == u + 1
  {
  }

  /** Every batch holds exactly 100 records. */
  predicate AllFull(upserts: seq<seq<VectorRecord>>) {
    forall k :: 0 <= k < |upserts| ==> |upserts[k]| == BatchSize
  }

  /** Every batch is non-empty and holds at most 100 records, and only the last may hold fewer. */
  predicate BatchSizesOk(upserts: seq<seq<VectorRecord>>) {
    && (forall k :: 0 <= k < |upserts| ==> 0 < |upserts[k]| <= BatchSize)
    && (forall k :: 0 <= k < |upserts| - 1 ==> |upserts[k]| == BatchSize)
  }

  /** Sending a non-empty batch after full ones keeps the sizes right; a full batch keeps them all full. */
  lemma SendBatch(upserts: seq<seq<VectorRecord>>, batch: seq<VectorRecord>)
    requires AllFull(upserts) && 0 < |batch| <= BatchSize
    ensures BatchSizesOk(upserts + [batch])
    ensures |batch| == BatchSize ==> AllFull(upserts + [batch])
  {
  }

  /** Appending record `i` to the open batch, and then sending that batch, both keep
      the records sent or pending equal to the first records in order. */
  lemma AppendRecord(upserts: seq<seq<VectorRecord>>, batch: seq<VectorRecord>, records: seq<VectorRecord>, i: nat)
    requires i < |records| && Flatten(upserts) + batch == records[..i]
    ensures Flatten(upserts) + (batch + [records[i]]) == records[..i + 1]
    ensures Flatten(upserts + [batch + [records[i]]]) + [] == records[..i + 1]
  {
    assert records[..i + 1] == records[..i] + [records[i]];
    FlattenSnoc(upserts, batch + [records[i]]);
  }

  /** The loop of `updatePineconeWithText`: build record `i`, append it to `batch`, and
      send the batch when it holds 100 records or `i` is the last index. Returns the
      batches in the order they were upserted. */
  method UpsertInBatches(chunks: seq<string>, embeddings: seq<Embedding>, userId: Option<string>,
                         dataKey: Option<string>, uniqueId: Option<string>)
    returns (upserts: seq<seq<VectorRecord>>)
    requires |embeddings| == |chunks|
    ensures Flatten(upserts) == Records(chunks, embeddings, userId, dataKey, uniqueId)
    ensures |upserts| == (|embeddings| + BatchSize - 1) / BatchSize
    ensures BatchSizesOk(upserts)
  {
    ghost var records := Records(chunks, embeddings, userId, dataKey, uniqueId);
    var n := |embeddings|;
    var batch: seq<VectorRecord> := [];
    upserts := [];
    var i := 0;
    while i < n
      invariant 0 <= i <= n
      invariant Flatten(upserts) + batch == records[..i]
      invariant i < n ==> |upserts| * BatchSize + |batch| == i && |batch| < BatchSize && AllFull(upserts)
      invariant i == n ==> batch == [] && |upserts| == (n + BatchSize - 1) / BatchSize && BatchSizesOk(upserts)
    {
      var vector := MakeRecord(chunks[i], embeddings[i], userId, dataKey, uniqueId, i);
      AppendRecord(upserts, batch, records, i);
      batch := batch + [vector];
      if |batch| == BatchSize || i == n - 1 {
        SendBatch(upserts, batch);
        LastBatchCount(|upserts|, |batch|);
        upserts := upserts + [batch];
        batch := [];
      }
      i := i + 1;
    }
    assert records[..n] == records;
    if n == 0 {
      assert BatchSizesOk(upserts);
    }
  }

  /** The loop of `updatePineconeWithDocs`: the pages' contents concatenated in order,
      each with its newlines turned into spaces. */
  method JoinPages(pages: seq<string>) returns (text: string)
    ensures text == NewlinesToSpaces(Flatten(pages))
    ensures |text| == TotalLength(pages)
    ensures '\n' !in text
  {
    text := "";
    var k := 0;
    while k < |pages|
      invariant 0 <= k <= |pages|
      invariant text == NewlinesToSpaces(Flatten(pages[..k]))
    {
      assert pages[..k + 1] == pages[..k] + [pages[k]];
      FlattenSnoc(pages[..k], pages[k]);
      NewlinesToSpacesAppend(Flatten(pages[..k]), pages[k]);
      text := text + NewlinesToSpaces(pages[k]);
      k := k + 1;
    }
    assert pages[..k] == pages;
    FlattenLength(pages);
  }

  /** `updatePineconeWithDocs` passes the owner's id on and leaves `dataKey` and
      `uniqueId` undefined, so its vectors' ids are the user id, `_` and the ordinal. */
  lemma DocsVectorIds(userId: string, i: nat)
    ensures VectorId(None, None, Some(userId), i) == userId + "_" + NatToDecimal(i)
  {
  }
}
