/**
 * The ingestion script (backend/scripts/pdf_to_milvus.py): collection setup,
 * chunk annotation, embedding with failure filtering, record construction,
 * batched insertion, the per-document outcome and the process exit code.
 * The PDF loader and the splitter are given by their output (the chunks);
 * the vector store's insert is given by what the script sends to it.
 */
module PdfToMilvus {
  import opened Wrappers
  import opened PyText
  import opened MilvusSearch

  /** A vector as stored: the floats `float(x)` produced. */
  type Vector = seq<real>

  /** The store's limit on a record's text, enforced by truncation. */
  const MaxTextLength: nat := 8000
  /** The dimension used for every provider other than "openai_compatible". */
  const DefaultDimension: int := 768

  // ---------------------------------------------------------------- collection setup

  /** The configured collection as the store holds it: absent, or present with its schema and rows. */
  datatype CollectionState = Absent | Present(fieldNames: seq<string>, dimension: int, rowCount: nat)

  /** The fields of a collection created with the simplified call (an id and a vector). */
  const CreatedFields: seq<string> := ["id", "vector"]

  /** What setup did: whether it dropped the collection, and the dimension it created one with. */
  datatype SetupActions = SetupActions(dropped: bool, createdWith: Option<int>)

  /** The dimension a new collection gets. */
  function CreationDimension(cfg: Config): (dim: int)
    ensures cfg.embeddingProvider == OpenAICompatible ==> dim == cfg.openaiDimensions
    ensures cfg.embeddingProvider != OpenAICompatible ==> dim == DefaultDimension
  {
    if cfg.embeddingProvider == OpenAICompatible then cfg.openaiDimensions else DefaultDimension
  }

  /**
   * The contract of setup: an existing collection is dropped exactly when
   * recreation is forced or its described fields lack "vector" (a failed
   * describe keeps it); a collection is created exactly when none existed or
   * it was dropped; nothing else changes.
   */
  predicate SetupPerformed(before: CollectionState, forceRecreate: bool, describeFails: bool, cfg: Config,
                           actions: SetupActions, after: CollectionState)
  {
    && actions.dropped == (before.Present? && (forceRecreate || (!describeFails && "vector" !in before.fieldNames)))
    && actions.createdWith.Some? == (before.Absent? || actions.dropped)
    && (actions.createdWith.Some? ==> actions.createdWith.value == CreationDimension(cfg))
    && after == (if actions.createdWith.Some? then Present(CreatedFields, CreationDimension(cfg), 0) else before)
  }

  /** setup_milvus_collection (pdf_to_milvus.py:61-127); `describeFails` is a raising describe_collection. */
  method SetupMilvusCollection(before: CollectionState, forceRecreate: bool, describeFails: bool, cfg: Config)
    returns (ok: bool, actions: SetupActions, after: CollectionState)
    ensures ok
    ensures SetupPerformed(before, forceRecreate, describeFails, cfg, actions, after)
  {
    var collectionExists := before.Present?;
    var needRecreate := forceRecreate;
    if collectionExists && !forceRecreate {
      if !describeFails {
        var fieldNames := before.fieldNames;
        if "vector" !in fieldNames {
          needRecreate := true;
        }
      }
    }
    after := before;
    var dropped := false;
    if collectionExists && needRecreate {
      after := Absent;
      dropped := true;
      collectionExists := false;
    }
    var createdWith := None;
    if !collectionExists {
      var embeddingDim := if cfg.embeddingProvider == OpenAICompatible then cfg.openaiDimensions else 768;
      after := Present(CreatedFields, embeddingDim, 0);
      createdWith := Some(embeddingDim);
    }
    actions := SetupActions(dropped, createdWith);
    ok := true;
  }

  /** A collection that already has a "vector" field is left alone unless recreation is forced. */
  lemma SetupKeepsMatchingCollection(before: CollectionState, describeFails: bool, cfg: Config,
                                      actions: SetupActions, after: CollectionState)
    requires before.Present? && "vector" in before.fieldNames
    requires SetupPerformed(before, false, describeFails, cfg, actions, after)
    ensures !actions.dropped && actions.createdWith == None && after == before
  {
  }

  /**
   * Setup is idempotent: after a setup whose describe succeeded, a second setup
   * without forcing changes nothing, so the row count is kept.
   */
  lemma SetupIdempotent(s0: CollectionState, force: bool, cfg: Config, a1: SetupActions, s1: CollectionState,
                        describeFails2: bool, a2: SetupActions, s2: CollectionState)
    requires SetupPerformed(s0, force, false, cfg, a1, s1)
    requires SetupPerformed(s1, false, describeFails2, cfg, a2, s2)
    ensures s1.Present? && "vector" in s1.fieldNames
    ensures !a2.dropped && a2.createdWith == None && s2 == s1 && s2.rowCount == s1.rowCount
  {
    if a1.createdWith.Some? {
      assert s1.fieldNames[1] == "vector";
    }
  }

  // ---------------------------------------------------------------- chunks and their metadata

  /** A metadata value: the loader and splitter store strings and integers. */
  datatype MetaValue = MStr(s: string) | MInt(i: int)

  /** `f"{v}"`. */
  function Show(v: MetaValue): string {
    match v
    case MStr(s) => s
    case MInt(i) => IntToString(i)
  }

  /** A chunk as the splitter returns it: its text and its metadata dictionary. */
  datatype Document = Document(pageContent: string, metadata: map<string, MetaValue>)

  /** `split.metadata.update({...})` for the i-th split. */
  function Annotated(d: Document, index: nat, filePath: string, stem: string): (r: Document)
    ensures r.pageContent == d.pageContent
    ensures r.metadata.Keys == d.metadata.Keys + {"file_path", "source", "chunk_index"}
    ensures r.metadata["file_path"] == MStr(filePath)
    ensures r.metadata["source"] == MStr(stem)
    ensures r.metadata["chunk_index"] == MInt(index)
    ensures forall k :: k in d.metadata && k != "file_path" && k != "source" && k != "chunk_index" ==>
              r.metadata[k] == d.metadata[k]
  {
    d.(metadata := d.metadata + map["file_path" := MStr(filePath), "source" := MStr(stem), "chunk_index" := MInt(index)])
  }

  function AnnotatedChunks(splits: seq<Document>, filePath: string, stem: string): seq<Document> {
    seq(|splits|, i requires 0 <= i < |splits| => Annotated(splits[i], i, filePath, stem))
  }

  /**
   * The part of load_and_split_pdf after splitting (pdf_to_milvus.py:158-169):
   * the splits are annotated in place, in order, the i-th with chunk_index i.
   */
  method LoadAndSplitPdf(filePath: string, stem: string, splits: seq<Document>) returns (allSplits: seq<Document>)
    ensures |allSplits| == |splits|
    ensures forall i :: 0 <= i < |splits| ==> allSplits[i] == Annotated(splits[i], i, filePath, stem)
    ensures allSplits == AnnotatedChunks(splits, filePath, stem)
  {
    var a := new Document[|splits|](i requires 0 <= i < |splits| => splits[i]);
    for i := 0 to a.Length
      invariant forall k :: 0 <= k < i ==> a[k] == Annotated(splits[k], k, filePath, stem)
      invariant forall k :: i <= k < a.Length ==> a[k] == splits[k]
    {
      var updated := a[i].(metadata := a[i].metadata +
        map["file_path" := MStr(filePath), "source" := MStr(stem), "chunk_index" := MInt(i)]);
      assert updated == Annotated(splits[i], i, filePath, stem);
      ghost var prev := a[..];
      a[i] := updated;
      forall k | 0 <= k < i + 1 ensures a[k] == Annotated(splits[k], k, filePath, stem) {
        if k < i {
          assert a[k] == prev[k];
        }
      }
    }
    allSplits := a[..];
    assert forall i :: 0 <= i < |splits| ==> allSplits[i] == AnnotatedChunks(splits, filePath, stem)[i];
  }

  // ---------------------------------------------------------------- embeddings

  /** `[float(x) for x in embedding]`: None when some element raises. */
  function ToFloats(xs: seq<Element>): (r: Option<Vector>)
    ensures r.Some? <==> forall k :: 0 <= k < |xs| ==> xs[k].Convertible?
    ensures r.Some? ==> |r.value| == |xs| && forall k :: 0 <= k < |xs| ==> r.value[k] == xs[k].value
  {
    if forall k :: 0 <= k < |xs| ==> xs[k].Convertible? then
      Some(seq(|xs|, k requires 0 <= k < |xs| && xs[k].Convertible? => xs[k].value))
    else None
  }

  /** The vector generate_embeddings_batch keeps for one reply: a non-empty list of convertible elements. */
  function AcceptedVector(e: RawEmbedding): (r: Option<Vector>)
    ensures r.Some? <==> e.RawList? && |e.items| > 0 && forall k :: 0 <= k < |e.items| ==> e.items[k].Convertible?
    ensures r.Some? ==> e.Truthy() && |r.value| == |e.items| > 0
  {
    if !e.Truthy() || !e.RawList? then None else ToFloats(e.items)
  }

  /** The vectors of generate_embeddings_batch, one per accepted reply, in input order. */
  function EmbeddedVectors(docs: seq<Document>, embed: string -> RawEmbedding): seq<Vector> {
    if docs == [] then []
    else
      var last := AcceptedVector(embed(docs[|docs| - 1].pageContent));
      EmbeddedVectors(docs[..|docs| - 1], embed) + (if last.Some? then [last.value] else [])
  }

  predicate Embeds(d: Document, embed: string -> RawEmbedding) {
    AcceptedVector(embed(d.pageContent)).Some?
  }

  /** The chunks whose embedding succeeded, in input order. */
  function Succeeded(docs: seq<Document>, embed: string -> RawEmbedding): seq<Document> {
    if docs == [] then []
    else Succeeded(docs[..|docs| - 1], embed) + (if Embeds(docs[|docs| - 1], embed) then [docs[|docs| - 1]] else [])
  }

  /**
   * The k-th vector is the embedding of the k-th chunk that embedded: one
   * vector per successful chunk, so never more vectors than chunks, and as
   * many exactly when every chunk embedded.
   */
  lemma {:induction false} EmbeddedPairing(docs: seq<Document>, embed: string -> RawEmbedding)
    ensures |EmbeddedVectors(docs, embed)| == |Succeeded(docs, embed)| <= |docs|
    ensures forall k :: 0 <= k < |Succeeded(docs, embed)| ==>
      Embeds(Succeeded(docs, embed)[k], embed) &&
      EmbeddedVectors(docs, embed)[k] == AcceptedVector(embed(Succeeded(docs, embed)[k].pageContent)).value
    ensures |Succeeded(docs, embed)| == |docs| <==> forall i :: 0 <= i < |docs| ==> Embeds(docs[i], embed)
  {
    if docs != [] {
      var init := docs[..|docs| - 1];
      EmbeddedPairing(init, embed);
      if forall i :: 0 <= i < |docs| ==> Embeds(docs[i], embed) {
        assert forall i :: 0 <= i < |init| ==> Embeds(init[i], embed) by {
          forall i | 0 <= i < |init| ensures Embeds(init[i], embed) { assert init[i] == docs[i]; }
        }
      }
      if |Succeeded(docs, embed)| == |docs| {
        assert Embeds(docs[|docs| - 1], embed);
        assert |Succeeded(init, embed)| == |init|;
        forall i | 0 <= i < |docs| ensures Embeds(docs[i], embed) {
          if i < |init| { assert init[i] == docs[i]; }
        }
      }
    }
  }

  /** generate_embeddings_batch (pdf_to_milvus.py:172-204). */
  method GenerateEmbeddingsBatch(documents: seq<Document>, embed: string -> RawEmbedding)
    returns (embeddings: seq<Vector>)
    ensures embeddings == EmbeddedVectors(documents, embed)
    ensures |embeddings| <= |documents|
    ensures forall k :: 0 <= k < |embeddings| ==> |embeddings[k]| > 0
  {
    embeddings := [];
    for i := 0 to |documents|
      invariant embeddings == EmbeddedVectors(documents[..i], embed)
      invariant forall k :: 0 <= k < |embeddings| ==> |embeddings[k]| > 0
    {
      assert documents[..i + 1][..i] == documents[..i];
      var embedding := embed(documents[i].pageContent);
      if !embedding.Truthy() {
        continue;
      }
      if !embedding.RawList? {
        continue;
      }
      var floats := ToFloats(embedding.items);
      if floats.None? {
        continue;
      }
      embeddings := embeddings + [floats.value];
    }
    assert documents[..|documents|] == documents;
    EmbeddedPairing(documents, embed);
  }

  // ---------------------------------------------------------------- records

  function MetaGet(m: map<string, MetaValue>, key: string, default: MetaValue): MetaValue {
    if key in m then m[key] else default
  }

  /** The page: an integer as is, a digit string parsed, anything else (or nothing) 0. */
  function PageNumber(d: Document): (p: int)
    ensures "page" !in d.metadata ==> p == 0
    ensures "page" in d.metadata && d.metadata["page"].MInt? ==> p == d.metadata["page"].i
    ensures "page" in d.metadata && d.metadata["page"].MStr? && !IsDigits(d.metadata["page"].s) ==> p == 0
    ensures "page" in d.metadata && d.metadata["page"].MStr? ==> p >= 0
  {
    match MetaGet(d.metadata, "page", MInt(0))
    case MInt(i) => i
    case MStr(s) => if IsDigits(s) then ParseDigits(s) else 0
  }

  /** The source, "unknown" when it is missing, formatted as `f"{source}"` does. */
  function SourceName(d: Document): (name: string)
    ensures "source" !in d.metadata ==> name == "unknown"
    ensures "source" in d.metadata && d.metadata["source"].MStr? ==> name == d.metadata["source"].s
  {
    Show(MetaGet(d.metadata, "source", MStr("unknown")))
  }

  /** "source - Page p" for a positive page, the source alone otherwise. */
  function Title(d: Document): (t: string)
    ensures PageNumber(d) <= 0 ==> t == SourceName(d)
    ensures PageNumber(d) > 0 ==> t == SourceName(d) + " - Page " + NatToString(PageNumber(d))
    ensures "page" !in d.metadata ==> t == SourceName(d)
  {
    if PageNumber(d) > 0 then SourceName(d) + " - Page " + IntToString(PageNumber(d)) else SourceName(d)
  }

  /** The text payload before truncation: its lines, joined in order. */
  function CombinedText(d: Document): string {
    Flatten(RecordLines(d))
  }

  /** The title, source, page and file lines, then the chunk's text: what each `+=` appends. */
  function RecordLines(d: Document): (lines: seq<string>)
    ensures |lines| == 5 && lines[0] == TitleLine(d)
  {
    [ TitleLine(d),
      "Source: " + SourceName(d) + "\n",
      "Page: " + IntToString(PageNumber(d)) + "\n",
      "File: " + Show(MetaGet(d.metadata, "file_path", MStr(""))) + "\n",
      "Content: " + d.pageContent ]
  }

  function TitleLine(d: Document): string {
    "Title: " + Title(d) + "\n"
  }

  /** `combined_text[:8000]`: within the store's limit, and the whole payload when it fits. */
  function RecordText(d: Document): (t: string)
    ensures |t| <= MaxTextLength
    ensures t <= CombinedText(d)
    ensures |CombinedText(d)| <= MaxTextLength ==> t == CombinedText(d)
    ensures |CombinedText(d)| > MaxTextLength ==> |t| == MaxTextLength
  {
    SliceTo(CombinedText(d), MaxTextLength)
  }

  /** A page stored as a digit string reads as the same page as the integer. */
  lemma PageFromDigitString(d: Document, n: nat)
    ensures PageNumber(d.(metadata := d.metadata["page" := MStr(NatToString(n))])) == n
    ensures PageNumber(d.(metadata := d.metadata["page" := MInt(n)])) == n
  {
    ParseNatToString(n);
  }

  /** The title line survives truncation whenever it fits in the limit. */
  lemma TitleLineKept(d: Document)
    requires |TitleLine(d)| <= MaxTextLength
    ensures TitleLine(d) <= RecordText(d)
  {
    var lines := RecordLines(d);
    assert lines == [lines[0]] + lines[1..];
    FlattenAppend([lines[0]], lines[1..]);
    FlattenSingle(lines[0]);
    var head := TitleLine(d);
    assert CombinedText(d)[..|head|] == head;
    SliceToKeepsPrefix(head, CombinedText(d), MaxTextLength);
  }

  /** The stored vector: a list of floats, or anything else (the insert loop's type check). */
  datatype RowVector = ListVector(xs: Vector) | NonListVector
  /** One entry of the data list handed to insert_to_milvus. */
  datatype Row = Row(vector: RowVector, text: string)

  /** prepare_milvus_data as a value. */
  function PreparedRows(docs: seq<Document>, embeddings: seq<Vector>): seq<Row> {
    if |docs| != |embeddings| then [] else Records(docs, embeddings, RecordText)
  }

  /** One record per chunk and its vector, in order, the chunk's payload given by `text`. */
  function Records(docs: seq<Document>, embeddings: seq<Vector>, text: Document -> string): (rows: seq<Row>)
    requires |docs| == |embeddings|
    ensures |rows| == |docs|
  {
    if docs == [] then []
    else
      Records(docs[..|docs| - 1], embeddings[..|docs| - 1], text)
      + [Row(ListVector(embeddings[|docs| - 1]), text(docs[|docs| - 1]))]
  }

  lemma RecordsSnoc(docs: seq<Document>, embeddings: seq<Vector>, text: Document -> string, i: nat)
    requires i < |docs| == |embeddings|
    ensures Records(docs[..i + 1], embeddings[..i + 1], text)
      == Records(docs[..i], embeddings[..i], text) + [Row(ListVector(embeddings[i]), text(docs[i]))]
  {
    assert docs[..i + 1][..i] == docs[..i];
    assert embeddings[..i + 1][..i] == embeddings[..i];
  }

  /** The body of prepare_milvus_data's loop for one chunk and its vector. */
  method PreparedRow(doc: Document, embedding: Vector) returns (row: Row)
    ensures row == Row(ListVector(embedding), RecordText(doc))
  {
    var pageNumber := PageNumber(doc);
    var sourceName := SourceName(doc);
    var title := Title(doc);
    ghost var lines := RecordLines(doc);
    var combinedText := "Title: " + title + "\n";
    FlattenSingle(lines[0]);
    assert lines[..1] == [lines[0]];
    assert combinedText == Flatten(lines[..1]);
    combinedText := combinedText + ("Source: " + sourceName + "\n");
    assert lines[..2][..1] == lines[..1];
    assert combinedText == Flatten(lines[..2]);
    combinedText := combinedText + ("Page: " + IntToString(pageNumber) + "\n");
    assert lines[..3][..2] == lines[..2];
    assert combinedText == Flatten(lines[..3]);
    combinedText := combinedText + ("File: " + Show(MetaGet(doc.metadata, "file_path", MStr(""))) + "\n");
    assert lines[..4][..3] == lines[..3];
    assert combinedText == Flatten(lines[..4]);
    combinedText := combinedText + ("Content: " + doc.pageContent);
    assert lines[..5][..4] == lines[..4];
    assert combinedText == Flatten(lines[..5]);
    assert lines[..5] == lines;
    row := Row(ListVector(embedding), SliceTo(combinedText, 8000));
  }

  /** prepare_milvus_data (pdf_to_milvus.py:207-246). */
  method PrepareMilvusData(documents: seq<Document>, embeddings: seq<Vector>) returns (data: seq<Row>)
    ensures data == PreparedRows(documents, embeddings)
  {
    if |documents| != |embeddings| {
      return [];
    }
    data := [];
    for i := 0 to |documents|
      invariant data == Records(documents[..i], embeddings[..i], RecordText)
    {
      var row := PreparedRow(documents[i], embeddings[i]);
      RecordsSnoc(documents, embeddings, RecordText, i);
      data := data + [row];
    }
    assert documents[..|documents|] == documents;
    assert embeddings[..|documents|] == embeddings;
  }

  /** One record per chunk, in order, when the counts agree; none otherwise; every record within the limit. */
  lemma PreparedRowsShape(docs: seq<Document>, embeddings: seq<Vector>)
    ensures var rows := PreparedRows(docs, embeddings);
      && (|docs| != |embeddings| ==> rows == [])
      && (|docs| == |embeddings| ==> |rows| == |docs|)
      && (|docs| == |embeddings| ==>
            forall i :: 0 <= i < |rows| ==> rows[i] == Row(ListVector(embeddings[i]), RecordText(docs[i])))
      && forall i :: 0 <= i < |rows| ==> rows[i].vector.ListVector? && |rows[i].text| <= MaxTextLength
  {
    if |docs| == |embeddings| {
      forall i | 0 <= i < |docs| ensures Records(docs, embeddings, RecordText)[i] == Row(ListVector(embeddings[i]), RecordText(docs[i])) {
        RecordAt(docs, embeddings, RecordText, i);
      }
    }
  }

  /** Record `k` is made from chunk `k` and vector `k`. */
  lemma {:induction false} RecordAt(docs: seq<Document>, embeddings: seq<Vector>, text: Document -> string, k: nat)
    requires k < |docs| == |embeddings|
    ensures Records(docs, embeddings, text)[k] == Row(ListVector(embeddings[k]), text(docs[k]))
  {
    var n := |docs| - 1;
    RecordsSnoc(docs, embeddings, text, n);
    assert docs[..n + 1] == docs && embeddings[..n + 1] == embeddings;
    if k < n {
      RecordAt(docs[..n], embeddings[..n], text, k);
      assert docs[..n][k] == docs[k];
      assert embeddings[..n][k] == embeddings[k];
    }
  }

  // ---------------------------------------------------------------- batched insertion

  /** What is sent to the store for one row. */
  datatype Entity = Entity(vector: Vector, text: string)

  /** The rows of a batch that pass the list check, as entities, in order. */
  function Forwarded(batch: seq<Row>): seq<Entity> {
    if batch == [] then []
    else
      var last := batch[|batch| - 1];
      Forwarded(batch[..|batch| - 1]) + (if last.vector.ListVector? then [Entity(last.vector.xs, last.text)] else [])
  }

  /** `data[i:i + size]` for i in `range(start, len(data), size)`. */
  function BatchesFrom(data: seq<Row>, size: nat, start: nat): seq<seq<Row>>
    requires size > 0
    decreases |data| - start
  {
    if start >= |data| then []
    else [data[start..Min(start + size, |data|)]] + BatchesFrom(data, size, start + size)
  }

  function Batches(data: seq<Row>, size: nat): seq<seq<Row>>
    requires size > 0
  {
    BatchesFrom(data, size, 0)
  }

  /** The forwarded part of each batch, skipping batches with nothing to forward. */
  function SentBatches(batches: seq<seq<Row>>): seq<seq<Entity>> {
    if batches == [] then []
    else
      var last := Forwarded(batches[|batches| - 1]);
      SentBatches(batches[..|batches| - 1]) + (if last == [] then [] else [last])
  }

  /** Together the batches are exactly the data from `start` on, in order. */
  lemma {:induction false} BatchesCover(data: seq<Row>, size: nat, start: nat)
    requires size > 0 && start <= |data|
    ensures Flatten(BatchesFrom(data, size, start)) == data[start..]
    decreases |data| - start
  {
    if start < |data| {
      var next := Min(start + size, |data|);
      var head := data[start..next];
      var rest := BatchesFrom(data, size, start + size);
      assert BatchesFrom(data, size, start) == [head] + rest;
      if start + size <= |data| {
        BatchesCover(data, size, start + size);
      } else {
        assert rest == [];
      }
      assert Flatten(rest) == data[next..];
      FlattenAppend([head], rest);
      FlattenSingle(head);
      assert data[start..] == head + data[next..];
    }
  }

  /**
   * The k-th batch is the slice starting at `start + k*size`, `size` rows long
   * except the last, which is cut at the end of the data; so none is empty.
   */
  lemma {:induction false} BatchAt(data: seq<Row>, size: nat, start: nat)
    requires size > 0
    ensures forall k :: 0 <= k < |BatchesFrom(data, size, start)| ==>
      start + k * size < |data| &&
      BatchesFrom(data, size, start)[k] == data[start + k * size..Min(start + k * size + size, |data|)]
    decreases |data| - start
  {
    if start < |data| {
      var bs := BatchesFrom(data, size, start);
      var rest := BatchesFrom(data, size, start + size);
      BatchAt(data, size, start + size);
      forall k | 0 <= k < |bs|
        ensures start + k * size < |data|
        ensures bs[k] == data[start + k * size..Min(start + k * size + size, |data|)]
      {
        if k > 0 {
          assert bs[k] == rest[k - 1];
          assert (start + size) + (k - 1) * size == start + k * size;
        }
      }
    }
  }

  /** Every batch holds between one and `size` rows. */
  lemma BatchesBounded(data: seq<Row>, size: nat, start: nat)
    requires size > 0
    ensures forall k :: 0 <= k < |BatchesFrom(data, size, start)| ==> 0 < |BatchesFrom(data, size, start)[k]| <= size
  {
    BatchAt(data, size, start);
  }

  /** A batch forwards at most its own rows. */
  lemma {:induction false} ForwardedLength(batch: seq<Row>)
    ensures |Forwarded(batch)| <= |batch|
  {
    if batch != [] {
      ForwardedLength(batch[..|batch| - 1]);
    }
  }

  /** Forwarding distributes over concatenation. */
  lemma {:induction false} ForwardedAppend(a: seq<Row>, b: seq<Row>)
    ensures Forwarded(a + b) == Forwarded(a) + Forwarded(b)
    decreases |b|
  {
    if b == [] {
      assert a + b == a;
    } else {
      var init := b[..|b| - 1];
      var last := b[|b| - 1];
      DropLastAppend(a, b);
      ForwardedAppend(a, init);
      AppendAssoc(Forwarded(a), Forwarded(init), if last.vector.ListVector? then [Entity(last.vector.xs, last.text)] else []);
    }
  }

  /** Rows that all carry list vectors are all forwarded. */
  lemma {:induction false} AllListsForwarded(rows: seq<Row>)
    requires forall i :: 0 <= i < |rows| ==> rows[i].vector.ListVector?
    ensures |Forwarded(rows)| == |rows|
  {
    if rows != [] {
      AllListsForwarded(rows[..|rows| - 1]);
    }
  }

  /** What reaches the store over all batches is the forwarded data, in order. */
  lemma {:induction false} SentIsForwarded(batches: seq<seq<Row>>)
    ensures Flatten(SentBatches(batches)) == Forwarded(Flatten(batches))
  {
    if batches != [] {
      var init := batches[..|batches| - 1];
      var last := batches[|batches| - 1];
      SentIsForwarded(init);
      ForwardedAppend(Flatten(init), last);
      var f := Forwarded(last);
      assert SentBatches(batches) == SentBatches(init) + (if f == [] then [] else [f]);
      assert Flatten(batches) == Flatten(init) + last;
      if f != [] {
        FlattenAppend(SentBatches(init), [f]);
        FlattenSingle(f);
        assert Flatten(SentBatches(batches)) == Flatten(SentBatches(init)) + f;
      } else {
        assert SentBatches(batches) == SentBatches(init);
        assert Forwarded(Flatten(init)) + f == Forwarded(Flatten(init));
      }
    }
  }

  /** No sent batch is empty, and none is longer than the longest batch it came from. */
  lemma {:induction false} SentBounded(batches: seq<seq<Row>>, size: nat)
    requires forall k :: 0 <= k < |batches| ==> |batches[k]| <= size
    ensures forall k :: 0 <= k < |SentBatches(batches)| ==> 0 < |SentBatches(batches)[k]| <= size
  {
    if batches != [] {
      var init := batches[..|batches| - 1];
      SentBounded(init, size);
      ForwardedLength(batches[|batches| - 1]);
    }
  }

  /** One more batch adds its forwarded rows as one more sent batch, unless there are none. */
  lemma SentStep(done: seq<seq<Row>>, batch: seq<Row>)
    ensures SentBatches(done + [batch]) ==
      SentBatches(done) + (if Forwarded(batch) == [] then [] else [Forwarded(batch)])
  {
    assert (done + [batch])[..|done|] == done;
  }

  /** What the batches deliver: every list-vector record once, in order, in non-empty batches of at most `size`. */
  lemma SentSummary(data: seq<Row>, size: nat)
    requires size > 0
    ensures Flatten(SentBatches(Batches(data, size))) == Forwarded(data)
    ensures forall k :: 0 <= k < |SentBatches(Batches(data, size))| ==> 0 < |SentBatches(Batches(data, size))[k]| <= size
  {
    BatchesCover(data, size, 0);
    assert data[0..] == data;
    SentIsForwarded(Batches(data, size));
    BatchesBounded(data, size, 0);
    SentBounded(Batches(data, size), size);
  }

  /** Taking the batch at `start` moves it from the batches still to come to those done. */
  lemma BatchesStep(data: seq<Row>, size: nat, start: nat, done: seq<seq<Row>>)
    requires size > 0 && start < |data|
    requires Batches(data, size) == done + BatchesFrom(data, size, start)
    ensures Batches(data, size) == (done + [data[start..Min(start + size, |data|)]]) + BatchesFrom(data, size, start + size)
  {
    var batch := data[start..Min(start + size, |data|)];
    assert BatchesFrom(data, size, start) == [batch] + BatchesFrom(data, size, start + size);
    AppendAssoc(done, [batch], BatchesFrom(data, size, start + size));
  }

  /** The entity list insert_to_milvus builds for one batch: list-vector records only, in order. */
  method BatchEntities(batch: seq<Row>) returns (batchData: seq<Entity>)
    ensures batchData == Forwarded(batch)
  {
    batchData := [];
    for j := 0 to |batch|
      invariant batchData == Forwarded(batch[..j])
    {
      assert batch[..j + 1][..j] == batch[..j];
      var item := batch[j];
      if !item.vector.ListVector? {
        continue;
      }
      batchData := batchData + [Entity(item.vector.xs, item.text)];
    }
    assert batch[..|batch|] == batch;
  }

  /** insert_to_milvus (pdf_to_milvus.py:249-298); `sent` lists the batches handed to `client.insert`. */
  method InsertToMilvus(data: seq<Row>, batchSize: int) returns (ok: bool, sent: seq<seq<Entity>>, totalInserted: nat)
    requires batchSize > 0
    ensures ok
    ensures data == [] ==> sent == []
    ensures sent == SentBatches(Batches(data, batchSize))
    ensures Flatten(sent) == Forwarded(data)
    ensures totalInserted == |Forwarded(data)|
    ensures forall k :: 0 <= k < |sent| ==> 0 < |sent[k]| <= batchSize
  {
    sent := [];
    totalInserted := 0;
    if data == [] {
      return true, sent, totalInserted;
    }
    ghost var done: seq<seq<Row>> := [];
    var i := 0;
    while i < |data|
      invariant Batches(data, batchSize) == done + BatchesFrom(data, batchSize, i)
      invariant sent == SentBatches(done)
      invariant totalInserted == |Flatten(sent)|
      decreases |data| - i
    {
      var batch := data[i..Min(i + batchSize, |data|)];
      var batchData := BatchEntities(batch);
      BatchesStep(data, batchSize, i, done);
      SentStep(done, batch);
      done := done + [batch];
      i := i + batchSize;
      if batchData == [] {
        continue;
      }
      FlattenAppend(sent, [batchData]);
      FlattenSingle(batchData);
      sent := sent + [batchData];
      totalInserted := totalInserted + |batchData|;
    }
    assert done == Batches(data, batchSize);
    SentSummary(data, batchSize);
    ok := true;
  }

  // ---------------------------------------------------------------- one document

  /** The second round of `get_embedding` calls keeps the chunks whose reply is truthy. */
  function ReembedFilter(docs: seq<Document>, reembed: string -> RawEmbedding): seq<Document> {
    if docs == [] then []
    else
      ReembedFilter(docs[..|docs| - 1], reembed)
      + (if reembed(docs[|docs| - 1].pageContent).Truthy() then [docs[|docs| - 1]] else [])
  }

  /** process_single_pdf's second round: the chunks whose fresh embedding reply is truthy, in order. */
  method ReembedChunks(documents: seq<Document>, reembed: string -> RawEmbedding) returns (validDocuments: seq<Document>)
    ensures validDocuments == ReembedFilter(documents, reembed)
  {
    validDocuments := [];
    for k := 0 to |documents|
      invariant validDocuments == ReembedFilter(documents[..k], reembed)
    {
      assert documents[..k + 1][..k] == documents[..k];
      var embedding := reembed(documents[k].pageContent);
      if embedding.Truthy() {
        validDocuments := validDocuments + [documents[k]];
      }
    }
    assert documents[..|documents|] == documents;
  }

  /** The chunk list handed to prepare_milvus_data: re-filtered when some chunk did not embed. */
  function ValidDocuments(docs: seq<Document>, embed: string -> RawEmbedding, reembed: string -> RawEmbedding)
    : seq<Document>
  {
    if |EmbeddedVectors(docs, embed)| < |docs| then ReembedFilter(docs, reembed) else docs
  }

  /** The rows process_single_pdf inserts. */
  function IngestedRows(docs: seq<Document>, embed: string -> RawEmbedding, reembed: string -> RawEmbedding)
    : seq<Row>
  {
    PreparedRows(ValidDocuments(docs, embed, reembed), EmbeddedVectors(docs, embed))
  }

  /** The outcome of process_single_pdf: chunks, vectors and a non-empty record list. */
  predicate PdfSucceeds(docs: seq<Document>, embed: string -> RawEmbedding, reembed: string -> RawEmbedding) {
    docs != [] && EmbeddedVectors(docs, embed) != [] && IngestedRows(docs, embed, reembed) != []
  }

  /**
   * process_single_pdf (pdf_to_milvus.py:301-356): `embed` answers the first
   * round of embedding calls, `reembed` the second round made when some chunk
   * did not embed; `sent` is what reached the store.
   */
  method ProcessSinglePdf(filePath: string, stem: string, splits: seq<Document>,
                          embed: string -> RawEmbedding, reembed: string -> RawEmbedding, batchSize: int)
    returns (success: bool, sent: seq<seq<Entity>>)
    requires batchSize > 0
    ensures splits == [] ==> !success
    ensures success == PdfSucceeds(AnnotatedChunks(splits, filePath, stem), embed, reembed)
    ensures success ==> sent == SentBatches(Batches(IngestedRows(AnnotatedChunks(splits, filePath, stem), embed, reembed), batchSize))
    ensures success ==> |Flatten(sent)| == |IngestedRows(AnnotatedChunks(splits, filePath, stem), embed, reembed)|
    ensures !success ==> sent == []
  {
    ghost var chunks := AnnotatedChunks(splits, filePath, stem);
    var documents := LoadAndSplitPdf(filePath, stem, splits);
    if documents == [] {
      return false, [];
    }
    var embeddings := GenerateEmbeddingsBatch(documents, embed);
    if embeddings == [] {
      return false, [];
    }
    if |embeddings| < |documents| {
      documents := ReembedChunks(documents, reembed);
    }
    assert documents == ValidDocuments(chunks, embed, reembed);
    var milvusData := PrepareMilvusData(documents, embeddings);
    PreparedRowsShape(documents, embeddings);
    if milvusData == [] {
      return false, [];
    }
    var total;
    success, sent, total := InsertToMilvus(milvusData, batchSize);
    AllListsForwarded(milvusData);
  }

  /** Replies that are truthy only as non-empty lists of convertible elements. */
  predicate WellFormedReplies(docs: seq<Document>, embed: string -> RawEmbedding) {
    forall i :: 0 <= i < |docs| ==> embed(docs[i].pageContent).Truthy() ==> Embeds(docs[i], embed)
  }

  /** Under well-formed replies that agree between rounds, the re-filter keeps exactly the chunks that embedded. */
  lemma {:induction false} ReembedFilterAgrees(docs: seq<Document>, embed: string -> RawEmbedding)
    requires WellFormedReplies(docs, embed)
    ensures ReembedFilter(docs, embed) == Succeeded(docs, embed)
  {
    if docs != [] {
      var init := docs[..|docs| - 1];
      assert WellFormedReplies(init, embed) by {
        forall i | 0 <= i < |init| ensures embed(init[i].pageContent).Truthy() ==> Embeds(init[i], embed) {
          assert init[i] == docs[i];
        }
      }
      ReembedFilterAgrees(init, embed);
    }
  }

  /**
   * When the second round answers like the first and replies are well formed,
   * a document succeeds exactly when some chunk embedded, and every record
   * pairs a successful chunk's text with that chunk's own vector, in order.
   */
  lemma StableServiceAligns(docs: seq<Document>, embed: string -> RawEmbedding)
    requires WellFormedReplies(docs, embed)
    ensures PdfSucceeds(docs, embed, embed) <==> |Succeeded(docs, embed)| > 0
    ensures var ok := Succeeded(docs, embed);
      var rows := IngestedRows(docs, embed, embed);
      && |rows| == |ok|
      && forall k :: 0 <= k < |ok| ==>
        (Embeds(ok[k], embed) && rows[k] == Row(ListVector(AcceptedVector(embed(ok[k].pageContent)).value), RecordText(ok[k])))
  {
    EmbeddedPairing(docs, embed);
    ValidIsSucceeded(docs, embed);
    assert IngestedRows(docs, embed, embed) == PreparedRows(Succeeded(docs, embed), EmbeddedVectors(docs, embed));
    PreparedRowsShape(Succeeded(docs, embed), EmbeddedVectors(docs, embed));
  }

  /** Under a stable, well-formed service the chunks handed on are exactly those that embedded. */
  lemma ValidIsSucceeded(docs: seq<Document>, embed: string -> RawEmbedding)
    requires WellFormedReplies(docs, embed)
    ensures ValidDocuments(docs, embed, embed) == Succeeded(docs, embed)
  {
    EmbeddedPairing(docs, embed);
    if |EmbeddedVectors(docs, embed)| < |docs| {
      ReembedFilterAgrees(docs, embed);
    } else {
      SucceededAll(docs, embed);
    }
  }

  /** When every chunk embeds, the successful chunks are all of them. */
  lemma {:induction false} SucceededAll(docs: seq<Document>, embed: string -> RawEmbedding)
    requires forall i :: 0 <= i < |docs| ==> Embeds(docs[i], embed)
    ensures Succeeded(docs, embed) == docs
  {
    if docs != [] {
      var init, last := docs[..|docs| - 1], docs[|docs| - 1];
      forall i | 0 <= i < |init| ensures Embeds(init[i], embed) { assert init[i] == docs[i]; }
      SucceededAll(init, embed);
      assert Embeds(last, embed);
      calc {
        Succeeded(docs, embed);
        Succeeded(init, embed) + [last];
        init + [last];
        docs;
      }
    }
  }

  /**
   * A transient failure that moves between the two rounds misaligns records:
   * chunk "a" embeds only in the first round, chunk "b" only in the second, and
   * the single record stored carries b's text with a's vector.
   */
  lemma TransientFailureMisaligns()
    ensures var a := Document("a", map[]);
      var b := Document("b", map[]);
      var first := (t: string) => if t == "a" then RawList([Convertible(1.0)]) else NoEmbedding;
      var second := (t: string) => if t == "b" then RawList([Convertible(2.0)]) else NoEmbedding;
      && PdfSucceeds([a, b], first, second)
      && IngestedRows([a, b], first, second) == [Row(ListVector([1.0]), RecordText(b))]
  {
    var a := Document("a", map[]);
    var b := Document("b", map[]);
    var first := (t: string) => if t == "a" then RawList([Convertible(1.0)]) else NoEmbedding;
    var second := (t: string) => if t == "b" then RawList([Convertible(2.0)]) else NoEmbedding;
    var docs := [a, b];
    assert docs[..1] == [a] && [a][..0] == [];
    var one := ToFloats([Convertible(1.0)]);
    assert one.Some? && |one.value| == 1 && one.value[0] == 1.0;
    assert one.value == [1.0];
    assert EmbeddedVectors([a], first) == [[1.0]];
    assert EmbeddedVectors(docs, first) == [[1.0]];
    assert ReembedFilter([a], second) == [];
    assert ReembedFilter(docs, second) == [b];
  }

  /**
   * A truthy reply that generate_embeddings_batch rejects (not a list, or an
   * element float() refuses) still passes the second round's truthiness test,
   * so with a stable service the counts differ and the whole document fails.
   */
  lemma {:induction false} RejectedTruthyReplyFailsDocument(docs: seq<Document>, embed: string -> RawEmbedding, j: nat)
    requires j < |docs| && embed(docs[j].pageContent).Truthy() && !Embeds(docs[j], embed)
    ensures !PdfSucceeds(docs, embed, embed)
  {
    EmbeddedPairing(docs, embed);
    assert |EmbeddedVectors(docs, embed)| < |docs|;
    FilterCounts(docs, embed, j);
  }

  /** The truthiness filter keeps every chunk that embedded, and strictly more if one truthy reply was rejected. */
  lemma {:induction false} FilterCounts(docs: seq<Document>, embed: string -> RawEmbedding, j: nat)
    requires j < |docs| && embed(docs[j].pageContent).Truthy() && !Embeds(docs[j], embed)
    ensures |ReembedFilter(docs, embed)| > |Succeeded(docs, embed)|
  {
    var init := docs[..|docs| - 1];
    if j == |docs| - 1 {
      FilterAtLeast(init, embed);
    } else {
      assert init[j] == docs[j];
      FilterCounts(init, embed, j);
    }
  }

  lemma {:induction false} FilterAtLeast(docs: seq<Document>, embed: string -> RawEmbedding)
    ensures |ReembedFilter(docs, embed)| >= |Succeeded(docs, embed)|
  {
    if docs != [] {
      FilterAtLeast(docs[..|docs| - 1], embed);
    }
  }

  // ---------------------------------------------------------------- the whole run

  /** One PDF: its path and stem, the splitter's chunks, and the second-round embedding answers. */
  datatype PdfInput = PdfInput(filePath: string, stem: string, splits: seq<Document>, reembed: string -> RawEmbedding)

  /** `get_embedding` under a configuration and services, as the first-round oracle. */
  function Embedder(cfg: Config, svc: Services): string -> RawEmbedding {
    t => GetEmbedding(cfg, t, svc)
  }

  predicate FileSucceeds(cfg: Config, svc: Services, f: PdfInput) {
    PdfSucceeds(AnnotatedChunks(f.splits, f.filePath, f.stem), Embedder(cfg, svc), f.reembed)
  }

  /** One call of process_single_pdf from main's loop, with `get_embedding` as the first-round oracle. */
  method ProcessFile(cfg: Config, svc: Services, f: PdfInput, batchSize: int) returns (ok: bool)
    requires batchSize > 0
    ensures ok == FileSucceeds(cfg, svc, f)
  {
    var sent;
    ok, sent := ProcessSinglePdf(f.filePath, f.stem, f.splits, Embedder(cfg, svc), f.reembed, batchSize);
  }

  /** main's loop over the PDFs: every outcome in order, and how many succeeded. */
  method ProcessAll(cfg: Config, svc: Services, files: seq<PdfInput>, batchSize: int)
    returns (successes: seq<bool>, successCount: nat)
    requires batchSize > 0
    ensures successes == Outcomes(cfg, svc, files)
    ensures successCount == CountTrue(successes)
  {
    successes := [];
    successCount := 0;
    for i := 0 to |files|
      invariant successes == Outcomes(cfg, svc, files[..i])
      invariant successCount == CountTrue(successes)
    {
      var ok := ProcessFile(cfg, svc, files[i], batchSize);
      if ok {
        successCount := successCount + 1;
      }
      OutcomesSnoc(cfg, svc, files, i);
      successes := successes + [ok];
    }
    assert files[..|files|] == files;
  }

  /**
   * main (pdf_to_milvus.py:384-439) from the service checks on: 0 exactly when
   * both checks pass, some PDF was found, and every PDF was processed
   * successfully; 1 otherwise.
   */
  method RunIngestion(cfg: Config, svc: Services, collection: CollectionState, forceRecreate: bool,
                      describeFails: bool, files: seq<PdfInput>, batchSize: int)
    returns (exitCode: int, successes: seq<bool>)
    requires batchSize > 0
    ensures exitCode == 0 || exitCode == 1
    ensures exitCode == 0 <==>
      CheckEmbeddingService(cfg, svc) && CheckMilvusConnection(cfg, svc) && |files| > 0
      && AllFilesSucceed(cfg, svc, files)
    ensures CheckEmbeddingService(cfg, svc) && CheckMilvusConnection(cfg, svc) ==>
      successes == Outcomes(cfg, svc, files)
  {
    successes := [];
    if !CheckEmbeddingService(cfg, svc) {
      return 1, successes;
    }
    if !CheckMilvusConnection(cfg, svc) {
      return 1, successes;
    }
    // `collection` is what setup's own `has_collection`/`describe_collection` calls see
    // (pdf_to_milvus.py:71-77), a separate round trip from the connection check above.
    // Setup always returns True (SetupMilvusCollection's ensures), so main's failure
    // branch after it (pdf_to_milvus.py:398-400) never runs, and the collection it leaves
    // behind does not influence the exit code: the per-PDF outcomes depend only on `svc`.
    var setupOk, actions, after := SetupMilvusCollection(collection, forceRecreate, describeFails, cfg);
    if |files| == 0 {
      return 1, successes;
    }
    var successCount;
    successes, successCount := ProcessAll(cfg, svc, files, batchSize);
    OutcomesVerdict(cfg, svc, files);
    exitCode := if successCount == |files| then 0 else 1;
  }

  /** What main's loop records for each PDF, in order. */
  function Outcomes(cfg: Config, svc: Services, files: seq<PdfInput>): (r: seq<bool>)
    ensures |r| == |files|
  {
    if files == [] then []
    else Outcomes(cfg, svc, files[..|files| - 1]) + [FileSucceeds(cfg, svc, files[|files| - 1])]
  }

  lemma OutcomesSnoc(cfg: Config, svc: Services, files: seq<PdfInput>, i: nat)
    requires i < |files|
    ensures Outcomes(cfg, svc, files[..i + 1]) == Outcomes(cfg, svc, files[..i]) + [FileSucceeds(cfg, svc, files[i])]
  {
    assert files[..i + 1][..i] == files[..i];
  }

  /** Entry `i` of the record is the outcome of PDF `i`. */
  lemma {:induction false} OutcomesAt(cfg: Config, svc: Services, files: seq<PdfInput>)
    ensures forall i :: 0 <= i < |files| ==> Outcomes(cfg, svc, files)[i] == FileSucceeds(cfg, svc, files[i])
  {
    if files != [] {
      var init := files[..|files| - 1];
      OutcomesAt(cfg, svc, init);
      forall i | 0 <= i < |files| ensures Outcomes(cfg, svc, files)[i] == FileSucceeds(cfg, svc, files[i]) {
        if i < |init| {
          assert files[i] == init[i];
        }
      }
    }
  }

  predicate AllFilesSucceed(cfg: Config, svc: Services, files: seq<PdfInput>) {
    forall i :: 0 <= i < |files| ==> FileSucceeds(cfg, svc, files[i])
  }

  /** Every outcome is counted exactly when every PDF succeeds. */
  lemma OutcomesVerdict(cfg: Config, svc: Services, files: seq<PdfInput>)
    ensures CountTrue(Outcomes(cfg, svc, files)) == |files| <==> AllFilesSucceed(cfg, svc, files)
  {
    OutcomesAt(cfg, svc, files);
    CountTrueAll(Outcomes(cfg, svc, files));
  }

  /** The number of `true` entries. */
  function CountTrue(bs: seq<bool>): nat {
    if bs == [] then 0 else CountTrue(bs[..|bs| - 1]) + (if bs[|bs| - 1] then 1 else 0)
  }

  /** Every entry is `true` exactly when all of them are counted. */
  lemma {:induction false} CountTrueAll(bs: seq<bool>)
    ensures CountTrue(bs) <= |bs|
    ensures CountTrue(bs) == |bs| <==> forall k :: 0 <= k < |bs| ==> bs[k]
  {
    if bs != [] {
      var init := bs[..|bs| - 1];
      CountTrueAll(init);
      if forall k :: 0 <= k < |bs| ==> bs[k] {
        assert forall k :: 0 <= k < |init| ==> init[k] by {
          forall k | 0 <= k < |init| ensures init[k] { assert init[k] == bs[k]; }
        }
      }
      if CountTrue(bs) == |bs| {
        assert bs[|bs| - 1];
        forall k | 0 <= k < |bs| ensures bs[k] {
          if k < |init| { assert init[k] == bs[k]; }
        }
      }
    }
  }

  /**
   * The connection check main runs first demands an existing collection, so
   * against a store without one the run ends with exit code 1 before setup
   * could create it: setup's create-when-absent branch is unreachable from main.
   */
  lemma MissingCollectionStopsRun(cfg: Config, svc: Services, collection: CollectionState)
    requires svc.hasCollection(cfg.milvusCollection).Some? ==>
               (svc.hasCollection(cfg.milvusCollection).value <==> collection.Present?)
    requires collection.Absent?
    ensures !CheckMilvusConnection(cfg, svc)
  {
  }
}
