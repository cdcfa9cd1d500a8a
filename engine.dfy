/**
 * The knowledge-base engine (`src/kb/engine.js`): the threshold filter of
 * `query`, the indexing loop of `indexDocuments`, and `init`'s choice to
 * rebuild the vector collection.
 *
 * The embedding model, the Qdrant client and the AFFiNE client are outside
 * the model: search results, document fetches, per-document properties and
 * the parse of their `keys` arrive as inputs, and the collection is a map
 * from point name to point. A point's name is `docId:key`, the string the
 * source hashes with UUID v5 (section 4.3 of RFC 4122); name-based UUIDs are
 * a function of the name, so the name stands for the id.
 */
module Engine {
  import opened Js
  import opened Affine

  const DefaultCollection := "knowledge_base"
  const DefaultLimit: nat := 3
  const DefaultThreshold: real := 0.5

  // ---------------------------------------------------------------------------
  // `query`

  /** One search result: its score and `payload.doc_id`. */
  datatype SearchHit = SearchHit(score: real, docId: string)

  /** A fetched document with `doc.score` set. */
  datatype ScoredDoc = ScoredDoc(doc: ParsedDoc, score: real)

  /** The results that pass `hit.score > scoreThreshold`, in search order. */
  function Kept(results: seq<SearchHit>, threshold: real): seq<SearchHit>
  {
    if results == [] then []
    else
      var last := results[|results| - 1];
      Kept(results[..|results| - 1], threshold) + (if last.score > threshold then [last] else [])
  }

  /** What the loop of `query` returns: the kept hits' documents in order, or the first fetch failure. */
  function QueryHits(results: seq<SearchHit>, fetch: string -> Result<ParsedDoc>, threshold: real): Result<seq<ScoredDoc>>
  {
    if results == [] then Ok([])
    else
      var last := results[|results| - 1];
      match QueryHits(results[..|results| - 1], fetch, threshold)
      case Err(e) => Err(e)
      case Ok(hits) =>
        if last.score > threshold then
          match fetch(last.docId)
          case Err(e) => Err(e)
          case Ok(d) => Ok(hits + [ScoredDoc(d, last.score)])
        else Ok(hits)
  }

  /** The filter distributes over concatenation: it keeps each result on its own merits, in order. */
  lemma {:induction false} KeptAppend(a: seq<SearchHit>, b: seq<SearchHit>, threshold: real)
    ensures Kept(a + b, threshold) == Kept(a, threshold) + Kept(b, threshold)
    decreases |b|
  {
    if b != [] {
      var b' := b[..|b| - 1];
      KeptAppend(a, b', threshold);
      assert (a + b)[..|a + b| - 1] == a + b';
      var last := b[|b| - 1];
      assert (a + b)[|a + b| - 1] == last;
      var x := if last.score > threshold then [last] else [];
      assert Kept(a + b, threshold) == Kept(a + b', threshold) + x;
      assert Kept(b, threshold) == Kept(b', threshold) + x;
      assert (Kept(a, threshold) + Kept(b', threshold)) + x == Kept(a, threshold) + (Kept(b', threshold) + x);
    } else {
      assert a + b == a;
    }
  }

  /** Exactly the results scoring strictly above the threshold are kept. */
  lemma {:induction false} KeptExactly(results: seq<SearchHit>, threshold: real)
    ensures |Kept(results, threshold)| <= |results|
    ensures forall h :: h in Kept(results, threshold) <==> h in results && h.score > threshold
    decreases |results|
  {
    if results != [] {
      var init := results[..|results| - 1];
      KeptExactly(init, threshold);
      assert results == init + [results[|results| - 1]];
    }
  }

  /** A result scoring exactly the threshold is dropped. */
  lemma ThresholdIsStrict(h: SearchHit, threshold: real)
    requires h.score == threshold
    ensures Kept([h], threshold) == []
  {
    assert [h][..0] == [];
  }

  /**
   * A successful query returns one hit per kept result, in search order,
   * each the document fetched by that result's id with that result's score.
   */
  lemma {:induction false} QueryHitsSpec(results: seq<SearchHit>, fetch: string -> Result<ParsedDoc>, threshold: real)
    ensures QueryHits(results, fetch, threshold).Ok? ==>
      var hits := QueryHits(results, fetch, threshold).value;
      var kept := Kept(results, threshold);
      |hits| == |kept| && forall i :: 0 <= i < |hits| ==>
        hits[i].score == kept[i].score && fetch(kept[i].docId) == Ok(hits[i].doc)
    decreases |results|
  {
    if results != [] {
      QueryHitsSpec(results[..|results| - 1], fetch, threshold);
    }
  }

  /** A failure in a prefix of the results is the failure of the whole query. */
  lemma {:induction false} QueryFailureSticks(results: seq<SearchHit>, n: nat, fetch: string -> Result<ParsedDoc>, threshold: real)
    requires n <= |results| && QueryHits(results[..n], fetch, threshold).Err?
    ensures QueryHits(results, fetch, threshold) == QueryHits(results[..n], fetch, threshold)
    decreases |results|
  {
    if n < |results| {
      var init := results[..|results| - 1];
      assert init[..n] == results[..n];
      QueryFailureSticks(init, n, fetch, threshold);
    } else {
      assert results[..n] == results;
    }
  }

  /** A query fails exactly when fetching one of the kept documents fails. */
  lemma {:induction false} QueryHitsFails(results: seq<SearchHit>, fetch: string -> Result<ParsedDoc>, threshold: real)
    ensures QueryHits(results, fetch, threshold).Err? <==>
      exists i :: 0 <= i < |Kept(results, threshold)| && fetch(Kept(results, threshold)[i].docId).Err?
    decreases |results|
  {
    if results != [] {
      var init := results[..|results| - 1];
      var last := results[|results| - 1];
      QueryHitsFails(init, fetch, threshold);
      var k0 := Kept(init, threshold);
      var k := Kept(results, threshold);
      assert forall i :: 0 <= i < |k0| ==> k[i] == k0[i];
      if last.score > threshold {
        assert k[|k0|] == last;
      }
    }
  }

  // ---------------------------------------------------------------------------
  // `indexDocuments`

  /** A Qdrant point's payload `{key, doc_id}`. */
  datatype Point = Point(key: string, docId: string)

  /** The name hashed into the point id. */
  function PointName(docId: string, key: string): string
  {
    docId + ":" + key
  }

  /** The points one document's keys produce, keyed by point name. */
  function KeyPoints(docId: string, keys: seq<string>): map<string, Point>
  {
    if keys == [] then map[]
    else
      var key := keys[|keys| - 1];
      KeyPoints(docId, keys[..|keys| - 1])[PointName(docId, key) := Point(key, docId)]
  }

  /** One upsert per key, in key order. */
  function Upserts(docId: string, keys: seq<string>): (r: seq<Point>)
    ensures |r| == |keys| && forall i :: 0 <= i < |keys| ==> r[i] == Point(keys[i], docId)
  {
    seq(|keys|, i requires 0 <= i < |keys| => Point(keys[i], docId))
  }

  /** The collection, the upserts sent so far, the count, and the error that stopped the loop. */
  datatype IndexState = IndexState(points: map<string, Point>, upserts: seq<Point>, count: nat, error: Option<string>)

  const NoProps := "Cannot read properties of undefined (reading 'keys')"

  /** `doc` has properties whose `keys` is truthy. */
  predicate HasKeys(docId: string, propsOf: string -> Result<Option<map<string, JsValue>>>)
  {
    propsOf(docId).Ok? && propsOf(docId).value.Some? && Get(propsOf(docId).value.value, "keys").Truthy()
  }

  function KeysOf(docId: string, propsOf: string -> Result<Option<map<string, JsValue>>>): JsValue
    requires HasKeys(docId, propsOf)
  {
    Get(propsOf(docId).value.value, "keys")
  }

  /** One turn of the outer loop. */
  function IndexDoc(st: IndexState, docId: string,
                    propsOf: string -> Result<Option<map<string, JsValue>>>,
                    parseKeys: JsValue -> Result<seq<string>>): IndexState
  {
    if st.error.Some? then st
    else if propsOf(docId).Err? then st.(error := Some(propsOf(docId).message))
    else if propsOf(docId).value.None? then st.(error := Some(NoProps))
    else if !HasKeys(docId, propsOf) then st
    else
      match parseKeys(KeysOf(docId, propsOf))
      case Err(e) => st.(error := Some(e))
      case Ok(keys) =>
        IndexState(st.points + KeyPoints(docId, keys), st.upserts + Upserts(docId, keys), st.count + 1, None)
  }

  /** The loop over `this.aclient.docs`, stopping at the first error. */
  function IndexAll(st: IndexState, docs: seq<string>,
                    propsOf: string -> Result<Option<map<string, JsValue>>>,
                    parseKeys: JsValue -> Result<seq<string>>): IndexState
  {
    if docs == [] then st
    else IndexDoc(IndexAll(st, docs[..|docs| - 1], propsOf, parseKeys), docs[|docs| - 1], propsOf, parseKeys)
  }

  /** How many of `docs` have truthy `keys`. */
  function CountWithKeys(docs: seq<string>, propsOf: string -> Result<Option<map<string, JsValue>>>): nat
  {
    if docs == [] then 0
    else CountWithKeys(docs[..|docs| - 1], propsOf) + (if HasKeys(docs[|docs| - 1], propsOf) then 1 else 0)
  }

  /** The points of all documents with keys, later documents overwriting earlier ones. */
  function AllKeyPoints(docs: seq<string>,
                        propsOf: string -> Result<Option<map<string, JsValue>>>,
                        parseKeys: JsValue -> Result<seq<string>>): map<string, Point>
  {
    if docs == [] then map[]
    else AllKeyPoints(docs[..|docs| - 1], propsOf, parseKeys) + DocPoints(docs[|docs| - 1], propsOf, parseKeys)
  }

  /** The points one document contributes: none unless it has keys that parse. */
  function DocPoints(docId: string,
                     propsOf: string -> Result<Option<map<string, JsValue>>>,
                     parseKeys: JsValue -> Result<seq<string>>): map<string, Point>
  {
    if HasKeys(docId, propsOf) && parseKeys(KeysOf(docId, propsOf)).Ok?
    then KeyPoints(docId, parseKeys(KeysOf(docId, propsOf)).value) else map[]
  }

  /** One turn of the loop that ends without error writes the document's points over the collection. */
  lemma IndexDocPoints(st: IndexState, docId: string,
                       propsOf: string -> Result<Option<map<string, JsValue>>>,
                       parseKeys: JsValue -> Result<seq<string>>)
    requires st.error.None? && IndexDoc(st, docId, propsOf, parseKeys).error.None?
    ensures IndexDoc(st, docId, propsOf, parseKeys).points == st.points + DocPoints(docId, propsOf, parseKeys)
  {
    if !HasKeys(docId, propsOf) {
      assert st.points + map[] == st.points;
    }
  }

  /** A document's points are named by its id and each key, and carry both. */
  lemma {:induction false} KeyPointsSpec(docId: string, keys: seq<string>)
    ensures forall name :: name in KeyPoints(docId, keys) <==> exists k :: k in keys && name == PointName(docId, k)
    ensures forall k :: k in keys ==> KeyPoints(docId, keys)[PointName(docId, k)] == Point(k, docId)
    decreases |keys|
  {
    if keys != [] {
      var init := keys[..|keys| - 1];
      KeyPointsSpec(docId, init);
      assert forall k :: k in keys <==> k in init || k == keys[|keys| - 1];
      forall k | k in init && PointName(docId, k) == PointName(docId, keys[|keys| - 1])
        ensures k == keys[|keys| - 1]
      {
        assert PointName(docId, k)[|docId| + 1..] == k;
        assert PointName(docId, keys[|keys| - 1])[|docId| + 1..] == keys[|keys| - 1];
      }
    }
  }

  /** When the loop runs to the end, the count is the number of documents with keys. */
  lemma {:induction false} IndexAllCount(st: IndexState, docs: seq<string>,
                                         propsOf: string -> Result<Option<map<string, JsValue>>>,
                                         parseKeys: JsValue -> Result<seq<string>>)
    requires st.error.None?
    ensures IndexAll(st, docs, propsOf, parseKeys).error.None? ==>
      IndexAll(st, docs, propsOf, parseKeys).count == st.count + CountWithKeys(docs, propsOf)
    decreases |docs|
  {
    if docs != [] {
      var init := docs[..|docs| - 1];
      IndexAllCount(st, init, propsOf, parseKeys);
      var mid := IndexAll(st, init, propsOf, parseKeys);
      if mid.error.Some? {
        assert IndexAll(st, docs, propsOf, parseKeys) == mid;
      }
    }
  }

  /** When the loop runs to the end, the collection is the old one with every document's points written over it. */
  lemma {:induction false} IndexAllPoints(st: IndexState, docs: seq<string>,
                                          propsOf: string -> Result<Option<map<string, JsValue>>>,
                                          parseKeys: JsValue -> Result<seq<string>>)
    requires st.error.None?
    ensures IndexAll(st, docs, propsOf, parseKeys).error.None? ==>
      IndexAll(st, docs, propsOf, parseKeys).points == st.points + AllKeyPoints(docs, propsOf, parseKeys)
    decreases |docs|
  {
    if docs != [] {
      var init := docs[..|docs| - 1];
      IndexAllPoints(st, init, propsOf, parseKeys);
      var mid := IndexAll(st, init, propsOf, parseKeys);
      var d := docs[|docs| - 1];
      assert IndexAll(st, docs, propsOf, parseKeys) == IndexDoc(mid, d, propsOf, parseKeys);
      if mid.error.None? && IndexDoc(mid, d, propsOf, parseKeys).error.None? {
        IndexDocPoints(mid, d, propsOf, parseKeys);
        var a, b, c := st.points, AllKeyPoints(init, propsOf, parseKeys), DocPoints(d, propsOf, parseKeys);
        assert (a + b) + c == a + (b + c);
      }
    }
  }

  /** Once an error stops the loop, later documents change nothing. */
  lemma {:induction false} ErrorStopsIndexing(st: IndexState, docs: seq<string>,
                                              propsOf: string -> Result<Option<map<string, JsValue>>>,
                                              parseKeys: JsValue -> Result<seq<string>>)
    requires st.error.Some?
    ensures IndexAll(st, docs, propsOf, parseKeys) == st
    decreases |docs|
  {
    if docs != [] {
      ErrorStopsIndexing(st, docs[..|docs| - 1], propsOf, parseKeys);
    }
  }

  /** A document without truthy `keys` is skipped: no upsert and no count. */
  lemma SkipsDocsWithoutKeys(st: IndexState, docId: string,
                             propsOf: string -> Result<Option<map<string, JsValue>>>,
                             parseKeys: JsValue -> Result<seq<string>>)
    requires st.error.None? && propsOf(docId).Ok? && propsOf(docId).value.Some? && !HasKeys(docId, propsOf)
    ensures IndexDoc(st, docId, propsOf, parseKeys) == st
  {
  }

  /** A document with keys sends exactly one upsert per key, in key order, and counts once. */
  lemma OneUpsertPerKey(st: IndexState, docId: string,
                        propsOf: string -> Result<Option<map<string, JsValue>>>,
                        parseKeys: JsValue -> Result<seq<string>>)
    requires st.error.None? && HasKeys(docId, propsOf) && parseKeys(KeysOf(docId, propsOf)).Ok?
    ensures var keys := parseKeys(KeysOf(docId, propsOf)).value;
      var next := IndexDoc(st, docId, propsOf, parseKeys);
      next.upserts[..|st.upserts|] == st.upserts
      && |next.upserts| == |st.upserts| + |keys|
      && (forall i :: 0 <= i < |keys| ==> next.upserts[|st.upserts| + i] == Point(keys[i], docId))
      && next.count == st.count + 1
  {
  }

  /** Indexing the same documents again leaves the collection as it was: points are overwritten, not duplicated. */
  lemma ReindexOverwrites(st: IndexState, docs: seq<string>,
                          propsOf: string -> Result<Option<map<string, JsValue>>>,
                          parseKeys: JsValue -> Result<seq<string>>)
    requires st.error.None? && IndexAll(st, docs, propsOf, parseKeys).error.None?
    ensures var once := IndexAll(st, docs, propsOf, parseKeys);
      IndexAll(once, docs, propsOf, parseKeys).points == once.points
  {
    var once := IndexAll(st, docs, propsOf, parseKeys);
    IndexAllPoints(st, docs, propsOf, parseKeys);
    IndexAllPoints(once, docs, propsOf, parseKeys);
    assert IndexAll(once, docs, propsOf, parseKeys).error.None? by {
      IndexAgain(st, once, docs, propsOf, parseKeys);
    }
    var all := AllKeyPoints(docs, propsOf, parseKeys);
    assert (st.points + all) + all == st.points + all;
  }

  /** Whether the loop stops with an error depends only on the documents and what the collaborators return. */
  lemma {:induction false} IndexAgain(st: IndexState, other: IndexState, docs: seq<string>,
                                      propsOf: string -> Result<Option<map<string, JsValue>>>,
                                      parseKeys: JsValue -> Result<seq<string>>)
    requires st.error.None? && other.error.None?
    ensures IndexAll(st, docs, propsOf, parseKeys).error == IndexAll(other, docs, propsOf, parseKeys).error
    decreases |docs|
  {
    if docs != [] {
      IndexAgain(st, other, docs[..|docs| - 1], propsOf, parseKeys);
    }
  }

  // ---------------------------------------------------------------------------
  // The engine

  class KnowledgeBaseEngine {
    const collectionName: string
    /** Whether `init` has loaded the embedding pipeline (`this.model`). */
    var modelLoaded: bool
    /** The Qdrant collection, by point name. */
    var points: map<string, Point>
    /** Every upsert sent to Qdrant, in order. */
    var upserts: seq<Point>

    /** The constructor: `qdrantConfig.collectionName || 'knowledge_base'`; no model yet. */
    constructor (configuredName: JsValue)
      ensures configuredName.Truthy() ==> collectionName == ToStr(configuredName)
      ensures !configuredName.Truthy() ==> collectionName == DefaultCollection
      ensures !modelLoaded && points == map[] && upserts == []
    {
      collectionName := if configuredName.Truthy() then ToStr(configuredName) else DefaultCollection;
      new;
      modelLoaded := false;
      points := map[];
      upserts := [];
    }

    /**
     * `query(text, limit, scoreThreshold)`, given what the search returned
     * and how each document fetch ends.
     */
    method Query(results: seq<SearchHit>, fetch: string -> Result<ParsedDoc>, threshold: real) returns (r: Result<seq<ScoredDoc>>)
      ensures !modelLoaded ==> r.Err?
      ensures modelLoaded ==> r == QueryHits(results, fetch, threshold)
    {
      if !modelLoaded {
        return Err("this.model is not a function");
      }
      var hits: seq<ScoredDoc> := [];
      var i := 0;
      while i < |results|
        invariant 0 <= i <= |results|
        invariant QueryHits(results[..i], fetch, threshold) == Ok(hits)
      {
        var hit := results[i];
        assert results[..i + 1][..i] == results[..i];
        if hit.score > threshold {
          var doc := fetch(hit.docId);
          if doc.Err? {
            QueryFailureSticks(results, i + 1, fetch, threshold);
            return Err(doc.message);
          }
          hits := hits + [ScoredDoc(doc.value, hit.score)];
        }
        i := i + 1;
      }
      assert results[..i] == results;
      r := Ok(hits);
    }

    /** `indexDocuments()` over the client's document list. */
    method IndexDocuments(docs: seq<string>,
                          propsOf: string -> Result<Option<map<string, JsValue>>>,
                          parseKeys: JsValue -> Result<seq<string>>)
      returns (count: nat, error: Option<string>)
      modifies this
      ensures var out := IndexAll(IndexState(old(points), old(upserts), 0, None), docs, propsOf, parseKeys);
        points == out.points && upserts == out.upserts && count == out.count && error == out.error
      ensures modelLoaded == old(modelLoaded)
    {
      ghost var start := IndexState(points, upserts, 0, None);
      count := 0;
      error := None;
      var i := 0;
      while i < |docs|
        invariant 0 <= i <= |docs|
        invariant IndexAll(start, docs[..i], propsOf, parseKeys) == IndexState(points, upserts, count, None)
        invariant modelLoaded == old(modelLoaded)
      {
        assert docs[..i + 1][..i] == docs[..i];
        var failed := IndexOne(docs[i], propsOf, parseKeys, count);
        if failed.Some? {
          error := failed;
          ErrorStopsIndexing(IndexAll(start, docs[..i + 1], propsOf, parseKeys), docs[i + 1..], propsOf, parseKeys);
          IndexAllSplit(start, docs, i + 1, propsOf, parseKeys);
          return;
        }
        count := count + if HasKeys(docs[i], propsOf) then 1 else 0;
        i := i + 1;
      }
      assert docs[..i] == docs;
    }

    /** The body of the outer loop for one document; the count is the caller's. */
    method IndexOne(docId: string,
                    propsOf: string -> Result<Option<map<string, JsValue>>>,
                    parseKeys: JsValue -> Result<seq<string>>,
                    count: nat)
      returns (error: Option<string>)
      modifies this
      ensures var next := IndexDoc(IndexState(old(points), old(upserts), count, None), docId, propsOf, parseKeys);
        points == next.points && upserts == next.upserts && error == next.error
        && next.count == count + (if error.None? && HasKeys(docId, propsOf) then 1 else 0)
      ensures modelLoaded == old(modelLoaded)
    {
      var props := propsOf(docId);
      if props.Err? {
        return Some(props.message);
      }
      if props.value.None? {
        return Some(NoProps);
      }
      if !Get(props.value.value, "keys").Truthy() {
        return None;
      }
      var keys := parseKeys(Get(props.value.value, "keys"));
      if keys.Err? {
        return Some(keys.message);
      }
      UpsertKeys(docId, keys.value);
      error := None;
    }

    /** The inner loop: one upsert per key. */
    method UpsertKeys(docId: string, keys: seq<string>)
      modifies this
      ensures points == old(points) + KeyPoints(docId, keys)
      ensures upserts == old(upserts) + Upserts(docId, keys)
      ensures modelLoaded == old(modelLoaded)
    {
      var j := 0;
      while j < |keys|
        invariant 0 <= j <= |keys|
        invariant points == old(points) + KeyPoints(docId, keys[..j])
        invariant upserts == old(upserts) + Upserts(docId, keys[..j])
        invariant modelLoaded == old(modelLoaded)
      {
        var key := keys[j];
        assert keys[..j + 1][..j] == keys[..j];
        points := points[PointName(docId, key) := Point(key, docId)];
        upserts := upserts + [Point(key, docId)];
        j := j + 1;
      }
      assert keys[..j] == keys;
    }

    /** `setupQdrant()`: recreate the collection empty, then index. */
    method SetupQdrant(docs: seq<string>,
                       propsOf: string -> Result<Option<map<string, JsValue>>>,
                       parseKeys: JsValue -> Result<seq<string>>)
      returns (count: nat, error: Option<string>)
      modifies this
      ensures var out := IndexAll(IndexState(map[], old(upserts), 0, None), docs, propsOf, parseKeys);
        points == out.points && upserts == out.upserts && count == out.count && error == out.error
      ensures modelLoaded == old(modelLoaded)
    {
      points := map[];
      count, error := IndexDocuments(docs, propsOf, parseKeys);
    }

    /**
     * `init(recreate)`: load the model, fetch the property definitions and the
     * document list (given as their outcome), and rebuild the collection only
     * when `recreate` is set.
     */
    method Init(recreate: bool, docs: Result<seq<string>>,
                propsOf: string -> Result<Option<map<string, JsValue>>>,
                parseKeys: JsValue -> Result<seq<string>>)
      returns (error: Option<string>)
      modifies this
      ensures modelLoaded
      ensures docs.Err? ==> error == Some(docs.message) && points == old(points) && upserts == old(upserts)
      ensures !recreate ==> points == old(points) && upserts == old(upserts)
      ensures !recreate && docs.Ok? ==> error.None?
      ensures recreate && docs.Ok? ==>
        var out := IndexAll(IndexState(map[], old(upserts), 0, None), docs.value, propsOf, parseKeys);
        points == out.points && upserts == out.upserts && error == out.error
    {
      modelLoaded := true;
      if docs.Err? {
        return Some(docs.message);
      }
      error := None;
      if recreate {
        var indexed, e := SetupQdrant(docs.value, propsOf, parseKeys);
        error := e;
      }
    }
  }

  /** Indexing a prefix and then the rest is indexing the whole list. */
  lemma {:induction false} IndexAllSplit(st: IndexState, docs: seq<string>, n: nat,
                                         propsOf: string -> Result<Option<map<string, JsValue>>>,
                                         parseKeys: JsValue -> Result<seq<string>>)
    requires n <= |docs|
    ensures IndexAll(st, docs, propsOf, parseKeys) == IndexAll(IndexAll(st, docs[..n], propsOf, parseKeys), docs[n..], propsOf, parseKeys)
    decreases |docs|
  {
    if |docs| > n {
      var init := docs[..|docs| - 1];
      IndexAllSplit(st, init, n, propsOf, parseKeys);
      assert init[..n] == docs[..n];
      assert docs[n..][..|docs[n..]| - 1] == init[n..];
    } else {
      assert docs[..n] == docs;
      assert docs[n..] == [];
    }
  }
}
