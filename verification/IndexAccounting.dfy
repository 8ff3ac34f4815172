/** Which documents are fully indexed: upsert and delete of both vector stores,
    their chunk counts (backend/vector_store.py), and the decision taken from
    the counts when indexing restarts (backend/main.py). */
module IndexAccounting {
  import opened Collections

  /** Chunk `index` of a document; its id in the store is "doc_index". */
  datatype Key = Key(doc: int, index: nat)

  /** What is stored with a chunk. `version` numbers the upsert that wrote it;
      the store does not keep it. */
  datatype Chunk = Chunk(total: nat, version: nat)

  type Chunks = map<Key, Chunk>

  datatype Backend = Chroma | Qdrant

  // ---- Upsert and delete ----

  function Without(chunks: Chunks, doc: int): Chunks {
    map k | k in chunks && k.doc != doc :: chunks[k]
  }

  /** The chunks of `doc` whose embedding came back. */
  function Fresh(doc: int, embedded: seq<bool>): set<Key> {
    set i | 0 <= i < |embedded| && embedded[i] :: Key(doc, i)
  }

  function With(chunks: Chunks, doc: int, embedded: seq<bool>, version: nat): Chunks {
    map k | k in chunks.Keys + Fresh(doc, embedded) ::
      if k in Fresh(doc, embedded) then Chunk(|embedded|, version) else chunks[k]
  }

  /** A failing delete is swallowed and leaves everything in place. */
  function Cleared(chunks: Chunks, doc: int, deletes: bool): Chunks {
    if deletes then Without(chunks, doc) else chunks
  }

  predicate Writes(embedded: seq<bool>, stores: bool) {
    true in embedded && stores
  }

  /** The store after an upsert of `doc` split into `|embedded|` chunks. Chroma
      clears the document first; Qdrant only once a vector has come back. */
  function Upserted(backend: Backend, chunks: Chunks, doc: int, embedded: seq<bool>, version: nat,
                    deletes: bool, stores: bool): Chunks
  {
    if Writes(embedded, stores) then With(Cleared(chunks, doc, deletes), doc, embedded, version)
    else if backend == Qdrant && embedded != [] && true !in embedded then chunks
    else Cleared(chunks, doc, deletes)
  }

  /** What an upsert does at chunk `k`. The chunks just embedded are written, if
      the store accepts any; the others of the document go if its delete succeeds,
      which Qdrant only attempts with a vector at hand; no other document is
      touched. */
  ghost predicate UpsertedAt(backend: Backend, before: Chunks, after: Chunks, doc: int, embedded: seq<bool>,
                             version: nat, deletes: bool, stores: bool, k: Key)
  {
    var written := stores && k.doc == doc && k.index < |embedded| && embedded[k.index];
    var deleted := k.doc == doc && deletes && (backend == Chroma || embedded == [] || true in embedded);
    && (k in after <==> written || (k in before && !deleted))
    && (k in after ==> after[k] == if written then Chunk(|embedded|, version) else before[k])
  }

  lemma UpsertEffect(backend: Backend, chunks: Chunks, doc: int, embedded: seq<bool>, version: nat, deletes: bool,
                     stores: bool)
    ensures var after := Upserted(backend, chunks, doc, embedded, version, deletes, stores);
            forall k :: UpsertedAt(backend, chunks, after, doc, embedded, version, deletes, stores, k)
  {
    forall k ensures k in Fresh(doc, embedded) <==> k.doc == doc && k.index < |embedded| && embedded[k.index] {
      if k.doc == doc && k.index < |embedded| && embedded[k.index] {
        assert Key(doc, k.index) == k;
      }
    }
  }

  class Store {
    const backend: Backend
    var chunks: Chunks

    constructor (backend: Backend)
      ensures this.backend == backend && chunks == map[]
    {
      this.backend := backend;
      chunks := map[];
    }

    method Delete(doc: int, deletes: bool)
      modifies this
      ensures chunks == Cleared(old(chunks), doc, deletes)
      ensures forall k :: k in chunks <==> k in old(chunks) && (deletes ==> k.doc != doc)
      ensures forall k :: k in chunks ==> chunks[k] == old(chunks)[k]
    {
      if deletes {
        chunks := map k | k in chunks && k.doc != doc :: chunks[k];
      }
    }

    /** `raised` when every embedding failed or the store refused the write. */
    method Upsert(doc: int, embedded: seq<bool>, version: nat, deletes: bool, stores: bool) returns (raised: bool)
      modifies this
      ensures chunks == Upserted(backend, old(chunks), doc, embedded, version, deletes, stores)
      ensures forall k :: UpsertedAt(backend, old(chunks), chunks, doc, embedded, version, deletes, stores, k)
      ensures raised <==> embedded != [] && (true !in embedded || !stores)
    {
      UpsertEffect(backend, chunks, doc, embedded, version, deletes, stores);
      if backend == Chroma || embedded == [] {
        Delete(doc, deletes);
      }
      if embedded == [] {
        return false;
      }
      var points: Chunks := map[];
      for i := 0 to |embedded|
        invariant chunks == if backend == Chroma then Cleared(old(chunks), doc, deletes) else old(chunks)
        invariant points.Keys == Fresh(doc, embedded[..i])
        invariant forall k :: k in points ==> points[k] == Chunk(|embedded|, version)
      {
        FreshNext(doc, embedded, i);
        if embedded[i] {
          points := points[Key(doc, i) := Chunk(|embedded|, version)];
        }
      }
      PrefixEnds(embedded);
      FreshIsEmptyIff(doc, embedded);
      if points == map[] {
        assert Fresh(doc, embedded) == points.Keys == {};
        assert !Writes(embedded, stores);
        return true;
      }
      if backend == Qdrant {
        Delete(doc, deletes);
      }
      if !stores {
        return true;
      }
      chunks := map k | k in chunks.Keys + points.Keys :: if k in points then points[k] else chunks[k];
      return false;
    }
  }

  lemma FreshNext(doc: int, embedded: seq<bool>, i: nat)
    requires i < |embedded|
    ensures Fresh(doc, embedded[..i + 1]) == Fresh(doc, embedded[..i]) + (if embedded[i] then {Key(doc, i)} else {})
  {
  }

  lemma FreshIsEmptyIff(doc: int, embedded: seq<bool>)
    ensures Fresh(doc, embedded) == {} <==> true !in embedded
  {
    if true in embedded {
      var i :| 0 <= i < |embedded| && embedded[i];
      assert Key(doc, i) in Fresh(doc, embedded);
    }
  }

  // ---- Counting what is stored ----

  /** A stored chunk as the count sees it: document ids that cannot be read and
      chunks without a total are possible. */
  datatype Row = Row(doc: Option<int>, total: Option<nat>)

  function CountOf(rows: seq<Row>, doc: int): nat {
    if rows == [] then 0
    else CountOf(rows[..|rows| - 1], doc) + (if rows[|rows| - 1].doc == Some(doc) then 1 else 0)
  }

  /** The last total seen for a document. */
  function TotalOf(rows: seq<Row>, doc: int): Option<nat> {
    if rows == [] then None
    else
      var last := rows[|rows| - 1];
      if last.doc == Some(doc) && last.total.Some? then last.total else TotalOf(rows[..|rows| - 1], doc)
  }

  /** The rows of a document. */
  ghost function RowsOf(rows: seq<Row>, doc: int): set<int> {
    set p | 0 <= p < |rows| && rows[p].doc == Some(doc)
  }

  lemma {:induction false} CountIsRows(rows: seq<Row>, doc: int)
    ensures CountOf(rows, doc) == |RowsOf(rows, doc)|
  {
    if rows == [] {
      assert RowsOf(rows, doc) == {};
    } else {
      var n := |rows| - 1;
      CountIsRows(rows[..n], doc);
      assert RowsOf(rows, doc) == RowsOf(rows[..n], doc) + if rows[n].doc == Some(doc) then {n} else {};
    }
  }

  ghost predicate States(rows: seq<Row>, doc: int, p: int) {
    0 <= p < |rows| && rows[p].doc == Some(doc) && rows[p].total.Some?
  }

  /** Row `p` is the last to state a total for the document. */
  ghost predicate StatesLast(rows: seq<Row>, doc: int, p: int) {
    States(rows, doc, p) && forall q :: p < q < |rows| ==> !States(rows, doc, q)
  }

  lemma {:induction false} TotalIsLast(rows: seq<Row>, doc: int)
    ensures TotalOf(rows, doc) == None <==> forall p :: !States(rows, doc, p)
    ensures forall p :: StatesLast(rows, doc, p) ==> TotalOf(rows, doc) == rows[p].total
  {
    if rows != [] {
      var n := |rows| - 1;
      TotalIsLast(rows[..n], doc);
      assert forall p :: p != n ==> (States(rows, doc, p) <==> States(rows[..n], doc, p));
      if !States(rows, doc, n) {
        assert forall p :: StatesLast(rows, doc, p) ==> StatesLast(rows[..n], doc, p);
      }
    }
  }

  method CountChunks(rows: seq<Row>) returns (counts: map<int, nat>, expected: map<int, nat>)
    ensures forall d :: d in counts <==> CountOf(rows, d) > 0
    ensures forall d :: d in counts ==> counts[d] == CountOf(rows, d) == |RowsOf(rows, d)|
    ensures forall d :: (if d in expected then Some(expected[d]) else None) == TotalOf(rows, d)
    ensures forall d, p :: StatesLast(rows, d, p) ==> d in expected && Some(expected[d]) == rows[p].total
  {
    counts, expected := map[], map[];
    for i := 0 to |rows|
      invariant forall d :: d in counts <==> CountOf(rows[..i], d) > 0
      invariant forall d :: d in counts ==> counts[d] == CountOf(rows[..i], d)
      invariant forall d :: (if d in expected then Some(expected[d]) else None) == TotalOf(rows[..i], d)
    {
      assert rows[..i + 1][..i] == rows[..i];
      var row := rows[i];
      if row.doc.None? {
        continue;
      }
      var d := row.doc.value;
      counts := counts[d := (if d in counts then counts[d] else 0) + 1];
      if row.total.Some? {
        expected := expected[d := row.total.value];
      }
    }
    PrefixEnds(rows);
    forall d ensures CountOf(rows, d) == |RowsOf(rows, d)| {
      CountIsRows(rows, d);
    }
    forall d, p | StatesLast(rows, d, p) ensures TotalOf(rows, d) == rows[p].total {
      TotalIsLast(rows, d);
    }
  }

  /** `count >= expected`, where a document without a total expects its count. */
  predicate Counted(rows: seq<Row>, doc: int) {
    CountOf(rows, doc) > 0 && (TotalOf(rows, doc).Some? ==> CountOf(rows, doc) >= TotalOf(rows, doc).value)
  }

  /** The document has rows, and as many as the last total they state, if any. */
  ghost predicate ReachesTotal(rows: seq<Row>, doc: int) {
    RowsOf(rows, doc) != {} && forall p :: StatesLast(rows, doc, p) ==> |RowsOf(rows, doc)| >= rows[p].total.value
  }

  lemma {:induction false} SomeRowIsLast(rows: seq<Row>, doc: int) returns (p: int)
    requires TotalOf(rows, doc).Some?
    ensures StatesLast(rows, doc, p)
  {
    var n := |rows| - 1;
    if States(rows, doc, n) {
      p := n;
    } else {
      p := SomeRowIsLast(rows[..n], doc);
      assert forall q :: q != n ==> (States(rows, doc, q) <==> States(rows[..n], doc, q));
    }
  }

  lemma CountedReachesTotal(rows: seq<Row>, doc: int)
    ensures Counted(rows, doc) <==> ReachesTotal(rows, doc)
  {
    CountIsRows(rows, doc);
    TotalIsLast(rows, doc);
    if TotalOf(rows, doc).Some? {
      var p := SomeRowIsLast(rows, doc);
    }
  }

  method AlreadyIndexed(rows: seq<Row>) returns (indexed: set<int>)
    ensures forall d :: d in indexed <==> Counted(rows, d)
    ensures forall d :: d in indexed <==> ReachesTotal(rows, d)
  {
    var counts, expected := CountChunks(rows);
    indexed := {};
    var rest := counts.Keys;
    while rest != {}
      invariant rest <= counts.Keys
      invariant forall d :: d in indexed <==> d in counts && d !in rest && Counted(rows, d)
      decreases rest
    {
      ghost var w := AnyMember(rest);
      var d :| d in rest;
      rest := rest - {d};
      var total := if d in expected then expected[d] else counts[d];
      if counts[d] >= total {
        indexed := indexed + {d};
      }
    }
    forall d ensures Counted(rows, d) <==> ReachesTotal(rows, d) {
      CountedReachesTotal(rows, d);
    }
  }

  // ---- Counts are set sizes ----

  ghost predicate Lists(chunks: Chunks, keys: seq<Key>) {
    Distinct(keys) && forall k :: k in keys <==> k in chunks
  }

  /** The rows of a listing of the store, in whatever order it comes. */
  ghost function Rows(chunks: Chunks, keys: seq<Key>): (rows: seq<Row>)
    requires forall k :: k in keys ==> k in chunks
    ensures |rows| == |keys|
  {
    seq(|keys|, p requires 0 <= p < |keys| =>
      assert keys[p] in keys;
      Row(Some(keys[p].doc), Some(chunks[keys[p]].total)))
  }

  ghost function KeysOf(chunks: Chunks, doc: int): set<Key> {
    set k | k in chunks && k.doc == doc
  }

  lemma {:induction false} CountIsKeys(rows: seq<Row>, keys: seq<Key>, doc: int)
    requires |rows| == |keys| && forall p :: 0 <= p < |keys| ==> rows[p].doc == Some(keys[p].doc)
    ensures CountOf(rows, doc) == CountWhere(keys, (k: Key) => k.doc == doc)
  {
    if keys != [] {
      CountIsKeys(rows[..|rows| - 1], keys[..|keys| - 1], doc);
    }
  }

  lemma CountInListing(chunks: Chunks, keys: seq<Key>, doc: int)
    requires Lists(chunks, keys)
    ensures CountOf(Rows(chunks, keys), doc) == |KeysOf(chunks, doc)|
  {
    CountIsKeys(Rows(chunks, keys), keys, doc);
    CountIsSize(keys, (k: Key) => k.doc == doc);
    assert ElementsWhere(keys, (k: Key) => k.doc == doc) == KeysOf(chunks, doc);
  }

  lemma {:induction false} TotalComesFromAChunk(chunks: Chunks, keys: seq<Key>, doc: int) returns (k: Key)
    requires forall k :: k in keys ==> k in chunks
    requires exists k :: k in keys && k.doc == doc
    ensures k in keys && k.doc == doc && TotalOf(Rows(chunks, keys), doc) == Some(chunks[k].total)
  {
    var init, last := keys[..|keys| - 1], keys[|keys| - 1];
    assert keys == init + [last];
    if last.doc == doc {
      k := last;
    } else {
      assert Rows(chunks, keys)[..|keys| - 1] == Rows(chunks, init);
      k := TotalComesFromAChunk(chunks, init, doc);
    }
  }

  ghost function FirstKeys(doc: int, n: nat): set<Key> {
    set i | 0 <= i < n :: Key(doc, i)
  }

  lemma {:induction false} FirstKeysSize(doc: int, n: nat)
    ensures |FirstKeys(doc, n)| == n
  {
    if n > 0 {
      FirstKeysSize(doc, n - 1);
      assert FirstKeys(doc, n) == FirstKeys(doc, n - 1) + {Key(doc, n - 1)};
    } else {
      assert FirstKeys(doc, n) == {};
    }
  }

  lemma {:induction false} SubsetSize<T>(a: set<T>, b: set<T>)
    requires a <= b
    ensures |a| <= |b| && (|a| == |b| ==> a == b)
    decreases |b|
  {
    if a == {} {
      assert |b| == 0 ==> b == {};
    } else {
      var x := AnyMember(a);
      SubsetSize(a - {x}, b - {x});
      assert a == (a - {x}) + {x} && b == (b - {x}) + {x};
    }
  }

  // ---- The invariant of the index ----

  /** `latest` remembers what was last written for each document. */
  datatype State = State(chunks: Chunks, latest: map<int, Chunk>, clock: nat)

  ghost predicate Valid(s: State) {
    && (forall k :: k in s.chunks ==>
          k.doc in s.latest && s.chunks[k] == s.latest[k.doc] && k.index < s.latest[k.doc].total)
    && (forall d :: d in s.latest ==> s.latest[d].total > 0 && s.latest[d].version < s.clock)
  }

  /** Stored are exactly the chunks 0 .. total - 1 of the last written version. */
  ghost predicate Complete(s: State, doc: int) {
    && doc in s.latest
    && (forall k :: k in s.chunks && k.doc == doc ==> s.chunks[k] == s.latest[doc])
    && (forall i: nat :: Key(doc, i) in s.chunks <==> i < s.latest[doc].total)
  }

  datatype Event =
    | Upsert(doc: int, embedded: seq<bool>, deletes: bool, stores: bool)
    | Delete(doc: int, deletes: bool)

  function Step(backend: Backend, s: State, e: Event): State {
    match e
    case Upsert(doc, embedded, deletes, stores) =>
      State(Upserted(backend, s.chunks, doc, embedded, s.clock, deletes, stores),
            if Writes(embedded, stores) then s.latest[doc := Chunk(|embedded|, s.clock)] else s.latest, s.clock + 1)
    case Delete(doc, deletes) =>
      State(Cleared(s.chunks, doc, deletes), s.latest, s.clock + 1)
  }

  function After(backend: Backend, run: seq<Event>): State {
    if run == [] then State(map[], map[], 0)
    else Step(backend, After(backend, run[..|run| - 1]), run[|run| - 1])
  }

  /** An upsert replaces the document's chunks by those just embedded and leaves
      every other document alone. If every embedding failed, Chroma has already
      deleted the old version, while Qdrant still has it. */
  lemma UpsertReplaces(backend: Backend, chunks: Chunks, doc: int, embedded: seq<bool>, version: nat)
    ensures var after := Upserted(backend, chunks, doc, embedded, version, true, true);
            && (forall k: Key :: k.doc != doc ==>
                  (k in after <==> k in chunks) && (k in after ==> after[k] == chunks[k]))
            && (true in embedded ==> KeysOf(after, doc) == Fresh(doc, embedded))
            && (true !in embedded && backend == Qdrant && embedded != [] ==> after == chunks)
            && (true !in embedded && (backend == Chroma || embedded == []) ==> KeysOf(after, doc) == {})
  {
  }

  lemma StepKeepsValid(backend: Backend, s: State, e: Event)
    requires Valid(s) && e.deletes
    ensures Valid(Step(backend, s, e))
  {
    if e.Upsert? && Writes(e.embedded, e.stores) {
      var t := Step(backend, s, e);
      forall k | k in t.chunks
        ensures k.doc in t.latest && t.chunks[k] == t.latest[k.doc] && k.index < t.latest[k.doc].total
      {
        if k !in Fresh(e.doc, e.embedded) {
          assert k in s.chunks && k.doc != e.doc;
        }
      }
    }
  }

  lemma {:induction false} RunsAreValid(backend: Backend, run: seq<Event>)
    requires forall p :: 0 <= p < |run| ==> run[p].deletes
    ensures Valid(After(backend, run))
  {
    if run != [] {
      RunsAreValid(backend, run[..|run| - 1]);
      StepKeepsValid(backend, After(backend, run[..|run| - 1]), run[|run| - 1]);
    }
  }

  lemma CountedIffComplete(s: State, keys: seq<Key>, doc: int)
    requires Valid(s) && Lists(s.chunks, keys)
    ensures Counted(Rows(s.chunks, keys), doc) <==> Complete(s, doc)
  {
    var stored := KeysOf(s.chunks, doc);
    CountInListing(s.chunks, keys, doc);
    if stored == {} {
      assert Key(doc, 0) in stored <==> Key(doc, 0) in s.chunks;
    } else {
      var any := AnyMember(stored);
      var k := TotalComesFromAChunk(s.chunks, keys, doc);
      var total := s.latest[doc].total;
      assert s.chunks[k].total == total;
      FirstKeysSize(doc, total);
      assert stored <= FirstKeys(doc, total);
      SubsetSize(stored, FirstKeys(doc, total));
      if stored == FirstKeys(doc, total) {
        forall i: nat ensures Key(doc, i) in s.chunks <==> i < total {
          assert Key(doc, i) in s.chunks <==> Key(doc, i) in stored;
        }
      }
      if Complete(s, doc) {
        assert FirstKeys(doc, total) <= stored;
        SubsetSize(FirstKeys(doc, total), stored);
      }
    }
  }

  /** Whatever embeddings and writes failed along the way, and in whatever order
      the store lists its chunks: a document counts as indexed exactly when its
      last written version is stored in full. */
  lemma AccountingIsSound(backend: Backend, run: seq<Event>, keys: seq<Key>, doc: int)
    requires forall p :: 0 <= p < |run| ==> run[p].deletes
    requires Lists(After(backend, run).chunks, keys)
    ensures Counted(Rows(After(backend, run).chunks, keys), doc) <==> Complete(After(backend, run), doc)
  {
    RunsAreValid(backend, run);
    CountedIffComplete(After(backend, run), keys, doc);
  }

  // ---- A delete that fails silently ----

  /** Old chunks that an upsert after a failed delete does not overwrite. */
  ghost predicate LeavesOld(s: State, doc: int, embedded: seq<bool>) {
    exists k :: k in s.chunks && k.doc == doc && k !in Fresh(doc, embedded)
  }

  /** The count is right about `doc` in whatever order the chunks are listed. */
  ghost predicate Right(s: State, doc: int) {
    forall keys :: Lists(s.chunks, keys) ==> (Counted(Rows(s.chunks, keys), doc) <==> Complete(s, doc))
  }

  lemma Listing(keys: set<Key>) returns (s: seq<Key>)
    ensures Distinct(s) && forall k :: k in s <==> k in keys
  {
    s := [];
    var rest := keys;
    while rest != {}
      invariant Distinct(s) && rest <= keys
      invariant forall k :: k in s <==> k in keys && k !in rest
      decreases rest
    {
      var k := AnyMember(rest);
      rest := rest - {k};
      assert forall q :: q in s + [k] <==> q in s || q == k;
      s := s + [k];
    }
  }

  lemma ListingEndingIn(chunks: Chunks, last: Key) returns (keys: seq<Key>)
    requires last in chunks
    ensures Lists(chunks, keys) && TotalOf(Rows(chunks, keys), last.doc) == Some(chunks[last].total)
  {
    var init := Listing(chunks.Keys - {last});
    keys := init + [last];
    assert forall q :: q in keys <==> q in init || q == last;
    assert last !in init;
  }

  /** If the store refuses to delete the old chunks of a document and the upsert
      then goes through, the count is still right exactly when every old chunk
      is overwritten, or so few chunks are there that neither total is reached. */
  lemma FailedDeleteIsHarmlessIff(backend: Backend, s: State, doc: int, embedded: seq<bool>)
    requires Valid(s) && true in embedded
    ensures var t := Step(backend, s, Upsert(doc, embedded, false, true));
            Right(t, doc) <==>
              || !LeavesOld(s, doc, embedded)
              || (|KeysOf(t.chunks, doc)| < |embedded| && |KeysOf(t.chunks, doc)| < s.latest[doc].total)
  {
    var t := Step(backend, s, Upsert(doc, embedded, false, true));
    if !LeavesOld(s, doc, embedded) {
      assert Valid(t);
      forall keys | Lists(t.chunks, keys) ensures Counted(Rows(t.chunks, keys), doc) <==> Complete(t, doc) {
        CountedIffComplete(t, keys, doc);
      }
    } else {
      var stale :| stale in s.chunks && stale.doc == doc && stale !in Fresh(doc, embedded);
      var i :| 0 <= i < |embedded| && embedded[i];
      LeftoverDecides(s, t, doc, embedded, stale, Key(doc, i));
    }
  }

  lemma LeftoverDecides(s: State, t: State, doc: int, embedded: seq<bool>, stale: Key, written: Key)
    requires Valid(s)
    requires t == State(With(s.chunks, doc, embedded, s.clock), s.latest[doc := Chunk(|embedded|, s.clock)],
                        s.clock + 1)
    requires stale in s.chunks && stale.doc == doc && stale !in Fresh(doc, embedded)
    requires written in Fresh(doc, embedded)
    ensures Right(t, doc) <==> |KeysOf(t.chunks, doc)| < |embedded| && |KeysOf(t.chunks, doc)| < s.latest[doc].total
  {
    var size := |KeysOf(t.chunks, doc)|;
    assert t.chunks[stale] == s.latest[doc] && t.chunks[written] == t.latest[doc];
    assert !Complete(t, doc);
    assert stale in KeysOf(t.chunks, doc);
    var endsOld := ListingEndingIn(t.chunks, stale);
    var endsNew := ListingEndingIn(t.chunks, written);
    CountInListing(t.chunks, endsOld, doc);
    CountInListing(t.chunks, endsNew, doc);
    forall keys | Lists(t.chunks, keys)
      ensures CountOf(Rows(t.chunks, keys), doc) == size
      ensures TotalOf(Rows(t.chunks, keys), doc) in {Some(|embedded|), Some(s.latest[doc].total)}
    {
      CountInListing(t.chunks, keys, doc);
      assert stale in keys;
      var k := TotalComesFromAChunk(t.chunks, keys, doc);
    }
  }

  /** All totals are positive, whatever deletes failed. */
  ghost predicate Positive(s: State) {
    forall d :: d in s.latest ==> s.latest[d].total > 0
  }

  lemma {:induction false} RunsArePositive(backend: Backend, run: seq<Event>)
    ensures Positive(After(backend, run))
  {
    if run != [] {
      RunsArePositive(backend, run[..|run| - 1]);
    }
  }

  /** Every total stated by a stored chunk of `doc` is out of reach. */
  ghost predicate TotalsOutOfReach(s: State, doc: int) {
    forall k :: k in s.chunks && k.doc == doc ==> |KeysOf(s.chunks, doc)| < s.chunks[k].total
  }

  lemma CompleteIsCounted(s: State, doc: int, keys: seq<Key>)
    requires Positive(s) && Complete(s, doc) && Lists(s.chunks, keys)
    ensures Counted(Rows(s.chunks, keys), doc)
  {
    var total := s.latest[doc].total;
    CountInListing(s.chunks, keys, doc);
    FirstKeysSize(doc, total);
    assert KeysOf(s.chunks, doc) == FirstKeys(doc, total);
    assert Key(doc, 0) in keys;
    var k := TotalComesFromAChunk(s.chunks, keys, doc);
  }

  lemma CountedReachesATotal(s: State, doc: int, keys: seq<Key>)
    requires TotalsOutOfReach(s, doc) && Lists(s.chunks, keys)
    ensures !Counted(Rows(s.chunks, keys), doc)
  {
    CountInListing(s.chunks, keys, doc);
    if KeysOf(s.chunks, doc) != {} {
      var any := AnyMember(KeysOf(s.chunks, doc));
      assert any in keys;
      var k := TotalComesFromAChunk(s.chunks, keys, doc);
    }
  }

  lemma ReachedTotalIsCounted(s: State, doc: int, k: Key) returns (keys: seq<Key>)
    requires k in s.chunks && k.doc == doc && |KeysOf(s.chunks, doc)| >= s.chunks[k].total
    ensures Lists(s.chunks, keys) && Counted(Rows(s.chunks, keys), doc)
  {
    keys := ListingEndingIn(s.chunks, k);
    CountInListing(s.chunks, keys, doc);
    assert k in KeysOf(s.chunks, doc);
  }

  /** Over every run, however many deletes failed: the count is right about a
      document, in whatever order its chunks are listed, exactly when its last
      version is stored in full and alone, or none of the totals its stored
      chunks state is reached. */
  lemma CountIsRightIff(backend: Backend, run: seq<Event>, doc: int)
    ensures var s := After(backend, run);
            Right(s, doc) <==> Complete(s, doc) || TotalsOutOfReach(s, doc)
  {
    var s := After(backend, run);
    RunsArePositive(backend, run);
    if Complete(s, doc) {
      forall keys | Lists(s.chunks, keys) ensures Counted(Rows(s.chunks, keys), doc) {
        CompleteIsCounted(s, doc, keys);
      }
    } else if TotalsOutOfReach(s, doc) {
      forall keys | Lists(s.chunks, keys) ensures !Counted(Rows(s.chunks, keys), doc) {
        CountedReachesATotal(s, doc, keys);
      }
    } else {
      var k :| k in s.chunks && k.doc == doc && |KeysOf(s.chunks, doc)| >= s.chunks[k].total;
      var keys := ReachedTotalIsCounted(s, doc, k);
    }
  }

  const FIRST_TRY := Upsert(7, [true, true], true, true)
  const SECOND_TRY := Upsert(7, [false, true], false, true)

  lemma AfterBothTries(backend: Backend) returns (s: State)
    ensures s == After(backend, [FIRST_TRY, SECOND_TRY])
    ensures s.latest == map[7 := Chunk(2, 1)]
    ensures s.chunks == map[Key(7, 0) := Chunk(2, 0), Key(7, 1) := Chunk(2, 1)]
  {
    assert [FIRST_TRY, SECOND_TRY][..1] == [FIRST_TRY] && [FIRST_TRY][..0] == [];
    var empty := After(backend, []);
    var one := After(backend, [FIRST_TRY]);
    assert one == Step(backend, empty, FIRST_TRY);
    assert [true, true][0];
    assert Fresh(7, [true, true]) == {Key(7, 0), Key(7, 1)};
    assert one.chunks == map[Key(7, 0) := Chunk(2, 0), Key(7, 1) := Chunk(2, 0)];
    s := After(backend, [FIRST_TRY, SECOND_TRY]);
    assert s == Step(backend, one, SECOND_TRY);
    assert [false, true][1];
    assert Fresh(7, [false, true]) == {Key(7, 1)};
  }

  /** Such a case: the embedding of one chunk of two fails the second time, so
      does the delete, and the document counts as indexed with a stale chunk. */
  lemma StaleChunkCountsAsIndexed(backend: Backend, keys: seq<Key>)
    requires Lists(After(backend, [FIRST_TRY, SECOND_TRY]).chunks, keys)
    ensures var s := After(backend, [FIRST_TRY, SECOND_TRY]);
            Counted(Rows(s.chunks, keys), 7) && !Complete(s, 7)
  {
    var s := AfterBothTries(backend);
    assert KeysOf(s.chunks, 7) == {Key(7, 0), Key(7, 1)};
    CountInListing(s.chunks, keys, 7);
    assert Key(7, 0) in keys;
    var k := TotalComesFromAChunk(s.chunks, keys, 7);
    assert s.chunks[Key(7, 0)] != s.latest[7];
  }
}
