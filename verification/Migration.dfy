/** Moving an index between the two vector stores without re-embedding:
    `dump_points` and `load_points` (backend/vector_store.py) and
    `migrate_embeddings` (backend/vector_migrate.py). */
module Migration {
  import opened Collections
  import IndexAccounting

  type Vector = seq<real>

  /** Metadata keys the two stores treat specially, and all others. */
  datatype Field = DocumentId | TotalChunks | ChunkIndex | TagIdsJson | TagIds | Passage | ChunkId | Other(name: string)

  datatype Value = Text(text: string) | Number(n: int) | Ids(ids: seq<int>)

  type Meta = map<Field, Value>

  /** The common shape of a dumped chunk. */
  datatype Point = Point(id: string, vector: Vector, document: string, metadata: Meta)

  datatype ChromaRecord = ChromaRecord(vector: Option<Vector>, document: string, metadata: Option<Meta>)

  /** A hybrid collection names its vectors; the sparse one is encoded from a
      passage and never dumped. */
  datatype QdrantVector = Absent | Plain(dense: Vector) | Named(dense: Vector, sparseOf: string)

  datatype QdrantRecord = QdrantRecord(vector: QdrantVector, payload: Meta)

  datatype Contents =
    | Chroma(records: map<string, ChromaRecord>)
    | Qdrant(hybrid: bool, points: map<string, QdrantRecord>)

  /** `uuid5` over the point namespace, and `json.loads` of a list of tag ids. */
  datatype Env = Env(pointId: string -> string, decode: string -> Option<seq<int>>)

  ghost predicate Valid(env: Env) {
    && (forall a, b :: env.pointId(a) == env.pointId(b) ==> a == b)
    && (forall a :: env.pointId(a) != "")
  }

  // ---- One point ----

  /** Ids decoded from the canonical JSON; none when it is missing or broken. */
  function TagIdsOf(env: Env, meta: Meta): seq<int> {
    if TagIdsJson in meta && meta[TagIdsJson].Text? && meta[TagIdsJson].text != "" then
      var decoded := env.decode(meta[TagIdsJson].text);
      if decoded.Some? then decoded.value else []
    else []
  }

  function PayloadOf(env: Env, p: Point): Meta {
    p.metadata[TagIds := Ids(TagIdsOf(env, p.metadata))][Passage := Text(p.document)][ChunkId := Text(p.id)]
  }

  function TextAt(meta: Meta, f: Field): string {
    if f in meta && meta[f].Text? then meta[f].text else ""
  }

  function OfChroma(id: string, r: ChromaRecord): Option<Point> {
    if r.vector.None? then None
    else Some(Point(id, r.vector.value, r.document, if r.metadata.Some? then r.metadata.value else map[]))
  }

  function OfQdrant(pid: string, r: QdrantRecord): Option<Point> {
    if r.vector.Absent? then None
    else
      var id := TextAt(r.payload, ChunkId);
      Some(Point(if id != "" then id else pid, r.vector.dense, TextAt(r.payload, Passage),
                 r.payload - {ChunkId, Passage, TagIds}))
  }

  function KeyOf(env: Env, c: Contents, p: Point): string {
    if c.Chroma? then p.id else env.pointId(p.id)
  }

  function Put(env: Env, c: Contents, p: Point): Contents {
    match c
    case Chroma(records) =>
      Chroma(records[p.id := ChromaRecord(Some(p.vector), p.document, Some(p.metadata))])
    case Qdrant(hybrid, points) =>
      var vector := if hybrid then Named(p.vector, p.document) else Plain(p.vector);
      Qdrant(hybrid, points[env.pointId(p.id) := QdrantRecord(vector, PayloadOf(env, p))])
  }

  function KeysOf(c: Contents): set<string> {
    match c
    case Chroma(records) => records.Keys
    case Qdrant(_, points) => points.Keys
  }

  /** The dumped form of the record stored under `key`. */
  function At(c: Contents, key: string): Option<Point>
    requires key in KeysOf(c)
  {
    match c
    case Chroma(records) => OfChroma(key, records[key])
    case Qdrant(_, points) => OfQdrant(key, points[key])
  }

  // ---- Dump and load ----

  ghost predicate Lists(c: Contents, order: seq<string>) {
    && (forall i, j :: 0 <= i < j < |order| ==> order[i] != order[j])
    && (forall i :: 0 <= i < |order| ==> order[i] in KeysOf(c))
    && (forall key :: key in KeysOf(c) ==> key in order)
  }

  function DumpOf(c: Contents, order: seq<string>): seq<Point>
    requires forall i :: 0 <= i < |order| ==> order[i] in KeysOf(c)
  {
    if order == [] then []
    else
      var p := At(c, order[|order| - 1]);
      DumpOf(c, order[..|order| - 1]) + (if p.Some? then [p.value] else [])
  }

  ghost predicate HasVector(c: Contents, key: string) {
    match c
    case Chroma(records) => key in records && records[key].vector.Some?
    case Qdrant(_, points) => key in points && !points[key].vector.Absent?
  }

  ghost predicate HasText(payload: Meta, f: Field, text: string) {
    f in payload && payload[f] == Text(text)
  }

  /** `p` is the record under `key` in the common shape. Qdrant keeps passage and
      chunk id in the payload, and falls back to the record's own id. */
  ghost predicate DumpedFrom(c: Contents, key: string, p: Point) {
    match c
    case Chroma(records) =>
      && key in records && p.id == key
      && records[key].vector == Some(p.vector) && records[key].document == p.document
      && (records[key].metadata == Some(p.metadata) || (records[key].metadata == None && p.metadata == map[]))
    case Qdrant(_, points) =>
      && key in points && !points[key].vector.Absent? && points[key].vector.dense == p.vector
      && (forall text :: HasText(points[key].payload, ChunkId, text) && text != "" ==> p.id == text)
      && ((forall text :: HasText(points[key].payload, ChunkId, text) ==> text == "") ==> p.id == key)
      && (forall text :: HasText(points[key].payload, Passage, text) ==> p.document == text)
      && ((forall text :: !HasText(points[key].payload, Passage, text)) ==> p.document == "")
      && p.metadata == points[key].payload - {ChunkId, Passage, TagIds}
  }

  /** Every record with a vector is dumped, in the order listed; `origin[j]` is
      the place of point `j` in that order. */
  ghost predicate Dumps(c: Contents, order: seq<string>, points: seq<Point>, origin: seq<nat>) {
    && |origin| == |points|
    && (forall j :: 0 <= j < |points| ==> origin[j] < |order| && DumpedFrom(c, order[origin[j]], points[j]))
    && (forall i, j :: 0 <= i < j < |origin| ==> origin[i] < origin[j])
    && (forall i :: 0 <= i < |order| && HasVector(c, order[i]) ==> i in origin)
  }

  lemma AtIsDumpedFrom(c: Contents, key: string)
    requires key in KeysOf(c)
    ensures At(c, key).Some? <==> HasVector(c, key)
    ensures At(c, key).Some? ==> DumpedFrom(c, key, At(c, key).value)
  {
    if c.Qdrant? {
      var payload := c.points[key].payload;
      assert HasText(payload, ChunkId, TextAt(payload, ChunkId)) || TextAt(payload, ChunkId) == "";
      assert HasText(payload, Passage, TextAt(payload, Passage)) || TextAt(payload, Passage) == "";
    }
  }

  lemma {:induction false} DumpComesFromRecords(c: Contents, order: seq<string>) returns (origin: seq<nat>)
    requires forall i :: 0 <= i < |order| ==> order[i] in KeysOf(c)
    ensures Dumps(c, order, DumpOf(c, order), origin)
  {
    origin := [];
    if order != [] {
      var n := |order| - 1;
      origin := DumpComesFromRecords(c, order[..n]);
      AtIsDumpedFrom(c, order[n]);
      if At(c, order[n]).Some? {
        origin := origin + [n];
      }
    }
  }

  function LoadOf(env: Env, c: Contents, points: seq<Point>): Contents {
    if points == [] then c else Put(env, LoadOf(env, c, points[..|points| - 1]), points[|points| - 1])
  }

  function Size(c: Contents): nat {
    match c
    case Chroma(records) => |records|
    case Qdrant(_, points) => |points|
  }

  /** A backend; Bedrock, for one, offers neither dump nor load. */
  class VectorStore {
    const portable: bool
    var contents: Contents

    constructor (portable: bool, contents: Contents)
      ensures this.portable == portable && this.contents == contents
    {
      this.portable := portable;
      this.contents := contents;
    }

    /** `order` is the order in which the store lists its records. */
    method DumpPoints(order: seq<string>) returns (points: seq<Point>)
      requires Lists(contents, order)
      ensures points == DumpOf(contents, order)
      ensures exists origin :: Dumps(contents, order, points, origin)
    {
      points := [];
      for i := 0 to |order|
        invariant points == DumpOf(contents, order[..i])
      {
        assert order[..i + 1][..i] == order[..i];
        var p := At(contents, order[i]);
        if p.Some? {
          points := points + [p.value];
        }
      }
      PrefixEnds(order);
      ghost var origin := DumpComesFromRecords(contents, order);
    }

    method LoadPoints(env: Env, points: seq<Point>) returns (loaded: nat)
      modifies this
      ensures contents == LoadOf(env, old(contents), points) && loaded == |points|
    {
      for i := 0 to |points|
        invariant contents == LoadOf(env, old(contents), points[..i])
      {
        assert points[..i + 1][..i] == points[..i];
        contents := Put(env, contents, points[i]);
      }
      PrefixEnds(points);
      loaded := |points|;
    }
  }

  // ---- `migrate_embeddings` ----

  datatype Reason = Migrated | Unsupported | SourceEmpty | DestinationPopulated | NoPoints | Raised

  datatype Result = Result(migrated: nat, needsReindex: bool, reason: Reason)

  /** The call that raises, if any; a load may have stored some points by then. */
  datatype Trouble = Nothing | CountingSource | CountingDestination | Dumping | Loading(stored: nat)

  function StoredBy(t: Trouble, points: seq<Point>): seq<Point> {
    if !t.Loading? then [] else if t.stored < |points| then points[..t.stored] else points
  }

  /** One attempt: its result, and what it leaves in the destination. */
  ghost function Attempt(env: Env, supported: bool, src: Contents, order: seq<string>, dst: Contents, t: Trouble)
    : (Result, Contents)
    requires Lists(src, order)
  {
    var points := DumpOf(src, order);
    if !supported then (Result(0, true, Unsupported), dst)
    else if t == CountingSource then (Result(0, true, Raised), dst)
    else if Size(src) == 0 then (Result(0, false, SourceEmpty), dst)
    else if t == CountingDestination then (Result(0, true, Raised), dst)
    else if Size(dst) > 0 then (Result(0, false, DestinationPopulated), dst)
    else if t == Dumping then (Result(0, true, Raised), dst)
    else if points == [] then (Result(0, false, NoPoints), dst)
    else if t.Loading? then (Result(0, true, Raised), LoadOf(env, dst, StoredBy(t, points)))
    else (Result(|points|, false, Migrated), LoadOf(env, dst, points))
  }

  method MigrateEmbeddings(env: Env, src: VectorStore?, dst: VectorStore?, order: seq<string>, trouble: Trouble)
    returns (r: Result)
    requires src != null ==> src != dst && Lists(src.contents, order)
    modifies dst
    ensures dst != null && r.reason !in {Migrated, Raised} ==> dst.contents == old(dst.contents)
    ensures dst != null && Size(old(dst.contents)) > 0 ==> dst.contents == old(dst.contents)
    ensures r.reason == Raised ==>
              && src != null && dst != null
              && (!trouble.Loading? ==> dst.contents == old(dst.contents))
              && dst.contents == LoadOf(env, old(dst.contents), StoredBy(trouble, DumpOf(src.contents, order)))
    ensures r.reason == Migrated ==>
              && src != null && dst != null && src.portable && dst.portable
              && Size(old(dst.contents)) == 0
              && dst.contents == LoadOf(env, old(dst.contents), DumpOf(src.contents, order))
              && r.migrated == |DumpOf(src.contents, order)| > 0
    ensures r.reason != Migrated ==> r.migrated == 0
    ensures r.needsReindex <==> r.reason in {Unsupported, Raised}
    ensures r.reason == Unsupported <==> src == null || dst == null || !src.portable || !dst.portable
    ensures r.reason == Raised ==> trouble != Nothing
    ensures r.reason == SourceEmpty <==>
              && src != null && dst != null && src.portable && dst.portable
              && trouble != CountingSource && Size(src.contents) == 0
    ensures r.reason == DestinationPopulated <==>
              && src != null && dst != null && src.portable && dst.portable
              && trouble != CountingSource && Size(src.contents) > 0
              && trouble != CountingDestination && Size(old(dst.contents)) > 0
    ensures r.reason == NoPoints ==> DumpOf(src.contents, order) == []
    ensures src != null && dst != null ==>
              (r, dst.contents) ==
              Attempt(env, src.portable && dst.portable, src.contents, order, old(dst.contents), trouble)
  {
    if src == null || dst == null || !src.portable || !dst.portable {
      return Result(0, true, Unsupported);
    }
    if trouble == CountingSource {
      return Result(0, true, Raised);
    }
    if Size(src.contents) == 0 {
      return Result(0, false, SourceEmpty);
    }
    if trouble == CountingDestination {
      return Result(0, true, Raised);
    }
    if Size(dst.contents) > 0 {
      return Result(0, false, DestinationPopulated);
    }
    if trouble == Dumping {
      return Result(0, true, Raised);
    }
    var points := src.DumpPoints(order);
    if points == [] {
      return Result(0, false, NoPoints);
    }
    if trouble.Loading? {
      var loaded := dst.LoadPoints(env, StoredBy(trouble, points));
      return Result(0, true, Raised);
    }
    var migrated := dst.LoadPoints(env, points);
    return Result(migrated, false, Migrated);
  }

  lemma {:induction false} LoadFills(env: Env, c: Contents, points: seq<Point>)
    requires points != []
    ensures Size(LoadOf(env, c, points)) > 0
  {
    var before, last := LoadOf(env, c, points[..|points| - 1]), points[|points| - 1];
    PutThenAt(env, before, last);
    KeyMeansSize(Put(env, before, last), KeyOf(env, before, last));
  }

  lemma KeyMeansSize(c: Contents, key: string)
    requires key in KeysOf(c)
    ensures Size(c) > 0
  {
    if c.Chroma? {
      assert c.records.Keys != {};
    } else {
      assert c.points.Keys != {};
    }
  }

  lemma DumpMeansSize(c: Contents, order: seq<string>)
    requires Lists(c, order) && DumpOf(c, order) != []
    ensures Size(c) > 0
  {
    KeyMeansSize(c, order[0]);
  }

  /** A destination that holds anything is left as it is and never reported as a
      failure, whatever it holds and whatever else goes wrong later. */
  lemma PopulatedIsRefused(env: Env, src: Contents, order: seq<string>, dst: Contents, t: Trouble)
    requires Lists(src, order) && Size(src) > 0
    ensures Attempt(env, true, src, order, dst, t).0.reason == DestinationPopulated <==>
              Size(dst) > 0 && t != CountingSource && t != CountingDestination
    ensures Size(dst) > 0 ==> Attempt(env, true, src, order, dst, t).1 == dst
  {
  }

  /** After a load that raised, a second attempt without trouble migrates
      everything exactly when the first had stored nothing. Otherwise it is
      refused, reported as a success, and leaves what was stored. */
  lemma RetryAfterRaisedLoad(env: Env, src: Contents, order: seq<string>, dst: Contents, stored: nat)
    requires Lists(src, order) && DumpOf(src, order) != [] && Size(dst) == 0
    ensures var points := DumpOf(src, order);
            var first := Attempt(env, true, src, order, dst, Loading(stored));
            var second := Attempt(env, true, src, order, first.1, Nothing);
            && first.0 == Result(0, true, Raised)
            && (second == (Result(|points|, false, Migrated), LoadOf(env, dst, points)) <==> stored == 0)
            && (stored > 0 ==> second == (Result(0, false, DestinationPopulated), first.1))
  {
    var points := DumpOf(src, order);
    DumpMeansSize(src, order);
    if stored > 0 {
      LoadFills(env, dst, StoredBy(Loading(stored), points));
    } else {
      assert StoredBy(Loading(stored), points) == [];
    }
  }

  // ---- What one store makes of a point ----

  ghost predicate Clean(p: Point) {
    p.id != "" && TagIds !in p.metadata && Passage !in p.metadata && ChunkId !in p.metadata
  }

  /** The point as it comes back from a store it was loaded into. */
  function Back(env: Env, c: Contents, p: Point): Point {
    if c.Chroma? then p
    else
      var id := if p.id != "" then p.id else env.pointId(p.id);
      Point(id, p.vector, p.document, p.metadata - {ChunkId, Passage, TagIds})
  }

  lemma PutThenAt(env: Env, c: Contents, p: Point)
    ensures KeysOf(Put(env, c, p)) == KeysOf(c) + {KeyOf(env, c, p)}
    ensures At(Put(env, c, p), KeyOf(env, c, p)) == Some(Back(env, c, p))
    ensures forall key :: key in KeysOf(c) && key != KeyOf(env, c, p) ==> At(Put(env, c, p), key) == At(c, key)
    ensures Put(env, c, p).Chroma? == c.Chroma?
  {
    if c.Qdrant? {
      assert PayloadOf(env, p) - {ChunkId, Passage, TagIds} == p.metadata - {ChunkId, Passage, TagIds};
    }
  }

  lemma BackIsPointIffClean(env: Env, c: Contents, p: Point)
    requires Valid(env) && c.Qdrant?
    ensures Clean(Back(env, c, p))
    ensures Back(env, c, p) == p <==> Clean(p)
  {
  }

  // ---- The round trip ----

  ghost predicate DistinctIds(points: seq<Point>) {
    forall i, j :: 0 <= i < j < |points| ==> points[i].id != points[j].id
  }

  /** Same points, in whatever order. */
  ghost predicate SamePoints(a: seq<Point>, b: seq<Point>) {
    DistinctIds(a) && DistinctIds(b) && forall p :: p in a <==> p in b
  }

  ghost predicate AllClean(points: seq<Point>) {
    forall i :: 0 <= i < |points| ==> Clean(points[i])
  }

  /** The store holds exactly the given points, as it would dump them. */
  ghost predicate Holds(env: Env, c: Contents, points: seq<Point>) {
    && (forall i :: 0 <= i < |points| ==>
          KeyOf(env, c, points[i]) in KeysOf(c) && At(c, KeyOf(env, c, points[i])) == Some(Back(env, c, points[i])))
    && (forall key :: key in KeysOf(c) ==> Loaded(env, c, points, key))
  }

  ghost predicate Loaded(env: Env, c: Contents, points: seq<Point>, key: string) {
    exists i :: 0 <= i < |points| && KeyOf(env, c, points[i]) == key
  }

  lemma PutKeepsHolding(env: Env, c: Contents, points: seq<Point>, p: Point)
    requires Valid(env) && Holds(env, c, points) && forall i :: 0 <= i < |points| ==> points[i].id != p.id
    ensures Holds(env, Put(env, c, p), points + [p])
  {
    var after, all := Put(env, c, p), points + [p];
    PutThenAt(env, c, p);
    forall key | key in KeysOf(after) ensures Loaded(env, after, all, key) {
      if key == KeyOf(env, c, p) {
        assert KeyOf(env, after, all[|points|]) == key;
      } else {
        assert Loaded(env, c, points, key);
        var i :| 0 <= i < |points| && KeyOf(env, c, points[i]) == key;
        assert KeyOf(env, after, all[i]) == key;
      }
    }
    forall i | 0 <= i < |all|
      ensures KeyOf(env, after, all[i]) in KeysOf(after)
      ensures At(after, KeyOf(env, after, all[i])) == Some(Back(env, after, all[i]))
    {
      if i < |points| {
        assert all[i] == points[i];
      }
    }
  }

  lemma {:induction false} LoadHolds(env: Env, c: Contents, points: seq<Point>)
    requires Valid(env) && KeysOf(c) == {} && DistinctIds(points)
    ensures LoadOf(env, c, points).Chroma? == c.Chroma?
    ensures Holds(env, LoadOf(env, c, points), points)
  {
    if points != [] {
      var init, last := points[..|points| - 1], points[|points| - 1];
      LoadHolds(env, c, init);
      PutKeepsHolding(env, LoadOf(env, c, init), init, last);
      assert points == init + [last];
    }
  }

  lemma {:induction false} DumpMembers(c: Contents, order: seq<string>, p: Point)
    requires forall i :: 0 <= i < |order| ==> order[i] in KeysOf(c)
    ensures p in DumpOf(c, order) <==> exists i :: 0 <= i < |order| && At(c, order[i]) == Some(p)
  {
    if order != [] {
      var init := order[..|order| - 1];
      DumpMembers(c, init, p);
      assert forall i :: 0 <= i < |init| ==> order[i] == init[i];
    }
  }

  /** `q` is what the store gives back for one of the points. */
  ghost predicate GivenBack(env: Env, c: Contents, points: seq<Point>, q: Point) {
    exists i :: 0 <= i < |points| && Back(env, c, points[i]) == q
  }

  lemma DumpedIsGivenBack(env: Env, c: Contents, points: seq<Point>, order: seq<string>, q: Point)
    requires Holds(env, c, points) && Lists(c, order) && q in DumpOf(c, order)
    ensures GivenBack(env, c, points, q)
  {
    DumpMembers(c, order, q);
    var o :| 0 <= o < |order| && At(c, order[o]) == Some(q);
    assert Loaded(env, c, points, order[o]);
    var i :| 0 <= i < |points| && KeyOf(env, c, points[i]) == order[o];
    assert Back(env, c, points[i]) == q;
  }

  lemma GivenBackIsDumped(env: Env, c: Contents, points: seq<Point>, order: seq<string>, i: nat)
    requires Holds(env, c, points) && Lists(c, order) && i < |points|
    ensures Back(env, c, points[i]) in DumpOf(c, order)
  {
    var key, q := KeyOf(env, c, points[i]), Back(env, c, points[i]);
    assert key in order;
    var o :| 0 <= o < |order| && order[o] == key;
    assert At(c, order[o]) == Some(q);
    DumpMembers(c, order, q);
  }

  /** Loading points into an empty store and dumping it again, in whatever
      order, gives each point as the store gives it back. */
  lemma DumpAfterLoad(env: Env, c: Contents, points: seq<Point>, order: seq<string>)
    requires Valid(env) && KeysOf(c) == {} && DistinctIds(points) && Lists(LoadOf(env, c, points), order)
    ensures forall q :: q in DumpOf(LoadOf(env, c, points), order) <==> GivenBack(env, c, points, q)
  {
    var after := LoadOf(env, c, points);
    LoadHolds(env, c, points);
    forall q | q in DumpOf(after, order) ensures GivenBack(env, c, points, q) {
      DumpedIsGivenBack(env, after, points, order, q);
      var i :| 0 <= i < |points| && Back(env, after, points[i]) == q;
      assert Back(env, c, points[i]) == q;
    }
    forall q | GivenBack(env, c, points, q) ensures q in DumpOf(after, order) {
      var i :| 0 <= i < |points| && Back(env, c, points[i]) == q;
      GivenBackIsDumped(env, after, points, order, i);
    }
  }

  ghost predicate IdsDiffer(c: Contents) {
    forall a, b :: a in KeysOf(c) && b in KeysOf(c) && a != b && At(c, a).Some? && At(c, b).Some? ==>
      At(c, a).value.id != At(c, b).value.id
  }

  lemma {:induction false} DumpIsDistinct(c: Contents, order: seq<string>)
    requires IdsDiffer(c)
    requires forall i, j :: 0 <= i < j < |order| ==> order[i] != order[j]
    requires forall i :: 0 <= i < |order| ==> order[i] in KeysOf(c)
    ensures DistinctIds(DumpOf(c, order))
  {
    if order != [] {
      var init, last := order[..|order| - 1], order[|order| - 1];
      DumpIsDistinct(c, init);
      var dumped := DumpOf(c, init);
      if At(c, last).Some? {
        forall i | 0 <= i < |dumped| ensures dumped[i].id != At(c, last).value.id {
          DumpMembers(c, init, dumped[i]);
          var o :| 0 <= o < |init| && At(c, init[o]) == Some(dumped[i]);
          assert init[o] == order[o];
        }
      }
    }
  }

  lemma LoadedIdsDiffer(env: Env, c: Contents, points: seq<Point>)
    requires DistinctIds(points) && Holds(env, c, points) && (c.Chroma? || AllClean(points))
    ensures IdsDiffer(c)
  {
  }

  lemma CleanRoundTrip(env: Env, c: Contents, points: seq<Point>, order: seq<string>)
    requires Valid(env) && KeysOf(c) == {} && DistinctIds(points) && Lists(LoadOf(env, c, points), order)
    requires c.Chroma? || AllClean(points)
    ensures SamePoints(DumpOf(LoadOf(env, c, points), order), points)
  {
    var after := LoadOf(env, c, points);
    LoadHolds(env, c, points);
    DumpAfterLoad(env, c, points, order);
    LoadedIdsDiffer(env, after, points);
    DumpIsDistinct(after, order);
    forall i | 0 <= i < |points| ensures Back(env, c, points[i]) == points[i] {
      if c.Qdrant? {
        BackIsPointIffClean(env, c, points[i]);
      }
    }
    forall p ensures p in DumpOf(after, order) <==> p in points {
      if p in points {
        var i :| 0 <= i < |points| && points[i] == p;
        assert GivenBack(env, c, points, p);
      }
    }
  }

  /** Nothing is lost or changed by a move into an empty store exactly when the
      store is Chroma or every point has an id and none of the three keys that
      Qdrant keeps for itself. */
  lemma RoundTripIff(env: Env, c: Contents, points: seq<Point>, order: seq<string>)
    requires Valid(env) && KeysOf(c) == {} && DistinctIds(points) && Lists(LoadOf(env, c, points), order)
    ensures SamePoints(DumpOf(LoadOf(env, c, points), order), points) <==> c.Chroma? || AllClean(points)
  {
    var dumped := DumpOf(LoadOf(env, c, points), order);
    if c.Chroma? || AllClean(points) {
      CleanRoundTrip(env, c, points, order);
    } else if SamePoints(dumped, points) {
      DumpAfterLoad(env, c, points, order);
      forall i | 0 <= i < |points| ensures Clean(points[i]) {
        assert points[i] in dumped;
        var j :| 0 <= j < |points| && Back(env, c, points[j]) == points[i];
        BackIsPointIffClean(env, c, points[j]);
      }
    }
  }

  // ---- Any chain of moves ----

  /** `states[i + 1]` is `states[i]` moved into the empty store `empty[i]`. */
  ghost predicate IsChain(env: Env, states: seq<Contents>, orders: seq<seq<string>>, empty: seq<Contents>) {
    && |states| == |orders| == |empty| + 1
    && (forall i :: 0 <= i < |states| ==> Lists(states[i], orders[i]))
    && (forall i :: 0 <= i < |empty| ==>
          KeysOf(empty[i]) == {} && states[i + 1] == LoadOf(env, empty[i], DumpOf(states[i], orders[i])))
  }

  ghost predicate AllChroma(stores: seq<Contents>) {
    forall i :: 0 <= i < |stores| ==> stores[i].Chroma?
  }

  lemma {:induction false} ChainKeepsPoints(env: Env, states: seq<Contents>, orders: seq<seq<string>>,
                                            empty: seq<Contents>, n: nat)
    requires Valid(env) && IsChain(env, states, orders, empty) && n < |states|
    requires DistinctIds(DumpOf(states[0], orders[0]))
    requires AllChroma(empty) || AllClean(DumpOf(states[0], orders[0]))
    ensures SamePoints(DumpOf(states[n], orders[n]), DumpOf(states[0], orders[0]))
  {
    if n > 0 {
      ChainKeepsPoints(env, states, orders, empty, n - 1);
      var first, points := DumpOf(states[0], orders[0]), DumpOf(states[n - 1], orders[n - 1]);
      assert Lists(states[n], orders[n]) && KeysOf(empty[n - 1]) == {};
      if !AllChroma(empty) {
        forall i | 0 <= i < |points| ensures Clean(points[i]) {
          assert points[i] in first;
        }
      }
      RoundTripIff(env, empty[n - 1], points, orders[n]);
    }
  }

  ghost predicate HoldsClean(c: Contents) {
    forall key :: key in KeysOf(c) && At(c, key).Some? ==> Clean(At(c, key).value)
  }

  lemma {:induction false} LoadIsClean(env: Env, c: Contents, points: seq<Point>)
    requires Valid(env) && KeysOf(c) == {} && (c.Qdrant? || AllClean(points))
    ensures LoadOf(env, c, points).Chroma? == c.Chroma? && HoldsClean(LoadOf(env, c, points))
  {
    if points != [] {
      var before := LoadOf(env, c, points[..|points| - 1]);
      LoadIsClean(env, c, points[..|points| - 1]);
      PutThenAt(env, before, points[|points| - 1]);
      if c.Qdrant? {
        BackIsPointIffClean(env, before, points[|points| - 1]);
      }
    }
  }

  lemma DumpIsClean(c: Contents, order: seq<string>)
    requires HoldsClean(c) && Lists(c, order)
    ensures AllClean(DumpOf(c, order))
  {
    var dumped := DumpOf(c, order);
    forall i | 0 <= i < |dumped| ensures Clean(dumped[i]) {
      DumpMembers(c, order, dumped[i]);
    }
  }

  lemma {:induction false} CleanAfterQdrant(env: Env, states: seq<Contents>, orders: seq<seq<string>>,
                                            empty: seq<Contents>, q: nat, n: nat)
    requires Valid(env) && IsChain(env, states, orders, empty) && q < n < |states| && empty[q].Qdrant?
    ensures AllClean(DumpOf(states[n], orders[n]))
    decreases n
  {
    if n - 1 > q {
      CleanAfterQdrant(env, states, orders, empty, q, n - 1);
    }
    assert KeysOf(empty[n - 1]) == {} && Lists(states[n], orders[n]);
    LoadIsClean(env, empty[n - 1], DumpOf(states[n - 1], orders[n - 1]));
    DumpIsClean(states[n], orders[n]);
  }

  /** Along any chain of moves between the two stores, what the last one dumps
      is what the first one dumped, exactly when every move was into Chroma or
      the points were clean to begin with. */
  lemma ChainPreservesPointsIff(env: Env, states: seq<Contents>, orders: seq<seq<string>>, empty: seq<Contents>)
    requires Valid(env) && IsChain(env, states, orders, empty)
    requires DistinctIds(DumpOf(states[0], orders[0]))
    ensures SamePoints(DumpOf(states[|empty|], orders[|empty|]), DumpOf(states[0], orders[0])) <==>
              AllChroma(empty) || AllClean(DumpOf(states[0], orders[0]))
  {
    var n := |empty|;
    var first, final := DumpOf(states[0], orders[0]), DumpOf(states[n], orders[n]);
    if AllChroma(empty) || AllClean(first) {
      ChainKeepsPoints(env, states, orders, empty, n);
    } else if SamePoints(final, first) {
      var q :| 0 <= q < n && !empty[q].Chroma?;
      CleanAfterQdrant(env, states, orders, empty, q, n);
      forall i | 0 <= i < |first| ensures Clean(first[i]) {
        assert first[i] in final;
      }
    }
  }

  // ---- Tag ids in Qdrant ----

  /** `_meta_has_tag`, which filters by tag in Chroma. */
  predicate MetaHasTag(env: Env, meta: Meta, tag: int) {
    tag in TagIdsOf(env, meta)
  }

  /** The server-side filter on the list that Qdrant stores. */
  predicate ListHasTag(payload: Meta, tag: int) {
    TagIds in payload && payload[TagIds].Ids? && tag in payload[TagIds].ids
  }

  /** Every record's list is the decoded canonical JSON of its own metadata. */
  ghost predicate TagsMatch(env: Env, c: Contents) {
    c.Qdrant? && forall pid :: pid in c.points ==>
      TagIds in c.points[pid].payload && c.points[pid].payload[TagIds] == Ids(TagIdsOf(env, c.points[pid].payload))
  }

  lemma {:induction false} LoadedTagsMatch(env: Env, c: Contents, points: seq<Point>)
    requires TagsMatch(env, c)
    ensures TagsMatch(env, LoadOf(env, c, points))
  {
    if points != [] {
      LoadedTagsMatch(env, c, points[..|points| - 1]);
      var p := points[|points| - 1];
      assert TagIdsOf(env, PayloadOf(env, p)) == TagIdsOf(env, p.metadata);
    }
  }

  /** Excluding a tag hides the same points in either store. */
  lemma ExclusionAgrees(env: Env, c: Contents, pid: string, tag: int)
    requires TagsMatch(env, c) && pid in c.points && At(c, pid).Some?
    ensures ListHasTag(c.points[pid].payload, tag) <==> MetaHasTag(env, At(c, pid).value.metadata, tag)
    ensures MetaHasTag(env, At(c, pid).value.metadata, tag) <==>
              exists text, ids :: && HasText(At(c, pid).value.metadata, TagIdsJson, text) && text != ""
                                  && env.decode(text) == Some(ids) && tag in ids
  {
    var meta := At(c, pid).value.metadata;
    if MetaHasTag(env, meta, tag) {
      assert HasText(meta, TagIdsJson, meta[TagIdsJson].text);
      assert env.decode(meta[TagIdsJson].text) == Some(TagIdsOf(env, meta));
    }
  }

  // ---- A migrated record is a native one ----

  /** The payload `upsert` of Qdrant writes for a chunk, `tagIds` decoded from
      the base metadata. */
  function NativePayload(base: Meta, tagIds: seq<int>, index: nat, total: nat, chunk: string, id: string): Meta {
    base[TagIds := Ids(tagIds)][ChunkIndex := Number(index)][TotalChunks := Number(total)]
        [Passage := Text(chunk)][ChunkId := Text(id)]
  }

  /** Moving a chunk that Chroma stored gives the record that Qdrant would have
      written for that chunk itself. */
  lemma MigratedIsNative(env: Env, c: Contents, base: Meta, tagIds: seq<int>, index: nat, total: nat, chunk: string,
                         id: string, v: Vector)
    requires c.Qdrant? && TagIdsJson in base && base[TagIdsJson].Text?
    requires base[TagIdsJson].text != "" && env.decode(base[TagIdsJson].text) == Some(tagIds)
    ensures var p := Point(id, v, chunk, base[ChunkIndex := Number(index)][TotalChunks := Number(total)]);
            var put := Put(env, c, p);
            && put.points.Keys == c.points.Keys + {env.pointId(id)}
            && put.points[env.pointId(id)].payload == NativePayload(base, tagIds, index, total, chunk, id)
            && put.points[env.pointId(id)].vector == if c.hybrid then Named(v, chunk) else Plain(v)
  {
  }

  // ---- Chunk counts ----

  function TotalIn(meta: Meta): Option<nat> {
    if TotalChunks !in meta || !meta[TotalChunks].Number? || meta[TotalChunks].n < 0 then None
    else Some(meta[TotalChunks].n)
  }

  function DocIn(meta: Meta): Option<int> {
    if DocumentId in meta && meta[DocumentId].Number? then Some(meta[DocumentId].n) else None
  }

  /** What the chunk count reads off one record: Chroma takes the document from
      the id, Qdrant from the payload. `docOfId` parses the part before "_". */
  function RowAt(c: Contents, docOfId: string -> Option<int>, key: string): IndexAccounting.Row
    requires key in KeysOf(c)
  {
    match c
    case Chroma(records) =>
      var meta := records[key].metadata;
      IndexAccounting.Row(docOfId(key), if meta.Some? then TotalIn(meta.value) else None)
    case Qdrant(_, points) =>
      IndexAccounting.Row(DocIn(points[key].payload), TotalIn(points[key].payload))
  }

  function RowsOf(c: Contents, docOfId: string -> Option<int>, order: seq<string>): (rows: seq<IndexAccounting.Row>)
    requires forall i :: 0 <= i < |order| ==> order[i] in KeysOf(c)
    ensures |rows| == |order|
  {
    seq(|order|, i requires 0 <= i < |order| => RowAt(c, docOfId, order[i]))
  }

  /** Ids and metadata name the same document, and chunks of one document agree
      on their total. */
  ghost predicate Aligned(docOfId: string -> Option<int>, points: seq<Point>) {
    && (forall i :: 0 <= i < |points| ==> docOfId(points[i].id) == DocIn(points[i].metadata))
    && (forall i, j ::
          0 <= i < |points| && 0 <= j < |points| && DocIn(points[i].metadata) == DocIn(points[j].metadata) ==>
          TotalIn(points[i].metadata) == TotalIn(points[j].metadata))
  }

  ghost predicate RowsMatch(rows: seq<IndexAccounting.Row>, points: seq<Point>) {
    && |rows| == |points|
    && (forall i :: 0 <= i < |points| ==>
          rows[i] == IndexAccounting.Row(DocIn(points[i].metadata), TotalIn(points[i].metadata)))
  }

  lemma {:induction false} CountIsPoints(rows: seq<IndexAccounting.Row>, points: seq<Point>, doc: int)
    requires RowsMatch(rows, points)
    ensures IndexAccounting.CountOf(rows, doc) == CountWhere(points, (p: Point) => DocIn(p.metadata) == Some(doc))
  {
    if points != [] {
      CountIsPoints(rows[..|rows| - 1], points[..|points| - 1], doc);
    }
  }

  ghost predicate HasDoc(points: seq<Point>, doc: int) {
    exists i :: 0 <= i < |points| && DocIn(points[i].metadata) == Some(doc)
  }

  lemma {:induction false} TotalIsShared(rows: seq<IndexAccounting.Row>, points: seq<Point>, doc: int,
                                         total: Option<nat>)
    requires RowsMatch(rows, points)
    requires forall i :: 0 <= i < |points| && DocIn(points[i].metadata) == Some(doc) ==>
               TotalIn(points[i].metadata) == total
    ensures IndexAccounting.TotalOf(rows, doc) == if HasDoc(points, doc) then total else None
  {
    if points != [] {
      var init := points[..|points| - 1];
      TotalIsShared(rows[..|rows| - 1], init, doc, total);
      assert forall i :: 0 <= i < |init| ==> points[i] == init[i];
    }
  }

  lemma {:induction false} RowsMatchDump(c: Contents, docOfId: string -> Option<int>, order: seq<string>)
    requires forall i :: 0 <= i < |order| ==> order[i] in KeysOf(c) && At(c, order[i]).Some?
    requires forall i :: 0 <= i < |order| ==>
               var meta := At(c, order[i]).value.metadata;
               RowAt(c, docOfId, order[i]) == IndexAccounting.Row(DocIn(meta), TotalIn(meta))
    ensures RowsMatch(RowsOf(c, docOfId, order), DumpOf(c, order))
  {
    if order != [] {
      RowsMatchDump(c, docOfId, order[..|order| - 1]);
    }
  }

  lemma LoadedRow(env: Env, c: Contents, docOfId: string -> Option<int>, p: Point, key: string)
    requires key in KeysOf(c) && key == KeyOf(env, c, p) && At(c, key) == Some(p)
    requires docOfId(p.id) == DocIn(p.metadata)
    ensures RowAt(c, docOfId, key) == IndexAccounting.Row(DocIn(p.metadata), TotalIn(p.metadata))
  {
  }

  lemma LoadedRowsMatch(env: Env, c: Contents, docOfId: string -> Option<int>, points: seq<Point>, order: seq<string>)
    requires Valid(env) && KeysOf(c) == {} && DistinctIds(points) && AllClean(points) && Aligned(docOfId, points)
    requires Lists(LoadOf(env, c, points), order)
    ensures RowsMatch(RowsOf(LoadOf(env, c, points), docOfId, order), DumpOf(LoadOf(env, c, points), order))
  {
    var after := LoadOf(env, c, points);
    LoadHolds(env, c, points);
    forall i | 0 <= i < |order|
      ensures At(after, order[i]).Some?
      ensures var meta := At(after, order[i]).value.metadata;
              RowAt(after, docOfId, order[i]) == IndexAccounting.Row(DocIn(meta), TotalIn(meta))
    {
      assert Loaded(env, after, points, order[i]);
      var j :| 0 <= j < |points| && KeyOf(env, after, points[j]) == order[i];
      if c.Qdrant? {
        BackIsPointIffClean(env, c, points[j]);
      }
      LoadedRow(env, after, docOfId, points[j], order[i]);
    }
    RowsMatchDump(after, docOfId, order);
  }

  lemma SameCounts(a: seq<IndexAccounting.Row>, b: seq<IndexAccounting.Row>, p: seq<Point>, q: seq<Point>, doc: int)
    requires RowsMatch(a, p) && RowsMatch(b, q) && SamePoints(p, q)
    requires forall i, j :: 0 <= i < |p| && 0 <= j < |p| && DocIn(p[i].metadata) == DocIn(p[j].metadata) ==>
               TotalIn(p[i].metadata) == TotalIn(p[j].metadata)
    ensures IndexAccounting.CountOf(a, doc) == IndexAccounting.CountOf(b, doc)
    ensures IndexAccounting.TotalOf(a, doc) == IndexAccounting.TotalOf(b, doc)
  {
    CountIsPoints(a, p, doc);
    CountIsPoints(b, q, doc);
    assert Distinct(p) && Distinct(q);
    SameCount(p, q, (x: Point) => DocIn(x.metadata) == Some(doc));
    var total := None;
    if i :| 0 <= i < |p| && DocIn(p[i].metadata) == Some(doc) {
      total := TotalIn(p[i].metadata);
      assert p[i] in q;
    }
    forall j | 0 <= j < |q| && DocIn(q[j].metadata) == Some(doc)
      ensures TotalIn(q[j].metadata) == total && HasDoc(p, doc)
    {
      assert q[j] in p;
    }
    TotalIsShared(a, p, doc, total);
    TotalIsShared(b, q, doc, total);
  }

  /** Loaded from the same points, Chroma and Qdrant count the same chunks for
      every document and expect the same total, in whatever order they list
      them; so they agree on which documents are fully indexed. */
  lemma CountsAgree(env: Env, chroma: Contents, qdrant: Contents, docOfId: string -> Option<int>, points: seq<Point>,
                    order: seq<string>, order': seq<string>, doc: int)
    requires Valid(env) && DistinctIds(points) && AllClean(points) && Aligned(docOfId, points)
    requires chroma.Chroma? && KeysOf(chroma) == {} && Lists(LoadOf(env, chroma, points), order)
    requires qdrant.Qdrant? && KeysOf(qdrant) == {} && Lists(LoadOf(env, qdrant, points), order')
    ensures var a := RowsOf(LoadOf(env, chroma, points), docOfId, order);
            var b := RowsOf(LoadOf(env, qdrant, points), docOfId, order');
            && IndexAccounting.CountOf(a, doc) == IndexAccounting.CountOf(b, doc)
            && IndexAccounting.TotalOf(a, doc) == IndexAccounting.TotalOf(b, doc)
            && (IndexAccounting.Counted(a, doc) <==> IndexAccounting.Counted(b, doc))
            && IndexAccounting.CountOf(a, doc) == |PointsOf(points, doc)|
            && (forall i, total: nat ::
                  i in PointsOf(points, doc) && HasNumber(points[i].metadata, TotalChunks, total) ==>
                  IndexAccounting.TotalOf(a, doc) == Some(total))
  {
    var p, q := DumpOf(LoadOf(env, chroma, points), order), DumpOf(LoadOf(env, qdrant, points), order');
    var a := RowsOf(LoadOf(env, chroma, points), docOfId, order);
    var b := RowsOf(LoadOf(env, qdrant, points), docOfId, order');
    LoadedRowsMatch(env, chroma, docOfId, points, order);
    LoadedRowsMatch(env, qdrant, docOfId, points, order');
    RoundTripIff(env, chroma, points, order);
    RoundTripIff(env, qdrant, points, order');
    assert SamePoints(p, q);
    forall i, j | 0 <= i < |p| && 0 <= j < |p| && DocIn(p[i].metadata) == DocIn(p[j].metadata)
      ensures TotalIn(p[i].metadata) == TotalIn(p[j].metadata)
    {
      assert p[i] in points && p[j] in points;
    }
    SameCounts(a, b, p, q, doc);
    CountsAreOfPoints(a, p, points, doc);
  }

  ghost predicate HasNumber(meta: Meta, f: Field, n: int) {
    f in meta && meta[f] == Number(n)
  }

  /** The points whose metadata names the document. */
  ghost function PointsOf(points: seq<Point>, doc: int): set<int> {
    set i | 0 <= i < |points| && HasNumber(points[i].metadata, DocumentId, doc)
  }

  lemma {:induction false} PointsAreCounted(points: seq<Point>, doc: int)
    ensures CountWhere(points, (p: Point) => DocIn(p.metadata) == Some(doc)) == |PointsOf(points, doc)|
  {
    if points == [] {
      assert PointsOf(points, doc) == {};
    } else {
      var n := |points| - 1;
      PointsAreCounted(points[..n], doc);
      PointsOfNext(points, doc);
    }
  }

  lemma PointsOfNext(points: seq<Point>, doc: int)
    requires points != []
    ensures var n := |points| - 1;
            && n !in PointsOf(points[..n], doc)
            && PointsOf(points, doc) == PointsOf(points[..n], doc)
                                        + if DocIn(points[n].metadata) == Some(doc) then {n} else {}
  {
    var n := |points| - 1;
    assert DocIn(points[n].metadata) == Some(doc) <==> HasNumber(points[n].metadata, DocumentId, doc);
    forall i ensures i in PointsOf(points, doc) <==>
                       i in PointsOf(points[..n], doc) || (i == n && DocIn(points[n].metadata) == Some(doc))
    {
    }
  }

  lemma CountsAreOfPoints(rows: seq<IndexAccounting.Row>, dumped: seq<Point>, points: seq<Point>, doc: int)
    requires RowsMatch(rows, dumped) && SamePoints(dumped, points)
    requires forall i, j ::
               0 <= i < |dumped| && 0 <= j < |dumped| && DocIn(dumped[i].metadata) == DocIn(dumped[j].metadata) ==>
               TotalIn(dumped[i].metadata) == TotalIn(dumped[j].metadata)
    ensures IndexAccounting.CountOf(rows, doc) == |PointsOf(points, doc)|
    ensures forall i, total: nat :: i in PointsOf(points, doc) && HasNumber(points[i].metadata, TotalChunks, total) ==>
              IndexAccounting.TotalOf(rows, doc) == Some(total)
  {
    CountIsPoints(rows, dumped, doc);
    assert Distinct(dumped) && Distinct(points);
    SameCount(dumped, points, (x: Point) => DocIn(x.metadata) == Some(doc));
    PointsAreCounted(points, doc);
    forall i, total: nat | i in PointsOf(points, doc) && HasNumber(points[i].metadata, TotalChunks, total)
      ensures IndexAccounting.TotalOf(rows, doc) == Some(total)
    {
      assert points[i] in dumped;
      var j :| 0 <= j < |dumped| && dumped[j] == points[i];
      TotalIsShared(rows, dumped, doc, Some(total));
    }
  }
}
