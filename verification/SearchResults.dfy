/** Reranking and result assembly: `_BaseHTTPReranker.rerank` with the two
    response readers (backend/rerankers.py) and `_assemble_doc_results`
    (backend/vector_store.py). */
module SearchResults {
  import opened Collections

  // ---- Reading a rerank response ----

  /** One entry of the response; a field that is missing is `None`. */
  datatype Item = Item(index: Option<int>, relevance: Option<real>, score: Option<real>)

  datatype Flavour = Cohere | TEI

  datatype Pair = Pair(index: int, score: real)

  function Given<T>(a: Option<T>, other: T): T {
    if a.Some? then a.value else other
  }

  function ScoreOf(flavour: Flavour, item: Item): real {
    match flavour
    case Cohere => Given(item.relevance, Given(item.score, 0.0))
    case TEI => Given(item.score, 0.0)
  }

  ghost predicate Mentions(flavour: Flavour, item: Item, pair: Pair) {
    && item.index == Some(pair.index)
    && match flavour
       case Cohere =>
         if item.relevance.Some? then item.relevance == Some(pair.score)
         else if item.score.Some? then item.score == Some(pair.score)
         else pair.score == 0.0
       case TEI => if item.score.Some? then item.score == Some(pair.score) else pair.score == 0.0
  }

  /** `pairs[p]` comes from item `origin[p]`; every item with an index is used. */
  ghost predicate ComesFrom(flavour: Flavour, items: seq<Item>, pairs: seq<Pair>, origin: seq<nat>) {
    && |origin| == |pairs|
    && (forall p :: 0 <= p < |pairs| ==> origin[p] < |items| && Mentions(flavour, items[origin[p]], pairs[p]))
    && (forall p, q :: 0 <= p < q < |pairs| ==> origin[p] < origin[q])
    && (forall i :: 0 <= i < |items| && items[i].index.Some? ==> i in origin)
  }

  /** `_extract`: items without an index are skipped, the rest keep their order. */
  method Extract(flavour: Flavour, items: seq<Item>) returns (pairs: seq<Pair>)
    ensures exists origin :: ComesFrom(flavour, items, pairs, origin)
  {
    pairs := [];
    ghost var origin: seq<nat> := [];
    for i := 0 to |items|
      invariant ComesFrom(flavour, items[..i], pairs, origin)
    {
      if items[i].index.Some? {
        pairs := pairs + [Pair(items[i].index.value, ScoreOf(flavour, items[i]))];
        origin := origin + [i];
      }
    }
    PrefixEnds(items);
  }

  // ---- Scores in input order ----

  datatype Response = Failure | Pairs(pairs: seq<Pair>)

  function Clamp(x: real): real {
    if x < 0.0 then 0.0 else if x > 1.0 then 1.0 else x
  }

  /** What the response says about passage `i`: its last mention counts. */
  function ScoreFor(pairs: seq<Pair>, i: int): real {
    if pairs == [] then 0.0
    else
      var last := pairs[|pairs| - 1];
      if last.index == i then Clamp(last.score) else ScoreFor(pairs[..|pairs| - 1], i)
  }

  ghost predicate LastMention(pairs: seq<Pair>, i: int, p: int) {
    0 <= p < |pairs| && pairs[p].index == i && forall q :: p < q < |pairs| ==> pairs[q].index != i
  }

  /** Passage `i` gets `x`: its last mention, brought into 0..1, or 0 when it is
      not mentioned. */
  ghost predicate ScoreGiven(pairs: seq<Pair>, i: int, x: real) {
    && ((forall p :: 0 <= p < |pairs| ==> pairs[p].index != i) ==> x == 0.0)
    && (forall p :: LastMention(pairs, i, p) ==>
          && (0.0 <= pairs[p].score <= 1.0 ==> x == pairs[p].score)
          && (pairs[p].score < 0.0 ==> x == 0.0)
          && (pairs[p].score > 1.0 ==> x == 1.0))
  }

  lemma MentionsBeforeLast(pairs: seq<Pair>, i: int, x: real)
    requires pairs != [] && pairs[|pairs| - 1].index != i
    ensures ScoreGiven(pairs, i, x) <==> ScoreGiven(pairs[..|pairs| - 1], i, x)
  {
    var init := pairs[..|pairs| - 1];
    assert forall p :: 0 <= p < |init| ==> init[p] == pairs[p];
    assert forall p :: LastMention(pairs, i, p) <==> LastMention(init, i, p);
  }

  lemma {:induction false} ScoreForIsGiven(pairs: seq<Pair>, i: int, x: real)
    ensures ScoreGiven(pairs, i, x) <==> x == ScoreFor(pairs, i)
  {
    if pairs != [] {
      var n := |pairs| - 1;
      if pairs[n].index == i {
        assert LastMention(pairs, i, n);
      } else {
        MentionsBeforeLast(pairs, i, x);
        ScoreForIsGiven(pairs[..n], i, x);
      }
    }
  }

  method Rerank(n: nat, response: Response) returns (scores: seq<real>)
    ensures |scores| == n
    ensures response.Failure? ==> forall i :: 0 <= i < n ==> scores[i] == 0.5
    ensures response.Pairs? ==> forall i :: 0 <= i < n ==> ScoreGiven(response.pairs, i, scores[i])
    ensures response.Pairs? ==> forall i :: 0 <= i < n ==> scores[i] == ScoreFor(response.pairs, i)
  {
    if n == 0 {
      return [];
    }
    if response.Failure? {
      return seq(n, _ => 0.5);
    }
    var slots := new real[n](_ => 0.0);
    var pairs := response.pairs;
    for p := 0 to |pairs|
      invariant forall i :: 0 <= i < n ==> slots[i] == ScoreFor(pairs[..p], i)
    {
      assert pairs[..p + 1][..p] == pairs[..p];
      var pair := pairs[p];
      if 0 <= pair.index < n {
        slots[pair.index] := Clamp(pair.score);
      }
    }
    PrefixEnds(pairs);
    forall i | 0 <= i < n ensures ScoreGiven(pairs, i, slots[i]) {
      ScoreForIsGiven(pairs, i, slots[i]);
    }
    scores := slots[..];
  }

  // ---- The order of the response does not matter, exactly when it is consistent ----

  /** No two pairs give one passage different scores. */
  ghost predicate Consistent(pairs: seq<Pair>, n: nat) {
    forall a, b ::
      0 <= a < |pairs| && 0 <= b < |pairs| && pairs[a].index == pairs[b].index && 0 <= pairs[a].index < n ==>
      Clamp(pairs[a].score) == Clamp(pairs[b].score)
  }

  ghost predicate SameScores(pairs: seq<Pair>, other: seq<Pair>, n: nat) {
    forall i :: 0 <= i < n ==> ScoreFor(pairs, i) == ScoreFor(other, i)
  }

  ghost predicate OrderIrrelevant(pairs: seq<Pair>, n: nat) {
    forall other: seq<Pair> :: multiset(other) == multiset(pairs) ==> SameScores(pairs, other, n)
  }

  lemma {:induction false} ScoreComesFromAPair(pairs: seq<Pair>, i: int) returns (p: int)
    ensures -1 <= p < |pairs|
    ensures p == -1 ==> ScoreFor(pairs, i) == 0.0 && forall q :: q in pairs ==> q.index != i
    ensures p >= 0 ==> pairs[p].index == i && ScoreFor(pairs, i) == Clamp(pairs[p].score)
  {
    if pairs == [] {
      p := -1;
    } else if pairs[|pairs| - 1].index == i {
      p := |pairs| - 1;
    } else {
      p := ScoreComesFromAPair(pairs[..|pairs| - 1], i);
      assert pairs == pairs[..|pairs| - 1] + [pairs[|pairs| - 1]];
    }
  }

  lemma ConsistentIgnoresOrder(pairs: seq<Pair>, other: seq<Pair>, n: nat)
    requires Consistent(pairs, n) && multiset(other) == multiset(pairs)
    ensures SameScores(pairs, other, n)
  {
    assert forall q :: q in pairs <==> q in multiset(pairs);
    assert forall q :: q in other <==> q in multiset(other);
    forall i | 0 <= i < n ensures ScoreFor(pairs, i) == ScoreFor(other, i) {
      var p := ScoreComesFromAPair(pairs, i);
      var o := ScoreComesFromAPair(other, i);
      if o >= 0 {
        assert other[o] in pairs;
      }
      if p >= 0 {
        assert pairs[p] in other;
      }
    }
  }

  lemma LastPairDecides(pairs: seq<Pair>, a: nat) returns (other: seq<Pair>)
    requires a < |pairs|
    ensures multiset(other) == multiset(pairs) && ScoreFor(other, pairs[a].index) == Clamp(pairs[a].score)
  {
    other := pairs[..a] + pairs[a + 1..] + [pairs[a]];
    assert pairs == pairs[..a] + [pairs[a]] + pairs[a + 1..];
  }

  lemma OrderIrrelevantIffConsistent(pairs: seq<Pair>, n: nat)
    ensures OrderIrrelevant(pairs, n) <==> Consistent(pairs, n)
  {
    if Consistent(pairs, n) {
      forall other: seq<Pair> | multiset(other) == multiset(pairs) ensures SameScores(pairs, other, n) {
        ConsistentIgnoresOrder(pairs, other, n);
      }
    }
    if OrderIrrelevant(pairs, n) {
      forall a, b | 0 <= a < |pairs| && 0 <= b < |pairs| && pairs[a].index == pairs[b].index && 0 <= pairs[a].index < n
        ensures Clamp(pairs[a].score) == Clamp(pairs[b].score)
      {
        var endsWithA := LastPairDecides(pairs, a);
        var endsWithB := LastPairDecides(pairs, b);
        assert SameScores(pairs, endsWithA, n) && SameScores(pairs, endsWithB, n);
      }
    }
  }

  // ---- Assembling results per document ----

  datatype Candidate = Candidate(doc: int, title: string, passage: Option<string>, score: real)

  datatype SearchResult = SearchResult(doc: int, title: string, passage: string, score: real)

  /** `rerank_scores[i] if rerank_scores is not None else c["score"]` */
  function Effective(cands: seq<Candidate>, rerank: Option<seq<real>>): (scores: seq<real>)
    requires rerank.Some? ==> |rerank.value| == |cands|
    ensures |scores| == |cands|
  {
    if rerank.Some? then rerank.value else seq(|cands|, i requires 0 <= i < |cands| => cands[i].score)
  }

  /** Each candidate's own score. */
  ghost predicate VectorScores(cands: seq<Candidate>, scores: seq<real>) {
    |scores| == |cands| && forall i :: 0 <= i < |scores| ==> scores[i] == cands[i].score
  }

  /** Where a document first appears among the candidates. */
  ghost function First(cands: seq<Candidate>, doc: int): (k: nat)
    ensures k <= |cands| && (k < |cands| ==> cands[k].doc == doc)
    ensures forall j :: 0 <= j < k ==> cands[j].doc != doc
  {
    if cands == [] then 0
    else if cands[0].doc == doc then 0
    else
      assert forall j :: 0 < j < |cands| ==> cands[j] == cands[1..][j - 1];
      First(cands[1..], doc) + 1
  }

  /** Among the first `n` candidates, `k` is the first to attain the greatest
      score of its document. */
  ghost predicate BestAt(cands: seq<Candidate>, scores: seq<real>, n: nat, k: nat) {
    && k < n <= |cands| == |scores|
    && cands[k].doc != 0
    && (forall j :: 0 <= j < n && cands[j].doc == cands[k].doc ==> scores[j] <= scores[k])
    && (forall j :: 0 <= j < k && cands[j].doc == cands[k].doc ==> scores[j] < scores[k])
  }

  ghost predicate Eligible(cands: seq<Candidate>, scores: seq<real>, minScore: real, k: nat) {
    BestAt(cands, scores, |cands|, k) && scores[k] >= minScore
  }

  /** Higher score first; equal scores in order of first appearance. */
  ghost predicate Outranks(cands: seq<Candidate>, scores: seq<real>, a: nat, b: nat) {
    && a < |cands| == |scores| && b < |cands|
    && (scores[a] > scores[b] || (scores[a] == scores[b] && First(cands, cands[a].doc) < First(cands, cands[b].doc)))
  }

  /** `picks` are the `topN` highest-ranking eligible candidates, in order. */
  ghost predicate IsRanking(cands: seq<Candidate>, scores: seq<real>, minScore: real, topN: nat, picks: seq<nat>) {
    IsTop(Eligibility(cands, scores, minScore), Order(cands, scores), topN, picks)
  }

  ghost function Eligibility(cands: seq<Candidate>, scores: seq<real>, minScore: real): nat -> bool {
    (k: nat) => Eligible(cands, scores, minScore, k)
  }

  ghost function Order(cands: seq<Candidate>, scores: seq<real>): (nat, nat) -> bool {
    (a: nat, b: nat) => Outranks(cands, scores, a, b)
  }

  /** What a search shows for a candidate. */
  ghost predicate Shows(c: Candidate, score: real, r: SearchResult) {
    && r.doc == c.doc && r.title == c.title && r.score == score
    && (c.passage == Some(r.passage) || (c.passage == None && r.passage == ""))
  }

  ghost predicate ShowsPicks(cands: seq<Candidate>, scores: seq<real>, picks: seq<nat>, results: seq<SearchResult>)
    requires |cands| == |scores|
  {
    && |results| == |picks|
    && (forall j :: 0 <= j < |picks| ==> picks[j] < |cands| && Shows(cands[picks[j]], scores[picks[j]], results[j]))
  }

  // ---- The grouping loop ----

  /** A value of the `seen` dictionary, with its key. */
  datatype Entry = Entry(doc: int, score: real, passage: Option<string>, title: string)

  function EntryOf(cands: seq<Candidate>, scores: seq<real>, k: nat): Entry
    requires k < |cands| == |scores|
  {
    Entry(cands[k].doc, scores[k], cands[k].passage, cands[k].title)
  }

  /** The entry for `d` is the best of the first `n` candidates, number `k`. */
  ghost predicate EntryRight(cands: seq<Candidate>, scores: seq<real>, n: nat, d: int, e: Entry, k: nat) {
    BestAt(cands, scores, n, k) && cands[k].doc == d && e == EntryOf(cands, scores, k)
  }

  /** `order` holds the keys of the dictionary as inserted. */
  ghost predicate OrderRight(cands: seq<Candidate>, n: nat, order: seq<int>) {
    && (forall p :: 0 <= p < |order| ==> First(cands, order[p]) < n)
    && (forall p, q :: 0 <= p < q < |order| ==> First(cands, order[p]) < First(cands, order[q]))
  }

  ghost predicate KeysRight(order: seq<int>, seen: map<int, Entry>, at: map<int, nat>) {
    && (forall p :: 0 <= p < |order| ==> order[p] in seen)
    && (forall d :: d in seen ==> d in order && d in at)
  }

  /** State of the grouping loop after `n` candidates; `at` says which candidate
      an entry is from. */
  ghost predicate Grouped(cands: seq<Candidate>, scores: seq<real>, n: nat,
                          order: seq<int>, seen: map<int, Entry>, at: map<int, nat>)
  {
    && n <= |cands| == |scores|
    && KeysRight(order, seen, at) && OrderRight(cands, n, order)
    && (forall d :: d in seen ==> EntryRight(cands, scores, n, d, seen[d], at[d]))
    && (forall k :: 0 <= k < n && cands[k].doc != 0 ==> cands[k].doc in seen)
  }

  lemma EntryStays(cands: seq<Candidate>, scores: seq<real>, n: nat, d: int, e: Entry, k: nat)
    requires n < |cands| && EntryRight(cands, scores, n, d, e, k)
    requires cands[n].doc == d ==> scores[n] <= e.score
    ensures EntryRight(cands, scores, n + 1, d, e, k)
  {
  }

  lemma EntryChanges(cands: seq<Candidate>, scores: seq<real>, n: nat, d: int, e: Entry, k: nat)
    requires n < |cands| && EntryRight(cands, scores, n, d, e, k)
    requires cands[n].doc == d && scores[n] > e.score
    ensures EntryRight(cands, scores, n + 1, d, EntryOf(cands, scores, n), n)
  {
  }

  lemma OrderGrows(cands: seq<Candidate>, n: nat, order: seq<int>, d: int)
    requires n < |cands| && OrderRight(cands, n, order)
    requires d == cands[n].doc && forall k :: 0 <= k < n ==> cands[k].doc != d
    ensures OrderRight(cands, n + 1, order + [d])
  {
  }

  lemma EntriesStay(cands: seq<Candidate>, scores: seq<real>, n: nat, order: seq<int>, seen: map<int, Entry>,
                    at: map<int, nat>)
    requires n < |cands| && Grouped(cands, scores, n, order, seen, at)
    ensures forall d :: d in seen && (cands[n].doc == d ==> scores[n] <= seen[d].score) ==>
              EntryRight(cands, scores, n + 1, d, seen[d], at[d])
  {
    forall d | d in seen && (cands[n].doc == d ==> scores[n] <= seen[d].score)
      ensures EntryRight(cands, scores, n + 1, d, seen[d], at[d])
    {
      EntryStays(cands, scores, n, d, seen[d], at[d]);
    }
  }

  lemma CandidateSkipped(cands: seq<Candidate>, scores: seq<real>, n: nat, order: seq<int>, seen: map<int, Entry>,
                         at: map<int, nat>)
    requires n < |cands| && Grouped(cands, scores, n, order, seen, at)
    requires cands[n].doc == 0 || (cands[n].doc in seen && scores[n] <= seen[cands[n].doc].score)
    ensures Grouped(cands, scores, n + 1, order, seen, at)
  {
    EntriesStay(cands, scores, n, order, seen, at);
    forall d | d in seen ensures EntryRight(cands, scores, n + 1, d, seen[d], at[d]) {
      assert EntryRight(cands, scores, n, d, seen[d], at[d]);
    }
  }

  lemma CandidateReplaces(cands: seq<Candidate>, scores: seq<real>, n: nat, order: seq<int>, seen: map<int, Entry>,
                          at: map<int, nat>)
    requires n < |cands| && Grouped(cands, scores, n, order, seen, at)
    requires cands[n].doc in seen && scores[n] > seen[cands[n].doc].score
    ensures Grouped(cands, scores, n + 1, order, seen[cands[n].doc := EntryOf(cands, scores, n)], at[cands[n].doc := n])
  {
    var d := cands[n].doc;
    EntriesStay(cands, scores, n, order, seen, at);
    EntryChanges(cands, scores, n, d, seen[d], at[d]);
  }

  lemma CandidateJoins(cands: seq<Candidate>, scores: seq<real>, n: nat, order: seq<int>, seen: map<int, Entry>,
                       at: map<int, nat>)
    requires n < |cands| && Grouped(cands, scores, n, order, seen, at)
    requires cands[n].doc != 0 && cands[n].doc !in seen
    ensures Grouped(cands, scores, n + 1, order + [cands[n].doc], seen[cands[n].doc := EntryOf(cands, scores, n)],
                    at[cands[n].doc := n])
  {
    var d := cands[n].doc;
    EntriesStay(cands, scores, n, order, seen, at);
    OrderGrows(cands, n, order, d);
    assert EntryRight(cands, scores, n + 1, d, EntryOf(cands, scores, n), n);
  }

  method GroupByDoc(cands: seq<Candidate>, scores: seq<real>)
    returns (order: seq<int>, seen: map<int, Entry>, ghost at: map<int, nat>)
    requires |cands| == |scores|
    ensures Grouped(cands, scores, |cands|, order, seen, at)
  {
    order, seen, at := [], map[], map[];
    for i := 0 to |cands|
      invariant Grouped(cands, scores, i, order, seen, at)
    {
      var c := cands[i];
      if c.doc == 0 {
        CandidateSkipped(cands, scores, i, order, seen, at);
        continue;
      }
      if c.doc !in seen || scores[i] > seen[c.doc].score {
        var e := Entry(c.doc, scores[i], c.passage, c.title);
        if c.doc in seen {
          CandidateReplaces(cands, scores, i, order, seen, at);
        } else {
          CandidateJoins(cands, scores, i, order, seen, at);
          order := order + [c.doc];
        }
        seen, at := seen[c.doc := e], at[c.doc := i];
      } else {
        CandidateSkipped(cands, scores, i, order, seen, at);
      }
    }
  }

  // ---- Stable sorting keeps ties in order of appearance ----

  ghost predicate LexBefore<T>(a: T, b: T, key: T -> real, position: T -> int) {
    key(a) < key(b) || (key(a) == key(b) && position(a) < position(b))
  }

  ghost predicate Lexicographic<T>(s: seq<T>, key: T -> real, position: T -> int) {
    forall i, j :: 0 <= i < j < |s| ==> LexBefore(s[i], s[j], key, position)
  }

  ghost predicate Precedes<T>(x: T, s: seq<T>, position: T -> int) {
    forall i :: 0 <= i < |s| ==> position(x) < position(s[i])
  }

  lemma LexicographicPush<T>(head: T, tail: seq<T>, key: T -> real, position: T -> int)
    requires Lexicographic(tail, key, position)
    requires forall j :: 0 <= j < |tail| ==> LexBefore(head, tail[j], key, position)
    ensures Lexicographic([head] + tail, key, position)
  {
  }

  lemma InsertMembers<T>(x: T, s: seq<T>, key: T -> real)
    ensures forall j :: 0 <= j < |s| + 1 ==> InsertBy(x, s, key)[j] == x || InsertBy(x, s, key)[j] in s
  {
  }

  lemma {:induction false} InsertIsLexicographic<T>(x: T, s: seq<T>, key: T -> real, position: T -> int)
    requires Lexicographic(s, key, position) && Precedes(x, s, position)
    ensures Lexicographic(InsertBy(x, s, key), key, position)
  {
    if s == [] || key(x) <= key(s[0]) {
      assert forall j :: 0 < j < |s| ==> LexBefore(s[0], s[j], key, position);
      LexicographicPush(x, s, key, position);
    } else {
      var rest := InsertBy(x, s[1..], key);
      assert Lexicographic(s[1..], key, position) && Precedes(x, s[1..], position);
      InsertIsLexicographic(x, s[1..], key, position);
      InsertMembers(x, s[1..], key);
      LexicographicPush(s[0], rest, key, position);
    }
  }

  lemma {:induction false} SortIsLexicographic<T>(s: seq<T>, key: T -> real, position: T -> int)
    requires forall i, j :: 0 <= i < j < |s| ==> position(s[i]) < position(s[j])
    ensures Lexicographic(SortBy(s, key), key, position)
  {
    if s != [] {
      var sorted := SortBy(s[1..], key);
      SortIsLexicographic(s[1..], key, position);
      forall i | 0 <= i < |sorted| ensures position(s[0]) < position(sorted[i]) {
        assert sorted[i] in multiset(sorted);
        assert sorted[i] in s[1..];
      }
      InsertIsLexicographic(s[0], sorted, key, position);
    }
  }

  // ---- The best few of a strict order ----

  /** `picks` are the best `n` of the eligible elements, best first. */
  ghost predicate IsTop<T(!new)>(eligible: T -> bool, above: (T, T) -> bool, n: nat, picks: seq<T>) {
    && |picks| <= n
    && (forall j :: 0 <= j < |picks| ==> eligible(picks[j]))
    && (forall i, j :: 0 <= i < j < |picks| ==> above(picks[i], picks[j]))
    && (forall k :: eligible(k) ==> k in picks || (|picks| == n && BelowAll(above, picks, k)))
  }

  ghost predicate BelowAll<T>(above: (T, T) -> bool, picks: seq<T>, k: T) {
    forall j :: 0 <= j < |picks| ==> above(picks[j], k)
  }

  ghost predicate Asymmetric<T(!new)>(above: (T, T) -> bool) {
    forall a, b :: above(a, b) ==> !above(b, a)
  }

  lemma Truncate<T(!new)>(eligible: T -> bool, above: (T, T) -> bool, n: nat, picks: seq<T>)
    requires IsTop(eligible, above, |picks|, picks) && forall k :: eligible(k) ==> k in picks
    ensures IsTop(eligible, above, n, if |picks| > n then picks[..n] else picks)
  {
  }

  lemma SamePick<T(!new)>(eligible: T -> bool, above: (T, T) -> bool, n: nat, a: seq<T>, b: seq<T>, j: nat)
    requires Asymmetric(above) && IsTop(eligible, above, n, a) && IsTop(eligible, above, n, b)
    requires j < |a| && j <= |b| && forall i :: 0 <= i < j ==> a[i] == b[i]
    ensures j < |b| && (a[j] == b[j] || above(b[j], a[j]))
  {
    assert eligible(a[j]);
    forall i | 0 <= i < j ensures b[i] != a[j] {
      assert above(a[i], a[j]);
    }
    if a[j] in b {
      var m :| 0 <= m < |b| && b[m] == a[j];
      assert m >= j;
      assert m > j ==> above(b[j], b[m]);
    } else {
      assert |b| == n && BelowAll(above, b, a[j]);
    }
  }

  lemma {:induction false} TopsAgree<T(!new)>(eligible: T -> bool, above: (T, T) -> bool, n: nat, a: seq<T>, b: seq<T>,
                                       m: nat)
    requires Asymmetric(above) && IsTop(eligible, above, n, a) && IsTop(eligible, above, n, b)
    requires m <= |a|
    ensures m <= |b| && forall i :: 0 <= i < m ==> a[i] == b[i]
  {
    if m > 0 {
      TopsAgree(eligible, above, n, a, b, m - 1);
      SamePick(eligible, above, n, a, b, m - 1);
      SamePick(eligible, above, n, b, a, m - 1);
    }
  }

  lemma TopIsUnique<T(!new)>(eligible: T -> bool, above: (T, T) -> bool, n: nat, a: seq<T>, b: seq<T>)
    requires Asymmetric(above) && IsTop(eligible, above, n, a) && IsTop(eligible, above, n, b)
    ensures a == b
  {
    TopsAgree(eligible, above, n, a, b, |a|);
    TopsAgree(eligible, above, n, b, a, |b|);
  }

  // ---- `_assemble_doc_results` ----

  const BY_SCORE := (e: Entry) => -e.score

  ghost function FirstOf(cands: seq<Candidate>): Entry -> int {
    (e: Entry) => First(cands, e.doc)
  }

  lemma SortedItemsOutrank(cands: seq<Candidate>, scores: seq<real>, order: seq<int>, listed: seq<Entry>)
    requires OrderRight(cands, |cands|, order) && |listed| == |order|
    requires forall p :: 0 <= p < |order| ==> listed[p].doc == order[p]
    ensures Lexicographic(SortBy(listed, BY_SCORE), BY_SCORE, FirstOf(cands))
  {
    SortIsLexicographic(listed, BY_SCORE, FirstOf(cands));
  }

  /** `items` are the entries of the dictionary. */
  ghost predicate ItemsOf(seen: map<int, Entry>, items: seq<Entry>) {
    && (forall p :: 0 <= p < |items| ==> items[p].doc in seen && items[p] == seen[items[p].doc])
    && (forall d :: d in seen ==> seen[d] in items)
  }

  lemma SortKeepsItems(seen: map<int, Entry>, listed: seq<Entry>, items: seq<Entry>)
    requires ItemsOf(seen, listed) && multiset(listed) == multiset(items)
    ensures ItemsOf(seen, items)
  {
    forall p | 0 <= p < |items| ensures items[p].doc in seen && items[p] == seen[items[p].doc] {
      assert items[p] in multiset(items);
      assert items[p] in listed;
    }
    forall d | d in seen ensures seen[d] in items {
      assert seen[d] in multiset(listed);
    }
  }

  lemma ListedAreItems(order: seq<int>, seen: map<int, Entry>, at: map<int, nat>, listed: seq<Entry>)
    requires KeysRight(order, seen, at) && |listed| == |order|
    requires forall p :: 0 <= p < |order| ==> listed[p] == seen[order[p]]
    requires forall d :: d in seen ==> seen[d].doc == d
    ensures ItemsOf(seen, listed)
  {
    forall p | 0 <= p < |listed| ensures listed[p].doc in seen && listed[p] == seen[listed[p].doc] {
      var d := order[p];
      assert d in seen && listed[p] == seen[d];
      assert seen[d].doc == d;
    }
    forall d | d in seen ensures seen[d] in listed {
      var p :| 0 <= p < |order| && order[p] == d;
      assert listed[p] == seen[d];
    }
  }

  lemma EntriesKnowTheirDoc(cands: seq<Candidate>, scores: seq<real>, n: nat, order: seq<int>, seen: map<int, Entry>,
                            at: map<int, nat>)
    requires Grouped(cands, scores, n, order, seen, at)
    ensures forall d :: d in seen ==> seen[d].doc == d
  {
  }

  /** `sorted(seen.items(), key=..., reverse=True)` */
  method SortedItems(cands: seq<Candidate>, scores: seq<real>, order: seq<int>, seen: map<int, Entry>,
                     ghost at: map<int, nat>)
    returns (items: seq<Entry>)
    requires Grouped(cands, scores, |cands|, order, seen, at)
    ensures ItemsOf(seen, items) && Lexicographic(items, BY_SCORE, FirstOf(cands))
  {
    var listed := seq(|order|, p requires 0 <= p < |order| && order[p] in seen => seen[order[p]]);
    items := SortBy(listed, BY_SCORE);
    EntriesKnowTheirDoc(cands, scores, |cands|, order, seen, at);
    ListedAreItems(order, seen, at, listed);
    SortKeepsItems(seen, listed, items);
    SortedItemsOutrank(cands, scores, order, listed);
  }

  /** The candidates the sorted items come from, best first. */
  lemma RankedCandidates(cands: seq<Candidate>, scores: seq<real>, order: seq<int>, seen: map<int, Entry>,
                         at: map<int, nat>, items: seq<Entry>) returns (ranked: seq<nat>)
    requires Grouped(cands, scores, |cands|, order, seen, at)
    requires ItemsOf(seen, items) && Lexicographic(items, BY_SCORE, FirstOf(cands))
    ensures |ranked| == |items|
    ensures forall p :: 0 <= p < |items| ==> EntryRight(cands, scores, |cands|, items[p].doc, items[p], ranked[p])
    ensures forall p, q :: 0 <= p < q < |ranked| ==> Outranks(cands, scores, ranked[p], ranked[q])
    ensures forall k: nat :: BestAt(cands, scores, |cands|, k) ==> k in ranked
  {
    ranked := seq(|items|, p requires 0 <= p < |items| && items[p].doc in at => at[items[p].doc]);
    forall p, q | 0 <= p < q < |ranked| ensures Outranks(cands, scores, ranked[p], ranked[q]) {
      assert EntryRight(cands, scores, |cands|, items[p].doc, items[p], ranked[p]);
      assert EntryRight(cands, scores, |cands|, items[q].doc, items[q], ranked[q]);
    }
    forall k: nat | BestAt(cands, scores, |cands|, k) ensures k in ranked {
      var d := cands[k].doc;
      assert EntryRight(cands, scores, |cands|, d, seen[d], at[d]);
      assert at[d] == k;
      var p :| 0 <= p < |items| && items[p] == seen[d];
      assert ranked[p] == k;
    }
  }

  /** The items that reach `minScore`, in order. */
  method Selected(cands: seq<Candidate>, scores: seq<real>, items: seq<Entry>, ghost ranked: seq<nat>, minScore: real)
    returns (results: seq<SearchResult>, ghost picks: seq<nat>)
    requires |ranked| == |items| && |cands| == |scores|
    requires forall p :: 0 <= p < |items| ==> EntryRight(cands, scores, |cands|, items[p].doc, items[p], ranked[p])
    requires forall p, q :: 0 <= p < q < |ranked| ==> Outranks(cands, scores, ranked[p], ranked[q])
    ensures ShowsPicks(cands, scores, picks, results)
    ensures forall j :: 0 <= j < |picks| ==> Eligible(cands, scores, minScore, picks[j])
    ensures forall i, j :: 0 <= i < j < |picks| ==> Outranks(cands, scores, picks[i], picks[j])
    ensures forall q :: 0 <= q < |items| && items[q].score >= minScore ==> ranked[q] in picks
  {
    results, picks := [], [];
    for p := 0 to |items|
      invariant ShowsPicks(cands, scores, picks, results)
      invariant forall j :: 0 <= j < |picks| ==> Eligible(cands, scores, minScore, picks[j])
      invariant forall j, q :: 0 <= j < |picks| && p <= q < |ranked| ==> Outranks(cands, scores, picks[j], ranked[q])
      invariant forall i, j :: 0 <= i < j < |picks| ==> Outranks(cands, scores, picks[i], picks[j])
      invariant forall q :: 0 <= q < p && items[q].score >= minScore ==> ranked[q] in picks
    {
      assert EntryRight(cands, scores, |cands|, items[p].doc, items[p], ranked[p]);
      if items[p].score < minScore {
        continue;
      }
      results := results + [SearchResult(items[p].doc, items[p].title, Given(items[p].passage, ""), items[p].score)];
      picks := picks + [ranked[p]];
    }
  }

  ghost predicate AllPicked(eligible: nat -> bool, picks: seq<nat>) {
    forall k: nat :: eligible(k) ==> k in picks
  }

  lemma SelectedIsAll(cands: seq<Candidate>, scores: seq<real>, minScore: real,
                      items: seq<Entry>, ranked: seq<nat>, picks: seq<nat>)
    requires |ranked| == |items| && |cands| == |scores|
    requires forall p :: 0 <= p < |items| ==> EntryRight(cands, scores, |cands|, items[p].doc, items[p], ranked[p])
    requires forall k: nat :: BestAt(cands, scores, |cands|, k) ==> k in ranked
    requires forall q :: 0 <= q < |items| && items[q].score >= minScore ==> ranked[q] in picks
    ensures AllPicked(Eligibility(cands, scores, minScore), picks)
  {
  }

  /** Every eligible document, best first. */
  method AllResults(cands: seq<Candidate>, scores: seq<real>, minScore: real)
    returns (results: seq<SearchResult>, ghost picks: seq<nat>)
    requires |cands| == |scores|
    ensures ShowsPicks(cands, scores, picks, results)
    ensures IsRanking(cands, scores, minScore, |picks|, picks)
    ensures AllPicked(Eligibility(cands, scores, minScore), picks)
  {
    ghost var at;
    var order, seen;
    order, seen, at := GroupByDoc(cands, scores);
    var items := SortedItems(cands, scores, order, seen, at);
    ghost var ranked := RankedCandidates(cands, scores, order, seen, at, items);
    results, picks := Selected(cands, scores, items, ranked, minScore);
    SelectedIsAll(cands, scores, minScore, items, ranked, picks);
  }

  /** The answer a search promises: the `topN` highest-ranking eligible
      documents, best first. */
  ghost predicate IsAnswer(cands: seq<Candidate>, scores: seq<real>, minScore: real, topN: nat,
                           results: seq<SearchResult>)
  {
    |cands| == |scores| &&
    exists picks :: IsRanking(cands, scores, minScore, topN, picks) && ShowsPicks(cands, scores, picks, results)
  }

  method AssembleDocResults(cands: seq<Candidate>, rerank: Option<seq<real>>, minScore: real, topN: nat)
    returns (results: seq<SearchResult>)
    requires rerank.Some? ==> |rerank.value| == |cands|
    ensures rerank.Some? ==> IsAnswer(cands, rerank.value, minScore, topN, results)
    ensures rerank.None? ==> forall scores :: VectorScores(cands, scores) ==>
                               IsAnswer(cands, scores, minScore, topN, results)
  {
    var scores := Effective(cands, rerank);
    ghost var picks;
    results, picks := AllResults(cands, scores, minScore);
    Truncate(Eligibility(cands, scores, minScore), Order(cands, scores), topN, picks);
    if |results| > topN {
      results, picks := results[..topN], picks[..topN];
    }
    assert IsRanking(cands, scores, minScore, topN, picks) && ShowsPicks(cands, scores, picks, results);
    assert forall other :: rerank.None? && VectorScores(cands, other) ==> other == scores;
  }

  /** What the reranker, if any, and its response make of the scores. */
  ghost predicate ScoresMean(cands: seq<Candidate>, reranker: Option<Response>, scores: seq<real>) {
    && |scores| == |cands|
    && match reranker
       case None => VectorScores(cands, scores)
       case Some(Failure) => forall i :: 0 <= i < |scores| ==> scores[i] == 0.5
       case Some(Pairs(pairs)) => forall i :: 0 <= i < |scores| ==> ScoreGiven(pairs, i, scores[i])
  }

  /** The end of `search`: rerank the candidates, if there is a reranker, and
      assemble the results. */
  method RankAndAssemble(cands: seq<Candidate>, reranker: Option<Response>, minScore: real, topN: nat)
    returns (results: seq<SearchResult>)
    ensures exists scores :: ScoresMean(cands, reranker, scores) && IsAnswer(cands, scores, minScore, topN, results)
  {
    var rerank := None;
    if reranker.Some? && cands != [] {
      var scores := Rerank(|cands|, reranker.value);
      rerank := Some(scores);
    }
    results := AssembleDocResults(cands, rerank, minScore, topN);
    ghost var scores := Effective(cands, rerank);
    assert ScoresMean(cands, reranker, scores);
    assert rerank.None? ==> VectorScores(cands, scores);
    assert IsAnswer(cands, scores, minScore, topN, results);
  }

  // ---- The ranking is unique, so it depends on the scores alone ----

  lemma ShownAlike(c: Candidate, score: real, r: SearchResult, other: real, r': SearchResult)
    requires Shows(c, score, r) && Shows(c, other, r')
    ensures r.doc == r'.doc && r.title == r'.title && r.passage == r'.passage
    ensures score == other ==> r == r'
  {
  }

  lemma SamePicksSameResults(cands: seq<Candidate>, scores: seq<real>, picks: seq<nat>, results: seq<SearchResult>,
                             others: seq<SearchResult>)
    requires |cands| == |scores|
    requires ShowsPicks(cands, scores, picks, results) && ShowsPicks(cands, scores, picks, others)
    ensures results == others
  {
    forall j | 0 <= j < |picks| ensures results[j] == others[j] {
      ShownAlike(cands[picks[j]], scores[picks[j]], results[j], scores[picks[j]], others[j]);
    }
  }

  lemma AnswerIsUnique(cands: seq<Candidate>, scores: seq<real>, minScore: real, topN: nat,
                       results: seq<SearchResult>, others: seq<SearchResult>)
    requires IsAnswer(cands, scores, minScore, topN, results) && IsAnswer(cands, scores, minScore, topN, others)
    ensures results == others
  {
    var a :| IsRanking(cands, scores, minScore, topN, a) && ShowsPicks(cands, scores, a, results);
    var b :| IsRanking(cands, scores, minScore, topN, b) && ShowsPicks(cands, scores, b, others);
    TopIsUnique(Eligibility(cands, scores, minScore), Order(cands, scores), topN, a, b);
    SamePicksSameResults(cands, scores, a, results, others);
  }

  /** Through a consistent reranker, shuffling the response changes no result. */
  lemma ResultsIgnoreResponseOrder(cands: seq<Candidate>, minScore: real, topN: nat, pairs: seq<Pair>,
                                   shuffled: seq<Pair>, scores: seq<real>, scores': seq<real>,
                                   results: seq<SearchResult>, results': seq<SearchResult>)
    requires ScoresMean(cands, Some(Pairs(pairs)), scores) && ScoresMean(cands, Some(Pairs(shuffled)), scores')
    requires Consistent(pairs, |cands|) && multiset(shuffled) == multiset(pairs)
    requires IsAnswer(cands, scores, minScore, topN, results) && IsAnswer(cands, scores', minScore, topN, results')
    ensures results == results'
  {
    ConsistentIgnoresOrder(pairs, shuffled, |cands|);
    forall i | 0 <= i < |scores| ensures scores[i] == scores'[i] {
      ScoreForIsGiven(pairs, i, scores[i]);
      ScoreForIsGiven(shuffled, i, scores'[i]);
    }
    assert scores == scores';
    AnswerIsUnique(cands, scores, minScore, topN, results, results');
  }

  // ---- The fallback of a failed reranker ----

  ghost predicate Descending(cands: seq<Candidate>, scores: seq<real>) {
    |cands| == |scores| && forall i, j :: 0 <= i < j < |scores| ==> scores[i] >= scores[j]
  }

  ghost predicate FirstOfDoc(cands: seq<Candidate>, k: nat) {
    k < |cands| && cands[k].doc != 0 && First(cands, cands[k].doc) == k
  }

  lemma BestIsFirst(cands: seq<Candidate>, scores: seq<real>, k: nat)
    requires Descending(cands, scores)
    ensures BestAt(cands, scores, |cands|, k) <==> FirstOfDoc(cands, k)
  {
    if k < |cands| {
      var first := First(cands, cands[k].doc);
      assert first <= k && cands[first].doc == cands[k].doc;
    }
  }

  lemma FirstsRankByPlace(cands: seq<Candidate>, scores: seq<real>, a: nat, b: nat)
    requires Descending(cands, scores) && FirstOfDoc(cands, a) && FirstOfDoc(cands, b)
    ensures Outranks(cands, scores, a, b) <==> a < b
  {
  }

  lemma SameTop<T(!new)>(eligible: T -> bool, eligible': T -> bool, above: (T, T) -> bool, above': (T, T) -> bool,
                         n: nat, picks: seq<T>)
    requires IsTop(eligible, above, n, picks)
    requires forall k :: eligible(k) <==> eligible'(k)
    requires forall x, y :: eligible(x) && eligible(y) ==> (above(x, y) <==> above'(x, y))
    ensures IsTop(eligible', above', n, picks)
  {
    forall k | eligible'(k) && k !in picks ensures |picks| == n && BelowAll(above', picks, k) {
      assert eligible(k) && BelowAll(above, picks, k);
      assert forall j :: 0 <= j < |picks| ==> eligible(picks[j]);
    }
  }

  lemma TopIsEligible<T(!new)>(eligible: T -> bool, above: (T, T) -> bool, n: nat, picks: seq<T>)
    requires IsTop(eligible, above, n, picks)
    ensures picks == [] || exists k :: eligible(k)
  {
    assert picks == [] || eligible(picks[0]);
  }

  ghost predicate AllHalf(scores: seq<real>) {
    forall i :: 0 <= i < |scores| ==> scores[i] == 0.5
  }

  lemma RankingSurvives(cands: seq<Candidate>, scores: seq<real>, halves: seq<real>, minScore: real, topN: nat,
                        picks: seq<nat>)
    requires Descending(cands, scores) && |halves| == |cands| && AllHalf(halves) && minScore <= 0.5
    requires forall k: nat :: FirstOfDoc(cands, k) ==> scores[k] >= minScore
    requires IsRanking(cands, scores, minScore, topN, picks)
    ensures IsRanking(cands, halves, minScore, topN, picks)
  {
    var eligible, eligible' := Eligibility(cands, scores, minScore), Eligibility(cands, halves, minScore);
    var above, above' := Order(cands, scores), Order(cands, halves);
    forall k: nat
      ensures eligible(k) <==> FirstOfDoc(cands, k)
      ensures eligible'(k) <==> FirstOfDoc(cands, k)
    {
      BestIsFirst(cands, scores, k);
      BestIsFirst(cands, halves, k);
    }
    forall x: nat, y: nat | eligible(x) && eligible(y) ensures above(x, y) <==> above'(x, y) {
      FirstsRankByPlace(cands, scores, x, y);
      FirstsRankByPlace(cands, halves, x, y);
    }
    SameTop(eligible, eligible', above, above', topN, picks);
  }

  ghost predicate SameDocs(results: seq<SearchResult>, others: seq<SearchResult>) {
    && |results| == |others|
    && (forall j :: 0 <= j < |results| ==>
          && results[j].doc == others[j].doc && results[j].title == others[j].title
          && results[j].passage == others[j].passage)
  }

  lemma SamePicksSameDocs(cands: seq<Candidate>, scores: seq<real>, other: seq<real>, picks: seq<nat>,
                          results: seq<SearchResult>, others: seq<SearchResult>)
    requires |cands| == |scores| == |other|
    requires ShowsPicks(cands, scores, picks, results) && ShowsPicks(cands, other, picks, others)
    ensures SameDocs(results, others)
  {
    forall j | 0 <= j < |picks|
      ensures results[j].doc == others[j].doc && results[j].title == others[j].title
      ensures results[j].passage == others[j].passage
    {
      ShownAlike(cands[picks[j]], scores[picks[j]], results[j], other[picks[j]], others[j]);
    }
  }

  /** A reranker that fails gives every passage 0.5. Over candidates in vector
      order that shows the same documents and passages in the same order as no
      reranker at all, when neither rule drops a document; above a minimum of 0.5
      it shows nothing. */
  lemma FallbackPreservesOrder(cands: seq<Candidate>, scores: seq<real>, halves: seq<real>, minScore: real, topN: nat,
                               results: seq<SearchResult>, fallback: seq<SearchResult>)
    requires Descending(cands, scores) && |halves| == |cands| && AllHalf(halves)
    requires IsAnswer(cands, scores, minScore, topN, results) && IsAnswer(cands, halves, minScore, topN, fallback)
    ensures minScore <= 0.5 && (forall k: nat :: FirstOfDoc(cands, k) ==> scores[k] >= minScore) ==>
              SameDocs(results, fallback)
    ensures minScore > 0.5 ==> fallback == []
  {
    var a :| IsRanking(cands, scores, minScore, topN, a) && ShowsPicks(cands, scores, a, results);
    var b :| IsRanking(cands, halves, minScore, topN, b) && ShowsPicks(cands, halves, b, fallback);
    if minScore <= 0.5 && (forall k: nat :: FirstOfDoc(cands, k) ==> scores[k] >= minScore) {
      RankingSurvives(cands, scores, halves, minScore, topN, a);
      TopIsUnique(Eligibility(cands, halves, minScore), Order(cands, halves), topN, a, b);
      SamePicksSameDocs(cands, scores, halves, a, results, fallback);
    }
    if minScore > 0.5 {
      TopIsEligible(Eligibility(cands, halves, minScore), Order(cands, halves), topN, b);
    }
  }
}
