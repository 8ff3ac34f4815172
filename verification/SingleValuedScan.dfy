/** Classification of correspondents and document types, and why repeated
    rounds never ping-pong (`classify_single_valued_entity` and the second pass
    of `collect_scan_candidates` in backend/grooming.py). */
module SingleValuedScan {
  import opened Collections
  import opened ScanActions

  const UNMAPPED_INCUMBENT := -1

  /** What one entity's query found: evidence, the documents Paperless lists
      under it, and the incumbent name carried by its chunk payloads. */
  datatype EntityView = EntityView(id: int, evidence: Evidence, order: seq<int>, holders: set<int>,
                                   percentiles: map<int, real>, payload: map<int, string>)
  {
    predicate Names(d: int) {
      d in payload && payload[d] != ""
    }

    function Score(d: int): real
      requires d in evidence.scores
    {
      evidence.scores[d]
    }
  }

  /** All included entities of one type, in iteration order. Entity ids are
      positive keys, and Paperless gives a document at most one of them. */
  ghost predicate ValidViews(vs: seq<EntityView>) {
    && (forall i :: 0 <= i < |vs| ==> vs[i].id > 0 && ValidOrder(vs[i]))
    && (forall i, j :: 0 <= i < j < |vs| ==> vs[i].id != vs[j].id)
    && (forall i, j, d :: 0 <= i < |vs| && 0 <= j < |vs| && d in vs[i].holders && d in vs[j].holders ==> i == j)
  }

  ghost predicate ValidOrder(v: EntityView) {
    Distinct(v.order) && forall d :: d in v.order <==> d in v.evidence.scores
  }

  // ---- incumbent_by_doc ----

  ghost predicate NamedByPayload(vs: seq<EntityView>, d: int) {
    exists i :: 0 <= i < |vs| && d in vs[i].payload && vs[i].payload[d] != ""
  }

  ghost predicate Held(vs: seq<EntityView>, d: int) {
    exists i :: 0 <= i < |vs| && d in vs[i].holders
  }

  ghost predicate IsIncumbents(vs: seq<EntityView>, incumbent: map<int, int>) {
    && (forall i, d :: 0 <= i < |vs| && d in vs[i].holders ==> d in incumbent && incumbent[d] == vs[i].id)
    && (forall d :: d in incumbent ==> Held(vs, d) || (incumbent[d] == -1 && NamedByPayload(vs, d)))
    && (forall d :: NamedByPayload(vs, d) ==> d in incumbent)
  }

  method Incumbents(vs: seq<EntityView>) returns (incumbent: map<int, int>)
    requires ValidViews(vs)
    ensures IsIncumbents(vs, incumbent)
  {
    incumbent := map[];
    for k := 0 to |vs|
      invariant forall j, d :: 0 <= j < k && d in vs[j].holders ==> d in incumbent && incumbent[d] == vs[j].id
      invariant forall d :: d in incumbent ==> Held(vs, d)
    {
      incumbent := incumbent + map d | d in vs[k].holders :: vs[k].id;
    }
    incumbent := PayloadFallback(vs, incumbent);
  }

  /** A non-empty payload name that maps to no included entity still blocks adds. */
  method PayloadFallback(vs: seq<EntityView>, byHolders: map<int, int>) returns (incumbent: map<int, int>)
    ensures forall d :: d in byHolders ==> d in incumbent && incumbent[d] == byHolders[d]
    ensures forall d :: d in incumbent && d !in byHolders ==>
              incumbent[d] == UNMAPPED_INCUMBENT && NamedByPayload(vs, d)
    ensures forall j, d :: 0 <= j < |vs| && vs[j].Names(d) ==> d in incumbent
  {
    incumbent := byHolders;
    for k := 0 to |vs|
      invariant forall d :: d in byHolders ==> d in incumbent && incumbent[d] == byHolders[d]
      invariant forall d :: d in incumbent && d !in byHolders ==>
                  incumbent[d] == UNMAPPED_INCUMBENT && NamedByPayload(vs, d)
      invariant forall j, d :: 0 <= j < k && vs[j].Names(d) ==> d in incumbent
    {
      incumbent := incumbent + map d | d in vs[k].payload && vs[k].Names(d) && d !in incumbent :: UNMAPPED_INCUMBENT;
    }
  }

  // ---- competitor_best ----

  ghost predicate OtherScores(vs: seq<EntityView>, self: int, d: int, j: int) {
    0 <= j < |vs| && vs[j].id != self && d in vs[j].evidence.scores
  }

  /** `rival` is entity `k`: the best-scoring other one, first among equals. */
  ghost predicate IsBestAt(vs: seq<EntityView>, self: int, d: int, rival: Competitor, upTo: int, k: int) {
    && k < upTo && OtherScores(vs, self, d, k) && rival == Competitor(vs[k].id, vs[k].Score(d))
    && (forall j :: j < upTo && OtherScores(vs, self, d, j) ==> vs[j].Score(d) <= rival.score)
    && (forall j :: j < k && OtherScores(vs, self, d, j) ==> vs[j].Score(d) < rival.score)
  }

  ghost predicate IsBest(vs: seq<EntityView>, self: int, d: int, rival: Competitor, upTo: int) {
    exists k :: IsBestAt(vs, self, d, rival, upTo, k)
  }

  ghost predicate SomeOtherScores(vs: seq<EntityView>, self: int, d: int, upTo: int) {
    exists j :: j < upTo && OtherScores(vs, self, d, j)
  }

  ghost predicate IsCompetitorTable(vs: seq<EntityView>, self: int, best: map<int, Competitor>, upTo: int) {
    && (forall d :: d in best ==> IsBest(vs, self, d, best[d], upTo))
    && (forall d :: SomeOtherScores(vs, self, d, upTo) ==> d in best)
  }

  /** The entry for one document after its score by `v` has been compared. */
  function Improved(best: map<int, Competitor>, v: EntityView, d: int): Competitor
    requires d in v.evidence.scores
  {
    if d !in best || v.Score(d) > best[d].score then Competitor(v.id, v.Score(d)) else best[d]
  }

  method FoldScores(best: map<int, Competitor>, v: EntityView) returns (r: map<int, Competitor>)
    requires ValidOrder(v)
    ensures forall d :: d in r <==> d in best || d in v.evidence.scores
    ensures forall d :: d in r ==> r[d] == if d in v.evidence.scores then Improved(best, v, d) else best[d]
  {
    r := best;
    for n := 0 to |v.order|
      invariant forall d :: d in r <==> d in best || d in v.order[..n]
      invariant forall d :: d in r ==> d in v.order[..n] || r[d] == best[d]
      invariant forall d :: d in v.order[..n] ==> d in v.evidence.scores && r[d] == Improved(best, v, d)
    {
      var d := v.order[n];
      assert d in v.order && d !in v.order[..n];
      assert v.order[..n + 1] == v.order[..n] + [d];
      if d !in r || v.evidence.scores[d] > r[d].score {
        r := r[d := Competitor(v.id, v.evidence.scores[d])];
      }
    }
    assert v.order[..|v.order|] == v.order;
  }

  method CompetitorBest(vs: seq<EntityView>, self: int) returns (best: map<int, Competitor>)
    requires ValidViews(vs)
    ensures IsCompetitorTable(vs, self, best, |vs|)
  {
    best := map[];
    for k := 0 to |vs|
      invariant IsCompetitorTable(vs, self, best, k)
    {
      ghost var before := best;
      if vs[k].id != self {
        best := FoldScores(best, vs[k]);
      }
      TableGrows(vs, self, before, best, k);
    }
  }

  lemma TableGrows(vs: seq<EntityView>, self: int, before: map<int, Competitor>, best: map<int, Competitor>, k: nat)
    requires k < |vs| && IsCompetitorTable(vs, self, before, k)
    requires forall d :: d in best <==> d in before || OtherScores(vs, self, d, k)
    requires forall d :: d in best ==>
               best[d] == if OtherScores(vs, self, d, k) then Improved(before, vs[k], d) else before[d]
    ensures IsCompetitorTable(vs, self, best, k + 1)
  {
    forall d | d in best ensures IsBest(vs, self, d, best[d], k + 1) {
      if d in before && best[d] == before[d] {
        var m :| IsBestAt(vs, self, d, before[d], k, m);
        assert IsBestAt(vs, self, d, best[d], k + 1, m);
      } else {
        assert d in before ==> IsBest(vs, self, d, before[d], k);
        assert d !in before ==> !SomeOtherScores(vs, self, d, k);
        assert IsBestAt(vs, self, d, best[d], k + 1, k);
      }
    }
    forall d | SomeOtherScores(vs, self, d, k + 1) ensures d in best {
      var j :| j < k + 1 && OtherScores(vs, self, d, j);
      assert j < k ==> SomeOtherScores(vs, self, d, k);
    }
  }

  // ---- classify_single_valued_entity ----

  /** The one action, if any, that entity `v` records for document `d`. */
  ghost function FieldRecord(p: Policy, v: EntityView, incumbent: map<int, int>, best: map<int, Competitor>, d: int)
    : Option<Action>
  {
    var score := ScoreOrZero(v.evidence, d);
    var percentile := if d in v.percentiles then Some(v.percentiles[d]) else None;
    var reason := MismatchReason(p, v.evidence, v.holders, v.percentiles, d);
    if d !in v.holders then
      if d !in incumbent && Strong(p, v.evidence, d) then
        Some(Action(d, Add, score, None, score - p.addThreshold, None, None))
      else None
    else if reason == None then None
    else if d in best && best[d].score >= p.addThreshold && best[d].score > score then
      Some(Action(d, Replace, score, percentile, best[d].score - score, reason, Some(best[d])))
    else
      Some(Action(d, Review, score, percentile, p.removeThreshold - score, reason, None))
  }

  // ---- What the actions mean ----

  predicate Mismatches(p: Policy, v: EntityView, d: int) {
    d in v.holders && MismatchReason(p, v.evidence, v.holders, v.percentiles, d) != None
  }

  /** Another entity clears the add threshold and beats this one. */
  predicate Beaten(p: Policy, v: EntityView, best: map<int, Competitor>, d: int) {
    d in best && best[d].score >= p.addThreshold && best[d].score > ScoreOrZero(v.evidence, d)
  }

  ghost predicate DistanceRight(p: Policy, best: map<int, Competitor>, a: Action) {
    && (a.kind == Add ==> a.distance == a.score - p.addThreshold)
    && (a.kind == Replace ==> a.doc in best && a.replacement == Some(best[a.doc])
                              && a.distance == best[a.doc].score - a.score)
    && (a.kind == Review ==> a.distance == p.removeThreshold - a.score)
  }

  /** Strong documents nobody holds are added; a mismatching holder is replaced by
      a competitor that beats it, or reviewed; nothing else is proposed. */
  ghost predicate ActionsRight(p: Policy, v: EntityView, incumbent: map<int, int>, best: map<int, Competitor>,
                               actions: seq<Action>)
  {
    && (forall d :: Records(actions, d, Add) <==> d !in v.holders && d !in incumbent && Strong(p, v.evidence, d))
    && (forall d :: Records(actions, d, Replace) <==> Mismatches(p, v, d) && Beaten(p, v, best, d))
    && (forall d :: Records(actions, d, Review) <==> Mismatches(p, v, d) && !Beaten(p, v, best, d))
    && (forall a :: a in actions ==> RecordShows(p, v, best, a))
  }

  ghost predicate RecordShows(p: Policy, v: EntityView, best: map<int, Competitor>, a: Action) {
    && a.kind != Remove && ShowsEvidence(v.evidence, v.percentiles, a) && DistanceRight(p, best, a)
    && (a.kind != Add ==> a.reason == MismatchReason(p, v.evidence, v.holders, v.percentiles, a.doc))
  }

  lemma RecordsMean(p: Policy, v: EntityView, incumbent: map<int, int>, best: map<int, Competitor>,
                    actions: seq<Action>)
    requires forall a :: a in actions <==> FieldRecord(p, v, incumbent, best, a.doc) == Some(a)
    ensures ActionsRight(p, v, incumbent, best, actions)
  {
    forall d
      ensures Records(actions, d, Add) <==> d !in v.holders && d !in incumbent && Strong(p, v.evidence, d)
      ensures Records(actions, d, Replace) <==> Mismatches(p, v, d) && Beaten(p, v, best, d)
      ensures Records(actions, d, Review) <==> Mismatches(p, v, d) && !Beaten(p, v, best, d)
    {
      KindOfRecord(p, v, incumbent, best, actions, d, Add);
      KindOfRecord(p, v, incumbent, best, actions, d, Replace);
      KindOfRecord(p, v, incumbent, best, actions, d, Review);
    }
    forall a | a in actions ensures RecordShows(p, v, best, a) {
      RecordShowsEvidence(p, v, incumbent, best, a);
    }
  }

  lemma RecordShowsEvidence(p: Policy, v: EntityView, incumbent: map<int, int>, best: map<int, Competitor>, a: Action)
    requires FieldRecord(p, v, incumbent, best, a.doc) == Some(a)
    ensures RecordShows(p, v, best, a)
  {
  }

  lemma KindOfRecord(p: Policy, v: EntityView, incumbent: map<int, int>, best: map<int, Competitor>,
                     actions: seq<Action>, d: int, kind: Kind)
    requires forall a :: a in actions <==> FieldRecord(p, v, incumbent, best, a.doc) == Some(a)
    ensures var r := FieldRecord(p, v, incumbent, best, d);
            Records(actions, d, kind) <==> r.Some? && r.value.kind == kind
  {
    var r := FieldRecord(p, v, incumbent, best, d);
    if r.Some? {
      assert r.value in actions;
    }
  }

  method ClassifySingleValued(p: Policy, v: EntityView, incumbent: map<int, int>, best: map<int, Competitor>)
    returns (actions: seq<Action>)
    requires ValidOrder(v)
    ensures forall a :: a in actions <==> FieldRecord(p, v, incumbent, best, a.doc) == Some(a)
    ensures ActionsRight(p, v, incumbent, best, actions)
    ensures InOrder(actions, v.holders)
  {
    ghost var record := d => FieldRecord(p, v, incumbent, best, d);
    var adds := FindAdds(p, v, incumbent, best, record);
    var docs := Sorted(v.holders);
    var checks := CheckHolders(p, v, incumbent, best, docs, record);
    actions := adds + checks;
    FieldLoops(p, v, incumbent, best, docs, record);
    RecordsMean(p, v, incumbent, best, actions);
  }

  /** First loop: adds, only for documents with no incumbent at all. */
  method FindAdds(p: Policy, v: EntityView, incumbent: map<int, int>, ghost best: map<int, Competitor>,
                  ghost record: int -> Option<Action>) returns (adds: seq<Action>)
    requires ValidOrder(v)
    requires forall d :: record(d) == FieldRecord(p, v, incumbent, best, d)
    ensures adds == Gather(record, v.holders, false, v.order)
  {
    adds := [];
    for k := 0 to |v.order|
      invariant adds == Gather(record, v.holders, false, v.order[..k])
    {
      var d := v.order[k];
      GatherNext(record, v.holders, false, v.order, k);
      assert d in v.order;
      if d !in v.holders && d !in incumbent {
        if Strong(p, v.evidence, d) {
          adds := adds + [Action(d, Add, v.Score(d), None, v.Score(d) - p.addThreshold, None, None)];
        }
      }
    }
    assert v.order[..|v.order|] == v.order;
  }

  /** Second loop: replace or review a mismatching incumbent. */
  method CheckHolders(p: Policy, v: EntityView, ghost incumbent: map<int, int>, best: map<int, Competitor>,
                      docs: seq<int>, ghost record: int -> Option<Action>) returns (checks: seq<Action>)
    requires forall d :: d in docs ==> d in v.holders
    requires forall d :: record(d) == FieldRecord(p, v, incumbent, best, d)
    ensures checks == Gather(record, v.holders, true, docs)
  {
    checks := [];
    var absenceIsEvidence := p.topK >= 3 * (if |v.holders| == 0 then 1 else |v.holders|);
    for k := 0 to |docs|
      invariant checks == Gather(record, v.holders, true, docs[..k])
    {
      GatherNext(record, v.holders, true, docs, k);
      assert docs[k] in docs;
      var action := CheckHolder(p, v, incumbent, best, docs[k], absenceIsEvidence);
      if action.Some? {
        checks := checks + [action.value];
      }
    }
    assert docs[..|docs|] == docs;
  }

  /** Body of the replace/review loop. */
  method CheckHolder(p: Policy, v: EntityView, ghost incumbent: map<int, int>, best: map<int, Competitor>, d: int,
                     absenceIsEvidence: bool) returns (action: Option<Action>)
    requires d in v.holders && absenceIsEvidence == AbsenceIsEvidence(p, v.holders)
    ensures action == FieldRecord(p, v, incumbent, best, d)
  {
    action := None;
    var mismatch, score := FindMismatch(p, v.evidence, v.holders, v.percentiles, d, absenceIsEvidence);
    if mismatch.Some? {
      var percentile := if d in v.percentiles then Some(v.percentiles[d]) else None;
      if d in best && best[d].score >= p.addThreshold && best[d].score > score {
        action := Some(Action(d, Replace, score, percentile, best[d].score - score, mismatch, Some(best[d])));
      } else {
        action := Some(Action(d, Review, score, percentile, p.removeThreshold - score, mismatch, None));
      }
    }
  }

  lemma FieldLoops(p: Policy, v: EntityView, incumbent: map<int, int>, best: map<int, Competitor>, docs: seq<int>,
                   record: int -> Option<Action>)
    requires ValidOrder(v)
    requires StrictlyAscending(docs) && forall d :: d in docs <==> d in v.holders
    requires forall d :: record(d) == FieldRecord(p, v, incumbent, best, d)
    ensures var actions := Gather(record, v.holders, false, v.order) + Gather(record, v.holders, true, docs);
            && (forall a :: a in actions <==> FieldRecord(p, v, incumbent, best, a.doc) == Some(a))
            && InOrder(actions, v.holders)
  {
    BothLoops(record, v.holders, v.order, docs);
  }

  // ---- Second pass of the scan, for one entity type ----

  datatype FieldCandidate = FieldCandidate(entity: int, action: Action)

  /** `candidates` holds exactly what each entity's classification yields
      against the cross-entity view. */
  ghost predicate IsFieldScan(p: Policy, vs: seq<EntityView>, upTo: int, candidates: seq<FieldCandidate>) {
    forall c :: c in candidates <==> exists k :: k < upTo && Proposes(p, vs, k, c)
  }

  ghost predicate Proposes(p: Policy, vs: seq<EntityView>, k: int, c: FieldCandidate) {
    && 0 <= k < |vs| && vs[k].id == c.entity
    && exists incumbent, best ::
      && IsIncumbents(vs, incumbent) && IsCompetitorTable(vs, c.entity, best, |vs|)
      && FieldRecord(p, vs[k], incumbent, best, c.action.doc) == Some(c.action)
  }

  lemma TablesAreUnique(vs: seq<EntityView>, self: int, best: map<int, Competitor>, other: map<int, Competitor>)
    requires IsCompetitorTable(vs, self, best, |vs|) && IsCompetitorTable(vs, self, other, |vs|)
    ensures best == other
  {
    forall d | d in best || d in other
      ensures d in best && d in other && best[d] == other[d]
    {
      if d in best {
        var k :| IsBestAt(vs, self, d, best[d], |vs|, k);
        assert SomeOtherScores(vs, self, d, |vs|);
      }
      if d in other {
        var k :| IsBestAt(vs, self, d, other[d], |vs|, k);
        assert SomeOtherScores(vs, self, d, |vs|);
      }
      var k :| IsBestAt(vs, self, d, best[d], |vs|, k);
      var m :| IsBestAt(vs, self, d, other[d], |vs|, m);
      assert k == m;
    }
  }

  lemma IncumbentsAreUnique(vs: seq<EntityView>, incumbent: map<int, int>, other: map<int, int>)
    requires IsIncumbents(vs, incumbent) && IsIncumbents(vs, other)
    ensures incumbent == other
  {
    forall d | d in incumbent || d in other
      ensures d in incumbent && d in other && incumbent[d] == other[d]
    {
      if Held(vs, d) {
        var i :| 0 <= i < |vs| && d in vs[i].holders;
      }
    }
  }

  method ScanField(p: Policy, vs: seq<EntityView>) returns (candidates: seq<FieldCandidate>)
    requires ValidViews(vs)
    ensures IsFieldScan(p, vs, |vs|, candidates)
  {
    var incumbent := Incumbents(vs);
    candidates := [];
    for k := 0 to |vs|
      invariant IsFieldScan(p, vs, k, candidates)
    {
      var best := CompetitorBest(vs, vs[k].id);
      var actions := ClassifySingleValued(p, vs[k], incumbent, best);
      ghost var before := candidates;
      for n := 0 to |actions|
        invariant forall c :: c in candidates <==> c in before || (c.entity == vs[k].id && c.action in actions[..n])
      {
        assert actions[..n + 1] == actions[..n] + [actions[n]];
        candidates := candidates + [FieldCandidate(vs[k].id, actions[n])];
      }
      assert actions[..|actions|] == actions;
      forall c ensures c in candidates <==> exists m :: m < k + 1 && Proposes(p, vs, m, c) {
        if Proposes(p, vs, k, c) {
          var inc, tab :|
            && IsIncumbents(vs, inc) && IsCompetitorTable(vs, c.entity, tab, |vs|)
            && FieldRecord(p, vs[k], inc, tab, c.action.doc) == Some(c.action);
          IncumbentsAreUnique(vs, inc, incumbent);
          TablesAreUnique(vs, c.entity, tab, best);
          assert c.action in actions;
        } else {
          assert c.entity == vs[k].id ==> c.action !in actions;
        }
      }
    }
  }

  /** A replace or review is the only candidate its document gets in a scan;
      an add never accompanies it. */
  lemma OneDecisionPerDocument(p: Policy, vs: seq<EntityView>, c: FieldCandidate, other: FieldCandidate, k: int, m: int)
    requires ValidViews(vs) && Proposes(p, vs, k, c) && Proposes(p, vs, m, other)
    requires c.action.doc == other.action.doc && c.action.kind != Add
    ensures c == other
  {
    var inc, best := ProposalTables(p, vs, c, k);
    var inc', best' := ProposalTables(p, vs, other, m);
    IncumbentsAreUnique(vs, inc, inc');
    HolderBlocksAdds(vs, inc, c.action.doc, k);
    assert k == m;
    TablesAreUnique(vs, c.entity, best, best');
  }

  lemma ProposalTables(p: Policy, vs: seq<EntityView>, c: FieldCandidate, k: int)
    returns (incumbent: map<int, int>, best: map<int, Competitor>)
    requires Proposes(p, vs, k, c)
    ensures IsIncumbents(vs, incumbent) && IsCompetitorTable(vs, c.entity, best, |vs|)
    ensures FieldRecord(p, vs[k], incumbent, best, c.action.doc) == Some(c.action)
  {
    incumbent, best :|
      && IsIncumbents(vs, incumbent) && IsCompetitorTable(vs, c.entity, best, |vs|)
      && FieldRecord(p, vs[k], incumbent, best, c.action.doc) == Some(c.action);
  }

  lemma HolderBlocksAdds(vs: seq<EntityView>, incumbent: map<int, int>, d: int, k: int)
    requires IsIncumbents(vs, incumbent) && 0 <= k < |vs| && d in vs[k].holders
    ensures d in incumbent
  {
  }

  /** A replacement is another entity, no other entity scores higher on the
      document, and it both clears the add threshold and beats the incumbent. */
  lemma ReplacementIsBest(p: Policy, vs: seq<EntityView>, c: FieldCandidate, k: int)
    requires ValidViews(vs) && Proposes(p, vs, k, c) && c.action.kind == Replace
    ensures c.action.doc in vs[k].holders && c.action.replacement.Some?
    ensures c.action.replacement.value.score >= p.addThreshold
    ensures c.action.replacement.value.score > ScoreOrZero(vs[k].evidence, c.action.doc)
    ensures IsBest(vs, c.entity, c.action.doc, c.action.replacement.value, |vs|)
  {
  }

  // ---- Repeated rounds ----

  /** `value` is Paperless: document to its entity of this type. */
  ghost predicate Shows(vs: seq<EntityView>, value: map<int, int>) {
    forall i, d :: 0 <= i < |vs| ==> (d in vs[i].holders <==> d in value && value[d] == vs[i].id)
  }

  ghost predicate SameScores(vs: seq<EntityView>, ws: seq<EntityView>) {
    |vs| == |ws| && forall i :: 0 <= i < |vs| ==> vs[i].id == ws[i].id && vs[i].evidence == ws[i].evidence
  }

  ghost predicate SameAt(value: map<int, int>, value': map<int, int>, d: int) {
    (d in value <==> d in value') && (d in value ==> value[d] == value'[d])
  }

  /** A candidate that survives re-validation against `value` and, approved,
      leaves `value'` at its document. */
  ghost predicate TakesEffect(c: FieldCandidate, value: map<int, int>, value': map<int, int>) {
    var d := c.action.doc;
    match c.action.kind
    case Add => d !in value && d in value' && value'[d] == c.entity
    case Replace =>
      && d in value && value[d] == c.entity
      && c.action.replacement.Some? && d in value' && value'[d] == c.action.replacement.value.entity
    case _ => SameAt(value, value', d)
  }

  ghost predicate Moved(p: Policy, vs: seq<EntityView>, value: map<int, int>, value': map<int, int>, d: int) {
    exists k, c :: Proposes(p, vs, k, c) && c.action.doc == d && TakesEffect(c, value, value')
  }

  /** One scan and any selection of its suggestions approved. */
  ghost predicate CohortRound(p: Policy, vs: seq<EntityView>, value: map<int, int>, value': map<int, int>) {
    && ValidViews(vs) && Shows(vs, value)
    && (forall d :: SameAt(value, value', d) || Moved(p, vs, value, value', d))
  }

  /** The same under the absolute rules only. */
  ghost predicate Round(p: Policy, vs: seq<EntityView>, value: map<int, int>, value': map<int, int>) {
    CohortRound(p, vs, value, value') && forall i :: 0 <= i < |vs| ==> vs[i].percentiles == map[]
  }

  /** Rounds over fixed scores; chunk payloads may differ from round to round. */
  ghost predicate Rounds(p: Policy, vss: seq<seq<EntityView>>, values: seq<map<int, int>>) {
    && |values| == |vss| + 1
    && (forall i :: 0 <= i < |vss| ==> Round(p, vss[i], values[i], values[i + 1]) && SameScores(vss[0], vss[i]))
  }

  ghost predicate Settled(p: Policy, vs: seq<EntityView>, value: map<int, int>, d: int) {
    && d in value
    && exists k :: && 0 <= k < |vs| && vs[k].id == value[d]
                   && d in vs[k].evidence.scores && vs[k].Score(d) >= p.addThreshold
  }

  lemma MoveSettles(p: Policy, vs: seq<EntityView>, value: map<int, int>, value': map<int, int>, d: int)
    requires Round(p, vs, value, value') && !SameAt(value, value', d)
    ensures Settled(p, vs, value', d)
  {
  }

  lemma SettledStays(p: Policy, vs: seq<EntityView>, value: map<int, int>, value': map<int, int>, d: int)
    requires p.addThreshold > p.removeThreshold
    requires Round(p, vs, value, value') && Settled(p, vs, value, d)
    ensures SameAt(value, value', d) && Settled(p, vs, value', d)
  {
  }

  lemma SettledCarries(p: Policy, vs: seq<EntityView>, ws: seq<EntityView>, value: map<int, int>, d: int)
    requires SameScores(vs, ws) && Settled(p, vs, value, d)
    ensures Settled(p, ws, value, d)
  {
  }

  lemma {:induction false} SettledForever(p: Policy, vss: seq<seq<EntityView>>, values: seq<map<int, int>>, i: nat,
                                          j: nat, d: int)
    requires p.addThreshold > p.removeThreshold && Rounds(p, vss, values)
    requires i <= j <= |vss| && vss != [] && Settled(p, vss[0], values[i], d)
    ensures SameAt(values[i], values[j], d) && Settled(p, vss[0], values[j], d)
  {
    if i < j {
      SettledForever(p, vss, values, i, j - 1, d);
      SettledCarries(p, vss[0], vss[j - 1], values[j - 1], d);
      assert Round(p, vss[j - 1], values[j - 1], values[j - 1 + 1]);
      SettledStays(p, vss[j - 1], values[j - 1], values[j], d);
      SettledCarries(p, vss[j - 1], vss[0], values[j], d);
    }
  }

  /** No ping-pong: over any number of rounds, with any subset of suggestions
      approved each time, a document's value changes at most once. */
  lemma ValueChangesAtMostOnce(p: Policy, vss: seq<seq<EntityView>>, values: seq<map<int, int>>, i: nat, j: nat, d: int)
    requires p.addThreshold > p.removeThreshold && Rounds(p, vss, values)
    requires i < j <= |vss| && !SameAt(values[i], values[i + 1], d)
    ensures SameAt(values[i + 1], values[j], d)
  {
    assert Round(p, vss[i], values[i], values[i + 1]);
    MoveSettles(p, vss[i], values[i], values[i + 1], d);
    SettledCarries(p, vss[i], vss[0], values[i + 1], d);
    SettledForever(p, vss, values, i + 1, j, d);
  }

  // ---- Repeated rounds with cohort percentiles ----

  /** Rounds over fixed scores; percentiles and payloads may differ. */
  ghost predicate CohortRounds(p: Policy, vss: seq<seq<EntityView>>, values: seq<map<int, int>>) {
    && |values| == |vss| + 1
    && (forall i :: 0 <= i < |vss| ==> CohortRound(p, vss[i], values[i], values[i + 1]) && SameScores(vss[0], vss[i]))
  }

  /** The score a document has with entity `id`. */
  ghost function Rating(vs: seq<EntityView>, id: int, d: int): real {
    if vs == [] then 0.0
    else if vs[|vs| - 1].id == id then ScoreOrZero(vs[|vs| - 1].evidence, d)
    else Rating(vs[..|vs| - 1], id, d)
  }

  lemma {:induction false} RatingIsScore(vs: seq<EntityView>, k: nat, d: int)
    requires k < |vs| && forall i, j :: 0 <= i < j < |vs| ==> vs[i].id != vs[j].id
    ensures Rating(vs, vs[k].id, d) == ScoreOrZero(vs[k].evidence, d)
  {
    if k < |vs| - 1 {
      RatingIsScore(vs[..|vs| - 1], k, d);
    }
  }

  /** A value never disappears, and a changed one scores strictly higher. */
  lemma RoundImproves(p: Policy, vs: seq<EntityView>, value: map<int, int>, value': map<int, int>, d: int)
    requires CohortRound(p, vs, value, value') && d in value
    ensures d in value'
    ensures value'[d] != value[d] ==> Rating(vs, value[d], d) < Rating(vs, value'[d], d)
  {
    if !SameAt(value, value', d) {
      var k, c :| Proposes(p, vs, k, c) && c.action.doc == d && TakesEffect(c, value, value');
      ReplacementIsBest(p, vs, c, k);
      var m :| IsBestAt(vs, c.entity, d, c.action.replacement.value, |vs|, m);
      RatingIsScore(vs, k, d);
      RatingIsScore(vs, m, d);
    }
  }

  /** The document is with an entity that no other outscores. */
  ghost predicate Top(vs: seq<EntityView>, value: map<int, int>, d: int) {
    d in value && exists k :: TopAt(vs, value[d], d, k)
  }

  ghost predicate TopAt(vs: seq<EntityView>, id: int, d: int, k: int) {
    && 0 <= k < |vs| && vs[k].id == id && d in vs[k].evidence.scores
    && (forall j :: 0 <= j < |vs| && d in vs[j].evidence.scores ==>
          vs[j].evidence.scores[d] <= vs[k].evidence.scores[d])
  }

  lemma ReplaceTops(p: Policy, vs: seq<EntityView>, value: map<int, int>, value': map<int, int>, d: int)
    requires CohortRound(p, vs, value, value') && d in value && !SameAt(value, value', d)
    ensures Top(vs, value', d)
  {
    var k, c :| Proposes(p, vs, k, c) && c.action.doc == d && TakesEffect(c, value, value');
    ReplacementIsBest(p, vs, c, k);
    var m :| IsBestAt(vs, c.entity, d, c.action.replacement.value, |vs|, m);
    forall j | 0 <= j < |vs| && d in vs[j].evidence.scores ensures vs[j].Score(d) <= vs[m].Score(d) {
      if vs[j].id != c.entity {
        assert OtherScores(vs, c.entity, d, j);
      }
    }
    assert TopAt(vs, value'[d], d, m);
  }

  lemma NoRivalAboveTop(vs: seq<EntityView>, id: int, d: int, t: int, best: map<int, Competitor>)
    requires TopAt(vs, id, d, t) && IsCompetitorTable(vs, id, best, |vs|) && d in best
    ensures best[d].score <= vs[t].evidence.scores[d]
  {
    var m :| IsBestAt(vs, id, d, best[d], |vs|, m);
  }

  lemma TopStays(p: Policy, vs: seq<EntityView>, value: map<int, int>, value': map<int, int>, d: int)
    requires CohortRound(p, vs, value, value') && Top(vs, value, d)
    ensures SameAt(value, value', d)
  {
    var t :| TopAt(vs, value[d], d, t);
    forall k, c | Proposes(p, vs, k, c) && c.action.doc == d && c.entity == value[d]
      ensures c.action.kind != Replace
    {
      var incumbent, best :|
        && IsIncumbents(vs, incumbent) && IsCompetitorTable(vs, c.entity, best, |vs|)
        && FieldRecord(p, vs[k], incumbent, best, c.action.doc) == Some(c.action);
      assert k == t;
      if d in best {
        NoRivalAboveTop(vs, c.entity, d, t, best);
      }
    }
  }

  lemma TopCarries(vs: seq<EntityView>, ws: seq<EntityView>, value: map<int, int>, value': map<int, int>, d: int)
    requires SameScores(vs, ws) && Top(vs, value, d) && SameAt(value, value', d)
    ensures Top(ws, value', d)
  {
    var k :| TopAt(vs, value[d], d, k);
    assert forall j :: 0 <= j < |vs| && d in vs[j].evidence.scores ==> ws[j].Score(d) == vs[j].Score(d);
    assert TopAt(ws, value'[d], d, k);
  }

  lemma {:induction false} TopForever(p: Policy, vss: seq<seq<EntityView>>, values: seq<map<int, int>>, i: nat,
                                      j: nat, d: int)
    requires CohortRounds(p, vss, values) && i <= j <= |vss| && vss != [] && Top(vss[0], values[i], d)
    ensures SameAt(values[i], values[j], d)
  {
    if i < j {
      TopForever(p, vss, values, i, j - 1, d);
      assert CohortRound(p, vss[j - 1], values[j - 1], values[j - 1 + 1]);
      TopCarries(vss[0], vss[j - 1], values[i], values[j - 1], d);
      TopStays(p, vss[j - 1], values[j - 1], values[j], d);
    }
  }

  /** With cohort percentiles too, and whatever the thresholds: a value that is
      set changes at most once, since its replacement has the maximum score. */
  lemma SetValueChangesAtMostOnce(p: Policy, vss: seq<seq<EntityView>>, values: seq<map<int, int>>, i: nat, j: nat,
                                  d: int)
    requires CohortRounds(p, vss, values) && i < j <= |vss|
    requires d in values[i] && !SameAt(values[i], values[i + 1], d)
    ensures SameAt(values[i + 1], values[j], d)
  {
    assert CohortRound(p, vss[i], values[i], values[i + 1]);
    ReplaceTops(p, vss[i], values[i], values[i + 1], d);
    assert SameScores(vss[i], vss[0]);
    TopCarries(vss[i], vss[0], values[i + 1], values[i + 1], d);
    TopForever(p, vss, values, i + 1, j, d);
  }

  /** So what a document leaves it has left for good. */
  lemma ValueNeverReturns(p: Policy, vss: seq<seq<EntityView>>, values: seq<map<int, int>>, i: nat, j: nat, d: int)
    requires CohortRounds(p, vss, values) && i < j <= |vss|
    requires d in values[i] && !SameAt(values[i], values[i + 1], d)
    ensures d in values[j] && values[j][d] != values[i][d]
  {
    assert CohortRound(p, vss[i], values[i], values[i + 1]);
    RoundImproves(p, vss[i], values[i], values[i + 1], d);
    SetValueChangesAtMostOnce(p, vss, values, i, j, d);
  }

  lemma {:induction false} ValuesPersist(p: Policy, vss: seq<seq<EntityView>>, values: seq<map<int, int>>, i: nat,
                                         j: nat, d: int)
    requires CohortRounds(p, vss, values) && i <= j <= |vss| && d in values[i]
    ensures d in values[j]
  {
    if i < j {
      ValuesPersist(p, vss, values, i, j - 1, d);
      assert CohortRound(p, vss[j - 1], values[j - 1], values[j - 1 + 1]);
      RoundImproves(p, vss[j - 1], values[j - 1], values[j], d);
    }
  }

  /** Over any number of rounds a document's value changes at most twice: once
      added, once replaced. */
  lemma ValueChangesAtMostTwice(p: Policy, vss: seq<seq<EntityView>>, values: seq<map<int, int>>, i: nat, j: nat,
                                k: nat, d: int)
    requires CohortRounds(p, vss, values) && i < j < k <= |vss|
    requires !SameAt(values[i], values[i + 1], d) && !SameAt(values[j], values[j + 1], d)
    ensures SameAt(values[j + 1], values[k], d)
  {
    assert CohortRound(p, vss[i], values[i], values[i + 1]);
    assert d in values[i + 1];
    ValuesPersist(p, vss, values, i + 1, j, d);
    SetValueChangesAtMostOnce(p, vss, values, j, k, d);
  }

  // ---- Twice is reached ----

  const DEFAULTS := Policy(0.8, 0.35, 10, 2, 100)

  /** A rival that scores 0.9 on document 1, in too few chunks to be added. */
  const RIVAL := EntityView(2, Evidence(map[1 := 0.9], map[1 := 1]), [1], {}, map[], map[])

  /** An entity that scores 0.85 on document 1, in enough chunks; `value` shows
      what it holds. */
  ghost predicate IsCommon(v: EntityView, value: map<int, int>) {
    && v.id == 1 && ValidOrder(v) && v.payload == map[]
    && 1 in v.evidence.scores && v.evidence.scores[1] == 0.85 && 1 in v.evidence.support && v.evidence.support[1] == 2
    && (forall d :: d in v.holders <==> d in value)
    && (forall d :: d in value ==> value[d] == 1)
  }

  lemma ScanIsValid(v: EntityView, value: map<int, int>)
    requires IsCommon(v, value)
    ensures ValidViews([v, RIVAL]) && Shows([v, RIVAL], value) && IsIncumbents([v, RIVAL], value)
    ensures IsCompetitorTable([v, RIVAL], 1, map[1 := Competitor(2, 0.9)], 2)
  {
    var vs := [v, RIVAL];
    assert vs[0] == v && vs[1] == RIVAL;
    assert IsBestAt(vs, 1, 1, Competitor(2, 0.9), 2, 1);
  }

  lemma OneMoves(vs: seq<EntityView>, c: FieldCandidate, value: map<int, int>, to: int)
    requires ValidViews(vs) && Shows(vs, value) && Proposes(DEFAULTS, vs, 0, c) && c.action.doc == 1
    requires TakesEffect(c, value, value[1 := to])
    ensures CohortRound(DEFAULTS, vs, value, value[1 := to])
  {
    assert Moved(DEFAULTS, vs, value, value[1 := to], 1);
  }

  lemma CommonIsAdded(v: EntityView, value: map<int, int>)
    requires IsCommon(v, value) && 1 !in value
    ensures CohortRound(DEFAULTS, [v, RIVAL], value, value[1 := 1])
  {
    ScanIsValid(v, value);
    var c := FieldCandidate(1, Action(1, Add, 0.85, None, 0.85 - 0.8, None, None));
    assert FieldRecord(DEFAULTS, v, value, map[1 := Competitor(2, 0.9)], 1) == Some(c.action);
    assert [v, RIVAL][0] == v;
    assert Proposes(DEFAULTS, [v, RIVAL], 0, c);
    OneMoves([v, RIVAL], c, value, 1);
  }

  lemma CommonIsReplaced(v: EntityView, value: map<int, int>)
    requires IsCommon(v, value) && 1 in value && 1 in v.percentiles && v.percentiles[1] == 0.0
    ensures CohortRound(DEFAULTS, [v, RIVAL], value, value[1 := 2])
  {
    ScanIsValid(v, value);
    var rival := Competitor(2, 0.9);
    var c := FieldCandidate(1, Action(1, Replace, 0.85, Some(0.0), 0.9 - 0.85, Some(CohortBottom), Some(rival)));
    assert FieldRecord(DEFAULTS, v, value, map[1 := rival], 1) == Some(c.action);
    assert [v, RIVAL][0] == v;
    assert Proposes(DEFAULTS, [v, RIVAL], 0, c);
    OneMoves([v, RIVAL], c, value, 2);
  }

  // Ten documents match the entity, document 1 least; nine are there already.
  const TEN_DOCS := seq(10, i => i + 1)
  const SCORES := map d | 1 <= d <= 10 :: if d == 1 then 0.85 else 0.95
  const RANKS := map d | 1 <= d <= 10 :: 100.0 * (d - 1) as real / 9.0
  const NINE := map d | 2 <= d <= 10 :: 1
  const BEFORE := EntityView(1, Evidence(SCORES, map[1 := 2]), TEN_DOCS, NINE.Keys, map[], map[])
  const AFTER := EntityView(1, Evidence(SCORES, map[1 := 2]), TEN_DOCS, NINE.Keys + {1}, RANKS, map[])

  lemma TwoRounds(vs: seq<EntityView>, ws: seq<EntityView>, a: map<int, int>, b: map<int, int>, c: map<int, int>)
    requires CohortRound(DEFAULTS, vs, a, b) && CohortRound(DEFAULTS, ws, b, c) && SameScores(vs, ws)
    ensures CohortRounds(DEFAULTS, [vs, ws], [a, b, c])
  {
  }

  lemma TenInOrder(v: EntityView)
    requires v.order == TEN_DOCS && v.evidence.scores == SCORES
    ensures ValidOrder(v)
  {
    forall d | 1 <= d <= 10 ensures d in TEN_DOCS {
      assert TEN_DOCS[d - 1] == d;
    }
  }

  /** Document 1 joins the nine, is then the bottom of a cohort of ten, and moves
      on to the better-scoring rival. */
  lemma AddThenReplace()
    ensures CohortRounds(DEFAULTS, [[BEFORE, RIVAL], [AFTER, RIVAL]], [NINE, NINE[1 := 1], NINE[1 := 1][1 := 2]])
    ensures !SameAt(NINE, NINE[1 := 1], 1) && !SameAt(NINE[1 := 1], NINE[1 := 1][1 := 2], 1)
  {
    TenInOrder(BEFORE);
    TenInOrder(AFTER);
    assert IsCommon(BEFORE, NINE) && IsCommon(AFTER, NINE[1 := 1]);
    CommonIsAdded(BEFORE, NINE);
    CommonIsReplaced(AFTER, NINE[1 := 1]);
    TwoRounds([BEFORE, RIVAL], [AFTER, RIVAL], NINE, NINE[1 := 1], NINE[1 := 1][1 := 2]);
  }
}
