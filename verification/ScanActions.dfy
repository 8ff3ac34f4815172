/** What the two mismatch classifiers in backend/grooming.py share: the policy,
    the query evidence, the mismatch rules and the recorded actions. Scores are
    arbitrary reals; output rounding is ignored. */
module ScanActions {
  import opened Collections

  datatype Policy = Policy(addThreshold: real, removeThreshold: real, removePercentile: int,
                           minSupportingChunks: int, topK: int)

  /** Result of the unfiltered entity query: best score and supporting chunks. */
  datatype Evidence = Evidence(scores: map<int, real>, support: map<int, nat>)

  datatype Reason = LowScore | Absent | CohortBottom

  /** Another entity of the same type and its score on the document. */
  datatype Competitor = Competitor(entity: int, score: real)

  datatype Kind = Add | Remove | Replace | Review

  datatype Action = Action(doc: int, kind: Kind, score: real, percentile: Option<real>, distance: real,
                           reason: Option<Reason>, replacement: Option<Competitor>)

  // ---- Rules ----

  predicate Strong(p: Policy, e: Evidence, d: int) {
    && d in e.scores && e.scores[d] >= p.addThreshold
    && (if d in e.support then e.support[d] else 0) >= p.minSupportingChunks
  }

  /** `top_k >= 3 * max(len(assigned_doc_ids), 1)` */
  predicate AbsenceIsEvidence(p: Policy, holders: set<int>) {
    p.topK >= 3 * (if |holders| == 0 then 1 else |holders|)
  }

  function MismatchReason(p: Policy, e: Evidence, holders: set<int>, percentiles: map<int, real>,
                          d: int): Option<Reason>
  {
    if d in e.scores && e.scores[d] < p.removeThreshold then Some(LowScore)
    else if d !in e.scores && AbsenceIsEvidence(p, holders) then Some(Absent)
    else if d in percentiles && percentiles[d] <= p.removePercentile as real then Some(CohortBottom)
    else None
  }

  function ScoreOrZero(e: Evidence, d: int): real {
    if d in e.scores then e.scores[d] else 0.0
  }

  /** The if/elif chain both classifiers run over a holder of the entity. */
  method FindMismatch(p: Policy, e: Evidence, holders: set<int>, percentiles: map<int, real>, d: int,
                      absenceIsEvidence: bool) returns (reason: Option<Reason>, score: real)
    requires absenceIsEvidence == AbsenceIsEvidence(p, holders)
    ensures reason == MismatchReason(p, e, holders, percentiles, d)
    ensures reason == Some(LowScore) <==> d in e.scores && e.scores[d] < p.removeThreshold
    ensures reason == Some(Absent) <==> d !in e.scores && p.topK >= 3 && p.topK >= 3 * |holders|
    ensures reason == None <==>
              && (d in e.scores ==> e.scores[d] >= p.removeThreshold)
              && (d !in e.scores ==> p.topK < 3 || p.topK < 3 * |holders|)
              && (d in percentiles ==> percentiles[d] > p.removePercentile as real)
    ensures reason.Some? ==> score == ScoreOrZero(e, d)
  {
    reason := None;
    var found := if d in e.scores then Some(e.scores[d]) else None;
    if found.Some? && found.value < p.removeThreshold {
      reason := Some(LowScore);
    } else if found.None? && absenceIsEvidence {
      reason := Some(Absent);
      found := Some(0.0);
    } else if d in percentiles && percentiles[d] <= p.removePercentile as real {
      reason := Some(CohortBottom);
      found := if found.Some? then found else Some(0.0);
    }
    score := if found.Some? then found.value else 0.0;
  }

  // ---- Action lists ----

  /** An action of this kind on `d` is recorded. */
  ghost predicate Records(actions: seq<Action>, d: int, kind: Kind) {
    exists a :: a in actions && a.doc == d && a.kind == kind
  }

  /** An action shows the score it was judged by; only a holder's check shows a
      percentile and a reason. */
  ghost predicate ShowsEvidence(e: Evidence, percentiles: map<int, real>, a: Action) {
    && a.score == (if a.doc in e.scores then e.scores[a.doc] else 0.0)
    && (a.percentile.Some? <==> a.kind != Add && a.doc in percentiles)
    && (a.percentile.Some? ==> a.percentile.value == percentiles[a.doc])
    && (a.reason.Some? <==> a.kind != Add)
    && (a.replacement.Some? <==> a.kind == Replace)
  }

  /** One action per document; those on non-holders come first, those on
      holders follow in ascending order. */
  ghost predicate InOrder(actions: seq<Action>, holders: set<int>) {
    && (forall i, j :: 0 <= i < j < |actions| ==> actions[i].doc != actions[j].doc)
    && (forall i, j :: 0 <= i < j < |actions| && actions[i].doc in holders ==>
          actions[j].doc in holders && actions[i].doc < actions[j].doc)
  }

  /** What a loop over `docs` records when it looks at holders only, or at
      non-holders only. */
  ghost function Gather(record: int -> Option<Action>, holders: set<int>, holding: bool, docs: seq<int>): seq<Action> {
    if docs == [] then []
    else
      var d := docs[|docs| - 1];
      Gather(record, holders, holding, docs[..|docs| - 1]) +
      if (d in holders) == holding && record(d).Some? then [record(d).value] else []
  }

  lemma GatherNext(record: int -> Option<Action>, holders: set<int>, holding: bool, docs: seq<int>, k: nat)
    requires k < |docs|
    ensures Gather(record, holders, holding, docs[..k + 1]) ==
            Gather(record, holders, holding, docs[..k]) +
            if (docs[k] in holders) == holding && record(docs[k]).Some? then [record(docs[k]).value] else []
  {
    assert docs[..k + 1][..k] == docs[..k];
  }

  ghost predicate DistinctDocs(actions: seq<Action>) {
    forall i, j :: 0 <= i < j < |actions| ==> actions[i].doc != actions[j].doc
  }

  ghost predicate AscendingDocs(actions: seq<Action>) {
    forall i, j :: 0 <= i < j < |actions| ==> actions[i].doc < actions[j].doc
  }

  ghost predicate Gathers(record: int -> Option<Action>, holders: set<int>, holding: bool, docs: seq<int>, a: Action) {
    a.doc in docs && (a.doc in holders) == holding && record(a.doc) == Some(a)
  }

  lemma {:induction false} GatherMembers(record: int -> Option<Action>, holders: set<int>, holding: bool,
                                         docs: seq<int>, a: Action)
    requires forall d :: record(d).Some? ==> record(d).value.doc == d
    ensures a in Gather(record, holders, holding, docs) <==> Gathers(record, holders, holding, docs, a)
  {
    if docs != [] {
      var init, d := docs[..|docs| - 1], docs[|docs| - 1];
      GatherMembers(record, holders, holding, init, a);
      assert docs == init + [d];
    }
  }

  lemma {:induction false} GatherIsOrdered(record: int -> Option<Action>, holders: set<int>, holding: bool,
                                           docs: seq<int>)
    requires Distinct(docs)
    requires forall d :: record(d).Some? ==> record(d).value.doc == d
    ensures DistinctDocs(Gather(record, holders, holding, docs))
    ensures StrictlyAscending(docs) ==> AscendingDocs(Gather(record, holders, holding, docs))
  {
    if docs != [] {
      var init, d := docs[..|docs| - 1], docs[|docs| - 1];
      var before := Gather(record, holders, holding, init);
      GatherIsOrdered(record, holders, holding, init);
      forall i | 0 <= i < |before|
        ensures before[i].doc != d
        ensures StrictlyAscending(docs) ==> before[i].doc < d
      {
        GatherMembers(record, holders, holding, init, before[i]);
        var k :| 0 <= k < |init| && init[k] == before[i].doc;
        assert docs[k] == init[k];
      }
    }
  }

  /** Actions on non-holders followed by actions on holders in ascending order. */
  lemma LoopsInOrder(first: seq<Action>, second: seq<Action>, holders: set<int>)
    requires DistinctDocs(first) && DistinctDocs(second) && AscendingDocs(second)
    requires forall i :: 0 <= i < |first| ==> first[i].doc !in holders
    requires forall i :: 0 <= i < |second| ==> second[i].doc in holders
    ensures InOrder(first + second, holders)
  {
  }

  /** Both loops together: exactly the recorded actions, in order. */
  lemma BothLoops(record: int -> Option<Action>, holders: set<int>, order: seq<int>, docs: seq<int>)
    requires Distinct(order) && StrictlyAscending(docs)
    requires forall d :: d in docs <==> d in holders
    requires forall d :: record(d).Some? ==> record(d).value.doc == d && (d in order || d in holders)
    ensures var actions := Gather(record, holders, false, order) + Gather(record, holders, true, docs);
            && (forall a :: a in actions <==> record(a.doc) == Some(a))
            && InOrder(actions, holders)
  {
    var first, second := Gather(record, holders, false, order), Gather(record, holders, true, docs);
    GatherIsOrdered(record, holders, false, order);
    GatherIsOrdered(record, holders, true, docs);
    forall a: Action ensures a in first + second <==> record(a.doc) == Some(a) {
      GatherMembers(record, holders, false, order, a);
      GatherMembers(record, holders, true, docs, a);
    }
    forall i | 0 <= i < |first| ensures first[i].doc !in holders {
      GatherMembers(record, holders, false, order, first[i]);
    }
    forall i | 0 <= i < |second| ensures second[i].doc in holders {
      GatherMembers(record, holders, true, docs, second[i]);
    }
    LoopsInOrder(first, second, holders);
  }
}
