/** Classification of one tag entity against its documents, and what repeated
    scan-and-apply rounds do (`classify_tag_entity` and
    `compute_cohort_percentiles` in backend/grooming.py). */
module TagScan {
  import opened Collections
  import opened ScanActions

  const MIN_COHORT_FOR_PERCENTILE := 10

  predicate ShouldAdd(p: Policy, e: Evidence, holders: set<int>, d: int) {
    d !in holders && Strong(p, e, d)
  }

  predicate ShouldRemove(p: Policy, e: Evidence, holders: set<int>, percentiles: map<int, real>, d: int) {
    d in holders && MismatchReason(p, e, holders, percentiles, d) != None
  }

  /** The one action, if any, recorded for document `d`. */
  ghost function TagRecord(p: Policy, e: Evidence, holders: set<int>, percentiles: map<int, real>,
                           d: int): Option<Action>
  {
    if ShouldAdd(p, e, holders, d) then
      Some(Action(d, Add, e.scores[d], None, e.scores[d] - p.addThreshold, None, None))
    else if ShouldRemove(p, e, holders, percentiles, d) then
      var percentile := if d in percentiles then Some(percentiles[d]) else None;
      Some(Action(d, Remove, ScoreOrZero(e, d), percentile, p.removeThreshold - ScoreOrZero(e, d),
                  MismatchReason(p, e, holders, percentiles, d), None))
    else None
  }

  // ---- What the actions mean ----

  /** How far an action is beyond its threshold. */
  ghost predicate DistanceRight(p: Policy, a: Action) {
    && (a.kind == Add ==> a.distance == a.score - p.addThreshold)
    && (a.kind == Remove ==> a.distance == p.removeThreshold - a.score)
  }

  /** Strong non-holders are added, mismatching holders removed, and nothing else
      is proposed. */
  ghost predicate ActionsRight(p: Policy, e: Evidence, holders: set<int>, percentiles: map<int, real>,
                               actions: seq<Action>)
  {
    && (forall d :: Records(actions, d, Add) <==> ShouldAdd(p, e, holders, d))
    && (forall d :: Records(actions, d, Remove) <==> ShouldRemove(p, e, holders, percentiles, d))
    && (forall a :: a in actions ==>
          && a.kind in {Add, Remove} && ShowsEvidence(e, percentiles, a) && DistanceRight(p, a)
          && (a.kind == Remove ==> a.reason == MismatchReason(p, e, holders, percentiles, a.doc)))
  }

  /** Paperless once all of the actions have been applied. */
  ghost function Applied(holders: set<int>, actions: seq<Action>): set<int> {
    if actions == [] then holders
    else
      var last := actions[|actions| - 1];
      var before := Applied(holders, actions[..|actions| - 1]);
      match last.kind
      case Add => before + {last.doc}
      case Remove => before - {last.doc}
      case _ => before
  }

  lemma {:induction false} AppliedMembers(holders: set<int>, actions: seq<Action>, d: int)
    requires !(Records(actions, d, Add) && Records(actions, d, Remove))
    ensures d in Applied(holders, actions) <==>
              Records(actions, d, Add) || (d in holders && !Records(actions, d, Remove))
  {
    if actions != [] {
      var init, last := actions[..|actions| - 1], actions[|actions| - 1];
      assert actions == init + [last];
      forall kind
        ensures Records(actions, d, kind) <==> Records(init, d, kind) || (last.doc == d && last.kind == kind)
      {
        if Records(init, d, kind) {
          var a :| a in init && a.doc == d && a.kind == kind;
          assert a in actions;
        }
      }
      AppliedMembers(holders, init, d);
    }
  }

  lemma RecordsMean(p: Policy, e: Evidence, holders: set<int>, percentiles: map<int, real>, actions: seq<Action>)
    requires forall a :: a in actions <==> TagRecord(p, e, holders, percentiles, a.doc) == Some(a)
    ensures ActionsRight(p, e, holders, percentiles, actions)
  {
    forall d
      ensures Records(actions, d, Add) <==> ShouldAdd(p, e, holders, d)
      ensures Records(actions, d, Remove) <==> ShouldRemove(p, e, holders, percentiles, d)
    {
      var r := TagRecord(p, e, holders, percentiles, d);
      if r.Some? {
        assert r.value in actions;
      }
    }
  }

  lemma ActionsGiveNext(p: Policy, e: Evidence, holders: set<int>, percentiles: map<int, real>, actions: seq<Action>)
    requires ActionsRight(p, e, holders, percentiles, actions)
    ensures Applied(holders, actions) == Next(p, e, holders, percentiles)
  {
    forall d ensures d in Applied(holders, actions) <==> d in Next(p, e, holders, percentiles) {
      AppliedMembers(holders, actions, d);
    }
  }

  /** `classify_tag_entity`; `order` is the iteration order of `doc_scores`. */
  method ClassifyTag(p: Policy, e: Evidence, order: seq<int>, holders: set<int>, percentiles: map<int, real>)
    returns (actions: seq<Action>)
    requires Distinct(order) && forall d :: d in order <==> d in e.scores
    ensures forall a :: a in actions <==> TagRecord(p, e, holders, percentiles, a.doc) == Some(a)
    ensures ActionsRight(p, e, holders, percentiles, actions)
    ensures Applied(holders, actions) == Next(p, e, holders, percentiles)
    ensures InOrder(actions, holders)
  {
    ghost var record := d => TagRecord(p, e, holders, percentiles, d);
    var adds := FindAdds(p, e, order, holders, percentiles, record);
    var docs := Sorted(holders);
    var removes := FindRemovals(p, e, docs, holders, percentiles, record);
    actions := adds + removes;
    TagLoops(p, e, holders, percentiles, order, docs, record);
    RecordsMean(p, e, holders, percentiles, actions);
    ActionsGiveNext(p, e, holders, percentiles, actions);
  }

  /** First loop: `for doc_id, score in doc_scores.items()`. */
  method FindAdds(p: Policy, e: Evidence, order: seq<int>, holders: set<int>, ghost percentiles: map<int, real>,
                  ghost record: int -> Option<Action>) returns (adds: seq<Action>)
    requires forall d :: d in order ==> d in e.scores
    requires forall d :: record(d) == TagRecord(p, e, holders, percentiles, d)
    ensures adds == Gather(record, holders, false, order)
  {
    adds := [];
    for k := 0 to |order|
      invariant adds == Gather(record, holders, false, order[..k])
    {
      var d := order[k];
      GatherNext(record, holders, false, order, k);
      assert d in order;
      if d !in holders {
        if e.scores[d] >= p.addThreshold && (if d in e.support then e.support[d] else 0) >= p.minSupportingChunks {
          adds := adds + [Action(d, Add, e.scores[d], None, e.scores[d] - p.addThreshold, None, None)];
        }
      }
    }
    assert order[..|order|] == order;
  }

  /** Second loop: `for doc_id in sorted(assigned_doc_ids)`. */
  method FindRemovals(p: Policy, e: Evidence, docs: seq<int>, holders: set<int>, percentiles: map<int, real>,
                      ghost record: int -> Option<Action>) returns (removes: seq<Action>)
    requires forall d :: d in docs ==> d in holders
    requires forall d :: record(d) == TagRecord(p, e, holders, percentiles, d)
    ensures removes == Gather(record, holders, true, docs)
  {
    removes := [];
    var absenceIsEvidence := p.topK >= 3 * (if |holders| == 0 then 1 else |holders|);
    for k := 0 to |docs|
      invariant removes == Gather(record, holders, true, docs[..k])
    {
      GatherNext(record, holders, true, docs, k);
      assert docs[k] in docs;
      var action := CheckHolder(p, e, holders, percentiles, docs[k], absenceIsEvidence);
      if action.Some? {
        removes := removes + [action.value];
      }
    }
    assert docs[..|docs|] == docs;
  }

  /** Body of the removal loop. */
  method CheckHolder(p: Policy, e: Evidence, holders: set<int>, percentiles: map<int, real>, d: int,
                     absenceIsEvidence: bool) returns (action: Option<Action>)
    requires d in holders && absenceIsEvidence == AbsenceIsEvidence(p, holders)
    ensures action == TagRecord(p, e, holders, percentiles, d)
  {
    action := None;
    var reason, score := FindMismatch(p, e, holders, percentiles, d, absenceIsEvidence);
    if reason.Some? {
      var percentile := if d in percentiles then Some(percentiles[d]) else None;
      action := Some(Action(d, Remove, score, percentile, p.removeThreshold - score, reason, None));
    }
  }

  lemma TagLoops(p: Policy, e: Evidence, holders: set<int>, percentiles: map<int, real>, order: seq<int>,
                 docs: seq<int>, record: int -> Option<Action>)
    requires Distinct(order) && forall d :: d in order <==> d in e.scores
    requires StrictlyAscending(docs) && forall d :: d in docs <==> d in holders
    requires forall d :: record(d) == TagRecord(p, e, holders, percentiles, d)
    ensures var actions := Gather(record, holders, false, order) + Gather(record, holders, true, docs);
            && (forall a :: a in actions <==> TagRecord(p, e, holders, percentiles, a.doc) == Some(a))
            && InOrder(actions, holders)
  {
    BothLoops(record, holders, order, docs);
  }

  // ---- Cohort percentiles ----

  datatype Scored = Scored(doc: int, score: real)

  function ScoreOf(s: Scored): real {
    s.score
  }

  ghost predicate DistinctMembers(s: seq<Scored>) {
    forall i, j :: 0 <= i < j < |s| ==> s[i].doc != s[j].doc
  }

  /** `cohort_scores` lists each document of `holders` once. */
  ghost predicate CohortOf(cohort: seq<Scored>, holders: set<int>) {
    && (forall i :: 0 <= i < |cohort| ==> cohort[i].doc in holders)
    && (forall d :: d in holders ==> exists i :: 0 <= i < |cohort| && cohort[i].doc == d)
    && DistinctMembers(cohort)
    && |cohort| == |holders|
  }

  /** Empty for small cohorts; otherwise the rank in the stable ascending order
      by score, scaled to 0..100. */
  ghost predicate IsPercentiles(cohort: seq<Scored>, percentiles: map<int, real>) {
    if |cohort| < MIN_COHORT_FOR_PERCENTILE then percentiles == map[]
    else
      var ordered := SortBy(cohort, ScoreOf);
      && (forall i :: 0 <= i < |ordered| ==> HasRank(percentiles, ordered[i].doc, i, |cohort|))
      && (forall d :: d in percentiles ==> exists i :: 0 <= i < |ordered| && ordered[i].doc == d)
  }

  ghost predicate HasRank(percentiles: map<int, real>, d: int, i: nat, n: nat)
    requires n >= 2
  {
    d in percentiles && percentiles[d] == 100.0 * i as real / (n - 1) as real
  }

  lemma SortKeepsDocsDistinct(cohort: seq<Scored>)
    requires DistinctMembers(cohort)
    ensures DistinctMembers(SortBy(cohort, ScoreOf))
  {
    var ordered := SortBy(cohort, ScoreOf);
    forall i, j | 0 <= i < j < |ordered| ensures ordered[i].doc != ordered[j].doc {
      if ordered[i].doc == ordered[j].doc {
        assert ordered[i] in multiset(cohort) && ordered[j] in multiset(cohort);
        var a :| 0 <= a < |cohort| && cohort[a] == ordered[i];
        var b :| 0 <= b < |cohort| && cohort[b] == ordered[j];
        assert a == b;
        TwoPlaces(ordered, i, j);
        OnePlace(cohort, a);
      }
    }
  }

  lemma TwoPlaces<T>(s: seq<T>, i: nat, j: nat)
    requires i < j < |s| && s[i] == s[j]
    ensures multiset(s)[s[i]] >= 2
  {
    assert s == s[..j] + [s[j]] + s[j + 1..];
    assert s[i] in s[..j];
  }

  lemma OnePlace(s: seq<Scored>, a: nat)
    requires a < |s| && DistinctMembers(s)
    ensures multiset(s)[s[a]] == 1
  {
    assert s == s[..a] + [s[a]] + s[a + 1..];
    assert s[a] !in s[..a] && s[a] !in s[a + 1..];
  }

  /** `compute_cohort_percentiles` */
  method ComputeCohortPercentiles(cohort: seq<Scored>) returns (percentiles: map<int, real>)
    requires DistinctMembers(cohort)
    ensures IsPercentiles(cohort, percentiles)
  {
    percentiles := map[];
    var n := |cohort|;
    if n < MIN_COHORT_FOR_PERCENTILE {
      return;
    }
    var ordered := SortBy(cohort, ScoreOf);
    SortKeepsDocsDistinct(cohort);
    for i := 0 to n
      invariant forall k :: 0 <= k < i ==> HasRank(percentiles, ordered[k].doc, k, n)
      invariant forall d :: d in percentiles ==> exists k :: 0 <= k < i && ordered[k].doc == d
    {
      ghost var before := percentiles;
      percentiles := percentiles[ordered[i].doc := 100.0 * i as real / (n - 1) as real];
      forall k | 0 <= k < i ensures HasRank(percentiles, ordered[k].doc, k, n) {
        assert HasRank(before, ordered[k].doc, k, n) && ordered[k].doc != ordered[i].doc;
      }
    }
  }

  lemma RankIsInRange(i: nat, n: nat)
    requires i < n && n >= 2
    ensures 0.0 <= 100.0 * i as real / (n - 1) as real <= 100.0
    ensures i == 0 ==> 100.0 * i as real / (n - 1) as real == 0.0
  {
  }

  /** Every cohort of ten or more has a member of percentile 0: one with the
      lowest score, however good that score is. */
  lemma WeakestHasPercentileZero(cohort: seq<Scored>, holders: set<int>, percentiles: map<int, real>)
    returns (weakest: int)
    requires CohortOf(cohort, holders) && IsPercentiles(cohort, percentiles)
    requires |holders| >= MIN_COHORT_FOR_PERCENTILE
    ensures weakest in holders && weakest in percentiles && percentiles[weakest] == 0.0
    ensures exists i :: 0 <= i < |cohort| && cohort[i].doc == weakest
              && forall j :: 0 <= j < |cohort| ==> cohort[i].score <= cohort[j].score
  {
    var ordered := SortBy(cohort, ScoreOf);
    weakest := ordered[0].doc;
    assert HasRank(percentiles, ordered[0].doc, 0, |cohort|);
    FirstRank(percentiles, weakest, |cohort|);
    FirstIsWeakest(cohort);
  }

  lemma FirstRank(percentiles: map<int, real>, d: int, n: nat)
    requires n >= 2 && HasRank(percentiles, d, 0, n)
    ensures percentiles[d] == 0.0
  {
    RankIsInRange(0, n);
  }

  lemma FirstIsWeakest(cohort: seq<Scored>)
    requires cohort != []
    ensures var first := SortBy(cohort, ScoreOf)[0].doc;
            && (exists i :: 0 <= i < |cohort| && cohort[i].doc == first
                            && forall j :: 0 <= j < |cohort| ==> cohort[i].score <= cohort[j].score)
  {
    var ordered := SortBy(cohort, ScoreOf);
    assert ordered[0] in multiset(cohort);
    var i :| 0 <= i < |cohort| && cohort[i] == ordered[0];
    forall j | 0 <= j < |cohort| ensures cohort[i].score <= cohort[j].score {
      assert cohort[j] in multiset(ordered);
      var k :| 0 <= k < |ordered| && ordered[k] == cohort[j];
      assert ScoreOf(ordered[0]) <= ScoreOf(ordered[k]);
    }
  }

  lemma PercentilesAreNonNegative(cohort: seq<Scored>, percentiles: map<int, real>, d: int)
    requires IsPercentiles(cohort, percentiles) && d in percentiles
    ensures 0.0 <= percentiles[d] <= 100.0
  {
    var ordered := SortBy(cohort, ScoreOf);
    var i :| 0 <= i < |ordered| && ordered[i].doc == d;
    RankIsInRange(i, |cohort|);
  }

  // ---- Repeated rounds: classify, then apply every add and remove ----

  ghost function Next(p: Policy, e: Evidence, holders: set<int>, percentiles: map<int, real>): set<int> {
    (set d | d in holders && !ShouldRemove(p, e, holders, percentiles, d)) +
    (set d | d in e.scores && ShouldAdd(p, e, holders, d))
  }

  ghost function After(p: Policy, e: Evidence, holders: set<int>, rounds: nat): set<int> {
    if rounds == 0 then holders else Next(p, e, After(p, e, holders, rounds - 1), map[])
  }

  ghost predicate Quiet(p: Policy, e: Evidence, holders: set<int>, percentiles: map<int, real>) {
    forall d :: !ShouldAdd(p, e, holders, d) && !ShouldRemove(p, e, holders, percentiles, d)
  }

  /** The gap between the thresholds: with absolute rules only, a document that
      one scan would add is removed by no scan, whatever else was applied,
      rejected or edited between the two. */
  lemma NoFlipFlop(p: Policy, e: Evidence, holdersThen: set<int>, holdersLater: set<int>, d: int)
    requires p.addThreshold > p.removeThreshold
    ensures !(ShouldAdd(p, e, holdersThen, d) && ShouldRemove(p, e, holdersLater, map[], d))
  {
  }

  /** Absent documents that were kept only because the query was too shallow. */
  ghost predicate Unmasked(p: Policy, e: Evidence, holders: set<int>) {
    && !AbsenceIsEvidence(p, holders)
    && AbsenceIsEvidence(p, Next(p, e, holders, map[]))
    && exists d :: d in holders && d !in e.scores
  }

  /** One round suffices exactly when it does not unmask an absent document. */
  lemma OneRoundSuffices(p: Policy, e: Evidence, holders: set<int>)
    requires p.addThreshold > p.removeThreshold
    ensures Quiet(p, e, Next(p, e, holders, map[]), map[]) <==> !Unmasked(p, e, holders)
  {
    var next := Next(p, e, holders, map[]);
    if Unmasked(p, e, holders) {
      var d :| d in holders && d !in e.scores;
      assert d in next && ShouldRemove(p, e, next, map[], d);
    }
  }

  /** After one round nothing scores low, so a shallow query removes nothing. */
  lemma ShallowRoundKeeps(p: Policy, e: Evidence, holders: set<int>, d: int)
    requires p.addThreshold > p.removeThreshold
    requires d in Next(p, e, holders, map[]) && !AbsenceIsEvidence(p, Next(p, e, holders, map[]))
    ensures d in Next(p, e, Next(p, e, holders, map[]), map[])
  {
  }

  lemma SecondRoundIsEnough(p: Policy, e: Evidence, holders: set<int>)
    requires p.addThreshold > p.removeThreshold
    ensures !Unmasked(p, e, Next(p, e, holders, map[]))
  {
    var next := Next(p, e, holders, map[]);
    var later := Next(p, e, next, map[]);
    if !AbsenceIsEvidence(p, next) {
      forall d | d in next ensures d in later {
        ShallowRoundKeeps(p, e, holders, d);
      }
      SubsetIsSmaller(next, later);
    }
  }

  lemma SubsetIsSmaller(a: set<int>, b: set<int>)
    requires a <= b
    ensures |a| <= |b|
  {
    assert b == a + (b - a);
  }

  lemma QuietMeansFixed(p: Policy, e: Evidence, holders: set<int>)
    requires Quiet(p, e, holders, map[])
    ensures Next(p, e, holders, map[]) == holders
  {
  }

  /** Hysteresis converges: from any assignment, two rounds reach a state where
      the scan is silent, and it stays there. */
  lemma {:induction false} ConvergesInTwo(p: Policy, e: Evidence, holders: set<int>, n: nat)
    requires p.addThreshold > p.removeThreshold && n >= 2
    ensures Quiet(p, e, After(p, e, holders, n), map[])
    ensures After(p, e, holders, n) == After(p, e, holders, 2)
  {
    if n == 2 {
      var once := Next(p, e, holders, map[]);
      assert After(p, e, holders, 0) == holders;
      assert After(p, e, holders, 1) == once;
      assert After(p, e, holders, 2) == Next(p, e, once, map[]);
      SecondRoundIsEnough(p, e, holders);
      OneRoundSuffices(p, e, once);
    } else {
      ConvergesInTwo(p, e, holders, n - 1);
      QuietMeansFixed(p, e, After(p, e, holders, n - 1));
    }
  }

  /** One round is not always enough: dropping document 2 makes the query deep
      enough for the absence of document 1 to count. */
  lemma OneRoundIsNotEnough(p: Policy, e: Evidence)
    requires p == Policy(0.8, 0.35, 10, 2, 3) && e == Evidence(map[2 := 0.1], map[])
    ensures Unmasked(p, e, {1, 2})
  {
    var next := Next(p, e, {1, 2}, map[]);
    assert 1 in next && forall d :: d in next ==> d == 1;
    assert next == {1};
  }

  /** With cohort percentiles in force no assignment of ten or more documents
      ever satisfies the scan; smaller ones only face the absolute rules. */
  lemma QuietUnderCohorts(p: Policy, e: Evidence, holders: set<int>, cohort: seq<Scored>, percentiles: map<int, real>)
    requires CohortOf(cohort, holders) && IsPercentiles(cohort, percentiles)
    ensures Quiet(p, e, holders, percentiles) <==>
              && Quiet(p, e, holders, map[])
              && (|holders| < MIN_COHORT_FOR_PERCENTILE || p.removePercentile < 0)
  {
    if |holders| >= MIN_COHORT_FOR_PERCENTILE {
      var weakest := WeakestHasPercentileZero(cohort, holders, percentiles);
      assert p.removePercentile >= 0 ==> ShouldRemove(p, e, holders, percentiles, weakest);
    }
    forall d
      ensures MismatchReason(p, e, holders, map[], d) != None ==> MismatchReason(p, e, holders, percentiles, d) != None
      ensures p.removePercentile < 0 || percentiles == map[] ==>
                MismatchReason(p, e, holders, percentiles, d) == MismatchReason(p, e, holders, map[], d)
    {
      if d in percentiles {
        PercentilesAreNonNegative(cohort, percentiles, d);
      }
    }
    if Quiet(p, e, holders, percentiles) {
      forall d ensures !ShouldAdd(p, e, holders, d) && !ShouldRemove(p, e, holders, map[], d) {
        assert !ShouldAdd(p, e, holders, d) && !ShouldRemove(p, e, holders, percentiles, d);
      }
    }
    if Quiet(p, e, holders, map[]) && (|holders| < MIN_COHORT_FOR_PERCENTILE || p.removePercentile < 0) {
      forall d ensures !ShouldAdd(p, e, holders, d) && !ShouldRemove(p, e, holders, percentiles, d) {
        assert !ShouldAdd(p, e, holders, d) && !ShouldRemove(p, e, holders, map[], d);
      }
    }
  }

  // ---- When a scan with percentiles can come to rest ----

  ghost predicate QuietWith(p: Policy, e: Evidence, holders: set<int>, cohort: seq<Scored>, percentiles: map<int, real>)
  {
    CohortOf(cohort, holders) && IsPercentiles(cohort, percentiles) && Quiet(p, e, holders, percentiles)
  }

  /** Some assignment, with some scores of its cohort, satisfies the scan. */
  ghost predicate CanRest(p: Policy, e: Evidence) {
    exists holders, cohort, percentiles :: QuietWith(p, e, holders, cohort, percentiles)
  }

  function StrongDocs(p: Policy, e: Evidence): set<int> {
    set d | d in e.scores && Strong(p, e, d)
  }

  lemma {:induction false} AnyCohort(holders: set<int>) returns (cohort: seq<Scored>)
    ensures CohortOf(cohort, holders)
    decreases holders
  {
    cohort := [];
    if holders != {} {
      var d := AnyMember(holders);
      var rest := AnyCohort(holders - {d});
      cohort := rest + [Scored(d, 0.0)];
      forall x | x in holders ensures exists i :: 0 <= i < |cohort| && cohort[i].doc == x {
        if x == d {
          assert cohort[|rest|].doc == x;
        } else {
          assert x in holders - {d};
          var i :| 0 <= i < |rest| && rest[i].doc == x;
          assert cohort[i].doc == x;
        }
      }
    }
  }

  lemma ValuesByDoc(s: seq<Scored>, value: nat -> real) returns (m: map<int, real>)
    requires DistinctMembers(s)
    ensures forall i :: 0 <= i < |s| ==> s[i].doc in m && m[s[i].doc] == value(i)
    ensures forall d :: d in m ==> exists i :: 0 <= i < |s| && s[i].doc == d
  {
    m := map i | 0 <= i < |s| :: s[i].doc := value(i);
  }

  lemma PercentilesExist(cohort: seq<Scored>) returns (percentiles: map<int, real>)
    requires DistinctMembers(cohort)
    ensures IsPercentiles(cohort, percentiles)
  {
    percentiles := map[];
    var n := |cohort|;
    if n >= MIN_COHORT_FOR_PERCENTILE {
      var ordered := SortBy(cohort, ScoreOf);
      SortKeepsDocsDistinct(cohort);
      var rank := Ranks(n);
      percentiles := ValuesByDoc(ordered, rank);
      forall i | 0 <= i < |ordered| ensures HasRank(percentiles, ordered[i].doc, i, n) {
        assert percentiles[ordered[i].doc] == rank(i);
      }
    }
  }

  ghost function Ranks(n: nat): (rank: nat -> real)
    requires n >= 2
  {
    (i: nat) => 100.0 * i as real / (n - 1) as real
  }

  /** With percentiles in force a tag can come to rest exactly when fewer than
      ten documents are strong, or the percentile rule is switched off. Otherwise
      every assignment draws another suggestion, for ever. */
  lemma CanRestIff(p: Policy, e: Evidence)
    requires p.addThreshold > p.removeThreshold
    ensures CanRest(p, e) <==> |StrongDocs(p, e)| < MIN_COHORT_FOR_PERCENTILE || p.removePercentile < 0
  {
    var strong := StrongDocs(p, e);
    if |strong| < MIN_COHORT_FOR_PERCENTILE || p.removePercentile < 0 {
      var cohort := AnyCohort(strong);
      var percentiles := PercentilesExist(cohort);
      assert Quiet(p, e, strong, map[]);
      QuietUnderCohorts(p, e, strong, cohort, percentiles);
      assert QuietWith(p, e, strong, cohort, percentiles);
    }
    if CanRest(p, e) {
      var holders, cohort, percentiles :| QuietWith(p, e, holders, cohort, percentiles);
      QuietUnderCohorts(p, e, holders, cohort, percentiles);
      forall d | d in strong ensures d in holders {
        assert !ShouldAdd(p, e, holders, d);
      }
      SubsetIsSmaller(strong, holders);
    }
  }

  // ---- Flip-flopping ----

  /** One scan adds `d`, another one removes it. */
  ghost predicate FlipFlops(p: Policy, e: Evidence, d: int, before: set<int>, later: set<int>, cohort: seq<Scored>,
                            percentiles: map<int, real>)
  {
    && ShouldAdd(p, e, before, d)
    && CohortOf(cohort, later) && IsPercentiles(cohort, percentiles)
    && ShouldRemove(p, e, later, percentiles, d)
  }

  ghost predicate CanFlipFlop(p: Policy, e: Evidence) {
    exists d, before, later, cohort, percentiles :: FlipFlops(p, e, d, before, later, cohort, percentiles)
  }

  /** `d` with nine better-scoring companions. */
  function TenWith(d: int): seq<Scored> {
    seq(MIN_COHORT_FOR_PERCENTILE, i => if i == 0 then Scored(d, 0.0) else Scored(d + i, 1.0))
  }

  ghost function DocsOf(cohort: seq<Scored>): set<int> {
    set i | 0 <= i < |cohort| :: cohort[i].doc
  }

  lemma {:induction false} DocsOfSize(cohort: seq<Scored>)
    requires DistinctMembers(cohort)
    ensures |DocsOf(cohort)| == |cohort|
  {
    if cohort == [] {
      assert DocsOf(cohort) == {};
    } else {
      var init, last := cohort[..|cohort| - 1], cohort[|cohort| - 1];
      DocsOfSize(init);
      DocsOfPush(init, last);
      assert cohort == init + [last];
      assert forall i :: 0 <= i < |init| ==> init[i].doc != last.doc;
    }
  }

  lemma DocsOfPush(cohort: seq<Scored>, last: Scored)
    ensures DocsOf(cohort + [last]) == DocsOf(cohort) + {last.doc}
  {
    var more := cohort + [last];
    forall d ensures d in DocsOf(more) <==> d in DocsOf(cohort) || d == last.doc {
      if d in DocsOf(cohort) {
        var i :| 0 <= i < |cohort| && cohort[i].doc == d;
        assert more[i].doc == d;
      }
      assert more[|cohort|].doc == last.doc;
    }
  }

  lemma ItsOwnCohort(cohort: seq<Scored>)
    requires DistinctMembers(cohort)
    ensures CohortOf(cohort, DocsOf(cohort))
  {
    DocsOfSize(cohort);
  }

  lemma StrictlyWeakest(cohort: seq<Scored>, percentiles: map<int, real>)
    requires |cohort| >= MIN_COHORT_FOR_PERCENTILE && DistinctMembers(cohort) && IsPercentiles(cohort, percentiles)
    requires forall j :: 0 < j < |cohort| ==> cohort[0].score < cohort[j].score
    ensures cohort[0].doc in percentiles && percentiles[cohort[0].doc] == 0.0
  {
    ItsOwnCohort(cohort);
    var weakest := WeakestHasPercentileZero(cohort, DocsOf(cohort), percentiles);
    var i :| 0 <= i < |cohort| && cohort[i].doc == weakest
             && forall j :: 0 <= j < |cohort| ==> cohort[i].score <= cohort[j].score;
    assert cohort[i].score <= cohort[0].score;
  }

  lemma WeakestOfTen(d: int, percentiles: map<int, real>)
    requires IsPercentiles(TenWith(d), percentiles)
    ensures d in percentiles && percentiles[d] == 0.0
  {
    assert TenWith(d)[0].doc == d;
    StrictlyWeakest(TenWith(d), percentiles);
  }

  /** The documented promise, that separated thresholds keep a document from
      flip-flopping, holds exactly when no document is strong or the percentile
      rule is switched off. */
  lemma CanFlipFlopIff(p: Policy, e: Evidence)
    requires p.addThreshold > p.removeThreshold
    ensures CanFlipFlop(p, e) <==> StrongDocs(p, e) != {} && p.removePercentile >= 0
  {
    if CanFlipFlop(p, e) {
      var d, before, later, cohort, percentiles :| FlipFlops(p, e, d, before, later, cohort, percentiles);
      assert d in StrongDocs(p, e);
      assert MismatchReason(p, e, later, percentiles, d) == Some(CohortBottom);
      PercentilesAreNonNegative(cohort, percentiles, d);
    }
    if StrongDocs(p, e) != {} && p.removePercentile >= 0 {
      var d := AnyMember(StrongDocs(p, e));
      var percentiles := PercentilesExist(TenWith(d));
      ItsOwnCohort(TenWith(d));
      WeakestOfTen(d, percentiles);
      assert TenWith(d)[0].doc == d && d in DocsOf(TenWith(d));
      assert FlipFlops(p, e, d, {}, DocsOf(TenWith(d)), TenWith(d), percentiles);
    }
  }

  /** Such a cycle runs for ever: of ten documents that the absolute rules leave
      alone, among them all the strong ones, a strong weakest is removed and then
      added again. */
  lemma CohortCycle(p: Policy, e: Evidence, holders: set<int>, cohort: seq<Scored>, percentiles: map<int, real>,
                    weakest: int)
    requires p.addThreshold > p.removeThreshold && 0 <= p.removePercentile <= 11
    requires |holders| == MIN_COHORT_FOR_PERCENTILE
    requires forall d :: d in holders ==> d in e.scores && e.scores[d] >= p.removeThreshold
    requires forall d :: Strong(p, e, d) ==> d in holders
    requires CohortOf(cohort, holders) && IsPercentiles(cohort, percentiles)
    requires weakest in percentiles && percentiles[weakest] == 0.0 && Strong(p, e, weakest)
    ensures forall d :: ShouldRemove(p, e, holders, percentiles, d) <==> d == weakest
    ensures Next(p, e, holders, percentiles) == holders - {weakest}
    ensures Next(p, e, holders - {weakest}, map[]) == holders
  {
    forall d | ShouldRemove(p, e, holders, percentiles, d) ensures d == weakest {
      OnlyTheFirstIsAtTheBottom(p, cohort, percentiles, d, weakest);
    }
    var rest := holders - {weakest};
    forall d ensures d in Next(p, e, holders, percentiles) <==> d in rest {}
    forall d ensures d in Next(p, e, rest, map[]) <==> d in holders {}
    assert Next(p, e, holders, percentiles) == rest;
    assert Next(p, e, rest, map[]) == holders;
  }

  lemma OnlyTheFirstIsAtTheBottom(p: Policy, cohort: seq<Scored>, percentiles: map<int, real>, d: int, weakest: int)
    requires p.removePercentile <= 11 && |cohort| == MIN_COHORT_FOR_PERCENTILE && IsPercentiles(cohort, percentiles)
    requires d in percentiles && percentiles[d] <= p.removePercentile as real
    requires weakest in percentiles && percentiles[weakest] == 0.0
    ensures d == weakest
  {
    LowIsFirst(cohort, percentiles, d);
    LowIsFirst(cohort, percentiles, weakest);
  }

  lemma LowIsFirst(cohort: seq<Scored>, percentiles: map<int, real>, d: int)
    requires |cohort| == 10 && IsPercentiles(cohort, percentiles) && d in percentiles && percentiles[d] <= 11.0
    ensures SortBy(cohort, ScoreOf)[0].doc == d
  {
    var i := RankOf(cohort, percentiles, d);
    LowRankIsZero(percentiles, d, i);
  }

  lemma RankOf(cohort: seq<Scored>, percentiles: map<int, real>, d: int) returns (i: nat)
    requires |cohort| >= MIN_COHORT_FOR_PERCENTILE && IsPercentiles(cohort, percentiles) && d in percentiles
    ensures i < |cohort| && SortBy(cohort, ScoreOf)[i].doc == d && HasRank(percentiles, d, i, |cohort|)
  {
    var ordered := SortBy(cohort, ScoreOf);
    i :| 0 <= i < |ordered| && ordered[i].doc == d;
    assert HasRank(percentiles, ordered[i].doc, i, |cohort|);
  }

  lemma LowRankIsZero(percentiles: map<int, real>, d: int, i: nat)
    requires i < 10 && HasRank(percentiles, d, i, 10) && percentiles[d] <= 11.0
    ensures i == 0
  {
  }

  /** In particular when exactly the strong documents are assigned. */
  lemma CohortRuleFlipFlops(p: Policy, e: Evidence, holders: set<int>, cohort: seq<Scored>, percentiles: map<int, real>)
    requires p.addThreshold > p.removeThreshold && 0 <= p.removePercentile <= 11
    requires |holders| == MIN_COHORT_FOR_PERCENTILE
    requires forall d :: d in holders <==> Strong(p, e, d)
    requires CohortOf(cohort, holders) && IsPercentiles(cohort, percentiles)
    ensures exists weakest :: && weakest in holders
              && (forall d :: ShouldRemove(p, e, holders, percentiles, d) <==> d == weakest)
              && Next(p, e, holders, percentiles) == holders - {weakest}
              && Next(p, e, holders - {weakest}, map[]) == holders
  {
    var weakest := WeakestHasPercentileZero(cohort, holders, percentiles);
    CohortCycle(p, e, holders, cohort, percentiles, weakest);
  }

  const DEFAULTS := Policy(0.8, 0.35, 10, 2, 100)

  /** Documents 1 to 9 are strong; document 10 scores higher in one chunk only. */
  const NINE_STRONG := Evidence(map d | 1 <= d <= 10 :: if d == 10 then 0.95 else 0.8,
                                map d | 1 <= d <= 10 :: if d == 10 then 1 else 2)

  const ALL_TEN := seq(10, i => Scored(i + 1, if i == 9 then 0.95 else 0.8))

  lemma AllTenIsACohort()
    ensures CohortOf(ALL_TEN, DocsOf(ALL_TEN)) && forall d :: d in DocsOf(ALL_TEN) <==> 1 <= d <= 10
  {
    ItsOwnCohort(ALL_TEN);
    forall d | 1 <= d <= 10 ensures d in DocsOf(ALL_TEN) {
      assert ALL_TEN[d - 1].doc == d;
    }
  }

  lemma NineAreStrong()
    ensures forall d :: Strong(DEFAULTS, NINE_STRONG, d) <==> 1 <= d <= 9
    ensures |StrongDocs(DEFAULTS, NINE_STRONG)| < MIN_COHORT_FOR_PERCENTILE
  {
    AllTenIsACohort();
    var others := DocsOf(ALL_TEN) - {10};
    assert |others| == 9;
    SubsetIsSmaller(StrongDocs(DEFAULTS, NINE_STRONG), others);
  }

  lemma OneOfTheNine(percentiles: map<int, real>) returns (weakest: int)
    requires IsPercentiles(ALL_TEN, percentiles)
    ensures 1 <= weakest <= 9 && weakest in percentiles && percentiles[weakest] == 0.0
  {
    AllTenIsACohort();
    weakest := WeakestHasPercentileZero(ALL_TEN, DocsOf(ALL_TEN), percentiles);
    var i :| 0 <= i < |ALL_TEN| && ALL_TEN[i].doc == weakest
             && forall j :: 0 <= j < |ALL_TEN| ==> ALL_TEN[i].score <= ALL_TEN[j].score;
    assert ALL_TEN[i].score <= ALL_TEN[0].score;
  }

  /** Nine strong documents are enough: with a tenth, weak but better-scoring
      companion one of them goes and comes back round after round, although the
      nine alone would be at rest. */
  lemma NineStrongFlipFlop(percentiles: map<int, real>) returns (weakest: int)
    requires IsPercentiles(ALL_TEN, percentiles)
    ensures CanRest(DEFAULTS, NINE_STRONG)
    ensures 1 <= weakest <= 9
    ensures var holders := DocsOf(ALL_TEN);
            && Next(DEFAULTS, NINE_STRONG, holders, percentiles) == holders - {weakest}
            && Next(DEFAULTS, NINE_STRONG, holders - {weakest}, map[]) == holders
  {
    AllTenIsACohort();
    NineAreStrong();
    CanRestIff(DEFAULTS, NINE_STRONG);
    weakest := OneOfTheNine(percentiles);
    CohortCycle(DEFAULTS, NINE_STRONG, DocsOf(ALL_TEN), ALL_TEN, percentiles, weakest);
  }
}
