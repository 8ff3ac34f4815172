/** What a grooming scan remembers of rejected suggestions: recording in
    backend/approval_queue.py, loading and filtering in backend/grooming.py. */
module DismissalMemory {
  import opened Collections
  import opened ApprovalQueue
  import opened ApprovalRuns

  /** A dismissal as the scan looks it up. */
  datatype Key = Key(entityType: string, entityId: int, doc: int, verb: Verb)

  /** What a scan proposes. */
  datatype Candidate = Candidate(entityType: string, entityId: int, doc: int, verb: Verb)

  // ---- Loading the keys still in force ----

  const SECONDS_PER_DAY := 86400

  /** The start of the period in which dismissals count; 0 days means always. */
  function Cutoff(now: int, resuggestDays: int): Option<int> {
    if resuggestDays > 0 then Some(now - resuggestDays * SECONDS_PER_DAY) else None
  }

  predicate InForce(d: Dismissal, cutoff: Option<int>) {
    cutoff.Some? ==> d.at >= cutoff.value
  }

  predicate Looked(d: Dismissal, types: seq<string>, cutoff: Option<int>) {
    d.entityType in types && d.verb != Dedup && InForce(d, cutoff)
  }

  function KeyOf(d: Dismissal): Key {
    Key(d.entityType, d.entityId, d.doc, d.verb)
  }

  ghost predicate Names(d: Dismissal, types: seq<string>, cutoff: Option<int>, k: Key) {
    Looked(d, types, cutoff) && KeyOf(d) == k
  }

  ghost predicate IsKey(dismissals: seq<Dismissal>, types: seq<string>, cutoff: Option<int>, k: Key) {
    exists p :: 0 <= p < |dismissals| && Names(dismissals[p], types, cutoff, k)
  }

  method LoadDismissedKeys(dismissals: seq<Dismissal>, types: seq<string>, cutoff: Option<int>) returns (keys: set<Key>)
    ensures forall k :: k in keys <==> IsKey(dismissals, types, cutoff, k)
    ensures forall k :: k in keys ==> k.entityType in types && k.verb != Dedup
  {
    keys := {};
    for i := 0 to |dismissals|
      invariant forall k :: k in keys ==> IsKey(dismissals, types, cutoff, k)
      invariant forall p :: 0 <= p < i && Looked(dismissals[p], types, cutoff) ==> KeyOf(dismissals[p]) in keys
    {
      var d := dismissals[i];
      if d.entityType !in types || d.verb == Dedup {
        continue;
      }
      if cutoff.Some? && d.at < cutoff.value {
        continue;
      }
      assert Names(d, types, cutoff, KeyOf(d));
      keys := keys + {KeyOf(d)};
    }
  }

  /** A rejected replace also blocks review, and the other way round. */
  predicate IsDismissed(keys: set<Key>, c: Candidate) {
    if c.verb == Replace || c.verb == Review then
      || Key(c.entityType, c.entityId, c.doc, Replace) in keys
      || Key(c.entityType, c.entityId, c.doc, Review) in keys
    else Key(c.entityType, c.entityId, c.doc, c.verb) in keys
  }

  // ---- The filter at the end of a scan ----

  method FilterCandidates(found: seq<Candidate>, dismissed: set<Key>, pendingDocs: set<int>)
    returns (kept: seq<Candidate>, skippedDismissed: nat, skippedPending: nat, ghost origin: seq<nat>)
    ensures |origin| == |kept|
    ensures forall p :: 0 <= p < |kept| ==> origin[p] < |found| && kept[p] == found[origin[p]]
    ensures forall p, q :: 0 <= p < q < |kept| ==> origin[p] < origin[q]
    ensures forall i :: 0 <= i < |found| ==>
              (i in origin <==> !IsDismissed(dismissed, found[i]) && found[i].doc !in pendingDocs)
    ensures skippedDismissed == CountWhere(found, (c: Candidate) => IsDismissed(dismissed, c))
    ensures skippedDismissed + skippedPending + |kept| == |found|
  {
    kept, skippedDismissed, skippedPending, origin := [], 0, 0, [];
    for i := 0 to |found|
      invariant |origin| == |kept|
      invariant forall p :: 0 <= p < |kept| ==> origin[p] < i && kept[p] == found[origin[p]]
      invariant forall p, q :: 0 <= p < q < |kept| ==> origin[p] < origin[q]
      invariant forall k :: 0 <= k < i ==>
                  (k in origin <==> !IsDismissed(dismissed, found[k]) && found[k].doc !in pendingDocs)
      invariant skippedDismissed == CountWhere(found[..i], (c: Candidate) => IsDismissed(dismissed, c))
      invariant skippedDismissed + skippedPending + |kept| == i
    {
      assert found[..i + 1][..i] == found[..i];
      var c := found[i];
      if IsDismissed(dismissed, c) {
        skippedDismissed := skippedDismissed + 1;
        continue;
      }
      if c.doc in pendingDocs {
        skippedPending := skippedPending + 1;
        continue;
      }
      kept, origin := kept + [c], origin + [i];
    }
    PrefixEnds(found);
  }

  // ---- What the memory holds ----

  /** Both express "keep the incumbent, stop asking". */
  predicate SameQuestion(a: Verb, b: Verb) {
    a == b || (a in {Replace, Review} && b in {Replace, Review})
  }

  predicate Blocks(d: Dismissal, cutoff: Option<int>, c: Candidate) {
    && d.entityType == c.entityType && d.entityId == c.entityId && d.doc == c.doc
    && SameQuestion(d.verb, c.verb) && InForce(d, cutoff)
  }

  ghost predicate Remembers(dismissals: seq<Dismissal>, cutoff: Option<int>, c: Candidate) {
    exists p :: 0 <= p < |dismissals| && Blocks(dismissals[p], cutoff, c)
  }

  /** The scan drops a candidate exactly when a dismissal in force blocks it. */
  lemma DismissedIffRemembered(dismissals: seq<Dismissal>, types: seq<string>, cutoff: Option<int>, keys: set<Key>,
                               c: Candidate)
    requires forall k :: k in keys <==> IsKey(dismissals, types, cutoff, k)
    requires c.entityType in types && c.verb != Dedup
    ensures IsDismissed(keys, c) <==> Remembers(dismissals, cutoff, c)
  {
  }

  /** A rejected replace also blocks the review of its incumbent and a rejected
      review the replace; a rejected add blocks no remove. */
  lemma ReplaceAndReviewBlockEachOther(entityType: string, entityId: int, doc: int, keys: set<Key>, other: set<Key>)
    requires keys == {Key(entityType, entityId, doc, Replace)} && other == {Key(entityType, entityId, doc, Review)}
    ensures IsDismissed(keys, Candidate(entityType, entityId, doc, Review))
    ensures IsDismissed(other, Candidate(entityType, entityId, doc, Replace))
    ensures forall verb :: verb !in {Replace, Review} ==>
              !IsDismissed(keys + other, Candidate(entityType, entityId, doc, verb))
  {
  }

  // ---- Which requests put it there ----

  predicate Asks(action: EvidenceAction, c: Candidate) {
    action.entityType == c.entityType && action.entityId == Some(c.entityId) && SameQuestion(action.verb, c.verb)
  }

  ghost predicate AsksSome(actions: seq<EvidenceAction>, c: Candidate) {
    exists p :: 0 <= p < |actions| && Asks(actions[p], c)
  }

  /** Rejecting a pending grooming suggestion that asks for `c`, with recording
      on and within the period that counts. */
  ghost predicate RejectDismisses(db: Db, id: Id, record: bool, now: int, cutoff: Option<int>, c: Candidate) {
    && IsPending(db, id) && record && db.rows[id].grooming && db.rows[id].doc == c.doc
    && db.rows[id].evidence.Actions? && AsksSome(db.rows[id].evidence.actions, c)
    && (cutoff.Some? ==> now >= cutoff.value)
  }

  ghost predicate BulkDismisses(db: Db, ids: seq<Id>, now: int, cutoff: Option<int>, c: Candidate)
    decreases |ids|
  {
    && ids != [] && RejectOutcome(db, ids[0]) == Done
    && (RejectDismisses(db, ids[0], true, now, cutoff, c)
        || BulkDismisses(AfterReject(db, ids[0], true, now), ids[1..], now, cutoff, c))
  }

  ghost predicate Dismisses(db: Db, r: Request, cutoff: Option<int>, c: Candidate) {
    match r
    case RejectOne(id, record, now) => RejectDismisses(db, id, record, now, cutoff, c)
    case BulkReject(ids, now) => BulkDismisses(db, ids, now, cutoff, c)
    case _ => false
  }

  lemma RememberAppend(a: seq<Dismissal>, b: seq<Dismissal>, cutoff: Option<int>, c: Candidate)
    ensures Remembers(a + b, cutoff, c) <==> Remembers(a, cutoff, c) || Remembers(b, cutoff, c)
  {
    assert forall p :: 0 <= p < |a| ==> (a + b)[p] == a[p];
    assert forall p :: 0 <= p < |b| ==> (a + b)[|a| + p] == b[p];
  }

  lemma {:induction false} DismissalsRemember(actions: seq<EvidenceAction>, doc: int, now: int, cutoff: Option<int>,
                                              c: Candidate)
    ensures Remembers(DismissalsOf(actions, doc, now), cutoff, c) <==>
              doc == c.doc && AsksSome(actions, c) && (cutoff.Some? ==> now >= cutoff.value)
  {
    if actions != [] {
      var init, last := actions[..|actions| - 1], actions[|actions| - 1];
      var added :=
        if last.entityId.None? then [] else [Dismissal(last.entityType, last.entityId.value, doc, last.verb, now)];
      DismissalsRemember(init, doc, now, cutoff, c);
      RememberAppend(DismissalsOf(init, doc, now), added, cutoff, c);
      assert forall p :: 0 <= p < |init| ==> actions[p] == init[p];
      assert AsksSome(actions, c) <==> AsksSome(init, c) || Asks(last, c);
      assert added != [] ==> (Remembers(added, cutoff, c) <==> Blocks(added[0], cutoff, c));
    }
  }

  lemma RejectRemembers(db: Db, id: Id, record: bool, now: int, cutoff: Option<int>, c: Candidate)
    ensures Remembers(AfterReject(db, id, record, now).dismissals, cutoff, c) <==>
              Remembers(db.dismissals, cutoff, c) || RejectDismisses(db, id, record, now, cutoff, c)
  {
    if IsPending(db, id) {
      var s := db.rows[id];
      RememberAppend(db.dismissals, Recorded(s, record, now), cutoff, c);
      if s.evidence.Actions? {
        DismissalsRemember(s.evidence.actions, s.doc, now, cutoff, c);
      }
    }
  }

  lemma {:induction false} BulkRemembers(db: Db, ids: seq<Id>, now: int, cutoff: Option<int>, c: Candidate)
    ensures Remembers(AfterBulkReject(db, ids, now).dismissals, cutoff, c) <==>
              Remembers(db.dismissals, cutoff, c) || BulkDismisses(db, ids, now, cutoff, c)
    decreases |ids|
  {
    if ids != [] && RejectOutcome(db, ids[0]) == Done {
      RejectRemembers(db, ids[0], true, now, cutoff, c);
      BulkRemembers(AfterReject(db, ids[0], true, now), ids[1..], now, cutoff, c);
    }
  }

  lemma {:induction false} BulkApproveForgets(json: Value -> string, db: Db, ids: seq<Id>, accepted: seq<bool>)
    requires |ids| == |accepted|
    ensures AfterBulkApprove(json, db, ids, accepted).dismissals == db.dismissals
    decreases |ids|
  {
    if ids != [] && ApproveOutcome(db, InBulk(ids[0], accepted[0])) == Done {
      BulkApproveForgets(json, AfterApprove(json, db, InBulk(ids[0], accepted[0])), ids[1..], accepted[1..]);
    }
  }

  lemma ServeRemembers(json: Value -> string, db: Db, r: Request, cutoff: Option<int>, c: Candidate)
    requires WellFormed(r)
    ensures Remembers(Serve(json, db, r).dismissals, cutoff, c) <==>
              Remembers(db.dismissals, cutoff, c) || Dismisses(db, r, cutoff, c)
  {
    match r
    case RejectOne(id, record, now) => RejectRemembers(db, id, record, now, cutoff, c);
    case BulkReject(ids, now) => BulkRemembers(db, ids, now, cutoff, c);
    case BulkApprove(ids, accepted) => BulkApproveForgets(json, db, ids, accepted);
    case EmptyQueue(listing, now) => RejectAllRejects(db, FirstPage(listing), now);
    case Reanalyze(id, analysis, now) => RejectRemembers(db, id, false, now, cutoff, c);
    case _ =>
  }

  ghost predicate DismissedBy(json: Value -> string, run: seq<Request>, n: nat, cutoff: Option<int>, c: Candidate)
    requires AllWellFormed(run) && n < |run|
  {
    Dismisses(After(json, run[..n]), run[n], cutoff, c)
  }

  ghost predicate EverDismissed(json: Value -> string, run: seq<Request>, cutoff: Option<int>, c: Candidate)
    requires AllWellFormed(run)
  {
    exists n :: 0 <= n < |run| && DismissedBy(json, run, n, cutoff, c)
  }

  /** Over every run of requests: the scan remembers exactly the questions that
      some recorded rejection answered within the period that counts. Emptying
      the queue, re-analysing, approving and superseding leave no memory. */
  lemma {:induction false} MemoryIsExact(json: Value -> string, run: seq<Request>, cutoff: Option<int>, c: Candidate)
    requires AllWellFormed(run)
    ensures Remembers(After(json, run).dismissals, cutoff, c) <==> EverDismissed(json, run, cutoff, c)
  {
    if run != [] {
      var init := run[..|run| - 1];
      MemoryIsExact(json, init, cutoff, c);
      ServeRemembers(json, After(json, init), run[|run| - 1], cutoff, c);
      forall n | 0 <= n < |init|
        ensures DismissedBy(json, run, n, cutoff, c) <==> DismissedBy(json, init, n, cutoff, c)
      {
        assert init[..n] == run[..n];
      }
      assert DismissedBy(json, run, |init|, cutoff, c) <==> Dismisses(After(json, init), run[|run| - 1], cutoff, c);
    }
  }

  /** What a scan at `scanTime` drops, after any requests: with an expiry of some
      days, what a recorded rejection answered within so many days; without one,
      what any ever answered. */
  lemma ScanDropsIff(json: Value -> string, run: seq<Request>, c: Candidate, types: seq<string>, scanTime: int,
                     resuggestDays: int, keys: set<Key>)
    requires AllWellFormed(run)
    requires forall k :: k in keys <==> IsKey(After(json, run).dismissals, types, Cutoff(scanTime, resuggestDays), k)
    requires c.entityType in types && c.verb != Dedup
    ensures resuggestDays > 0 ==>
              (IsDismissed(keys, c) <==> EverDismissed(json, run, Some(scanTime - resuggestDays * 24 * 60 * 60), c))
    ensures resuggestDays <= 0 ==> (IsDismissed(keys, c) <==> EverDismissed(json, run, None, c))
  {
    var cutoff := Cutoff(scanTime, resuggestDays);
    MemoryIsExact(json, run, cutoff, c);
    DismissedIffRemembered(After(json, run).dismissals, types, cutoff, keys, c);
  }

  /** Once rejected with recording on, a question does not come back while the
      rejection is in force, which is forever when nothing expires: after any
      further requests a scan at `scanTime` drops every candidate that asks it. */
  lemma RejectedIsNotAskedAgain(json: Value -> string, run: seq<Request>, n: nat, id: Id, now: int, c: Candidate,
                                types: seq<string>, scanTime: int, resuggestDays: int, keys: set<Key>)
    requires AllWellFormed(run) && n < |run| && run[n] == RejectOne(id, true, now)
    requires RejectDismisses(After(json, run[..n]), id, true, now, None, c)
    requires resuggestDays > 0 ==> scanTime - now <= resuggestDays * SECONDS_PER_DAY
    requires forall k :: k in keys <==> IsKey(After(json, run).dismissals, types, Cutoff(scanTime, resuggestDays), k)
    requires c.entityType in types && c.verb != Dedup
    ensures IsDismissed(keys, c)
  {
    var cutoff := Cutoff(scanTime, resuggestDays);
    assert DismissedBy(json, run, n, cutoff, c);
    MemoryIsExact(json, run, cutoff, c);
    DismissedIffRemembered(After(json, run).dismissals, types, cutoff, keys, c);
  }
}
