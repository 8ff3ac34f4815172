/** Runs of the approval queue: any sequence of requests served one at a time,
    and any interleaving of requests that wait between reading a suggestion and
    writing their decision. */
module ApprovalRuns {
  import opened Collections
  import opened ApprovalQueue

  // ---- Requests served one at a time ----

  datatype Request =
    | EnqueueOne(id: Id, suggestion: Suggestion)
    | ApproveOne(approval: Approval)
    | RejectOne(id: Id, record: bool, now: int)
    | BulkApprove(ids: seq<Id>, accepted: seq<bool>)
    | BulkReject(ids: seq<Id>, now: int)
    | EmptyQueue(listing: seq<Id>, now: int)
    | Reanalyze(id: Id, analysis: Option<Analysis>, now: int)

  datatype Analysis = Analysis(id: Id, suggestion: Suggestion)

  /** `bulk_approve` approves without edits or superseding. */
  function InBulk(id: Id, accepted: bool): Approval {
    Approval(id, [], false, false, accepted)
  }

  /** Each suggestion is committed on its own; the first error ends the request. */
  function AfterBulkApprove(json: Value -> string, db: Db, ids: seq<Id>, accepted: seq<bool>): Db
    requires |ids| == |accepted|
    decreases |ids|
  {
    if ids == [] || ApproveOutcome(db, InBulk(ids[0], accepted[0])) != Done then db
    else AfterBulkApprove(json, AfterApprove(json, db, InBulk(ids[0], accepted[0])), ids[1..], accepted[1..])
  }

  function AfterBulkReject(db: Db, ids: seq<Id>, now: int): Db
    decreases |ids|
  {
    if ids == [] || RejectOutcome(db, ids[0]) != Done then db
    else AfterBulkReject(AfterReject(db, ids[0], true, now), ids[1..], now)
  }

  /** Reject one after another, ignoring errors and recording no dismissals. */
  function AfterRejectAll(db: Db, ids: seq<Id>, now: int): Db {
    if ids == [] then db else AfterReject(AfterRejectAll(db, ids[..|ids| - 1], now), ids[|ids| - 1], false, now)
  }

  const PAGE_SIZE := 10000

  /** `empty_queue` asks for one page of pending suggestions. */
  function FirstPage(listing: seq<Id>): seq<Id> {
    if |listing| > PAGE_SIZE then listing[..PAGE_SIZE] else listing
  }

  /** A failed analysis keeps the old suggestion; otherwise it is rejected, if it
      can be, and the new one enqueued. */
  function AfterReanalyze(db: Db, id: Id, analysis: Option<Analysis>, now: int): Db {
    if id !in db.rows || analysis.None? then db
    else Enqueued(AfterReject(db, id, false, now), analysis.value.id, analysis.value.suggestion)
  }

  predicate WellFormed(r: Request) {
    r.BulkApprove? ==> |r.ids| == |r.accepted|
  }

  function Serve(json: Value -> string, db: Db, r: Request): Db
    requires WellFormed(r)
  {
    match r
    case EnqueueOne(id, s) => Enqueued(db, id, s)
    case ApproveOne(a) => AfterApprove(json, db, a)
    case RejectOne(id, record, now) => AfterReject(db, id, record, now)
    case BulkApprove(ids, accepted) => AfterBulkApprove(json, db, ids, accepted)
    case BulkReject(ids, now) => AfterBulkReject(db, ids, now)
    case EmptyQueue(listing, now) => AfterRejectAll(db, FirstPage(listing), now)
    case Reanalyze(id, analysis, now) => AfterReanalyze(db, id, analysis, now)
  }

  ghost predicate AllWellFormed(run: seq<Request>) {
    forall p :: 0 <= p < |run| ==> WellFormed(run[p])
  }

  function After(json: Value -> string, run: seq<Request>): Db
    requires AllWellFormed(run)
  {
    if run == [] then EMPTY_DB else Serve(json, After(json, run[..|run| - 1]), run[|run| - 1])
  }

  /** Suggestions stay in the table, and settled ones stay as they are. */
  ghost predicate KeepsSettled(before: Db, after: Db) {
    forall i :: i in before.rows ==>
      i in after.rows && (before.rows[i].status != Pending ==> after.rows[i] == before.rows[i])
  }

  lemma ApproveKeeps(json: Value -> string, db: Db, a: Approval)
    requires Good(json, db)
    ensures Good(json, AfterApprove(json, db, a)) && KeepsSettled(db, AfterApprove(json, db, a))
  {
    if ApproveOutcome(db, a) == Done {
      var t := TicketFor(db, a.id, a.edits, a.applyContent, a.supersede);
      CompletionKeepsGood(json, db, t);
      SiblingsAreSiblings(db.rows, t.id, db.order);
    }
  }

  lemma {:induction false} BulkApproveKeeps(json: Value -> string, db: Db, ids: seq<Id>, accepted: seq<bool>)
    requires Good(json, db) && |ids| == |accepted|
    ensures Good(json, AfterBulkApprove(json, db, ids, accepted))
    ensures KeepsSettled(db, AfterBulkApprove(json, db, ids, accepted))
    decreases |ids|
  {
    if ids != [] && ApproveOutcome(db, InBulk(ids[0], accepted[0])) == Done {
      ApproveKeeps(json, db, InBulk(ids[0], accepted[0]));
      BulkApproveKeeps(json, AfterApprove(json, db, InBulk(ids[0], accepted[0])), ids[1..], accepted[1..]);
    }
  }

  lemma {:induction false} BulkRejectKeeps(json: Value -> string, db: Db, ids: seq<Id>, now: int)
    requires Good(json, db)
    ensures Good(json, AfterBulkReject(db, ids, now)) && KeepsSettled(db, AfterBulkReject(db, ids, now))
    decreases |ids|
  {
    if ids != [] && RejectOutcome(db, ids[0]) == Done {
      RejectKeepsGood(json, db, ids[0], true, now);
      BulkRejectKeeps(json, AfterReject(db, ids[0], true, now), ids[1..], now);
    }
  }

  lemma {:induction false} RejectAllKeeps(json: Value -> string, db: Db, ids: seq<Id>, now: int)
    requires Good(json, db)
    ensures Good(json, AfterRejectAll(db, ids, now)) && KeepsSettled(db, AfterRejectAll(db, ids, now))
  {
    if ids != [] {
      RejectAllKeeps(json, db, ids[..|ids| - 1], now);
      RejectKeepsGood(json, AfterRejectAll(db, ids[..|ids| - 1], now), ids[|ids| - 1], false, now);
    }
  }

  lemma ReanalyzeKeeps(json: Value -> string, db: Db, id: Id, analysis: Option<Analysis>, now: int)
    requires Good(json, db)
    ensures Good(json, AfterReanalyze(db, id, analysis, now)) && KeepsSettled(db, AfterReanalyze(db, id, analysis, now))
  {
    if id in db.rows && analysis.Some? {
      RejectKeepsGood(json, db, id, false, now);
      EnqueueKeepsGood(json, AfterReject(db, id, false, now), analysis.value.id, analysis.value.suggestion);
    }
  }

  lemma ServeKeeps(json: Value -> string, db: Db, r: Request)
    requires Good(json, db) && WellFormed(r)
    ensures Good(json, Serve(json, db, r)) && KeepsSettled(db, Serve(json, db, r))
  {
    match r
    case EnqueueOne(id, s) => EnqueueKeepsGood(json, db, id, s);
    case ApproveOne(a) => ApproveKeeps(json, db, a);
    case RejectOne(id, record, now) => RejectKeepsGood(json, db, id, record, now);
    case BulkApprove(ids, accepted) => BulkApproveKeeps(json, db, ids, accepted);
    case BulkReject(ids, now) => BulkRejectKeeps(json, db, ids, now);
    case EmptyQueue(listing, now) => RejectAllKeeps(json, db, FirstPage(listing), now);
    case Reanalyze(id, analysis, now) => ReanalyzeKeeps(json, db, id, analysis, now);
  }

  lemma EmptyIsGood(json: Value -> string)
    ensures Good(json, EMPTY_DB)
  {
  }

  /** Over every run of requests: one matching event per settled suggestion, none
      for a pending one, and the logged changes replay to the stored fields. */
  lemma {:induction false} EveryRunIsGood(json: Value -> string, run: seq<Request>)
    requires AllWellFormed(run)
    ensures Good(json, After(json, run))
  {
    if run == [] {
      EmptyIsGood(json);
    } else {
      EveryRunIsGood(json, run[..|run| - 1]);
      ServeKeeps(json, After(json, run[..|run| - 1]), run[|run| - 1]);
    }
  }

  /** A verdict is final: what is settled after some requests is the same after
      any further ones. */
  lemma {:induction false} VerdictsAreFinal(json: Value -> string, run: seq<Request>, n: nat)
    requires AllWellFormed(run) && n <= |run|
    ensures KeepsSettled(After(json, run[..n]), After(json, run))
  {
    if n == |run| {
      PrefixEnds(run);
    } else {
      var init := run[..|run| - 1];
      assert init[..n] == run[..n];
      VerdictsAreFinal(json, init, n);
      EveryRunIsGood(json, init);
      ServeKeeps(json, After(json, init), run[|run| - 1]);
    }
  }

  // ---- What bulk requests and re-analysis do ----

  lemma {:induction false} NothingToLog(json: Value -> string, t: Ticket, fields: seq<Field>)
    requires t.edited == t.original
    ensures Changes(json, t, fields) == []
  {
    if fields != [] {
      NothingToLog(json, t, fields[..|fields| - 1]);
    }
  }

  /** Approving without edits, content or superseding settles one suggestion. */
  function Settled(db: Db, id: Id, status: Status): Db
    requires id in db.rows
  {
    db.(rows := db.rows[id := db.rows[id].(status := status)],
        audit := db.audit + [ApprovalQueue.Event(id, status, None)])
  }

  lemma PlainApproval(json: Value -> string, db: Db, id: Id)
    requires IsPending(db, id)
    ensures AfterApprove(json, db, InBulk(id, true)) == Settled(db, id, Approved)
  {
    var t := TicketFor(db, id, [], false, false);
    var after := AfterApprove(json, db, InBulk(id, true));
    NothingToLog(json, t, EDITABLE);
    OverwrittenIsEdited(t.original, t);
    assert SupersedeEvents([], id) == [];
    assert CompletionRows(json, t, db.rows[id], []) == [ApprovalQueue.Event(id, Approved, None)];
    assert after.rows == Settled(db, id, Approved).rows;
  }

  /** The k-th suggestion of a bulk approval can be approved when it is reached. */
  ghost predicate Approvable(db: Db, ids: seq<Id>, accepted: seq<bool>, k: nat)
    requires |ids| == |accepted|
  {
    k < |ids| && IsPending(db, ids[k]) && accepted[k] && ids[k] !in ids[..k]
  }

  /** The first `n` suggestions got this verdict, logged in order, and nothing
      else changed. */
  ghost predicate FirstSettled(db: Db, after: Db, ids: seq<Id>, n: nat, status: Status)
    requires n <= |ids|
  {
    && after.order == db.order && after.proposed == db.proposed && after.dismissals == db.dismissals
    && after.rows.Keys == db.rows.Keys
    && (forall i :: i in db.rows ==>
          after.rows[i] == if i in ids[..n] then db.rows[i].(status := status) else db.rows[i])
    && after.audit == db.audit + seq(n, k requires 0 <= k < n => ApprovalQueue.Event(ids[k], status, None))
  }

  lemma FirstSettledPush(db: Db, after: Db, ids: seq<Id>, n: nat, status: Status)
    requires ids != [] && n < |ids| && ids[0] in db.rows
    requires FirstSettled(Settled(db, ids[0], status), after, ids[1..], n, status)
    ensures FirstSettled(db, after, ids, n + 1, status)
  {
    assert ids[..n + 1] == [ids[0]] + ids[1..][..n];
    var events := seq(n + 1, k requires 0 <= k < n + 1 => ApprovalQueue.Event(ids[k], status, None));
    assert events == [events[0]] + seq(n, k requires 0 <= k < n => ApprovalQueue.Event(ids[1..][k], status, None));
  }

  lemma ApprovableNext(db: Db, ids: seq<Id>, accepted: seq<bool>, k: nat)
    requires |ids| == |accepted| && ids != [] && IsPending(db, ids[0])
    ensures Approvable(Settled(db, ids[0], Approved), ids[1..], accepted[1..], k) <==>
              Approvable(db, ids, accepted, k + 1)
  {
    if k + 1 < |ids| {
      assert ids[..k + 1] == [ids[0]] + ids[1..][..k];
    }
  }

  /** `n` is how many suggestions a bulk approval gets through. */
  ghost predicate GetsThrough(db: Db, ids: seq<Id>, accepted: seq<bool>, n: nat)
    requires |ids| == |accepted|
  {
    && n <= |ids| && !Approvable(db, ids, accepted, n)
    && (forall k: nat :: k < n ==> Approvable(db, ids, accepted, k))
  }

  lemma GetsThroughPush(db: Db, ids: seq<Id>, accepted: seq<bool>, n: nat)
    requires |ids| == |accepted| && Approvable(db, ids, accepted, 0)
    requires GetsThrough(Settled(db, ids[0], Approved), ids[1..], accepted[1..], n)
    ensures GetsThrough(db, ids, accepted, n + 1)
  {
    forall k: nat
      ensures Approvable(Settled(db, ids[0], Approved), ids[1..], accepted[1..], k) <==>
                Approvable(db, ids, accepted, k + 1)
    {
      ApprovableNext(db, ids, accepted, k);
    }
    forall k: nat | k < n + 1 ensures Approvable(db, ids, accepted, k) {
      if k > 0 {
        assert Approvable(Settled(db, ids[0], Approved), ids[1..], accepted[1..], k - 1);
      }
    }
  }

  /** A bulk approval approves its suggestions in order, as they are, up to the
      first that cannot be, and touches no other, not even of the same document. */
  lemma {:induction false} BulkApproveSettles(json: Value -> string, db: Db, ids: seq<Id>, accepted: seq<bool>)
    returns (n: nat)
    requires |ids| == |accepted|
    ensures GetsThrough(db, ids, accepted, n)
    ensures FirstSettled(db, AfterBulkApprove(json, db, ids, accepted), ids, n, Approved)
    decreases |ids|
  {
    if Approvable(db, ids, accepted, 0) {
      PlainApproval(json, db, ids[0]);
      n := BulkApproveSettles(json, Settled(db, ids[0], Approved), ids[1..], accepted[1..]);
      GetsThroughPush(db, ids, accepted, n);
      FirstSettledPush(db, AfterBulkApprove(json, db, ids, accepted), ids, n, Approved);
      n := n + 1;
    } else {
      n := 0;
      NothingSettled(db, ids, Approved);
    }
  }

  lemma NothingSettled(db: Db, ids: seq<Id>, status: Status)
    ensures FirstSettled(db, db, ids, 0, status)
  {
    ConcatNil(db.audit);
  }

  /** Every id up to the n-th is known and not approved. */
  ghost predicate AllRejectable(db: Db, ids: seq<Id>, n: nat)
    requires n <= |ids|
  {
    forall k :: 0 <= k < n ==> ids[k] in db.rows && db.rows[ids[k]].status != Approved
  }

  /** Exactly the suggestions of `ids` are rejected, and nothing else changes. */
  ghost predicate RowsRejected(db: Db, after: Db, ids: seq<Id>) {
    && after.rows.Keys == db.rows.Keys
    && (forall i :: i in db.rows ==>
          after.rows[i] == if i in ids then db.rows[i].(status := Rejected) else db.rows[i])
  }

  lemma RowsRejectedPush(db: Db, id: Id, now: int, after: Db, ids: seq<Id>)
    requires id in db.rows && db.rows[id].status != Approved
    requires RowsRejected(AfterReject(db, id, true, now), after, ids)
    ensures RowsRejected(db, after, [id] + ids)
  {
  }

  /** A bulk rejection rejects what is pending among its suggestions, up to the
      first that is unknown or approved, and touches no other. */
  lemma {:induction false} BulkRejectSettles(db: Db, ids: seq<Id>, now: int) returns (n: nat)
    ensures n <= |ids| && AllRejectable(db, ids, n) && (n < |ids| ==> !AllRejectable(db, ids, n + 1))
    ensures RowsRejected(db, AfterBulkReject(db, ids, now), ids[..n])
    decreases |ids|
  {
    n := 0;
    if ids != [] && AllRejectable(db, ids, 1) {
      var next := AfterReject(db, ids[0], true, now);
      n := BulkRejectSettles(next, ids[1..], now);
      RowsRejectedPush(db, ids[0], now, AfterBulkReject(db, ids, now), ids[1..][..n]);
      assert ids[..n + 1] == [ids[0]] + ids[1..][..n];
      RejectablePush(db, ids, now, n);
      if n < |ids| - 1 {
        RejectablePush(db, ids, now, n + 1);
      }
      n := n + 1;
    }
  }

  lemma RejectablePush(db: Db, ids: seq<Id>, now: int, n: nat)
    requires n < |ids| && AllRejectable(db, ids, 1)
    ensures AllRejectable(AfterReject(db, ids[0], true, now), ids[1..], n) <==> AllRejectable(db, ids, n + 1)
  {
    var next := AfterReject(db, ids[0], true, now);
    forall k | 0 <= k < n
      ensures (ids[1..][k] in next.rows && next.rows[ids[1..][k]].status != Approved) <==>
                (ids[k + 1] in db.rows && db.rows[ids[k + 1]].status != Approved)
    {
    }
    if AllRejectable(next, ids[1..], n) {
      forall k | 0 <= k < n + 1 ensures ids[k] in db.rows && db.rows[ids[k]].status != Approved {
        if k > 0 {
          assert ids[1..][k - 1] == ids[k];
        }
      }
    }
  }

  /** The old suggestion is rejected, if it was pending, without being remembered,
      and the new one enqueued unless its id is taken. */
  ghost predicate Swapped(db: Db, after: Db, id: Id, analysis: Analysis) {
    && after.rows.Keys == db.rows.Keys + {analysis.id} && after.dismissals == db.dismissals
    && (IsPending(db, id) ==> after.rows[id] == db.rows[id].(status := Rejected))
    && (forall i :: i in db.rows && (i != id || !IsPending(db, id)) ==> after.rows[i] == db.rows[i])
    && (analysis.id !in db.rows ==> after.rows[analysis.id] == analysis.suggestion.(status := Pending))
  }

  // ---- Emptying the queue ----

  ghost predicate ListsPending(db: Db, listing: seq<Id>) {
    Distinct(listing) && forall i :: i in listing <==> IsPending(db, i)
  }

  lemma {:induction false} RejectAllRejects(db: Db, ids: seq<Id>, now: int)
    ensures AfterRejectAll(db, ids, now).rows.Keys == db.rows.Keys
    ensures AfterRejectAll(db, ids, now).dismissals == db.dismissals
    ensures forall i :: i in db.rows ==>
              AfterRejectAll(db, ids, now).rows[i] ==
              (if i in ids && IsPending(db, i) then db.rows[i].(status := Rejected) else db.rows[i])
  {
    if ids != [] {
      RejectAllRejects(db, ids[..|ids| - 1], now);
      assert ids == ids[..|ids| - 1] + [ids[|ids| - 1]];
    }
  }

  /** Emptying the queue writes no dismissal, and leaves nothing pending exactly
      when everything pending fits on one page. */
  lemma EmptyQueueIff(db: Db, listing: seq<Id>, now: int)
    requires ListsPending(db, listing)
    ensures var after := AfterRejectAll(db, FirstPage(listing), now);
            && after.dismissals == db.dismissals
            && ((forall i :: !IsPending(after, i)) <==> |listing| <= PAGE_SIZE)
  {
    var page := FirstPage(listing);
    var after := AfterRejectAll(db, page, now);
    RejectAllRejects(db, page, now);
    if |listing| > PAGE_SIZE {
      var left := listing[PAGE_SIZE];
      assert left in listing && left !in page;
      assert IsPending(after, left);
    }
  }

  /** With 10 001 suggestions pending, the last one listed stays pending. */
  lemma OneTooManyStays(db: Db, listing: seq<Id>, now: int)
    requires listing == seq(10001, i => i)
    requires forall i :: i in db.rows <==> i <= 10000
    requires forall i :: i in db.rows ==> db.rows[i].status == Pending
    ensures ListsPending(db, listing)
    ensures IsPending(AfterRejectAll(db, FirstPage(listing), now), 10000)
    ensures forall i :: 0 <= i < 10000 ==> !IsPending(AfterRejectAll(db, FirstPage(listing), now), i)
  {
    forall i | 0 <= i <= PAGE_SIZE ensures i in listing {
      assert listing[i] == i;
    }
    var page := FirstPage(listing);
    RejectAllRejects(db, page, now);
    forall i | 0 <= i < PAGE_SIZE ensures i in page {
      assert page[i] == i;
    }
  }

  // ---- Requests that wait ----

  /** A decision read from a pending suggestion but not written yet. */
  datatype Decision = Approving(ticket: Ticket) | Rejecting(id: Id, record: bool, now: int)

  function Target(d: Decision): Id {
    match d
    case Approving(t) => t.id
    case Rejecting(id, _, _) => id
  }

  datatype World = World(db: Db, open: seq<Decision>)

  datatype Event =
    | Put(id: Id, suggestion: Suggestion)
    | LoadApproval(id: Id, edits: seq<Edit>, applyContent: bool, supersede: bool)
    | LoadRejection(id: Id, record: bool, now: int)
    | Write(k: nat)

  function Written(json: Value -> string, db: Db, d: Decision): Db
    requires Target(d) in db.rows
  {
    match d
    case Approving(t) => Completed(json, db, t)
    case Rejecting(id, record, now) => WrittenRejection(db, id, record, now)
  }

  /** A failed call to Paperless is a decision that is never written. */
  function Step(json: Value -> string, w: World, e: Event): World {
    match e
    case Put(id, s) => w.(db := Enqueued(w.db, id, s))
    case LoadApproval(id, edits, applyContent, supersede) =>
      if !IsPending(w.db, id) then w
      else w.(open := w.open + [Approving(TicketFor(w.db, id, edits, applyContent, supersede))])
    case LoadRejection(id, record, now) =>
      if IsPending(w.db, id) then w.(open := w.open + [Rejecting(id, record, now)]) else w
    case Write(k) =>
      if k < |w.open| && Target(w.open[k]) in w.db.rows then w.(db := Written(json, w.db, w.open[k])) else w
  }

  function AfterEvents(json: Value -> string, run: seq<Event>): World {
    if run == [] then World(EMPTY_DB, []) else Step(json, AfterEvents(json, run[..|run| - 1]), run[|run| - 1])
  }

  /** A decision written now finds its suggestion still pending. */
  ghost predicate InTime(w: World, e: Event) {
    e.Write? && e.k < |w.open| ==> IsPending(w.db, Target(w.open[e.k]))
  }

  ghost predicate OpenRight(db: Db, d: Decision) {
    && Target(d) in db.rows && Target(d) in db.proposed
    && (d.Approving? ==> d.ticket.original == db.proposed[d.ticket.id])
  }

  ghost predicate Right(json: Value -> string, w: World) {
    Good(json, w.db) && forall k :: 0 <= k < |w.open| ==> OpenRight(w.db, w.open[k])
  }

  lemma OpenStaysRight(before: Db, after: Db, open: seq<Decision>)
    requires forall k :: 0 <= k < |open| ==> OpenRight(before, open[k])
    requires forall i :: i in before.rows ==> i in after.rows
    requires forall i :: i in before.proposed ==> i in after.proposed && after.proposed[i] == before.proposed[i]
    ensures forall k :: 0 <= k < |open| ==> OpenRight(after, open[k])
  {
  }

  lemma CompletionKeepsSettled(json: Value -> string, db: Db, t: Ticket)
    requires IsPending(db, t.id)
    ensures KeepsSettled(db, Completed(json, db, t)) && Completed(json, db, t).proposed == db.proposed
  {
    SiblingsAreSiblings(db.rows, t.id, db.order);
  }

  lemma WriteKeepsRight(json: Value -> string, w: World, d: Decision)
    requires Right(json, w) && OpenRight(w.db, d) && IsPending(w.db, Target(d))
    ensures Right(json, w.(db := Written(json, w.db, d))) && KeepsSettled(w.db, Written(json, w.db, d))
  {
    match d {
      case Approving(t) =>
        assert GoodAt(json, w.db, t.id);
        CompletionKeepsGood(json, w.db, t);
        CompletionKeepsSettled(json, w.db, t);
      case Rejecting(id, record, now) =>
        RejectKeepsGood(json, w.db, id, record, now);
    }
    OpenStaysRight(w.db, Written(json, w.db, d), w.open);
  }

  lemma StepKeepsRight(json: Value -> string, w: World, e: Event)
    requires Right(json, w) && InTime(w, e)
    ensures Right(json, Step(json, w, e)) && KeepsSettled(w.db, Step(json, w, e).db)
  {
    match e
    case Put(id, s) =>
      EnqueueKeepsGood(json, w.db, id, s);
      assert GoodAt(json, w.db, id);
      OpenStaysRight(w.db, Enqueued(w.db, id, s), w.open);
    case Write(k) =>
      if k < |w.open| {
        WriteKeepsRight(json, w, w.open[k]);
      }
    case LoadApproval(id, _, _, _) => assert GoodAt(json, w.db, id);
    case LoadRejection(id, _, _) => assert GoodAt(json, w.db, id);
  }

  /** A decision written in a right state keeps one event per suggestion exactly
      when it is in time. */
  lemma WriteKeepsOneEventIff(json: Value -> string, w: World, k: nat)
    requires Right(json, w) && k < |w.open|
    ensures OneEventEach(Step(json, w, Write(k)).db) <==> InTime(w, Write(k))
  {
    assert OpenRight(w.db, w.open[k]);
    match w.open[k]
    case Approving(t) => CompletionKeepsOneEventIff(json, w.db, t);
    case Rejecting(id, record, now) => RejectionKeepsOneEventIff(json, w.db, id, record, now);
  }

  /** Every decision of the run is written while its suggestion is pending. */
  ghost predicate AllInTime(json: Value -> string, run: seq<Event>) {
    forall p :: 0 <= p < |run| ==> InTime(AfterEvents(json, run[..p]), run[p])
  }

  lemma AllInTimeNext(json: Value -> string, run: seq<Event>)
    requires run != []
    ensures var init := run[..|run| - 1];
            AllInTime(json, run) <==> AllInTime(json, init) && InTime(AfterEvents(json, init), run[|run| - 1])
  {
    assert forall p :: 0 <= p <= |run| - 1 ==> run[..|run| - 1][..p] == run[..p];
  }

  /** However requests interleave, the invariant holds as long as each decision
      is written while its suggestion is still pending. */
  lemma {:induction false} TimelyRunsAreGood(json: Value -> string, run: seq<Event>)
    requires AllInTime(json, run)
    ensures Right(json, AfterEvents(json, run))
  {
    if run == [] {
      EmptyIsGood(json);
    } else {
      AllInTimeNext(json, run);
      TimelyRunsAreGood(json, run[..|run| - 1]);
      StepKeepsRight(json, AfterEvents(json, run[..|run| - 1]), run[|run| - 1]);
    }
  }

  /** Some suggestion has more than one event: no later row can mend that. */
  ghost predicate TwoEvents(db: Db, id: Id) {
    |Verdicts(db.audit, id)| >= 2
  }

  ghost predicate Broken(db: Db) {
    exists id: Id :: TwoEvents(db, id)
  }

  lemma LateWriteBreaks(json: Value -> string, w: World, e: Event)
    requires Right(json, w) && !InTime(w, e)
    ensures Broken(Step(json, w, e).db)
  {
    var d := w.open[e.k];
    var id := Target(d);
    assert OpenRight(w.db, d) && GoodAt(json, w.db, id);
    match d {
      case Approving(t) => CompletionKeepsVerdicts(json, w.db, t, id);
      case Rejecting(_, _, _) => VerdictsAppend(w.db.audit, [ApprovalQueue.Event(id, Rejected, None)], id);
    }
    assert TwoEvents(Step(json, w, e).db, id);
  }

  lemma StepAppends(json: Value -> string, w: World, e: Event) returns (rows: seq<AuditRow>)
    ensures Step(json, w, e).db.audit == w.db.audit + rows
  {
    var after := Step(json, w, e).db.audit;
    rows := after[|w.db.audit|..];
  }

  lemma BrokenStays(json: Value -> string, w: World, e: Event)
    requires Broken(w.db)
    ensures Broken(Step(json, w, e).db)
  {
    var id :| TwoEvents(w.db, id);
    var rows := StepAppends(json, w, e);
    VerdictsAppend(w.db.audit, rows, id);
    assert TwoEvents(Step(json, w, e).db, id);
  }

  lemma {:induction false} LateRunsAreBroken(json: Value -> string, run: seq<Event>)
    requires !AllInTime(json, run)
    ensures Broken(AfterEvents(json, run).db)
  {
    var init, last := run[..|run| - 1], run[|run| - 1];
    AllInTimeNext(json, run);
    if AllInTime(json, init) {
      TimelyRunsAreGood(json, init);
      LateWriteBreaks(json, AfterEvents(json, init), last);
    } else {
      LateRunsAreBroken(json, init);
      BrokenStays(json, AfterEvents(json, init), last);
    }
  }

  /** Over every interleaving: the log has one matching event for each settled
      suggestion and none for the others exactly when every decision was written
      while its suggestion was still pending. A single late one breaks it for
      good. */
  lemma LogIsRightIff(json: Value -> string, run: seq<Event>)
    ensures OneEventEach(AfterEvents(json, run).db) <==> AllInTime(json, run)
  {
    var db := AfterEvents(json, run).db;
    if AllInTime(json, run) {
      TimelyRunsAreGood(json, run);
      forall id: Id ensures OneEvent(db, id) {
        assert GoodAt(json, db, id);
      }
    } else {
      LateRunsAreBroken(json, run);
      var id :| TwoEvents(db, id);
      assert !OneEvent(db, id);
    }
  }

  function Race(id: Id, s: Suggestion): seq<Event> {
    [Put(id, s), LoadApproval(id, [], false, true), LoadRejection(id, false, 0), Write(1), Write(0)]
  }

  lemma RaceIsLoaded(json: Value -> string, id: Id, s: Suggestion)
    ensures AfterEvents(json, Race(id, s)[..3]) ==
            World(Enqueued(EMPTY_DB, id, s),
                  [Approving(Ticket(id, s.fields, s.fields, false, true)), Rejecting(id, false, 0)])
  {
    var run := Race(id, s);
    assert run[..3][..2] == run[..2] && run[..2][..1] == run[..1] && run[..1][..0] == [];
    assert AfterEvents(json, []) == World(EMPTY_DB, []);
    assert AfterEvents(json, run[..1]) == World(Enqueued(EMPTY_DB, id, s), []);
    assert AfterEvents(json, run[..2]) ==
           World(Enqueued(EMPTY_DB, id, s), [Approving(Ticket(id, s.fields, s.fields, false, true))]);
  }

  lemma RaceIsRejected(json: Value -> string, id: Id, s: Suggestion, w: World)
    requires w == AfterEvents(json, Race(id, s)[..4])
    ensures w.open == [Approving(Ticket(id, s.fields, s.fields, false, true)), Rejecting(id, false, 0)]
    ensures Good(json, w.db) && id in w.db.rows && Verdicts(w.db.audit, id) == [Rejected]
  {
    RaceIsLoaded(json, id, s);
    assert Race(id, s)[..4][..3] == Race(id, s)[..3];
    var db := Enqueued(EMPTY_DB, id, s);
    EmptyIsGood(json);
    EnqueueKeepsGood(json, EMPTY_DB, id, s);
    RejectKeepsGood(json, db, id, false, 0);
    assert w.db == AfterReject(db, id, false, 0);
    assert GoodAt(json, w.db, id);
  }

  lemma LateCompletion(json: Value -> string, db: Db, t: Ticket)
    requires Good(json, db) && t.id in db.rows && Verdicts(db.audit, t.id) == [Rejected]
    ensures Completed(json, db, t).rows[t.id].status == Approved
    ensures Verdicts(Completed(json, db, t).audit, t.id) == [Rejected, Approved]
  {
    CompletionKeepsVerdicts(json, db, t, t.id);
    assert [Rejected] + [Approved] == [Rejected, Approved];
  }

  /** Such a run exists: a rejection slips in while Paperless is being patched,
      and the suggestion ends up approved with both verdicts in the log. */
  lemma LateApprovalIsLoggedTwice(json: Value -> string, id: Id, s: Suggestion)
    ensures var db := AfterEvents(json, Race(id, s)).db;
            id in db.rows && db.rows[id].status == Approved && Verdicts(db.audit, id) == [Rejected, Approved]
  {
    var w := AfterEvents(json, Race(id, s)[..4]);
    RaceIsRejected(json, id, s, w);
    LateCompletion(json, w.db, w.open[0].ticket);
    assert Step(json, w, Write(0)).db == Completed(json, w.db, w.open[0].ticket);
    assert AfterEvents(json, Race(id, s)) == Step(json, w, Write(0));
  }

  // ---- Two approvals of one suggestion at a time ----

  function TwoEditors(id: Id, s: Suggestion, title: Value, tags: Value): seq<Event> {
    [Put(id, s),
     LoadApproval(id, [Edit(Known(Title), title)], false, false),
     LoadApproval(id, [Edit(Known(Tags), tags)], false, false),
     Write(0), Write(1)]
  }

  lemma TwoEditorsLoaded(json: Value -> string, id: Id, s: Suggestion, title: Value, tags: Value)
    ensures AfterEvents(json, TwoEditors(id, s, title, tags)[..3]) ==
            World(Enqueued(EMPTY_DB, id, s),
                  [Approving(Ticket(id, s.fields, s.fields.(title := title), false, false)),
                   Approving(Ticket(id, s.fields, s.fields.(tags := tags), false, false))])
  {
    var run := TwoEditors(id, s, title, tags);
    assert run[..3][..2] == run[..2] && run[..2][..1] == run[..1] && run[..1][..0] == [];
    assert AfterEvents(json, []) == World(EMPTY_DB, []);
    assert AfterEvents(json, run[..1]) == World(Enqueued(EMPTY_DB, id, s), []);
    assert forall f, v :: Edited(s.fields, [Edit(Known(f), v)]) == Edited(s.fields, []).With(f, v);
    assert AfterEvents(json, run[..2]).open ==
           [Approving(Ticket(id, s.fields, s.fields.(title := title), false, false))];
  }

  /** A session writes only the attributes it changed: two approvals of one
      suggestion that edit different fields at the same time are both stored. */
  lemma ConcurrentEditsMerge(json: Value -> string, id: Id, s: Suggestion, title: Value, tags: Value)
    ensures var db := AfterEvents(json, TwoEditors(id, s, title, tags)).db;
            && id in db.rows && db.rows[id].status == Approved
            && db.rows[id].fields == s.fields.(title := title, tags := tags)
  {
    var run := TwoEditors(id, s, title, tags);
    TwoEditorsLoaded(json, id, s, title, tags);
    var w := AfterEvents(json, run[..3]);
    PrefixEnds(run);
    assert run[..4][..3] == run[..3] && run[..5][..4] == run[..4] && run[..5] == run;
    var a, b := w.open[0].ticket, w.open[1].ticket;
    var first := Completed(json, w.db, a);
    assert AfterEvents(json, run[..4]) == w.(db := first);
    WritesOnlyChanges(json, w.db, a, Title, title);
    WritesOnlyChanges(json, first, b, Tags, tags);
    assert AfterEvents(json, run).db == Completed(json, first, b);
  }

  /** What is stored differs in the one edited field at most. */
  lemma WritesOnlyChanges(json: Value -> string, db: Db, t: Ticket, f: Field, v: Value)
    requires t.id in db.rows && t.edited == t.original.With(f, v)
    requires t.original.Get(f) == v ==> db.rows[t.id].fields.Get(f) == v
    ensures var row := Completed(json, db, t).rows[t.id];
            row.status == Approved && row.fields == db.rows[t.id].fields.With(f, v)
  {
    var stored, now := db.rows[t.id].fields, Completed(json, db, t).rows[t.id].fields;
    assert now == Overwritten(stored, t);
    forall g ensures now.Get(g) == stored.With(f, v).Get(g) {
      GetWith(t.original, f, v, g);
      GetWith(stored, f, v, g);
    }
    SameFields(now, stored.With(f, v));
  }
}
