/** `ApprovalQueueService` (backend/approval_queue.py) and the queue routes that
    drive it (backend/main.py), over a session that buffers changes until it
    commits them. Each method is proved against the committed-state functions. */
module ApprovalService {
  import opened Collections
  import opened ApprovalQueue
  import opened ApprovalRuns

  /** What the session holds after an approval that Paperless refused: the
      edited fields, uncommitted. */
  function Refused(db: Db, a: Approval): Db
    requires a.id in db.rows
  {
    db.(rows := db.rows[a.id := db.rows[a.id].(fields := Edited(db.rows[a.id].fields, a.edits))])
  }

  class Service {
    const json: Value -> string
    var committed: Db
    var session: Db

    constructor (json: Value -> string, stored: Db)
      ensures this.json == json && committed == stored && Clean()
    {
      this.json := json;
      committed := stored;
      session := stored;
    }

    /** No uncommitted changes; every request starts with such a session. */
    predicate Clean()
      reads this
    {
      session == committed
    }

    method Commit()
      modifies this
      ensures committed == session == old(session)
    {
      committed := session;
    }

    /** Idempotent: a known id changes and commits nothing. A new suggestion is
        committed together with whatever else the session holds. */
    method Enqueue(id: Id, s: Suggestion) returns (stored: Suggestion)
      modifies this
      ensures session == Enqueued(old(session), id, s)
      ensures committed == if id in old(session).rows then old(committed) else session
      ensures stored == session.rows[id]
      ensures id !in old(session).rows ==> stored == s.(status := Pending)
      ensures id in old(session).rows ==> session == old(session)
    {
      if id in session.rows {
        return session.rows[id];
      }
      var pending := s.(status := Pending);
      session := session.(rows := session.rows[id := pending], order := session.order + [id],
                          proposed := session.proposed[id := s.fields]);
      Commit();
      return pending;
    }

    method ApplyEdits(fields: Fields<Value>, edits: seq<Edit>) returns (edited: Fields<Value>)
      ensures edited == Edited(fields, edits)
    {
      edited := fields;
      for i := 0 to |edits|
        invariant edited == Edited(fields, edits[..i])
      {
        assert edits[..i + 1][..i] == edits[..i];
        if edits[i].name.Known? {
          edited := edited.With(edits[i].name.field, edits[i].value);
        }
      }
      PrefixEnds(edits);
    }

    /** One audit row per field whose value changed. */
    method LogChanges(t: Ticket) returns (log: seq<AuditRow>)
      ensures log == Changes(json, t, EDITABLE)
    {
      log := [];
      for i := 0 to |EDITABLE|
        invariant log == Changes(json, t, EDITABLE[..i])
      {
        assert EDITABLE[..i + 1][..i] == EDITABLE[..i];
        var f := EDITABLE[i];
        var oldValue, newValue := t.original.Get(f), t.edited.Get(f);
        if oldValue != newValue {
          log := log + [FieldChange(t.id, f, Serial(json, oldValue), Serial(json, newValue))];
        }
      }
      PrefixEnds(EDITABLE);
    }

    /** Reject the siblings the query found, logging one event each. */
    method Supersede(rows: map<Id, Suggestion>, siblings: seq<Id>, id: Id)
      returns (after: map<Id, Suggestion>, log: seq<AuditRow>)
      requires forall k :: 0 <= k < |siblings| ==> siblings[k] in rows
      ensures after == map i | i in rows :: if i in siblings then rows[i].(status := Rejected) else rows[i]
      ensures log == SupersedeEvents(siblings, id)
    {
      after, log := rows, [];
      for k := 0 to |siblings|
        invariant after.Keys == rows.Keys
        invariant forall i :: i in rows ==>
                    after[i] == (if i in siblings[..k] then rows[i].(status := Rejected) else rows[i])
        invariant log == SupersedeEvents(siblings[..k], id)
      {
        PrefixNext(siblings, k);
        after := after[siblings[k] := after[siblings[k]].(status := Rejected)];
        log := log + [Event(siblings[k], Rejected, Some(id))];
      }
      PrefixEnds(siblings);
    }

    /** A refused or impossible approval commits nothing; a completed one commits
        the decision, its audit rows and the superseded siblings together. */
    method Approve(a: Approval) returns (outcome: Outcome)
      requires TableRight(session)
      modifies this
      ensures outcome == ApproveOutcome(old(session), a)
      ensures outcome == NotFound <==> a.id !in old(session).rows
      ensures outcome == Done <==> IsPending(old(session), a.id) && a.accepted
      ensures outcome == PaperlessFailed <==> IsPending(old(session), a.id) && !a.accepted
      ensures outcome == Done ==> ApprovalSettles(old(session), a, session)
      ensures outcome == Done ==> forall f :: ApprovalEdits(json, old(session), a, session, f)
      ensures outcome == Done ==> session == committed == AfterApprove(json, old(session), a)
      ensures outcome != Done ==> committed == old(committed)
      ensures session == match outcome
                         case Done => AfterApprove(json, old(session), a)
                         case PaperlessFailed => Refused(old(session), a)
                         case _ => old(session)
    {
      if a.id !in session.rows {
        return NotFound;
      }
      var row := session.rows[a.id];
      if row.status != Pending {
        return NotPending;
      }
      ghost var before := session;
      var edited := ApplyEdits(row.fields, a.edits);
      var t := Ticket(a.id, row.fields, edited, a.applyContent, a.supersede);
      session := session.(rows := session.rows[a.id := row.(fields := edited)]);
      if !a.accepted {
        return PaperlessFailed;
      }
      WriteApproval(t, before);
      ApprovalDecides(json, before, a);
      forall f ensures ApprovalEdits(json, before, a, session, f) {
        EditsDecide(json, before, a, f);
      }
      return Done;
    }

    /** After Paperless has accepted: `before` is the state without the edits. */
    method WriteApproval(t: Ticket, ghost before: Db)
      requires TableRight(before) && IsPending(before, t.id) && t.original == before.rows[t.id].fields
      requires session == before.(rows := before.rows[t.id := before.rows[t.id].(fields := t.edited)])
      modifies this
      ensures session == committed == Completed(json, before, t)
    {
      var log := LogChanges(t);
      var content := ContentChanges(t, session.rows[t.id]);
      var rows := session.rows[t.id := session.rows[t.id].(status := Approved)];
      var siblings, events := [], [];
      if t.supersede {
        siblings := Siblings(rows, t.id, session.order);
        SiblingsUnaffected(before.rows, rows, t.id, session.order);
        SiblingsAreSiblings(rows, t.id, session.order);
        rows, events := Supersede(rows, siblings, t.id);
      }
      var audit := session.audit + (log + (content + ([Event(t.id, Approved, None)] + events)));
      CompletedIs(json, before, t, siblings, rows, audit);
      session := session.(rows := rows, audit := audit);
      Commit();
    }

    /** One dismissal per evidence action that names an entity. */
    method RecordDismissals(actions: seq<EvidenceAction>, doc: int, now: int) returns (recorded: seq<Dismissal>)
      ensures recorded == DismissalsOf(actions, doc, now)
    {
      recorded := [];
      for i := 0 to |actions|
        invariant recorded == DismissalsOf(actions[..i], doc, now)
      {
        assert actions[..i + 1][..i] == actions[..i];
        var action := actions[i];
        if action.entityId.None? {
          continue;
        }
        recorded := recorded + [Dismissal(action.entityType, action.entityId.value, doc, action.verb, now)];
      }
      PrefixEnds(actions);
    }

    method Reject(id: Id, record: bool, now: int) returns (outcome: Outcome)
      modifies this
      ensures outcome == RejectOutcome(old(session), id)
      ensures outcome == NotFound <==> id !in old(session).rows
      ensures outcome == NotPending <==> id in old(session).rows && old(session).rows[id].status == Approved
      ensures outcome != PaperlessFailed
      ensures session == AfterReject(old(session), id, record, now)
      ensures committed == if IsPending(old(session), id) then session else old(committed)
    {
      if id !in session.rows {
        return NotFound;
      }
      var row := session.rows[id];
      if row.status == Rejected {
        return Done;
      }
      if row.status == Approved {
        return NotPending;
      }
      var recorded := [];
      if record && row.grooming && row.evidence.Actions? {
        recorded := RecordDismissals(row.evidence.actions, row.doc, now);
      }
      session := session.(rows := session.rows[id := row.(status := Rejected)],
                          audit := session.audit + [Event(id, Rejected, None)],
                          dismissals := session.dismissals + recorded);
      Commit();
      return Done;
    }

    /** Stops at the first error; what was approved before it stays committed. */
    method ApproveInBulk(ids: seq<Id>, accepted: seq<bool>) returns (approved: nat, outcome: Outcome)
      requires |ids| == |accepted| && Clean() && TableRight(session)
      modifies this
      ensures Clean() && TableRight(session)
      ensures committed == AfterBulkApprove(json, old(committed), ids, accepted)
      ensures outcome == Done <==> approved == |ids|
    {
      approved := 0;
      while approved < |ids|
        invariant approved <= |ids| && Clean() && TableRight(session)
        invariant AfterBulkApprove(json, session, ids[approved..], accepted[approved..]) ==
                  AfterBulkApprove(json, old(committed), ids, accepted)
      {
        var a := InBulk(ids[approved], accepted[approved]);
        ApproveKeepsTable(json, session, a);
        outcome := Approve(a);
        if outcome != Done {
          return;
        }
        approved := approved + 1;
      }
      outcome := Done;
    }

    method RejectInBulk(ids: seq<Id>, now: int) returns (rejected: nat, outcome: Outcome)
      requires Clean()
      modifies this
      ensures Clean()
      ensures committed == AfterBulkReject(old(committed), ids, now)
      ensures outcome == Done <==> rejected == |ids|
    {
      rejected := 0;
      while rejected < |ids|
        invariant rejected <= |ids| && Clean()
        invariant AfterBulkReject(session, ids[rejected..], now) == AfterBulkReject(old(committed), ids, now)
      {
        outcome := Reject(ids[rejected], true, now);
        if outcome != Done {
          return;
        }
        rejected := rejected + 1;
      }
      outcome := Done;
    }

    /** `empty_queue`: `listing` is what is pending, newest first. */
    method EmptyTheQueue(listing: seq<Id>, now: int) returns (rejected: nat)
      requires Clean() && ListsPending(session, listing)
      modifies this
      ensures Clean()
      ensures committed == AfterRejectAll(old(committed), FirstPage(listing), now)
      ensures rejected == |FirstPage(listing)|
    {
      var page := FirstPage(listing);
      rejected := 0;
      for i := 0 to |page|
        invariant Clean() && rejected == i
        invariant session == AfterRejectAll(old(committed), page[..i], now)
      {
        assert page[..i + 1][..i] == page[..i];
        StillPending(old(committed), listing, i, now);
        var outcome := Reject(page[i], false, now);
        if outcome == Done {
          rejected := rejected + 1;
        }
      }
      PrefixEnds(page);
    }

    method ReanalyzeOne(id: Id, analysis: Option<Analysis>, now: int)
      requires Clean()
      modifies this
      ensures Clean()
      ensures committed == AfterReanalyze(old(committed), id, analysis, now)
      ensures id in old(committed).rows && analysis.Some? ==> Swapped(old(committed), committed, id, analysis.value)
      ensures id !in old(committed).rows || analysis.None? ==> committed == old(committed)
    {
      if id !in session.rows || analysis.None? {
        return;
      }
      var outcome := Reject(id, false, now);
      var stored := Enqueue(analysis.value.id, analysis.value.suggestion);
    }
  }

  lemma ApproveKeepsTable(json: Value -> string, db: Db, a: Approval)
    requires TableRight(db)
    ensures TableRight(AfterApprove(json, db, a))
  {
  }

  lemma {:induction false} SiblingsUnaffected(rows: map<Id, Suggestion>, changed: map<Id, Suggestion>, id: Id,
                                              order: seq<Id>)
    requires id in rows && id in changed && rows[id].doc == changed[id].doc
    requires forall i :: i != id ==> (i in rows <==> i in changed) && (i in rows ==> rows[i] == changed[i])
    ensures Siblings(changed, id, order) == Siblings(rows, id, order)
  {
    if order != [] {
      SiblingsUnaffected(rows, changed, id, order[..|order| - 1]);
    }
  }

  lemma CompletedIs(json: Value -> string, before: Db, t: Ticket, siblings: seq<Id>, rows: map<Id, Suggestion>,
                    audit: seq<AuditRow>)
    requires t.id in before.rows && t.original == before.rows[t.id].fields && t.id !in siblings
    requires siblings == if t.supersede then Siblings(before.rows, t.id, before.order) else []
    requires rows.Keys == before.rows.Keys
    requires rows[t.id] == before.rows[t.id].(fields := t.edited, status := Approved)
    requires forall i :: i in rows && i != t.id ==>
               rows[i] == (if i in siblings then before.rows[i].(status := Rejected) else before.rows[i])
    requires audit == before.audit + CompletionRows(json, t, before.rows[t.id], siblings)
    ensures before.(rows := rows, audit := audit) == Completed(json, before, t)
  {
    OverwrittenIsEdited(t.original, t);
    assert rows == ApprovedRows(before.rows, t, siblings);
  }

  lemma StillPending(db: Db, listing: seq<Id>, i: nat, now: int)
    requires ListsPending(db, listing) && i < |FirstPage(listing)|
    ensures IsPending(AfterRejectAll(db, FirstPage(listing)[..i], now), FirstPage(listing)[i])
  {
    var page := FirstPage(listing);
    RejectAllRejects(db, page[..i], now);
    assert page[i] in listing;
    assert forall k :: 0 <= k < i ==> page[..i][k] == listing[k] != listing[i];
  }

  // ---- What a refused approval leaves behind ----

  /** The session is left clean exactly when the edits change no editable field. */
  lemma RefusalIsCleanIff(db: Db, a: Approval)
    requires a.id in db.rows
    ensures Refused(db, a) == db <==>
              forall f :: Edited(db.rows[a.id].fields, a.edits).Get(f) == db.rows[a.id].fields.Get(f)
  {
    var fields := db.rows[a.id].fields;
    var edited := Edited(fields, a.edits);
    if forall f :: edited.Get(f) == fields.Get(f) {
      SameFields(edited, fields);
      assert Refused(db, a).rows == db.rows;
    } else {
      assert Refused(db, a).rows[a.id].fields == edited;
    }
  }

  /** If the same session commits anything later, the unlogged edits go with it,
      and then the log no longer explains the stored fields. */
  lemma RefusedEditsBreakReplay(json: Value -> string, db: Db, a: Approval)
    requires Good(json, db) && ApproveOutcome(db, a) == PaperlessFailed
    ensures Good(json, Refused(db, a)) <==> Refused(db, a) == db
  {
    assert GoodAt(json, db, a.id);
    if Refused(db, a) != db {
      assert Edited(db.rows[a.id].fields, a.edits) != db.rows[a.id].fields by {
        assert db.rows[a.id := db.rows[a.id]] == db.rows;
      }
      assert !ReplayRight(json, Refused(db, a), a.id);
      assert !GoodAt(json, Refused(db, a), a.id);
    }
  }
}
