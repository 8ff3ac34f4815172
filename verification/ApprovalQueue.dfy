/** The approval queue and its audit trail (backend/approval_queue.py): the
    committed database as a state machine. Timestamps, titles, session ids and
    change sources of audit rows are left out. */
module ApprovalQueue {
  import opened Collections

  type Id = nat

  datatype Field = Title | Tags | Correspondent | DocumentType | StoragePath | CustomFields

  const EDITABLE: seq<Field> := [Title, Tags, Correspondent, DocumentType, StoragePath, CustomFields]

  /** One value for each editable field. */
  datatype Fields<V> = Fields(title: V, tags: V, correspondent: V, documentType: V, storagePath: V, customFields: V) {
    function Get(f: Field): V {
      match f
      case Title => title
      case Tags => tags
      case Correspondent => correspondent
      case DocumentType => documentType
      case StoragePath => storagePath
      case CustomFields => customFields
    }

    function With(f: Field, v: V): Fields<V> {
      match f
      case Title => this.(title := v)
      case Tags => this.(tags := v)
      case Correspondent => this.(correspondent := v)
      case DocumentType => this.(documentType := v)
      case StoragePath => this.(storagePath := v)
      case CustomFields => this.(customFields := v)
    }
  }

  function Build<V>(g: Field -> V): Fields<V> {
    Fields(g(Title), g(Tags), g(Correspondent), g(DocumentType), g(StoragePath), g(CustomFields))
  }

  lemma SameFields<V>(a: Fields<V>, b: Fields<V>)
    requires forall f :: a.Get(f) == b.Get(f)
    ensures a == b
  {
    assert a.Get(Title) == b.Get(Title) && a.Get(Tags) == b.Get(Tags) && a.Get(Correspondent) == b.Get(Correspondent);
    assert a.Get(DocumentType) == b.Get(DocumentType) && a.Get(StoragePath) == b.Get(StoragePath);
    assert a.Get(CustomFields) == b.Get(CustomFields);
  }

  datatype Value = Null | Text(text: string) | List(items: seq<string>) | Dict(entries: map<string, string>)

  /** `_value_to_str`, with `json.dumps` as a parameter. */
  function Serial(json: Value -> string, v: Value): Option<string> {
    match v
    case Null => None
    case Text(text) => Some(text)
    case _ => Some(json(v))
  }

  function Serials(json: Value -> string, fields: Fields<Value>): Fields<Option<string>> {
    Build(f => Serial(json, fields.Get(f)))
  }

  // ---- The database ----

  datatype Status = Pending | Approved | Rejected

  datatype Verb = Add | Remove | Replace | Review | Dedup | Unknown

  datatype EvidenceAction = EvidenceAction(entityType: string, entityId: Option<int>, verb: Verb)

  /** `evidence_json`: absent, not readable as JSON, or a list of actions. */
  datatype Evidence = NoEvidence | Unreadable | Actions(actions: seq<EvidenceAction>)

  datatype Suggestion = Suggestion(doc: int, status: Status, fields: Fields<Value>, grooming: bool, evidence: Evidence,
                                   extracted: string, ocr: string)

  datatype AuditRow =
    | FieldChange(suggestion: Id, field: Field, previous: Option<string>, next: Option<string>)
    | ContentChange(suggestion: Id, before: Option<string>, after: string)
    | Event(suggestion: Id, verdict: Status, supersededBy: Option<Id>)

  datatype Dismissal = Dismissal(entityType: string, entityId: int, doc: int, verb: Verb, at: int)

  /** `order` is the order of the table. `proposed` remembers the fields a
      suggestion was enqueued with; the database does not keep them. */
  datatype Db = Db(rows: map<Id, Suggestion>, order: seq<Id>, audit: seq<AuditRow>, dismissals: seq<Dismissal>,
                   proposed: map<Id, Fields<Value>>)

  const EMPTY_DB := Db(map[], [], [], [], map[])

  // ---- Enqueue ----

  function Enqueued(db: Db, id: Id, s: Suggestion): Db {
    if id in db.rows then db
    else db.(rows := db.rows[id := s.(status := Pending)],
             order := db.order + [id],
             proposed := db.proposed[id := s.fields])
  }

  // ---- Approve ----

  datatype EditName = Known(field: Field) | Foreign(name: string)

  datatype Edit = Edit(name: EditName, value: Value)

  /** `setattr` for each edit of an editable field; other names are ignored. */
  function Edited(fields: Fields<Value>, edits: seq<Edit>): Fields<Value> {
    if edits == [] then fields
    else
      var last := edits[|edits| - 1];
      var before := Edited(fields, edits[..|edits| - 1]);
      if last.name.Known? then before.With(last.name.field, last.value) else before
  }

  /** An approval between loading its suggestion and writing the outcome: the
      call to Paperless happens in between. */
  datatype Ticket = Ticket(id: Id, original: Fields<Value>, edited: Fields<Value>, applyContent: bool, supersede: bool)

  function Changes(json: Value -> string, t: Ticket, fields: seq<Field>): seq<AuditRow> {
    if fields == [] then []
    else
      Changes(json, t, fields[..|fields| - 1]) + ChangeOf(json, t, fields[|fields| - 1])
  }

  function ChangeOf(json: Value -> string, t: Ticket, f: Field): seq<AuditRow> {
    if t.original.Get(f) != t.edited.Get(f)
    then [FieldChange(t.id, f, Serial(json, t.original.Get(f)), Serial(json, t.edited.Get(f)))]
    else []
  }

  const TRUNCATE_AT := 500

  function Truncated(s: string): string {
    if |s| > TRUNCATE_AT then s[..TRUNCATE_AT] else s
  }

  function ContentChanges(t: Ticket, s: Suggestion): seq<AuditRow> {
    if t.applyContent && s.extracted != ""
    then [ContentChange(t.id, if s.ocr != "" then Some(Truncated(s.ocr)) else None, Truncated(s.extracted))]
    else []
  }

  predicate IsSibling(rows: map<Id, Suggestion>, id: Id, i: Id) {
    id in rows && i in rows && i != id && rows[i].status == Pending && rows[i].doc == rows[id].doc
  }

  /** The siblings among the listed ids, as the table lists them. */
  function Siblings(rows: map<Id, Suggestion>, id: Id, order: seq<Id>): seq<Id> {
    if order == [] then []
    else
      var last := order[|order| - 1];
      Siblings(rows, id, order[..|order| - 1]) + (if IsSibling(rows, id, last) then [last] else [])
  }

  function SupersedeEvents(siblings: seq<Id>, id: Id): seq<AuditRow> {
    seq(|siblings|, k requires 0 <= k < |siblings| => Event(siblings[k], Rejected, Some(id)))
  }

  /** The session writes the attributes it changed over whatever is stored. */
  function Overwritten(stored: Fields<Value>, t: Ticket): Fields<Value> {
    Build(f => if t.original.Get(f) != t.edited.Get(f) then t.edited.Get(f) else stored.Get(f))
  }

  function ApprovedRows(rows: map<Id, Suggestion>, t: Ticket, superseded: seq<Id>): map<Id, Suggestion>
    requires t.id in rows
  {
    map i | i in rows ::
      if i == t.id then rows[i].(status := Approved, fields := Overwritten(rows[i].fields, t))
      else if i in superseded then rows[i].(status := Rejected)
      else rows[i]
  }

  function CompletionRows(json: Value -> string, t: Ticket, s: Suggestion, superseded: seq<Id>): seq<AuditRow> {
    Changes(json, t, EDITABLE) + OutcomeRows(t, s, superseded)
  }

  function OutcomeRows(t: Ticket, s: Suggestion, superseded: seq<Id>): (rows: seq<AuditRow>)
    ensures forall p :: 0 <= p < |rows| ==> !rows[p].FieldChange?
  {
    ContentChanges(t, s) + ([Event(t.id, Approved, None)] + SupersedeEvents(superseded, t.id))
  }

  /** Writing the outcome of an approval once Paperless has accepted it. */
  function Completed(json: Value -> string, db: Db, t: Ticket): Db
    requires t.id in db.rows
  {
    var superseded := if t.supersede then Siblings(db.rows, t.id, db.order) else [];
    db.(rows := ApprovedRows(db.rows, t, superseded),
        audit := db.audit + CompletionRows(json, t, db.rows[t.id], superseded))
  }

  predicate IsPending(db: Db, id: Id) {
    id in db.rows && db.rows[id].status == Pending
  }

  function TicketFor(db: Db, id: Id, edits: seq<Edit>, applyContent: bool, supersede: bool): Ticket
    requires id in db.rows
  {
    Ticket(id, db.rows[id].fields, Edited(db.rows[id].fields, edits), applyContent, supersede)
  }

  /** Outcome of a request, or the error it raises. */
  datatype Outcome = Done | NotFound | NotPending | PaperlessFailed

  datatype Approval = Approval(id: Id, edits: seq<Edit>, applyContent: bool, supersede: bool, accepted: bool)

  function ApproveOutcome(db: Db, a: Approval): Outcome {
    if a.id !in db.rows then NotFound
    else if db.rows[a.id].status != Pending then NotPending
    else if !a.accepted then PaperlessFailed
    else Done
  }

  /** The database after `approve`, nothing else happening meanwhile. */
  function AfterApprove(json: Value -> string, db: Db, a: Approval): Db {
    if ApproveOutcome(db, a) != Done then db
    else Completed(json, db, TicketFor(db, a.id, a.edits, a.applyContent, a.supersede))
  }

  // ---- Reject ----

  /** One dismissal per action of the evidence that names an entity. */
  function DismissalsOf(actions: seq<EvidenceAction>, doc: int, now: int): seq<Dismissal> {
    if actions == [] then []
    else
      var last := actions[|actions| - 1];
      DismissalsOf(actions[..|actions| - 1], doc, now) +
      (if last.entityId.Some? then [Dismissal(last.entityType, last.entityId.value, doc, last.verb, now)] else [])
  }

  function Recorded(s: Suggestion, record: bool, now: int): seq<Dismissal> {
    if record && s.grooming && s.evidence.Actions? then DismissalsOf(s.evidence.actions, s.doc, now) else []
  }

  function RejectOutcome(db: Db, id: Id): Outcome {
    if id !in db.rows then NotFound
    else if db.rows[id].status == Approved then NotPending
    else Done
  }

  /** Writing a rejection of the suggestion `loaded` earlier. */
  function WrittenRejection(db: Db, id: Id, record: bool, now: int): Db
    requires id in db.rows
  {
    db.(rows := db.rows[id := db.rows[id].(status := Rejected)],
        audit := db.audit + [Event(id, Rejected, None)],
        dismissals := db.dismissals + Recorded(db.rows[id], record, now))
  }

  /** The database after `reject`: an already rejected suggestion is left as it is. */
  function AfterReject(db: Db, id: Id, record: bool, now: int): Db {
    if IsPending(db, id) then WrittenRejection(db, id, record, now) else db
  }

  // ---- What the audit log says ----

  /** The verdicts logged for a suggestion, in order. */
  function Verdicts(audit: seq<AuditRow>, id: Id): seq<Status> {
    if audit == [] then []
    else
      var last := audit[|audit| - 1];
      Verdicts(audit[..|audit| - 1], id) + (if last.Event? && last.suggestion == id then [last.verdict] else [])
  }

  /** Apply the logged field changes of a suggestion, in order. */
  function Replay(base: Fields<Option<string>>, audit: seq<AuditRow>, id: Id): Fields<Option<string>> {
    if audit == [] then base
    else
      var last := audit[|audit| - 1];
      var before := Replay(base, audit[..|audit| - 1], id);
      if last.FieldChange? && last.suggestion == id then before.With(last.field, last.next) else before
  }

  /** Undo the logged field changes of a suggestion, latest first. */
  function Rewind(final: Fields<Option<string>>, audit: seq<AuditRow>, id: Id): Fields<Option<string>>
    decreases |audit|
  {
    if audit == [] then final
    else
      var init, last := audit[..|audit| - 1], audit[|audit| - 1];
      var undone := if last.FieldChange? && last.suggestion == id then final.With(last.field, last.previous) else final;
      Rewind(undone, init, id)
  }

  function Expected(status: Status): seq<Status> {
    if status == Pending then [] else [status]
  }

  ghost predicate TableRight(db: Db) {
    && Distinct(db.order)
    && (forall id :: id in db.order <==> id in db.rows)
    && (forall id :: id in db.rows <==> id in db.proposed)
  }

  /** A pending suggestion has no event, a settled one exactly one, of its kind. */
  ghost predicate OneEvent(db: Db, id: Id) {
    Verdicts(db.audit, id) == if id in db.rows then Expected(db.rows[id].status) else []
  }

  ghost predicate OneEventEach(db: Db) {
    forall id: Id :: OneEvent(db, id)
  }

  /** Replaying the logged changes on the fields as enqueued gives the fields as
      stored; only an approval changes any. */
  ghost predicate ReplayRight(json: Value -> string, db: Db, id: Id) {
    id in db.rows && id in db.proposed ==>
      && Replay(Serials(json, db.proposed[id]), db.audit, id) == Serials(json, db.rows[id].fields)
      && (db.rows[id].status != Approved ==> db.rows[id].fields == db.proposed[id])
  }

  /** Undoing the logged changes on the fields as stored gives them as enqueued. */
  ghost predicate RewindRight(json: Value -> string, db: Db, id: Id) {
    id in db.rows && id in db.proposed ==>
      Rewind(Serials(json, db.rows[id].fields), db.audit, id) == Serials(json, db.proposed[id])
  }

  /** The log never mentions a suggestion that does not exist. */
  ghost predicate NoTrace(db: Db, id: Id) {
    id !in db.rows ==> forall p :: 0 <= p < |db.audit| ==> db.audit[p].suggestion != id
  }

  ghost predicate GoodAt(json: Value -> string, db: Db, id: Id) {
    OneEvent(db, id) && ReplayRight(json, db, id) && RewindRight(json, db, id) && NoTrace(db, id)
  }

  /** What every reachable database satisfies. */
  ghost predicate Good(json: Value -> string, db: Db) {
    TableRight(db) && forall id: Id :: GoodAt(json, db, id)
  }

  // ---- Reading the log piece by piece ----

  lemma {:induction false} VerdictsAppend(a: seq<AuditRow>, b: seq<AuditRow>, id: Id)
    ensures Verdicts(a + b, id) == Verdicts(a, id) + Verdicts(b, id)
  {
    if b == [] {
      assert a + b == a;
    } else {
      assert (a + b)[..|a + b| - 1] == a + b[..|b| - 1];
      VerdictsAppend(a, b[..|b| - 1], id);
    }
  }

  lemma {:induction false} ReplayAppend(base: Fields<Option<string>>, a: seq<AuditRow>, b: seq<AuditRow>, id: Id)
    ensures Replay(base, a + b, id) == Replay(Replay(base, a, id), b, id)
  {
    if b == [] {
      assert a + b == a;
    } else {
      assert (a + b)[..|a + b| - 1] == a + b[..|b| - 1];
      ReplayAppend(base, a, b[..|b| - 1], id);
    }
  }

  lemma {:induction false} RewindAppend(final: Fields<Option<string>>, a: seq<AuditRow>, b: seq<AuditRow>, id: Id)
    ensures Rewind(final, a + b, id) == Rewind(Rewind(final, b, id), a, id)
    decreases |b|
  {
    if b == [] {
      assert a + b == a;
    } else {
      var last := b[|b| - 1];
      assert (a + b)[..|a + b| - 1] == a + b[..|b| - 1];
      RewindAppend(if last.FieldChange? && last.suggestion == id then final.With(last.field, last.previous) else final,
                   a, b[..|b| - 1], id);
    }
  }

  lemma {:induction false} SilentRows(base: Fields<Option<string>>, rows: seq<AuditRow>, id: Id)
    requires forall p :: 0 <= p < |rows| ==> rows[p].suggestion != id
    ensures Verdicts(rows, id) == [] && Replay(base, rows, id) == base && Rewind(base, rows, id) == base
  {
    if rows != [] {
      SilentRows(base, rows[..|rows| - 1], id);
    }
  }

  lemma {:induction false} ChangesAreChanges(json: Value -> string, t: Ticket, fields: seq<Field>)
    ensures forall p :: 0 <= p < |Changes(json, t, fields)| ==>
              Changes(json, t, fields)[p].FieldChange? && Changes(json, t, fields)[p].suggestion == t.id
    ensures forall id: Id :: Verdicts(Changes(json, t, fields), id) == []
  {
    if fields != [] {
      var init := fields[..|fields| - 1];
      ChangesAreChanges(json, t, init);
      var rest := Changes(json, t, fields)[|Changes(json, t, init)|..];
      assert Changes(json, t, fields) == Changes(json, t, init) + rest;
      forall id: Id ensures Verdicts(Changes(json, t, fields), id) == [] {
        VerdictsAppend(Changes(json, t, init), rest, id);
      }
    }
  }

  lemma GetWith<V>(fields: Fields<V>, f: Field, v: V, g: Field)
    ensures fields.With(f, v).Get(g) == if f == g then v else fields.Get(g)
  {
  }

  lemma ReplayOne(json: Value -> string, t: Ticket, base: Fields<Option<string>>, before: seq<AuditRow>, f: Field,
                  g: Field)
    ensures Replay(base, before + ChangeOf(json, t, f), t.id).Get(g) ==
            if f == g && t.original.Get(f) != t.edited.Get(f) then Serial(json, t.edited.Get(f))
            else Replay(base, before, t.id).Get(g)
  {
    var rows := ChangeOf(json, t, f);
    if rows == [] {
      assert before + rows == before;
    } else {
      assert (before + rows)[..|before|] == before;
      GetWith(Replay(base, before, t.id), f, rows[0].next, g);
    }
  }

  /** Replaying the field changes of an approval turns the listed fields from
      their original into their edited values. */
  lemma {:induction false} ReplayChangesAt(json: Value -> string, t: Ticket, fields: seq<Field>, g: Field)
    ensures Replay(Serials(json, t.original), Changes(json, t, fields), t.id).Get(g) ==
            if g in fields then Serial(json, t.edited.Get(g)) else Serial(json, t.original.Get(g))
  {
    if fields != [] {
      var init, last := fields[..|fields| - 1], fields[|fields| - 1];
      ReplayChangesAt(json, t, init, g);
      assert g in fields <==> g in init || g == last;
      ReplayOne(json, t, Serials(json, t.original), Changes(json, t, init), last, g);
    }
  }

  /** Undoing them, on whatever fields, restores the original values. */
  lemma {:induction false} RewindChangesAt(json: Value -> string, t: Ticket, final: Fields<Option<string>>,
                                           fields: seq<Field>, g: Field)
    ensures Rewind(final, Changes(json, t, fields), t.id).Get(g) ==
            if g in fields && t.original.Get(g) != t.edited.Get(g) then Serial(json, t.original.Get(g))
            else final.Get(g)
    decreases |fields|
  {
    if fields != [] {
      var init, f := fields[..|fields| - 1], fields[|fields| - 1];
      var rows := ChangeOf(json, t, f);
      assert g in fields <==> g in init || g == f;
      RewindAppend(final, Changes(json, t, init), rows, t.id);
      if rows == [] {
        RewindChangesAt(json, t, final, init, g);
      } else {
        var undone := final.With(f, rows[0].previous);
        assert rows[..0] == [];
        assert Rewind(final, rows, t.id) == Rewind(undone, [], t.id) == undone;
        GetWith(final, f, rows[0].previous, g);
        RewindChangesAt(json, t, undone, init, g);
      }
    }
  }

  lemma EveryFieldIsEditable(f: Field)
    ensures f in EDITABLE
  {
    assert EDITABLE[0] == Title && EDITABLE[1] == Tags && EDITABLE[2] == Correspondent;
    assert EDITABLE[3] == DocumentType && EDITABLE[4] == StoragePath && EDITABLE[5] == CustomFields;
  }

  lemma SerialsGet(json: Value -> string, fields: Fields<Value>, f: Field)
    ensures Serials(json, fields).Get(f) == Serial(json, fields.Get(f))
  {
  }

  lemma RewindChanges(json: Value -> string, t: Ticket)
    ensures Rewind(Serials(json, t.edited), Changes(json, t, EDITABLE), t.id) == Serials(json, t.original)
  {
    var undone := Rewind(Serials(json, t.edited), Changes(json, t, EDITABLE), t.id);
    forall f ensures undone.Get(f) == Serials(json, t.original).Get(f) {
      RewindChangesAt(json, t, Serials(json, t.edited), EDITABLE, f);
      EveryFieldIsEditable(f);
      SerialsGet(json, t.edited, f);
      SerialsGet(json, t.original, f);
    }
    SameFields(undone, Serials(json, t.original));
  }

  lemma ReplayChanges(json: Value -> string, t: Ticket)
    ensures Replay(Serials(json, t.original), Changes(json, t, EDITABLE), t.id) == Serials(json, t.edited)
  {
    var replayed := Replay(Serials(json, t.original), Changes(json, t, EDITABLE), t.id);
    forall f ensures replayed.Get(f) == Serials(json, t.edited).Get(f) {
      ReplayChangesAt(json, t, EDITABLE, f);
      SerialsGet(json, t.edited, f);
      EveryFieldIsEditable(f);
    }
    SameFields(replayed, Serials(json, t.edited));
  }

  lemma {:induction false} SiblingsAreSiblings(rows: map<Id, Suggestion>, id: Id, order: seq<Id>)
    ensures forall i :: i in Siblings(rows, id, order) <==> i in order && IsSibling(rows, id, i)
    ensures Distinct(order) ==> Distinct(Siblings(rows, id, order))
  {
    if order != [] {
      var init, last := order[..|order| - 1], order[|order| - 1];
      SiblingsAreSiblings(rows, id, init);
      assert order == init + [last];
      if Distinct(order) {
        assert last !in init;
        assert forall k :: 0 <= k < |Siblings(rows, id, init)| ==> Siblings(rows, id, init)[k] in init;
      }
    }
  }

  lemma {:induction false} SupersedeVerdicts(siblings: seq<Id>, id: Id, i: Id)
    requires Distinct(siblings)
    ensures Verdicts(SupersedeEvents(siblings, id), i) == if i in siblings then [Rejected] else []
  {
    if siblings != [] {
      var init, last := siblings[..|siblings| - 1], siblings[|siblings| - 1];
      var events := SupersedeEvents(siblings, id);
      assert events[..|events| - 1] == SupersedeEvents(init, id);
      assert siblings == init + [last];
      SupersedeVerdicts(init, id, i);
      assert last !in init;
    }
  }

  lemma {:induction false} NoChanges(base: Fields<Option<string>>, rows: seq<AuditRow>, id: Id)
    requires forall p :: 0 <= p < |rows| ==> !rows[p].FieldChange?
    ensures Replay(base, rows, id) == base && Rewind(base, rows, id) == base
  {
    if rows != [] {
      NoChanges(base, rows[..|rows| - 1], id);
    }
  }

  lemma OutcomeVerdicts(t: Ticket, s: Suggestion, superseded: seq<Id>, i: Id)
    requires Distinct(superseded) && t.id !in superseded
    ensures Verdicts(OutcomeRows(t, s, superseded), i) ==
            if i == t.id then [Approved] else if i in superseded then [Rejected] else []
  {
    var content := ContentChanges(t, s);
    var event, events := [Event(t.id, Approved, None)], SupersedeEvents(superseded, t.id);
    SupersedeVerdicts(superseded, t.id, i);
    VerdictsAppend(event, events, i);
    VerdictsAppend(content, event + events, i);
    assert Verdicts(content, i) == [];
    assert Verdicts(event, i) == if i == t.id then [Approved] else [];
  }

  /** The rows of a completed approval: one event for it, one for each
      superseded sibling. */
  lemma CompletionVerdicts(json: Value -> string, t: Ticket, s: Suggestion, superseded: seq<Id>, i: Id)
    requires Distinct(superseded) && t.id !in superseded
    ensures Verdicts(CompletionRows(json, t, s, superseded), i) ==
            if i == t.id then [Approved] else if i in superseded then [Rejected] else []
  {
    var changes, outcome := Changes(json, t, EDITABLE), OutcomeRows(t, s, superseded);
    ChangesAreChanges(json, t, EDITABLE);
    OutcomeVerdicts(t, s, superseded, i);
    VerdictsAppend(changes, outcome, i);
    ConcatNil(Verdicts(outcome, i));
  }

  /** The first 500 characters of `text`, all of it if it is no longer. */
  ghost predicate CutFrom(cut: string, text: string) {
    cut <= text && |cut| <= 500 && (|cut| < 500 ==> cut == text)
  }

  /** Content is logged exactly when it was written back, cut to 500 characters;
      a superseded sibling's event names the approval. */
  ghost predicate OutcomeExplained(rows: seq<AuditRow>, id: Id, s: Suggestion, applyContent: bool) {
    && ((exists p :: 0 <= p < |rows| && rows[p].ContentChange?) <==> applyContent && s.extracted != "")
    && (forall p :: 0 <= p < |rows| && rows[p].ContentChange? ==>
          && rows[p].suggestion == id && CutFrom(rows[p].after, s.extracted)
          && (rows[p].before.None? <==> s.ocr == "")
          && (rows[p].before.Some? ==> CutFrom(rows[p].before.value, s.ocr)))
    && (forall p :: 0 <= p < |rows| && rows[p].Event? && rows[p].suggestion != id ==> rows[p].supersededBy == Some(id))
  }

  lemma OutcomeIsExplained(json: Value -> string, t: Ticket, s: Suggestion, superseded: seq<Id>)
    ensures OutcomeExplained(CompletionRows(json, t, s, superseded), t.id, s, t.applyContent)
  {
    ChangesAreChanges(json, t, EDITABLE);
    var changes, rows := Changes(json, t, EDITABLE), CompletionRows(json, t, s, superseded);
    if t.applyContent && s.extracted != "" {
      assert rows[|changes|] == ContentChanges(t, s)[0];
    }
  }

  lemma CompletionReplay(json: Value -> string, t: Ticket, s: Suggestion, superseded: seq<Id>,
                         base: Fields<Option<string>>, i: Id)
    ensures Replay(base, CompletionRows(json, t, s, superseded), i) ==
            if i == t.id then Replay(base, Changes(json, t, EDITABLE), i) else base
  {
    var changes := Changes(json, t, EDITABLE);
    var rest := OutcomeRows(t, s, superseded);
    ReplayAppend(base, changes, rest, i);
    NoChanges(Replay(base, changes, i), rest, i);
    ChangesAreChanges(json, t, EDITABLE);
    if i != t.id {
      SilentRows(base, changes, i);
    }
  }

  lemma CompletionRewind(json: Value -> string, t: Ticket, s: Suggestion, superseded: seq<Id>,
                         final: Fields<Option<string>>, i: Id)
    ensures Rewind(final, CompletionRows(json, t, s, superseded), i) ==
            if i == t.id then Rewind(final, Changes(json, t, EDITABLE), i) else final
  {
    var changes := Changes(json, t, EDITABLE);
    var rest := OutcomeRows(t, s, superseded);
    RewindAppend(final, changes, rest, i);
    NoChanges(final, rest, i);
    ChangesAreChanges(json, t, EDITABLE);
    if i != t.id {
      SilentRows(final, changes, i);
    }
  }

  // ---- Every step keeps the invariant ----

  lemma EnqueueKeepsGood(json: Value -> string, db: Db, id: Id, s: Suggestion)
    requires Good(json, db)
    ensures Good(json, Enqueued(db, id, s))
  {
    var after := Enqueued(db, id, s);
    if id !in db.rows {
      assert GoodAt(json, db, id) && id !in db.order;
      assert forall i :: i in after.order <==> i in db.order || i == id;
      SilentRows(Serials(json, s.fields), db.audit, id);
      forall i: Id ensures GoodAt(json, after, i) {
        assert GoodAt(json, db, i);
      }
    }
  }

  lemma RejectKeepsGoodAt(json: Value -> string, db: Db, id: Id, record: bool, now: int, i: Id)
    requires IsPending(db, id) && id in db.proposed && GoodAt(json, db, i)
    ensures GoodAt(json, WrittenRejection(db, id, record, now), i)
  {
    var event := [Event(id, Rejected, None)];
    VerdictsAppend(db.audit, event, i);
    assert Verdicts(event, i) == if i == id then [Rejected] else [];
    if i in db.rows && i in db.proposed {
      var base := Serials(json, db.proposed[i]);
      ReplayAppend(base, db.audit, event, i);
      NoChanges(Replay(base, db.audit, i), event, i);
      var final := Serials(json, db.rows[i].fields);
      RewindAppend(final, db.audit, event, i);
      NoChanges(final, event, i);
    }
  }

  lemma RejectKeepsGood(json: Value -> string, db: Db, id: Id, record: bool, now: int)
    requires Good(json, db)
    ensures Good(json, AfterReject(db, id, record, now))
  {
    if IsPending(db, id) {
      forall i: Id ensures GoodAt(json, AfterReject(db, id, record, now), i) {
        assert GoodAt(json, db, i);
        RejectKeepsGoodAt(json, db, id, record, now, i);
      }
    }
  }

  /** An approval is written properly when its suggestion is still pending and
      has the fields it had when it was loaded. */
  ghost predicate Timely(db: Db, t: Ticket) {
    IsPending(db, t.id) && t.original == db.rows[t.id].fields
  }

  lemma CompletionKeepsVerdicts(json: Value -> string, db: Db, t: Ticket, i: Id)
    requires Good(json, db) && t.id in db.rows
    ensures i != t.id ==> OneEvent(Completed(json, db, t), i)
    ensures Verdicts(Completed(json, db, t).audit, t.id) == Verdicts(db.audit, t.id) + [Approved]
  {
    var superseded := if t.supersede then Siblings(db.rows, t.id, db.order) else [];
    SiblingsAreSiblings(db.rows, t.id, db.order);
    assert GoodAt(json, db, i) && GoodAt(json, db, t.id);
    VerdictsAppend(db.audit, CompletionRows(json, t, db.rows[t.id], superseded), i);
    VerdictsAppend(db.audit, CompletionRows(json, t, db.rows[t.id], superseded), t.id);
    CompletionVerdicts(json, t, db.rows[t.id], superseded, i);
    CompletionVerdicts(json, t, db.rows[t.id], superseded, t.id);
  }

  lemma CompletionKeepsReplay(json: Value -> string, db: Db, t: Ticket, i: Id)
    requires Good(json, db) && Timely(db, t)
    ensures ReplayRight(json, Completed(json, db, t), i)
  {
    var superseded := if t.supersede then Siblings(db.rows, t.id, db.order) else [];
    SiblingsAreSiblings(db.rows, t.id, db.order);
    assert GoodAt(json, db, i);
    if i in db.rows {
      var base, ext := Serials(json, db.proposed[i]), CompletionRows(json, t, db.rows[t.id], superseded);
      ReplayAppend(base, db.audit, ext, i);
      CompletionReplay(json, t, db.rows[t.id], superseded, Replay(base, db.audit, i), i);
      if i == t.id {
        ReplayChanges(json, t);
        OverwrittenIsEdited(db.rows[t.id].fields, t);
      }
    }
  }

  lemma CompletionKeepsRewind(json: Value -> string, db: Db, t: Ticket, i: Id)
    requires Good(json, db) && Timely(db, t)
    ensures RewindRight(json, Completed(json, db, t), i)
  {
    var superseded := if t.supersede then Siblings(db.rows, t.id, db.order) else [];
    SiblingsAreSiblings(db.rows, t.id, db.order);
    assert GoodAt(json, db, i);
    if i in db.rows {
      var ext := CompletionRows(json, t, db.rows[t.id], superseded);
      var final := Serials(json, if i == t.id then t.edited else db.rows[i].fields);
      RewindAppend(final, db.audit, ext, i);
      CompletionRewind(json, t, db.rows[t.id], superseded, final, i);
      if i == t.id {
        RewindChanges(json, t);
        OverwrittenIsEdited(db.rows[t.id].fields, t);
      }
    }
  }

  lemma OverwrittenIsEdited(stored: Fields<Value>, t: Ticket)
    requires t.original == stored
    ensures Overwritten(stored, t) == t.edited
  {
  }

  lemma CompletionKeepsGood(json: Value -> string, db: Db, t: Ticket)
    requires Good(json, db) && Timely(db, t)
    ensures Good(json, Completed(json, db, t))
  {
    forall i: Id ensures GoodAt(json, Completed(json, db, t), i) {
      CompletionKeepsGoodAt(json, db, t, i);
    }
  }

  lemma CompletionKeepsGoodAt(json: Value -> string, db: Db, t: Ticket, i: Id)
    requires Good(json, db) && Timely(db, t)
    ensures GoodAt(json, Completed(json, db, t), i)
  {
    CompletionKeepsReplay(json, db, t, i);
    CompletionKeepsRewind(json, db, t, i);
    CompletionKeepsOneEvent(json, db, t, i);
    CompletionKeepsNoTrace(json, db, t, i);
  }

  lemma CompletionKeepsOneEvent(json: Value -> string, db: Db, t: Ticket, i: Id)
    requires Good(json, db) && Timely(db, t)
    ensures OneEvent(Completed(json, db, t), i)
  {
    CompletionKeepsVerdicts(json, db, t, i);
    assert GoodAt(json, db, t.id);
  }

  lemma CompletionKeepsNoTrace(json: Value -> string, db: Db, t: Ticket, i: Id)
    requires Good(json, db) && t.id in db.rows
    ensures NoTrace(Completed(json, db, t), i)
  {
    var superseded := if t.supersede then Siblings(db.rows, t.id, db.order) else [];
    SiblingsAreSiblings(db.rows, t.id, db.order);
    CompletionMentions(json, t, db.rows[t.id], superseded, db);
    assert GoodAt(json, db, i);
  }

  lemma CompletionMentions(json: Value -> string, t: Ticket, s: Suggestion, superseded: seq<Id>, db: Db)
    requires t.id in db.rows && forall i :: i in superseded ==> i in db.rows
    ensures forall p :: 0 <= p < |CompletionRows(json, t, s, superseded)| ==>
              CompletionRows(json, t, s, superseded)[p].suggestion in db.rows
  {
    ChangesAreChanges(json, t, EDITABLE);
  }

  /** Writing an approval late, when its suggestion has been settled meanwhile,
      always breaks the log; writing it in time never does. */
  lemma CompletionKeepsOneEventIff(json: Value -> string, db: Db, t: Ticket)
    requires Good(json, db) && t.id in db.rows
    ensures OneEventEach(Completed(json, db, t)) <==> IsPending(db, t.id)
  {
    var after := Completed(json, db, t);
    assert GoodAt(json, db, t.id);
    forall i: Id ensures i != t.id ==> OneEvent(after, i) {
      CompletionKeepsVerdicts(json, db, t, i);
    }
    CompletionKeepsVerdicts(json, db, t, t.id);
    assert OneEvent(after, t.id) <==> IsPending(db, t.id);
  }

  /** The same for a rejection. */
  lemma RejectionKeepsOneEventIff(json: Value -> string, db: Db, id: Id, record: bool, now: int)
    requires Good(json, db) && id in db.rows
    ensures OneEventEach(WrittenRejection(db, id, record, now)) <==> IsPending(db, id)
  {
    var after, event := WrittenRejection(db, id, record, now), [Event(id, Rejected, None)];
    forall i: Id ensures Verdicts(after.audit, i) == Verdicts(db.audit, i) + (if i == id then [Rejected] else []) {
      VerdictsAppend(db.audit, event, i);
      assert Verdicts(event, i) == if i == id then [Rejected] else [];
    }
    forall i: Id ensures i != id ==> OneEvent(after, i) {
      assert GoodAt(json, db, i);
    }
    assert GoodAt(json, db, id);
    assert OneEvent(after, id) <==> IsPending(db, id);
  }

  /** Every other suggestion stays as it is, but for the pending ones of the same
      document when the approval supersedes them. */
  ghost predicate OthersSettled(before: Db, after: Db, id: Id, supersede: bool)
    requires id in before.rows && after.rows.Keys == before.rows.Keys
  {
    forall i :: i in before.rows && i != id ==>
      after.rows[i] ==
      if supersede && before.rows[i].status == Pending && before.rows[i].doc == before.rows[id].doc
      then before.rows[i].(status := Rejected)
      else before.rows[i]
  }

  /** An approval approves its suggestion and otherwise rejects, if it supersedes,
      the pending ones of its document; then none of them stays pending. */
  lemma SupersedeSettlesDocument(json: Value -> string, db: Db, t: Ticket)
    requires TableRight(db) && t.id in db.rows
    ensures var after := Completed(json, db, t);
            && after.rows.Keys == db.rows.Keys && after.order == db.order
            && after.proposed == db.proposed && after.dismissals == db.dismissals
            && after.rows[t.id].(fields := db.rows[t.id].fields) == db.rows[t.id].(status := Approved)
            && OthersSettled(db, after, t.id, t.supersede)
            && (t.supersede ==> forall i :: i in after.rows && after.rows[i].doc == db.rows[t.id].doc ==>
                                  after.rows[i].status != Pending)
  {
    SiblingsAreSiblings(db.rows, t.id, db.order);
  }

  // ---- What the edits of an approval do ----

  ghost predicate EditsField(edits: seq<Edit>, k: int, f: Field) {
    0 <= k < |edits| && edits[k].name == Known(f)
  }

  /** The last edit of `f`. */
  ghost predicate LastEditOf(edits: seq<Edit>, k: int, f: Field) {
    EditsField(edits, k, f) && forall j :: k < j < |edits| ==> !EditsField(edits, j, f)
  }

  /** `now` is the value of the last edit of `f`, or the one before if none
      names it. */
  ghost predicate EditDecides(edits: seq<Edit>, f: Field, before: Value, now: Value) {
    && (forall k :: LastEditOf(edits, k, f) ==> now == edits[k].value)
    && ((forall k :: !EditsField(edits, k, f)) ==> now == before)
  }

  lemma {:induction false} EditedDecides(fields: Fields<Value>, edits: seq<Edit>, f: Field)
    ensures EditDecides(edits, f, fields.Get(f), Edited(fields, edits).Get(f))
  {
    if edits != [] {
      var n := |edits| - 1;
      var init := edits[..n];
      EditedDecides(fields, init, f);
      assert forall k :: k != n ==> (EditsField(edits, k, f) <==> EditsField(init, k, f));
      if edits[n].name.Known? {
        GetWith(Edited(fields, init), edits[n].name.field, edits[n].value, f);
      }
      if !EditsField(edits, n, f) {
        assert forall k :: LastEditOf(edits, k, f) <==> LastEditOf(init, k, f);
      }
    }
  }

  /** How the log writes a value. */
  ghost predicate WrittenAs(json: Value -> string, v: Value, shown: Option<string>) {
    && (v.Null? <==> shown == None)
    && (v.Text? ==> shown == Some(v.text))
    && (v.List? || v.Dict? ==> shown == Some(json(v)))
  }

  /** Every logged change of `f` shows the old and the new value. */
  ghost predicate ChangesShow(json: Value -> string, rows: seq<AuditRow>, id: Id, f: Field, before: Value, now: Value) {
    forall p :: 0 <= p < |rows| && rows[p].FieldChange? && rows[p].suggestion == id && rows[p].field == f ==>
      WrittenAs(json, before, rows[p].previous) && WrittenAs(json, now, rows[p].next)
  }

  ghost predicate ChangeLogged(rows: seq<AuditRow>, id: Id, f: Field) {
    exists p :: 0 <= p < |rows| && rows[p].FieldChange? && rows[p].suggestion == id && rows[p].field == f
  }

  lemma ChangeOfShows(json: Value -> string, t: Ticket, g: Field, f: Field)
    ensures ChangeLogged(ChangeOf(json, t, g), t.id, f) <==> f == g && t.original.Get(f) != t.edited.Get(f)
    ensures ChangesShow(json, ChangeOf(json, t, g), t.id, f, t.original.Get(f), t.edited.Get(f))
  {
    var rows := ChangeOf(json, t, g);
    assert rows != [] ==> rows[0].field == g;
  }

  lemma ShowAppend(json: Value -> string, a: seq<AuditRow>, b: seq<AuditRow>, id: Id, f: Field, before: Value,
                   now: Value)
    requires ChangesShow(json, a, id, f, before, now) && ChangesShow(json, b, id, f, before, now)
    ensures ChangesShow(json, a + b, id, f, before, now)
  {
  }

  lemma {:induction false} ChangeIsLoggedIff(json: Value -> string, t: Ticket, fields: seq<Field>, f: Field)
    ensures ChangeLogged(Changes(json, t, fields), t.id, f) <==> f in fields && t.original.Get(f) != t.edited.Get(f)
    ensures ChangesShow(json, Changes(json, t, fields), t.id, f, t.original.Get(f), t.edited.Get(f))
  {
    if fields != [] {
      var init, g := fields[..|fields| - 1], fields[|fields| - 1];
      ChangeIsLoggedIff(json, t, init, f);
      ChangeOfShows(json, t, g, f);
      LoggedAppend(Changes(json, t, init), ChangeOf(json, t, g), t.id, f);
      ShowAppend(json, Changes(json, t, init), ChangeOf(json, t, g), t.id, f, t.original.Get(f), t.edited.Get(f));
      assert f in fields <==> f in init || f == g;
    }
  }

  lemma LoggedAppend(a: seq<AuditRow>, b: seq<AuditRow>, id: Id, f: Field)
    ensures ChangeLogged(a + b, id, f) <==> ChangeLogged(a, id, f) || ChangeLogged(b, id, f)
  {
    assert forall p :: 0 <= p < |a| ==> (a + b)[p] == a[p];
    assert forall p :: 0 <= p < |b| ==> (a + b)[|a| + p] == b[p];
  }

  lemma CompletionLogs(json: Value -> string, t: Ticket, s: Suggestion, superseded: seq<Id>, f: Field)
    ensures var rows, before, now := CompletionRows(json, t, s, superseded), t.original.Get(f), t.edited.Get(f);
            && (ChangeLogged(rows, t.id, f) <==> before != now)
            && ChangesShow(json, rows, t.id, f, before, now)
  {
    var changes, outcome := Changes(json, t, EDITABLE), OutcomeRows(t, s, superseded);
    EveryFieldIsEditable(f);
    ChangeIsLoggedIff(json, t, EDITABLE, f);
    LoggedAppend(changes, outcome, t.id, f);
    assert forall p :: 0 <= p < |changes + outcome| && (changes + outcome)[p].FieldChange? ==>
                         p < |changes| && (changes + outcome)[p] == changes[p];
  }

  /** What an approval that is done leaves in each field, and when it logs it. */
  ghost predicate ApprovalEdits(json: Value -> string, db: Db, a: Approval, after: Db, f: Field) {
    && a.id in db.rows && a.id in after.rows && db.audit <= after.audit
    && (var before, now := db.rows[a.id].fields.Get(f), after.rows[a.id].fields.Get(f);
        && EditDecides(a.edits, f, before, now)
        && (ChangeLogged(after.audit[|db.audit|..], a.id, f) <==> before != now)
        && ChangesShow(json, after.audit[|db.audit|..], a.id, f, before, now))
  }

  /** For every field: after an approval the stored value is that of the last
      edit naming the field, else the one stored before, and a change is logged
      exactly when the two differ. */
  lemma EditsDecide(json: Value -> string, db: Db, a: Approval, f: Field)
    requires ApproveOutcome(db, a) == Done
    ensures ApprovalEdits(json, db, a, AfterApprove(json, db, a), f)
  {
    var t := TicketFor(db, a.id, a.edits, a.applyContent, a.supersede);
    var superseded := if t.supersede then Siblings(db.rows, t.id, db.order) else [];
    OverwrittenIsEdited(t.original, t);
    EditedDecides(t.original, a.edits, f);
    CompletionLogs(json, t, db.rows[a.id], superseded, f);
    SuffixOf(db.audit, CompletionRows(json, t, db.rows[a.id], superseded));
  }

  /** What an approval that is done does to the other suggestions and to the log
      of its own. */
  ghost predicate ApprovalSettles(db: Db, a: Approval, after: Db) {
    && a.id in db.rows && after.rows.Keys == db.rows.Keys && db.audit <= after.audit
    && after.order == db.order && after.proposed == db.proposed && after.dismissals == db.dismissals
    && after.rows[a.id].(fields := db.rows[a.id].fields) == db.rows[a.id].(status := Approved)
    && OthersSettled(db, after, a.id, a.supersede)
    && OutcomeExplained(after.audit[|db.audit|..], a.id, db.rows[a.id], a.applyContent)
  }

  lemma ApprovalDecides(json: Value -> string, db: Db, a: Approval)
    requires TableRight(db) && ApproveOutcome(db, a) == Done
    ensures ApprovalSettles(db, a, AfterApprove(json, db, a))
  {
    var t := TicketFor(db, a.id, a.edits, a.applyContent, a.supersede);
    var superseded := if t.supersede then Siblings(db.rows, t.id, db.order) else [];
    SupersedeSettlesDocument(json, db, t);
    OutcomeIsExplained(json, t, db.rows[a.id], superseded);
    SuffixOf(db.audit, CompletionRows(json, t, db.rows[a.id], superseded));
  }

  lemma SuffixOf<T>(a: seq<T>, b: seq<T>)
    ensures a <= a + b && (a + b)[|a|..] == b
  {
  }
}
