/** From scan candidates to queue suggestions: cap documents, group, re-validate
    against current metadata and fold the corrections
    (`_enqueue_candidates` in backend/grooming.py). */
module CappedEnqueue {
  import opened Collections
  import opened ScanActions

  datatype EntityType = Tag | Correspondent | DocumentType

  datatype Candidate = Candidate(doc: int, entityType: EntityType, entity: int, name: string, kind: Kind,
                                 distance: real, replacementName: Option<string>)

  /** A document as Paperless returns it, and the id-to-name tables. */
  datatype Document = Document(tags: seq<int>, correspondent: Option<int>, documentType: Option<int>)

  datatype Names = Names(tag: map<int, string>, correspondent: map<int, string>, documentType: map<int, string>)

  datatype Corrected = Corrected(tags: seq<string>, correspondent: Option<string>, documentType: Option<string>,
                                 actions: seq<Candidate>)

  datatype Suggestion = Suggestion(doc: int, baseTags: seq<string>, corrected: Corrected)

  datatype Summary = Summary(added: nat, removed: nat, replaced: nat, review: nat, capped: int)

  // ---- Which documents are selected ----

  /** Sort key of `sorted(candidates, key=lambda c: -c["distance"])` */
  function Weakness(c: Candidate): real {
    -c.distance
  }

  ghost predicate Touches(cs: seq<Candidate>, d: int) {
    exists i :: 0 <= i < |cs| && cs[i].doc == d
  }

  /** Some candidate of `d` is at least as far from its threshold as any
      candidate of `other`. */
  ghost predicate Outranks(cs: seq<Candidate>, d: int, other: int) {
    exists i :: 0 <= i < |cs| && cs[i].doc == d
      && forall j :: 0 <= j < |cs| && cs[j].doc == other ==> cs[j].distance <= cs[i].distance
  }

  ghost predicate IsSelection(cs: seq<Candidate>, cap: int, selected: seq<int>) {
    && Distinct(selected)
    && (forall d :: d in selected ==> Touches(cs, d))
    && |selected| <= (if cap < 0 then 0 else cap)
    && (forall d :: Touches(cs, d) && d !in selected ==> |selected| >= cap)
    && (forall d, other :: d in selected && Touches(cs, other) && other !in selected ==> Outranks(cs, d, other))
    && (forall i, j :: 0 <= i < j < |selected| ==> Outranks(cs, selected[i], selected[j]))
  }

  /** State of the loop after `k` candidates: `firsts[i]` is where selected
      document `i` first appears, and what was left out came later. */
  ghost predicate SelectedSoFar(sorted: seq<Candidate>, cap: int, selected: seq<int>, firsts: seq<nat>, k: nat) {
    && k <= |sorted| && |firsts| == |selected| <= (if cap < 0 then 0 else cap)
    && (forall i :: 0 <= i < |firsts| ==> firsts[i] < k && FirstOf(sorted, selected[i], firsts[i]))
    && (forall i, j :: 0 <= i < j < |firsts| ==> firsts[i] < firsts[j])
    && (forall j :: 0 <= j < k && sorted[j].doc !in selected ==> |selected| >= cap && LaterThan(firsts, j))
  }

  ghost predicate FirstOf(sorted: seq<Candidate>, d: int, i: nat) {
    i < |sorted| && sorted[i].doc == d && forall j :: 0 <= j < i ==> sorted[j].doc != d
  }

  ghost predicate LaterThan(firsts: seq<nat>, j: nat) {
    forall i :: 0 <= i < |firsts| ==> firsts[i] < j
  }

  lemma SelectNext(sorted: seq<Candidate>, cap: int, selected: seq<int>, firsts: seq<nat>, k: nat)
    requires k < |sorted| && SelectedSoFar(sorted, cap, selected, firsts, k)
    requires sorted[k].doc !in selected && |selected| < cap
    ensures SelectedSoFar(sorted, cap, selected + [sorted[k].doc], firsts + [k], k + 1)
  {
    assert forall j :: 0 <= j < k ==> sorted[j].doc in selected;
    assert FirstOf(sorted, sorted[k].doc, k);
  }

  method SelectDocs(sorted: seq<Candidate>, cap: int) returns (selected: seq<int>)
    requires AscendingBy(sorted, Weakness)
    ensures IsSelection(sorted, cap, selected)
  {
    selected := [];
    ghost var firsts: seq<nat> := [];
    for k := 0 to |sorted|
      invariant SelectedSoFar(sorted, cap, selected, firsts, k)
    {
      var d := sorted[k].doc;
      if d !in selected {
        if |selected| < cap {
          SelectNext(sorted, cap, selected, firsts, k);
          selected, firsts := selected + [d], firsts + [k];
        }
      }
    }
    SelectionRanks(sorted, cap, selected, firsts);
  }

  /** What first appears at `i` outranks whatever appears from there on only. */
  lemma EarlierOutranks(sorted: seq<Candidate>, d: int, i: nat, other: int)
    requires AscendingBy(sorted, Weakness) && FirstOf(sorted, d, i)
    requires forall j :: 0 <= j < |sorted| && sorted[j].doc == other ==> i <= j
    ensures Outranks(sorted, d, other)
  {
    forall j | 0 <= j < |sorted| && sorted[j].doc == other ensures sorted[j].distance <= sorted[i].distance {
      assert i < j ==> Weakness(sorted[i]) <= Weakness(sorted[j]);
    }
  }

  lemma SelectionRanks(sorted: seq<Candidate>, cap: int, selected: seq<int>, firsts: seq<nat>)
    requires AscendingBy(sorted, Weakness) && SelectedSoFar(sorted, cap, selected, firsts, |sorted|)
    ensures IsSelection(sorted, cap, selected)
  {
    forall i, j | 0 <= i < j < |selected|
      ensures selected[i] != selected[j] && Outranks(sorted, selected[i], selected[j])
    {
      assert FirstOf(sorted, selected[i], firsts[i]) && FirstOf(sorted, selected[j], firsts[j]);
      EarlierOutranks(sorted, selected[i], firsts[i], selected[j]);
    }
    forall d, other | d in selected && other !in selected ensures Outranks(sorted, d, other) {
      var i :| 0 <= i < |selected| && selected[i] == d;
      EarlierOutranks(sorted, d, firsts[i], other);
    }
    forall d | d in selected ensures Touches(sorted, d) {
      var i :| 0 <= i < |selected| && selected[i] == d;
      assert FirstOf(sorted, d, firsts[i]);
    }
  }

  // ---- Grouping and counting ----

  function CandidatesOf(cs: seq<Candidate>, d: int): seq<Candidate> {
    if cs == [] then []
    else CandidatesOf(cs[..|cs| - 1], d) + if cs[|cs| - 1].doc == d then [cs[|cs| - 1]] else []
  }

  /** `by_doc`: every candidate of a selected document rides along, in order. */
  method GroupByDoc(sorted: seq<Candidate>, selected: seq<int>) returns (byDoc: map<int, seq<Candidate>>)
    ensures forall d :: d in byDoc <==> d in selected
    ensures forall d :: d in byDoc ==> byDoc[d] == CandidatesOf(sorted, d)
  {
    byDoc := map d | d in selected :: [];
    for k := 0 to |sorted|
      invariant forall d :: d in byDoc <==> d in selected
      invariant forall d :: d in byDoc ==> byDoc[d] == CandidatesOf(sorted[..k], d)
    {
      assert sorted[..k + 1][..k] == sorted[..k];
      var c := sorted[k];
      if c.doc in byDoc {
        byDoc := byDoc[c.doc := byDoc[c.doc] + [c]];
      }
    }
    assert sorted[..|sorted|] == sorted;
  }

  /** `{c["document_id"] for c in candidates}` */
  function TouchedDocs(cs: seq<Candidate>): (r: set<int>)
    ensures forall d :: d in r <==> Touches(cs, d)
  {
    if cs == [] then {}
    else
      var init, last := cs[..|cs| - 1], cs[|cs| - 1];
      assert forall d :: Touches(cs, d) <==> Touches(init, d) || last.doc == d by {
        TouchesNext(init, last);
        assert cs == init + [last];
      }
      TouchedDocs(init) + {last.doc}
  }

  lemma TouchesNext(cs: seq<Candidate>, c: Candidate)
    ensures forall d :: Touches(cs + [c], d) <==> Touches(cs, d) || c.doc == d
  {
    var more := cs + [c];
    assert more[|cs|] == c && forall i :: 0 <= i < |cs| ==> more[i] == cs[i];
  }

  lemma {:induction false} DistinctSize(s: seq<int>)
    requires Distinct(s)
    ensures |Elements(s)| == |s|
  {
    if s != [] {
      var init, last := s[..|s| - 1], s[|s| - 1];
      DistinctSize(init);
      assert s == init + [last];
      assert Elements(s) == Elements(init) + {last};
    }
  }

  /** `summary["capped"]` is the number of documents left out. */
  lemma CappedCountIsRight(cs: seq<Candidate>, cap: int, selected: seq<int>)
    requires IsSelection(cs, cap, selected)
    ensures |TouchedDocs(cs)| - |selected| == |TouchedDocs(cs) - Elements(selected)|
  {
    DistinctSize(selected);
    forall d | d in Elements(selected) ensures d in TouchedDocs(cs) {
      assert Touches(cs, d);
    }
    assert TouchedDocs(cs) == Elements(selected) + (TouchedDocs(cs) - Elements(selected));
  }

  // ---- Re-validating and folding one document's candidates ----

  function Incumbent(doc: Document, entityType: EntityType): Option<int> {
    if entityType == Correspondent then doc.correspondent else doc.documentType
  }

  /** Whether a candidate still applies to the document as fetched now. */
  predicate StillValid(doc: Document, tags: seq<string>, c: Candidate) {
    match c.entityType
    case Tag => (c.kind == Add ==> c.name !in tags) && (c.kind == Remove ==> c.name in tags)
    case _ => if c.kind == Add then Incumbent(doc, c.entityType) == None
              else Incumbent(doc, c.entityType) == Some(c.entity)
  }

  function TagsAfter(tags: seq<string>, c: Candidate): seq<string> {
    if c.entityType != Tag then tags
    else if c.kind == Add then tags + [c.name]
    else if c.kind == Remove then RemoveFirst(tags, c.name)
    else tags
  }

  /** The name a single-valued candidate writes; a review writes none. */
  function NewName(c: Candidate): Option<string> {
    if c.kind == Add then Some(c.name) else if c.kind == Replace then c.replacementName else None
  }

  function FieldAfter(current: Option<string>, entityType: EntityType, c: Candidate): Option<string> {
    if c.entityType == entityType && NewName(c).Some? then NewName(c) else current
  }

  function FoldOne(doc: Document, s: Corrected, c: Candidate): Corrected {
    if !StillValid(doc, s.tags, c) then s
    else Corrected(TagsAfter(s.tags, c), FieldAfter(s.correspondent, Correspondent, c),
                   FieldAfter(s.documentType, DocumentType, c), s.actions + [c])
  }

  function Fold(doc: Document, start: Corrected, cs: seq<Candidate>): Corrected {
    if cs == [] then start else FoldOne(doc, Fold(doc, start, cs[..|cs| - 1]), cs[|cs| - 1])
  }

  function NamesOf<T>(ids: seq<int>, names: map<int, T>): seq<T> {
    if ids == [] then []
    else
      var last := ids[|ids| - 1];
      NamesOf(ids[..|ids| - 1], names) + if last in names then [names[last]] else []
  }

  function NameOf(id: Option<int>, names: map<int, string>): Option<string> {
    if id.Some? && id.value != 0 && id.value in names then Some(names[id.value]) else None
  }

  function Current(doc: Document, names: Names): Corrected {
    Corrected(NamesOf(doc.tags, names.tag), NameOf(doc.correspondent, names.correspondent),
              NameOf(doc.documentType, names.documentType), [])
  }

  method FoldCandidates(doc: Document, names: Names, cs: seq<Candidate>) returns (s: Corrected)
    ensures s == Fold(doc, Current(doc, names), cs)
  {
    var start := Current(doc, names);
    var tags, correspondent, documentType, valid := start.tags, start.correspondent, start.documentType, [];
    for k := 0 to |cs|
      invariant Corrected(tags, correspondent, documentType, valid) == Fold(doc, start, cs[..k])
    {
      assert cs[..k + 1][..k] == cs[..k];
      var c := cs[k];
      if c.entityType == Tag {
        if c.kind == Add {
          if c.name in tags { continue; }
          tags := tags + [c.name];
        } else if c.kind == Remove {
          if c.name !in tags { continue; }
          tags := RemoveFirst(tags, c.name);
        }
      } else {
        var currentId := if c.entityType == Correspondent then doc.correspondent else doc.documentType;
        var newName: Option<string> := None;
        if c.kind == Add {
          if currentId != None { continue; }
          newName := Some(c.name);
        } else if c.kind == Replace {
          if currentId != Some(c.entity) { continue; }
          newName := c.replacementName;
        } else {
          if currentId != Some(c.entity) { continue; }
        }
        if newName != None {
          if c.entityType == Correspondent {
            correspondent := newName;
          } else {
            documentType := newName;
          }
        }
      }
      valid := valid + [c];
    }
    assert cs[..|cs|] == cs;
    s := Corrected(tags, correspondent, documentType, valid);
  }

  // ---- The whole pass ----

  function SuggestionFor(sorted: seq<Candidate>, fetched: map<int, Document>, names: Names, d: int): Option<Suggestion>
  {
    if d !in fetched then None
    else
      var start := Current(fetched[d], names);
      var corrected := Fold(fetched[d], start, CandidatesOf(sorted, d));
      if corrected.actions == [] then None else Some(Suggestion(d, start.tags, corrected))
  }

  function Suggestions(sorted: seq<Candidate>, fetched: map<int, Document>, names: Names,
                       docs: seq<int>): seq<Suggestion>
  {
    if docs == [] then []
    else
      var last := SuggestionFor(sorted, fetched, names, docs[|docs| - 1]);
      Suggestions(sorted, fetched, names, docs[..|docs| - 1]) + if last.Some? then [last.value] else []
  }

  function CountKind(actions: seq<Candidate>, kind: Kind): nat {
    if actions == [] then 0
    else CountKind(actions[..|actions| - 1], kind) + if actions[|actions| - 1].kind == kind then 1 else 0
  }

  /** Recorded actions of one kind over the whole queue. */
  function Recorded(queue: seq<Suggestion>, kind: Kind): nat {
    if queue == [] then 0
    else Recorded(queue[..|queue| - 1], kind) + CountKind(queue[|queue| - 1].corrected.actions, kind)
  }

  /** The summary after enqueueing `queue`. */
  function Counted(before: Summary, queue: seq<Suggestion>, capped: int): Summary {
    Summary(before.added + Recorded(queue, Add), before.removed + Recorded(queue, Remove),
            before.replaced + Recorded(queue, Replace), before.review + Recorded(queue, Review), capped)
  }

  function Tallied(s: Summary, actions: seq<Candidate>): Summary {
    Summary(s.added + CountKind(actions, Add), s.removed + CountKind(actions, Remove),
            s.replaced + CountKind(actions, Replace), s.review + CountKind(actions, Review), s.capped)
  }

  lemma CountedNext(before: Summary, queue: seq<Suggestion>, s: Suggestion, capped: int)
    ensures Counted(before, queue + [s], capped) == Tallied(Counted(before, queue, capped), s.corrected.actions)
  {
  }

  method Tally(actions: seq<Candidate>, summary: Summary) returns (r: Summary)
    ensures r == Tallied(summary, actions)
  {
    r := summary;
    for k := 0 to |actions|
      invariant r == Tallied(summary, actions[..k])
    {
      assert actions[..k + 1][..k] == actions[..k];
      match actions[k].kind {
        case Add => r := r.(added := r.added + 1);
        case Remove => r := r.(removed := r.removed + 1);
        case Replace => r := r.(replaced := r.replaced + 1);
        case Review => r := r.(review := r.review + 1);
      }
    }
    assert actions[..|actions|] == actions;
  }

  /** One turn of the loop over `by_doc`. */
  method Suggest(ghost sorted: seq<Candidate>, fetched: map<int, Document>, names: Names, d: int,
                 actions: seq<Candidate>)
    returns (suggestion: Option<Suggestion>)
    requires actions == CandidatesOf(sorted, d)
    ensures suggestion == SuggestionFor(sorted, fetched, names, d)
  {
    if d !in fetched {
      return None;
    }
    var corrected := FoldCandidates(fetched[d], names, actions);
    if corrected.actions == [] {
      return None;
    }
    suggestion := Some(Suggestion(d, Current(fetched[d], names).tags, corrected));
  }

  lemma SuggestionsNext(sorted: seq<Candidate>, fetched: map<int, Document>, names: Names, docs: seq<int>, k: nat)
    requires k < |docs|
    ensures var last := SuggestionFor(sorted, fetched, names, docs[k]);
            Suggestions(sorted, fetched, names, docs[..k + 1]) ==
            Suggestions(sorted, fetched, names, docs[..k]) + if last.Some? then [last.value] else []
  {
    assert docs[..k + 1][..k] == docs[..k];
  }

  method EnqueueSelected(ghost sorted: seq<Candidate>, fetched: map<int, Document>, names: Names, selected: seq<int>,
                         byDoc: map<int, seq<Candidate>>, before: Summary, capped: int)
    returns (queue: seq<Suggestion>, summary: Summary)
    requires forall d :: d in selected ==> d in byDoc && byDoc[d] == CandidatesOf(sorted, d)
    ensures queue == Suggestions(sorted, fetched, names, selected)
    ensures summary == Counted(before, queue, capped)
  {
    summary := before.(capped := capped);
    queue := [];
    for k := 0 to |selected|
      invariant queue == Suggestions(sorted, fetched, names, selected[..k])
      invariant summary == Counted(before, queue, capped)
    {
      SuggestionsNext(sorted, fetched, names, selected, k);
      assert selected[k] in selected;
      var suggestion := Suggest(sorted, fetched, names, selected[k], byDoc[selected[k]]);
      if suggestion.Some? {
        CountedNext(before, queue, suggestion.value, capped);
        queue := queue + [suggestion.value];
        summary := Tally(suggestion.value.corrected.actions, summary);
      }
    }
    assert selected[..|selected|] == selected;
  }

  // ---- What a suggestion guarantees ----

  function Replay(base: seq<string>, actions: seq<Candidate>): seq<string> {
    if actions == [] then base else TagsAfter(Replay(base, actions[..|actions| - 1]), actions[|actions| - 1])
  }

  /** What a recorded action does to the tags: an add appends a missing tag, a
      remove takes the first occurrence of a present one, others leave them. */
  ghost predicate TagStep(before: seq<string>, a: Candidate, after: seq<string>) {
    if a.entityType == Tag && a.kind == Add then a.name !in before && after == before + [a.name]
    else if a.entityType == Tag && a.kind == Remove then WithoutFirst(before, a.name, after)
    else after == before
  }

  /** Each recorded action made sense when it was reached. */
  ghost predicate ReplaysCleanly(base: seq<string>, actions: seq<Candidate>) {
    && Replay(base, []) == base
    && (forall k :: 0 <= k < |actions| ==>
          TagStep(Replay(base, actions[..k]), actions[k], Replay(base, actions[..k + 1])))
  }

  lemma ValidIsTagStep(doc: Document, tags: seq<string>, c: Candidate)
    requires StillValid(doc, tags, c)
    ensures TagStep(tags, c, TagsAfter(tags, c))
  {
    if c.entityType == Tag && c.kind == Remove {
      RemoveFirstCuts(tags, c.name);
    }
  }

  lemma ReplayStep(base: seq<string>, actions: seq<Candidate>, a: Candidate)
    requires ReplaysCleanly(base, actions) && TagStep(Replay(base, actions), a, TagsAfter(Replay(base, actions), a))
    ensures ReplaysCleanly(base, actions + [a])
    ensures Replay(base, actions + [a]) == TagsAfter(Replay(base, actions), a)
  {
    var more := actions + [a];
    assert more[..|actions|] == actions && more[..|actions| + 1] == more;
    forall k | 0 <= k < |more| ensures TagStep(Replay(base, more[..k]), more[k], Replay(base, more[..k + 1])) {
      if k < |actions| {
        assert more[..k] == actions[..k] && more[..k + 1] == actions[..k + 1];
      }
    }
  }

  /** Replaying the recorded actions on `base_tags` gives the suggested tags,
      with every add of a missing tag and every remove of a present one. */
  lemma {:induction false} RecordedActionsExplainTags(doc: Document, start: Corrected, cs: seq<Candidate>)
    requires start.actions == []
    ensures var s := Fold(doc, start, cs);
            Replay(start.tags, s.actions) == s.tags && ReplaysCleanly(start.tags, s.actions)
  {
    if cs != [] {
      var init, last := cs[..|cs| - 1], cs[|cs| - 1];
      var s := Fold(doc, start, init);
      RecordedActionsExplainTags(doc, start, init);
      if StillValid(doc, s.tags, last) {
        ValidIsTagStep(doc, s.tags, last);
        ReplayStep(start.tags, s.actions, last);
      }
    }
  }

  lemma {:induction false} RemoveFirstFromDistinct(tags: seq<string>, name: string)
    requires Distinct(tags)
    ensures Distinct(RemoveFirst(tags, name))
    ensures forall t :: t in RemoveFirst(tags, name) <==> t in tags && t != name
  {
    if tags != [] {
      assert tags == [tags[0]] + tags[1..] && tags[0] !in tags[1..];
      assert forall i :: 0 <= i < |tags[1..]| ==> tags[1..][i] == tags[i + 1];
      RemoveFirstFromDistinct(tags[1..], name);
    }
  }

  ghost predicate TagAction(actions: seq<Candidate>, kind: Kind, name: string) {
    exists k :: 0 <= k < |actions| && actions[k].entityType == Tag && actions[k].kind == kind && actions[k].name == name
  }

  /** Net effect: no tag is duplicated, and a tag recorded once ends up present
      if it was added, absent if it was removed, untouched otherwise. */
  lemma {:induction false} NetTagEffect(base: seq<string>, actions: seq<Candidate>, name: string)
    requires Distinct(base)
    requires forall k :: 0 <= k < |actions| && actions[k].entityType == Tag && actions[k].kind == Add ==>
               actions[k].name !in Replay(base, actions[..k])
    requires OncePerTag(actions)
    ensures Distinct(Replay(base, actions))
    ensures name in Replay(base, actions) <==>
              TagAction(actions, Add, name) || (name in base && !TagAction(actions, Remove, name))
  {
    if actions != [] {
      var n := |actions| - 1;
      var init := actions[..n];
      assert forall k :: 0 <= k < n ==> init[..k] == actions[..k] && init[k] == actions[k];
      NetTagEffect(base, init, name);
      RemoveFirstFromDistinct(Replay(base, init), actions[n].name);
      forall kind
        ensures TagAction(actions, kind, name) <==>
                  || TagAction(init, kind, name)
                  || (actions[n].entityType == Tag && actions[n].kind == kind && actions[n].name == name)
      {
        if TagAction(init, kind, name) {
          var k :| 0 <= k < n && init[k].entityType == Tag && init[k].kind == kind && init[k].name == name;
          assert actions[k].name == name;
        }
      }
      if actions[n].entityType == Tag && actions[n].name == name {
        assert !TagAction(init, Add, name) && !TagAction(init, Remove, name);
      }
    }
  }

  // ---- What becomes of a single-valued field ----

  lemma {:induction false} CandidatesKeepOrder(cs: seq<Candidate>, d: int)
    requires AscendingBy(cs, Weakness)
    ensures AscendingBy(CandidatesOf(cs, d), Weakness)
    ensures forall c :: c in CandidatesOf(cs, d) <==> c in cs && c.doc == d
  {
    if cs != [] {
      var init, last := cs[..|cs| - 1], cs[|cs| - 1];
      CandidatesKeepOrder(init, d);
      assert cs == init + [last];
      var kept := CandidatesOf(init, d);
      forall i | 0 <= i < |kept| ensures Weakness(kept[i]) <= Weakness(last) {
        assert kept[i] in kept && kept[i] in init;
        var k :| 0 <= k < |init| && init[k] == kept[i];
        assert cs[k] == init[k];
      }
    }
  }

  ghost function FieldOf(s: Corrected, field: EntityType): Option<string> {
    if field == Correspondent then s.correspondent else s.documentType
  }

  /** Applied to a field with the value `id`, `c` writes `name`: the name of an
      add when the field is empty, the replacement of a replace of its value. */
  ghost predicate Writes(c: Candidate, field: EntityType, id: Option<int>, name: string) {
    && c.entityType == field
    && ((c.kind == Add && id == None && c.name == name)
        || (c.kind == Replace && id == Some(c.entity) && c.replacementName == Some(name)))
  }

  lemma {:induction false} NoWriteKeepsField(doc: Document, start: Corrected, cs: seq<Candidate>, field: EntityType)
    requires field != Tag
    requires forall c, name :: c in cs ==> !Writes(c, field, Incumbent(doc, field), name)
    ensures FieldOf(Fold(doc, start, cs), field) == FieldOf(start, field)
  {
    if cs != [] {
      var n := |cs| - 1;
      NoWriteKeepsField(doc, start, cs[..n], field);
      NoWriteHere(doc, Fold(doc, start, cs[..n]), cs[n], field);
    }
  }

  lemma NoWriteHere(doc: Document, s: Corrected, c: Candidate, field: EntityType)
    requires field != Tag && forall name :: !Writes(c, field, Incumbent(doc, field), name)
    ensures FieldOf(FoldOne(doc, s, c), field) == FieldOf(s, field)
  {
    if c.entityType == field && NewName(c).Some? {
      assert !Writes(c, field, Incumbent(doc, field), NewName(c).value);
    }
  }

  lemma WriteHere(doc: Document, s: Corrected, c: Candidate, field: EntityType, name: string)
    requires field != Tag && Writes(c, field, Incumbent(doc, field), name)
    ensures FieldOf(FoldOne(doc, s, c), field) == Some(name)
  {
  }

  /** Some candidate writes the field. */
  ghost predicate SomeWrites(cs: seq<Candidate>, field: EntityType, id: Option<int>) {
    exists c, name :: c in cs && Writes(c, field, id, name)
  }

  /** No candidate that writes the field is weaker than `c`. */
  ghost predicate WeakestToWrite(cs: seq<Candidate>, field: EntityType, id: Option<int>, c: Candidate) {
    forall o, name :: o in cs && Writes(o, field, id, name) ==> c.distance <= o.distance
  }

  lemma WritersBefore(cs: seq<Candidate>, last: Candidate, field: EntityType, id: Option<int>)
    requires cs != [] && last == cs[|cs| - 1]
    requires SomeWrites(cs, field, id) && forall name :: !Writes(last, field, id, name)
    ensures SomeWrites(cs[..|cs| - 1], field, id)
    ensures forall c :: WeakestToWrite(cs[..|cs| - 1], field, id, c) ==> WeakestToWrite(cs, field, id, c)
  {
    assert cs == cs[..|cs| - 1] + [last];
  }

  /** Re-validation looks at the fetched field, not at what an earlier candidate
      wrote: every add for an empty field passes, every replace of its value, and
      the last one, the weakest, decides the suggested value. */
  lemma {:induction false} WeakestWriteWins(doc: Document, start: Corrected, cs: seq<Candidate>, field: EntityType)
    returns (winner: nat, name: string)
    requires field != Tag && AscendingBy(cs, Weakness) && SomeWrites(cs, field, Incumbent(doc, field))
    ensures winner < |cs| && Writes(cs[winner], field, Incumbent(doc, field), name)
    ensures FieldOf(Fold(doc, start, cs), field) == Some(name)
    ensures WeakestToWrite(cs, field, Incumbent(doc, field), cs[winner])
  {
    var n := |cs| - 1;
    var init := cs[..n];
    if other :| Writes(cs[n], field, Incumbent(doc, field), other) {
      winner, name := n, other;
      LastIsWeakest(cs);
      WriteHere(doc, Fold(doc, start, init), cs[n], field, name);
    } else {
      WritersBefore(cs, cs[n], field, Incumbent(doc, field));
      winner, name := WeakestWriteWins(doc, start, init, field);
      NoWriteHere(doc, Fold(doc, start, init), cs[n], field);
    }
  }

  lemma LastIsWeakest(cs: seq<Candidate>)
    requires AscendingBy(cs, Weakness) && cs != []
    ensures forall c :: c in cs ==> cs[|cs| - 1].distance <= c.distance
  {
    forall k | 0 <= k < |cs| ensures cs[|cs| - 1].distance <= cs[k].distance {
      assert Weakness(cs[k]) <= Weakness(cs[|cs| - 1]);
    }
  }

  /** For instance: of two correspondents proposed for a document without one, the
      one closer to its threshold is suggested, and both are recorded. */
  lemma TwoAddsForOneField(strong: Candidate, weak: Candidate, start: Corrected)
    requires strong == Candidate(1, Correspondent, 7, "Bank", Add, 0.15, None)
    requires weak == Candidate(1, Correspondent, 8, "Insurer", Add, 0.05, None)
    requires start == Corrected([], None, None, [])
    ensures AscendingBy([strong, weak], Weakness)
    ensures Fold(Document([], None, None), start, [strong, weak]) ==
            Corrected([], Some("Insurer"), None, [strong, weak])
  {
    var doc := Document([], None, None);
    assert [strong, weak][..1] == [strong] && [strong][..0] == [];
    assert Fold(doc, start, []) == start;
    assert Fold(doc, start, [strong]) == Corrected([], Some("Bank"), None, [strong]);
    assert [strong] + [weak] == [strong, weak];
  }

  /** A replace suggests its replacement, not the name it replaces. */
  lemma ReplaceIsSuggested(replace: Candidate, start: Corrected)
    requires replace == Candidate(7, Correspondent, 3, "Bank", Replace, 0.4, Some("Insurer"))
    requires start == Corrected([], Some("Bank"), None, [])
    ensures Fold(Document([], Some(3), None), start, [replace]) == Corrected([], Some("Insurer"), None, [replace])
  {
    assert [replace][..0] == [];
    assert Fold(Document([], Some(3), None), start, []) == start;
  }

  // ---- Which candidates are recorded ----

  ghost predicate HasTag(doc: Document, names: Names, name: string) {
    exists i :: 0 <= i < |doc.tags| && doc.tags[i] in names.tag && names.tag[doc.tags[i]] == name
  }

  /** The candidate still makes sense for the document as it is now: an add of a
      missing tag, a remove of a present one, an add for an empty field, anything
      else about the value the field has. */
  ghost predicate Applies(doc: Document, names: Names, c: Candidate) {
    match c.entityType
    case Tag => (c.kind == Add ==> !HasTag(doc, names, c.name)) && (c.kind == Remove ==> HasTag(doc, names, c.name))
    case Correspondent => doc.correspondent == if c.kind == Add then None else Some(c.entity)
    case DocumentType => doc.documentType == if c.kind == Add then None else Some(c.entity)
  }

  /** `tags` are the names of those `ids` that have one, in order. */
  ghost predicate AreNames<T>(ids: seq<int>, table: map<int, T>, tags: seq<T>, origin: seq<nat>) {
    && |origin| == |tags|
    && (forall j :: 0 <= j < |tags| ==>
          origin[j] < |ids| && ids[origin[j]] in table && tags[j] == table[ids[origin[j]]])
    && (forall i, j :: 0 <= i < j < |origin| ==> origin[i] < origin[j])
    && (forall i :: 0 <= i < |ids| && ids[i] in table ==> i in origin)
  }

  lemma {:induction false} NamesComeFromIds<T>(ids: seq<int>, table: map<int, T>) returns (origin: seq<nat>)
    ensures AreNames(ids, table, NamesOf(ids, table), origin)
  {
    origin := [];
    if ids != [] {
      var n := |ids| - 1;
      origin := NamesComeFromIds(ids[..n], table);
      if ids[n] in table {
        origin := origin + [n];
      }
    }
  }

  lemma CurrentTags(doc: Document, names: Names, name: string)
    ensures name in Current(doc, names).tags <==> HasTag(doc, names, name)
  {
    var origin := NamesComeFromIds(doc.tags, names.tag);
    var tags := NamesOf(doc.tags, names.tag);
    if HasTag(doc, names, name) {
      var i :| 0 <= i < |doc.tags| && doc.tags[i] in names.tag && names.tag[doc.tags[i]] == name;
      var j :| 0 <= j < |origin| && origin[j] == i;
      assert tags[j] == name;
    }
  }

  lemma AppliesIsValid(doc: Document, names: Names, c: Candidate)
    ensures Applies(doc, names, c) <==> StillValid(doc, Current(doc, names).tags, c)
  {
    CurrentTags(doc, names, c.name);
  }

  /** No other candidate names the same tag. */
  ghost predicate OnlyOneFor(cs: seq<Candidate>, c: Candidate) {
    forall o :: o in cs && o.doc == c.doc && o.entityType == Tag && o.name == c.name ==> o == c
  }

  /** When no candidate for tag `name` is valid to begin with, folding leaves the
      tag alone. */
  lemma {:induction false} TagStays(doc: Document, start: Corrected, cs: seq<Candidate>, name: string)
    requires forall c :: c in cs && c.entityType == Tag && c.name == name ==> !StillValid(doc, start.tags, c)
    ensures name in Fold(doc, start, cs).tags <==> name in start.tags
  {
    if cs != [] {
      var init, last := cs[..|cs| - 1], cs[|cs| - 1];
      assert cs == init + [last];
      TagStays(doc, start, init, name);
      RemoveOther(Fold(doc, start, init).tags, last.name, name);
    }
  }

  lemma {:induction false} RemoveOther(tags: seq<string>, gone: string, name: string)
    ensures gone != name ==> (name in RemoveFirst(tags, gone) <==> name in tags)
  {
    if tags != [] && tags[0] != gone {
      RemoveOther(tags[1..], gone, name);
    }
  }

  /** A candidate on a field, or the only one for its tag, is recorded exactly
      when it was valid to begin with. */
  lemma {:induction false} RecordedIffValid(doc: Document, start: Corrected, cs: seq<Candidate>, c: Candidate)
    requires c in cs && start.actions == []
    requires c.entityType == Tag ==> forall o :: o in cs && o.entityType == Tag && o.name == c.name ==> o == c
    ensures c in Fold(doc, start, cs).actions <==> StillValid(doc, start.tags, c)
  {
    var init, last := cs[..|cs| - 1], cs[|cs| - 1];
    assert cs == init + [last];
    if c in init {
      RecordedIffValid(doc, start, init, c);
    } else {
      RecordedActionsAreCurrent(doc, start, init);
    }
    if c.entityType == Tag && (c !in init || !StillValid(doc, start.tags, c)) {
      TagStays(doc, start, init, c.name);
    }
  }

  /** Nothing stale is recorded: a replace or review kept in a suggestion is
      about the value the document has now. */
  lemma {:induction false} RecordedActionsAreCurrent(doc: Document, start: Corrected, cs: seq<Candidate>)
    requires start.actions == []
    ensures forall a :: a in Fold(doc, start, cs).actions ==> a in cs
    ensures forall a :: a in Fold(doc, start, cs).actions && a.entityType != Tag ==>
              Incumbent(doc, a.entityType) == if a.kind == Add then None else Some(a.entity)
  {
    if cs != [] {
      var init := cs[..|cs| - 1];
      RecordedActionsAreCurrent(doc, start, init);
      assert cs == init + [cs[|cs| - 1]];
    }
  }

  // ---- The summary counts the recorded actions ----

  ghost predicate RecordsAt(queue: seq<Suggestion>, kind: Kind, i: int, k: int) {
    0 <= i < |queue| && 0 <= k < |queue[i].corrected.actions| && queue[i].corrected.actions[k].kind == kind
  }

  /** Where the queue records an action of this kind. */
  ghost function RecordedAt(queue: seq<Suggestion>, kind: Kind): set<(int, int)> {
    set i, k | 0 <= i < |queue| && 0 <= k < |queue[i].corrected.actions| && RecordsAt(queue, kind, i, k) :: (i, k)
  }

  ghost function KindAt(i: int, actions: seq<Candidate>, kind: Kind): set<(int, int)> {
    set k | 0 <= k < |actions| && actions[k].kind == kind :: (i, k)
  }

  lemma {:induction false} KindIsCounted(i: int, actions: seq<Candidate>, kind: Kind)
    ensures CountKind(actions, kind) == |KindAt(i, actions, kind)|
  {
    if actions == [] {
      assert KindAt(i, actions, kind) == {};
    } else {
      var n := |actions| - 1;
      KindIsCounted(i, actions[..n], kind);
      forall at
        ensures at in KindAt(i, actions, kind) <==>
                  at in KindAt(i, actions[..n], kind) || (at == (i, n) && actions[n].kind == kind)
      {
        KindAtNext(i, actions, kind, at);
      }
      OneMore(KindAt(i, actions, kind), KindAt(i, actions[..n], kind), (i, n), actions[n].kind == kind);
    }
  }

  lemma KindAtNext(i: int, actions: seq<Candidate>, kind: Kind, at: (int, int))
    requires actions != []
    ensures var n := |actions| - 1;
            at in KindAt(i, actions, kind) <==>
              at in KindAt(i, actions[..n], kind) || (at == (i, n) && actions[n].kind == kind)
  {
  }

  lemma OneMore(all: set<(int, int)>, before: set<(int, int)>, at: (int, int), more: bool)
    requires forall x :: x in all <==> x in before || (x == at && more)
    requires at !in before
    ensures |all| == |before| + if more then 1 else 0
  {
    assert all == before + if more then {at} else {};
  }

  lemma RecordedAtNext(queue: seq<Suggestion>, kind: Kind, at: (int, int))
    requires queue != []
    ensures var n := |queue| - 1;
            at in RecordedAt(queue, kind) <==>
              at in RecordedAt(queue[..n], kind) || at in KindAt(n, queue[n].corrected.actions, kind)
  {
    var n := |queue| - 1;
    assert RecordsAt(queue, kind, at.0, at.1) <==>
           RecordsAt(queue[..n], kind, at.0, at.1) || (at.0 == n && RecordsAt(queue, kind, n, at.1));
  }

  lemma {:induction false} RecordedIsCount(queue: seq<Suggestion>, kind: Kind)
    ensures Recorded(queue, kind) == |RecordedAt(queue, kind)|
  {
    if queue == [] {
      assert RecordedAt(queue, kind) == {};
    } else {
      var n := |queue| - 1;
      RecordedIsCount(queue[..n], kind);
      KindIsCounted(n, queue[n].corrected.actions, kind);
      forall at
        ensures at in RecordedAt(queue, kind) <==>
                  at in RecordedAt(queue[..n], kind) || at in KindAt(n, queue[n].corrected.actions, kind)
      {
        RecordedAtNext(queue, kind, at);
      }
      SumOfSizes(RecordedAt(queue, kind), RecordedAt(queue[..n], kind), KindAt(n, queue[n].corrected.actions, kind), n);
    }
  }

  lemma SumOfSizes(all: set<(int, int)>, before: set<(int, int)>, here: set<(int, int)>, n: int)
    requires forall at :: at in all <==> at in before || at in here
    requires (forall at :: at in before ==> at.0 < n) && (forall at :: at in here ==> at.0 == n)
    ensures |all| == |before| + |here|
  {
    assert before !! here;
    assert all == before + here;
  }

  /** Each counter grew by the number of recorded actions of its kind. */
  ghost predicate SummaryRight(before: Summary, after: Summary, queue: seq<Suggestion>) {
    && after.added == before.added + |RecordedAt(queue, Add)|
    && after.removed == before.removed + |RecordedAt(queue, Remove)|
    && after.replaced == before.replaced + |RecordedAt(queue, Replace)|
    && after.review == before.review + |RecordedAt(queue, Review)|
  }

  lemma CountsAreRight(before: Summary, queue: seq<Suggestion>, capped: int)
    ensures SummaryRight(before, Counted(before, queue, capped), queue)
  {
    RecordedIsCount(queue, Add);
    RecordedIsCount(queue, Remove);
    RecordedIsCount(queue, Replace);
    RecordedIsCount(queue, Review);
  }

  // ---- What the queue guarantees ----

  /** A candidate of `d` still applies to the document as it is now. */
  ghost predicate SomeApplies(candidates: seq<Candidate>, d: int, doc: Document, names: Names) {
    exists c :: c in candidates && c.doc == d && Applies(doc, names, c)
  }

  /** The tags follow from the base tags by the recorded actions alone. */
  ghost predicate TagsExplained(s: Suggestion) {
    Replay(s.baseTags, s.corrected.actions) == s.corrected.tags && ReplaysCleanly(s.baseTags, s.corrected.actions)
  }

  ghost predicate OncePerTag(actions: seq<Candidate>) {
    forall i, j :: 0 <= i < j < |actions| && actions[i].entityType == Tag && actions[j].entityType == Tag ==>
      actions[i].name != actions[j].name
  }

  /** If no tag was named twice, the suggestion has exactly the tags added and
      the base tags not removed, each once. */
  ghost predicate TagsNet(s: Suggestion) {
    Distinct(s.baseTags) && OncePerTag(s.corrected.actions) ==>
      && Distinct(s.corrected.tags)
      && forall name :: name in s.corrected.tags <==>
           || TagAction(s.corrected.actions, Add, name)
           || (name in s.baseTags && !TagAction(s.corrected.actions, Remove, name))
  }

  /** Recorded are candidates of the document, farthest from their thresholds
      first: exactly those that apply, where they do not compete for a tag. */
  ghost predicate RecordedRight(candidates: seq<Candidate>, doc: Document, names: Names, s: Suggestion) {
    && AscendingBy(s.corrected.actions, Weakness)
    && (forall a :: a in s.corrected.actions ==> a in candidates && a.doc == s.doc)
    && (forall c :: c in candidates && c.doc == s.doc && (c.entityType == Tag ==> OnlyOneFor(candidates, c)) ==>
          (c in s.corrected.actions <==> Applies(doc, names, c)))
  }

  ghost predicate WriteFor(candidates: seq<Candidate>, d: int, field: EntityType, id: Option<int>, c: Candidate,
                           name: string)
  {
    c in candidates && c.doc == d && Writes(c, field, id, name)
  }

  /** `c` writes `name` and is the weakest to write the field. */
  ghost predicate Decides(candidates: seq<Candidate>, d: int, field: EntityType, id: Option<int>, c: Candidate,
                          name: string)
  {
    && WriteFor(candidates, d, field, id, c, name)
    && (forall o, other :: WriteFor(candidates, d, field, id, o, other) ==> c.distance <= o.distance)
  }

  /** The suggested value of a field is what the weakest candidate to write it
      says; if none does, it is the name of the current value, if that has one. */
  ghost predicate FieldRight(candidates: seq<Candidate>, d: int, field: EntityType, id: Option<int>,
                             table: map<int, string>, value: Option<string>)
  {
    && ((exists c, name :: WriteFor(candidates, d, field, id, c, name)) ==>
          exists c, name :: Decides(candidates, d, field, id, c, name) && value == Some(name))
    && ((forall c, name :: !WriteFor(candidates, d, field, id, c, name)) ==>
          value == if id.Some? && id.value != 0 && id.value in table then Some(table[id.value]) else None)
  }

  ghost predicate Explained(candidates: seq<Candidate>, fetched: map<int, Document>, names: Names, s: Suggestion) {
    && s.doc in fetched
    && var doc := fetched[s.doc];
    && (exists origin :: AreNames(doc.tags, names.tag, s.baseTags, origin))
    && s.corrected.actions != []
    && TagsExplained(s) && TagsNet(s)
    && RecordedRight(candidates, doc, names, s)
    && FieldRight(candidates, s.doc, Correspondent, doc.correspondent, names.correspondent, s.corrected.correspondent)
    && FieldRight(candidates, s.doc, DocumentType, doc.documentType, names.documentType, s.corrected.documentType)
  }

  ghost predicate Queued(queue: seq<Suggestion>, d: int) {
    exists i :: 0 <= i < |queue| && queue[i].doc == d
  }

  ghost predicate At(docs: seq<int>, a: int, d: int) {
    0 <= a < |docs| && docs[a] == d
  }

  /** The suggestions come in the order in which their documents were selected,
      one for each. */
  ghost predicate InOrderOf(docs: seq<int>, queue: seq<Suggestion>) {
    forall i, j, a, b :: 0 <= i < j < |queue| && At(docs, a, queue[i].doc) && At(docs, b, queue[j].doc) ==> a < b
  }

  /** One suggestion, fully explained by the candidates, for each selected
      document that could be fetched and to which a candidate still applies. */
  ghost predicate QueueRight(candidates: seq<Candidate>, fetched: map<int, Document>, names: Names,
                             selected: seq<int>, queue: seq<Suggestion>)
  {
    && InOrderOf(selected, queue)
    && (forall i :: 0 <= i < |queue| ==> queue[i].doc in selected && Explained(candidates, fetched, names, queue[i]))
    && (forall d :: d in selected ==>
          (Queued(queue, d) <==> d in fetched && SomeApplies(candidates, d, fetched[d], names)))
  }

  lemma SortKeepsMembers(cs: seq<Candidate>)
    ensures forall c :: c in SortBy(cs, Weakness) <==> c in cs
  {
    var sorted := SortBy(cs, Weakness);
    forall c ensures c in sorted <==> c in cs {
      assert c in sorted <==> c in multiset(sorted);
      assert c in cs <==> c in multiset(cs);
    }
  }

  lemma TouchesIgnoresOrder(cs: seq<Candidate>, ds: seq<Candidate>, d: int)
    requires (forall c :: c in cs ==> c in ds) && Touches(cs, d)
    ensures Touches(ds, d)
  {
    var i :| 0 <= i < |cs| && cs[i].doc == d;
    assert cs[i] in ds;
  }

  lemma OutranksIgnoresOrder(cs: seq<Candidate>, ds: seq<Candidate>, d: int, other: int)
    requires (forall c :: c in cs <==> c in ds) && Outranks(ds, d, other)
    ensures Outranks(cs, d, other)
  {
    var i :| 0 <= i < |ds| && ds[i].doc == d
             && forall j :: 0 <= j < |ds| && ds[j].doc == other ==> ds[j].distance <= ds[i].distance;
    assert ds[i] in cs;
    var k :| 0 <= k < |cs| && cs[k] == ds[i];
    forall j | 0 <= j < |cs| && cs[j].doc == other ensures cs[j].distance <= cs[k].distance {
      assert cs[j] in ds;
    }
  }

  lemma SelectionIgnoresOrder(cs: seq<Candidate>, ds: seq<Candidate>, cap: int, selected: seq<int>)
    requires (forall c :: c in cs <==> c in ds) && IsSelection(ds, cap, selected)
    ensures IsSelection(cs, cap, selected)
  {
    forall d ensures Touches(cs, d) <==> Touches(ds, d) {
      if Touches(cs, d) {
        TouchesIgnoresOrder(cs, ds, d);
      }
      if Touches(ds, d) {
        TouchesIgnoresOrder(ds, cs, d);
      }
    }
    forall d, other | d in selected && Touches(cs, other) && other !in selected ensures Outranks(cs, d, other) {
      OutranksIgnoresOrder(cs, ds, d, other);
    }
    forall i, j | 0 <= i < j < |selected| ensures Outranks(cs, selected[i], selected[j]) {
      OutranksIgnoresOrder(cs, ds, selected[i], selected[j]);
    }
  }

  lemma {:induction false} FoldKeepsSomeIff(doc: Document, start: Corrected, cs: seq<Candidate>)
    requires start.actions == []
    ensures Fold(doc, start, cs).actions == [] <==> forall c :: c in cs ==> !StillValid(doc, start.tags, c)
    ensures Fold(doc, start, cs).actions == [] ==> Fold(doc, start, cs) == start
  {
    if cs != [] {
      FoldKeepsSomeIff(doc, start, cs[..|cs| - 1]);
      assert cs == cs[..|cs| - 1] + [cs[|cs| - 1]];
    }
  }

  lemma FieldIsRight(candidates: seq<Candidate>, d: int, cs: seq<Candidate>, doc: Document, start: Corrected,
                     field: EntityType, table: map<int, string>)
    requires (forall c :: c in cs <==> c in candidates && c.doc == d) && AscendingBy(cs, Weakness)
    requires field != Tag && FieldOf(start, field) == NameOf(Incumbent(doc, field), table)
    ensures FieldRight(candidates, d, field, Incumbent(doc, field), table, FieldOf(Fold(doc, start, cs), field))
  {
    var id := Incumbent(doc, field);
    if c, name :| WriteFor(candidates, d, field, id, c, name) {
      assert c in cs && Writes(c, field, id, name);
      var winner, written := WeakestWriteWins(doc, start, cs, field);
      forall o, other | WriteFor(candidates, d, field, id, o, other) ensures cs[winner].distance <= o.distance {
        assert o in cs && Writes(o, field, id, other);
      }
      assert Decides(candidates, d, field, id, cs[winner], written);
    } else {
      forall c, name | c in cs ensures !Writes(c, field, id, name) {
        assert !WriteFor(candidates, d, field, id, c, name);
      }
      NoWriteKeepsField(doc, start, cs, field);
    }
  }

  lemma {:induction false} ActionsKeepOrder(doc: Document, start: Corrected, cs: seq<Candidate>)
    requires AscendingBy(cs, Weakness) && start.actions == []
    ensures AscendingBy(Fold(doc, start, cs).actions, Weakness)
  {
    if cs != [] {
      var init, last := cs[..|cs| - 1], cs[|cs| - 1];
      ActionsKeepOrder(doc, start, init);
      RecordedActionsAreCurrent(doc, start, init);
      LastIsWeakest(cs);
      assert cs == init + [last];
      var before := Fold(doc, start, init).actions;
      forall i | 0 <= i < |before| ensures Weakness(before[i]) <= Weakness(last) {
        assert before[i] in before;
      }
    }
  }

  lemma RecordsAreRight(candidates: seq<Candidate>, cs: seq<Candidate>, doc: Document, names: Names, s: Suggestion)
    requires (forall c :: c in cs <==> c in candidates && c.doc == s.doc) && AscendingBy(cs, Weakness)
    requires s.corrected == Fold(doc, Current(doc, names), cs)
    ensures RecordedRight(candidates, doc, names, s)
  {
    var start := Current(doc, names);
    RecordedActionsAreCurrent(doc, start, cs);
    ActionsKeepOrder(doc, start, cs);
    forall c | c in candidates && c.doc == s.doc && (c.entityType == Tag ==> OnlyOneFor(candidates, c))
      ensures c in s.corrected.actions <==> Applies(doc, names, c)
    {
      RecordedIffValid(doc, start, cs, c);
      AppliesIsValid(doc, names, c);
    }
  }

  lemma KeepsSomeIff(candidates: seq<Candidate>, d: int, cs: seq<Candidate>, doc: Document, names: Names)
    requires forall c :: c in cs <==> c in candidates && c.doc == d
    ensures Fold(doc, Current(doc, names), cs).actions != [] <==> SomeApplies(candidates, d, doc, names)
  {
    FoldKeepsSomeIff(doc, Current(doc, names), cs);
    forall c ensures Applies(doc, names, c) <==> StillValid(doc, Current(doc, names).tags, c) {
      AppliesIsValid(doc, names, c);
    }
  }

  lemma SuggestionIsExplained(candidates: seq<Candidate>, sorted: seq<Candidate>, fetched: map<int, Document>,
                              names: Names, d: int)
    requires (forall c :: c in sorted <==> c in candidates) && AscendingBy(sorted, Weakness)
    ensures var s := SuggestionFor(sorted, fetched, names, d);
            && (s.Some? <==> d in fetched && SomeApplies(candidates, d, fetched[d], names))
            && (s.Some? ==> s.value.doc == d && Explained(candidates, fetched, names, s.value))
  {
    if d in fetched {
      var doc, cs := fetched[d], CandidatesOf(sorted, d);
      var start := Current(doc, names);
      CandidatesKeepOrder(sorted, d);
      KeepsSomeIff(candidates, d, cs, doc, names);
      RecordedActionsExplainTags(doc, start, cs);
      var s := Suggestion(d, start.tags, Fold(doc, start, cs));
      var origin := NamesComeFromIds(doc.tags, names.tag);
      FieldIsRight(candidates, d, cs, doc, start, Correspondent, names.correspondent);
      FieldIsRight(candidates, d, cs, doc, start, DocumentType, names.documentType);
      RecordsAreRight(candidates, cs, doc, names, s);
      ExplainedTagsAreNet(s);
    }
  }

  lemma ExplainedTagsAreNet(s: Suggestion)
    requires TagsExplained(s)
    ensures TagsNet(s)
  {
    var actions := s.corrected.actions;
    if Distinct(s.baseTags) && OncePerTag(actions) {
      forall k | 0 <= k < |actions| && actions[k].entityType == Tag && actions[k].kind == Add
        ensures actions[k].name !in Replay(s.baseTags, actions[..k])
      {
        assert TagStep(Replay(s.baseTags, actions[..k]), actions[k], Replay(s.baseTags, actions[..k + 1]));
      }
      forall name
        ensures Distinct(s.corrected.tags)
        ensures name in s.corrected.tags <==>
                  TagAction(actions, Add, name) || (name in s.baseTags && !TagAction(actions, Remove, name))
      {
        NetTagEffect(s.baseTags, actions, name);
      }
      NetTagEffect(s.baseTags, actions, "");
    }
  }

  ghost predicate ComesFrom(sorted: seq<Candidate>, fetched: map<int, Document>, names: Names, docs: seq<int>,
                            s: Suggestion)
  {
    s.doc in docs && SuggestionFor(sorted, fetched, names, s.doc) == Some(s)
  }

  lemma ComesFromPrefix(sorted: seq<Candidate>, fetched: map<int, Document>, names: Names, docs: seq<int>,
                        s: Suggestion)
    requires docs != [] && ComesFrom(sorted, fetched, names, docs[..|docs| - 1], s)
    ensures ComesFrom(sorted, fetched, names, docs, s)
    ensures Distinct(docs) ==> s.doc != docs[|docs| - 1]
  {
    var k :| 0 <= k < |docs| - 1 && docs[..|docs| - 1][k] == s.doc;
    assert docs[k] == s.doc;
  }

  lemma {:induction false} QueueHolds(sorted: seq<Candidate>, fetched: map<int, Document>, names: Names, docs: seq<int>,
                                      queue: seq<Suggestion>)
    requires Distinct(docs) && queue == Suggestions(sorted, fetched, names, docs)
    requires forall d :: SuggestionFor(sorted, fetched, names, d).Some? ==>
               SuggestionFor(sorted, fetched, names, d).value.doc == d
    ensures InOrderOf(docs, queue)
    ensures forall i :: 0 <= i < |queue| ==> ComesFrom(sorted, fetched, names, docs, queue[i])
    ensures forall d :: d in docs && SuggestionFor(sorted, fetched, names, d).Some? ==> Queued(queue, d)
    decreases |docs|
  {
    if docs != [] {
      var init, last := docs[..|docs| - 1], docs[|docs| - 1];
      var before := Suggestions(sorted, fetched, names, init);
      QueueHolds(sorted, fetched, names, init, before);
      assert docs == init + [last];
      forall i | 0 <= i < |before|
        ensures queue[i] == before[i] && ComesFrom(sorted, fetched, names, docs, queue[i]) && queue[i].doc != last
      {
        assert ComesFrom(sorted, fetched, names, init, before[i]);
        ComesFromPrefix(sorted, fetched, names, docs, before[i]);
      }
      forall i, j, a, b | 0 <= i < j < |queue| && At(docs, a, queue[i].doc) && At(docs, b, queue[j].doc)
        ensures a < b
      {
        assert queue[i] == before[i] && a < |init| && At(init, a, before[i].doc);
        if j < |before| {
          assert queue[j] == before[j] && b < |init| && At(init, b, before[j].doc);
        }
      }
      assert |queue| > |before| ==>
          queue[|before|].doc == last && ComesFrom(sorted, fetched, names, docs, queue[|before|]);
      forall d | d in docs && SuggestionFor(sorted, fetched, names, d).Some? ensures Queued(queue, d) {
        if d == last {
          assert queue[|before|].doc == d;
        } else {
          assert Queued(before, d);
          var i :| 0 <= i < |before| && before[i].doc == d;
          assert queue[i].doc == d;
        }
      }
    }
  }

  lemma QueueIsRight(candidates: seq<Candidate>, sorted: seq<Candidate>, fetched: map<int, Document>, names: Names,
                     selected: seq<int>, queue: seq<Suggestion>)
    requires (forall c :: c in sorted <==> c in candidates) && AscendingBy(sorted, Weakness) && Distinct(selected)
    requires queue == Suggestions(sorted, fetched, names, selected)
    ensures QueueRight(candidates, fetched, names, selected, queue)
  {
    forall d
      ensures var s := SuggestionFor(sorted, fetched, names, d);
              && (s.Some? <==> d in fetched && SomeApplies(candidates, d, fetched[d], names))
              && (s.Some? ==> s.value.doc == d && Explained(candidates, fetched, names, s.value))
    {
      SuggestionIsExplained(candidates, sorted, fetched, names, d);
    }
    QueueHolds(sorted, fetched, names, selected, queue);
    forall i | 0 <= i < |queue| ensures queue[i].doc in selected && Explained(candidates, fetched, names, queue[i]) {
      assert ComesFrom(sorted, fetched, names, selected, queue[i]);
    }
    forall d | d in selected
      ensures Queued(queue, d) <==> d in fetched && SomeApplies(candidates, d, fetched[d], names)
    {
      if i :| 0 <= i < |queue| && queue[i].doc == d {
        assert ComesFrom(sorted, fetched, names, selected, queue[i]);
      }
    }
  }

  /** `fetched` answers `_fetch_document`; a missing document is skipped. */
  method EnqueueCandidates(candidates: seq<Candidate>, cap: int, fetched: map<int, Document>, names: Names,
                           before: Summary)
    returns (selected: seq<int>, queue: seq<Suggestion>, summary: Summary)
    ensures IsSelection(candidates, cap, selected)
    ensures QueueRight(candidates, fetched, names, selected, queue)
    ensures queue == Suggestions(SortBy(candidates, Weakness), fetched, names, selected)
    ensures summary.capped == |TouchedDocs(candidates)| - |selected|
    ensures summary == Counted(before, queue, summary.capped)
    ensures SummaryRight(before, summary, queue)
  {
    var sorted := SortBy(candidates, Weakness);
    selected := SelectDocs(sorted, cap);
    SortKeepsMembers(candidates);
    SelectionIgnoresOrder(candidates, sorted, cap, selected);
    var byDoc := GroupByDoc(sorted, selected);
    var capped := |TouchedDocs(candidates)| - |selected|;
    queue, summary := EnqueueSelected(sorted, fetched, names, selected, byDoc, before, capped);
    QueueIsRight(candidates, sorted, fetched, names, selected, queue);
    CountsAreRight(before, queue, capped);
  }
}
