/** Priority queue with a background gate and an embedding circuit breaker
    (backend/ollama_queue.py), as steps between suspension points: submit, pick,
    finish, idle timeout, and a caller giving up. */
module OllamaQueue {
  import opened Collections

  datatype Priority = ANALYSIS | EMBEDDING | HEALTH_CHECK

  function Rank(p: Priority): nat {
    match p
    case ANALYSIS => 0
    case EMBEDDING => 1
    case HEALTH_CHECK => 2
  }

  /** A queue entry. Stamps are strictly increasing and name the future. */
  datatype Request = Request(priority: Priority, stamp: nat, name: string)

  datatype Future = Waiting | Result | Failed | Cancelled

  datatype State = State(queue: seq<Request>, active: Option<Request>, futures: seq<Future>,
                         pendingLabels: seq<string>, gateOpen: bool)

  const INITIAL := State([], None, [], [], true)

  // ---- The priority queue ----

  /** Tuple order on `(priority, stamp)` */
  predicate Before(a: Request, b: Request) {
    Rank(a.priority) < Rank(b.priority) || (a.priority == b.priority && a.stamp < b.stamp)
  }

  /** `PriorityQueue.get`: the least entry. */
  function Least(queue: seq<Request>): (r: Request)
    requires queue != []
    ensures r in queue
    ensures forall q :: q in queue ==> q == r || Before(r, q) || (q.priority == r.priority && q.stamp == r.stamp)
  {
    if |queue| == 1 then queue[0]
    else
      var rest := Least(queue[1..]);
      assert forall q :: q in queue ==> q == queue[0] || q in queue[1..];
      if Before(rest, queue[0]) then rest else queue[0]
  }

  // ---- Steps ----

  datatype Event =
    | Submit(priority: Priority, name: string)
    | Pick
    | Finish(ok: bool)
    | IdleTimeout
    | Abandon(stamp: nat)

  predicate Enabled(s: State, e: Event) {
    match e
    case Submit(_, _) => true
    case Pick => s.active == None && s.queue != []
    case Finish(_) => s.active.Some?
    case IdleTimeout => s.active == None
    case Abandon(stamp) => stamp < |s.futures|
  }

  function Submitted(s: State, r: Request): State {
    s.(queue := s.queue + [r], futures := s.futures + [Waiting],
       pendingLabels := if r.name != "" then s.pendingLabels + [r.name] else s.pendingLabels,
       gateOpen := s.gateOpen && r.priority != ANALYSIS)
  }

  function Picked(s: State): State
    requires s.queue != []
  {
    var r := Least(s.queue);
    s.(queue := RemoveFirst(s.queue, r), active := Some(r),
       pendingLabels := if r.name != "" then RemoveFirst(s.pendingLabels, r.name) else s.pendingLabels)
  }

  /** `if not future.done()`: a settled future keeps its outcome. */
  function Settle(futures: seq<Future>, stamp: nat, f: Future): seq<Future> {
    if stamp < |futures| && futures[stamp] == Waiting then futures[stamp := f] else futures
  }

  function Finished(s: State, ok: bool): State
    requires s.active.Some?
  {
    s.(active := None, futures := Settle(s.futures, s.active.value.stamp, if ok then Result else Failed),
       gateOpen := s.gateOpen || s.queue == [])
  }

  function Step(s: State, e: Event): State
    requires Enabled(s, e)
  {
    match e
    case Submit(priority, name) => Submitted(s, Request(priority, |s.futures|, name))
    case Pick => Picked(s)
    case Finish(ok) => Finished(s, ok)
    case IdleTimeout => s.(gateOpen := true)
    case Abandon(stamp) => s.(futures := Settle(s.futures, stamp, Cancelled))
  }

  // ---- What every reachable state satisfies ----

  ghost predicate Queued(s: State, stamp: nat) {
    exists q :: q in s.queue && q.stamp == stamp
  }

  ghost predicate Active(s: State, stamp: nat) {
    s.active.Some? && s.active.value.stamp == stamp
  }

  ghost predicate DistinctStamps(queue: seq<Request>) {
    forall i, j :: 0 <= i < j < |queue| ==> queue[i].stamp != queue[j].stamp
  }

  /** Not answered yet; the caller may have given up. */
  ghost predicate Open(s: State, stamp: nat) {
    stamp < |s.futures| && s.futures[stamp] in {Waiting, Cancelled}
  }

  /** Every submitted request is in one place: queued, active, or settled. A
      waiting future is queued or active, an answered one is neither. */
  ghost predicate Placed(s: State) {
    && DistinctStamps(s.queue)
    && (forall q :: q in s.queue ==> Open(s, q.stamp) && !Active(s, q.stamp))
    && (s.active.Some? ==> Open(s, s.active.value.stamp))
    && (forall stamp :: 0 <= stamp < |s.futures| && s.futures[stamp] == Waiting ==>
          Queued(s, stamp) || Active(s, stamp))
  }

  ghost function NameBag(r: Request): multiset<string> {
    if r.name == "" then multiset{} else multiset{r.name}
  }

  ghost function NamesOf(queue: seq<Request>): multiset<string> {
    if queue == [] then multiset{} else NameBag(queue[0]) + NamesOf(queue[1..])
  }

  /** The pending labels are the non-empty labels of the queued requests. */
  ghost predicate LabelsRight(s: State) {
    multiset(s.pendingLabels) == NamesOf(s.queue)
  }

  ghost predicate AnalysisPresent(s: State) {
    || (exists i :: 0 <= i < |s.queue| && s.queue[i].priority == ANALYSIS)
    || (s.active.Some? && s.active.value.priority == ANALYSIS)
  }

  /** The gate lets background work in only when no analysis is queued or
      running, and is closed only while something is. */
  ghost predicate GateRight(s: State) {
    && (s.gateOpen ==> !AnalysisPresent(s))
    && (!s.gateOpen ==> s.queue != [] || s.active.Some?)
  }

  // ---- Steps keep requests and labels in place ----

  lemma {:induction false} NamesOfAppend(queue: seq<Request>, r: Request)
    ensures NamesOf(queue + [r]) == NamesOf(queue) + NameBag(r)
  {
    if queue == [] {
      assert queue + [r] == [r];
    } else {
      assert (queue + [r])[1..] == queue[1..] + [r];
      NamesOfAppend(queue[1..], r);
    }
  }

  lemma {:induction false} NamesOfRemove(queue: seq<Request>, r: Request)
    requires r in queue
    ensures NamesOf(queue) == NamesOf(RemoveFirst(queue, r)) + NameBag(r)
  {
    if queue[0] != r {
      NamesOfRemove(queue[1..], r);
      assert ([queue[0]] + RemoveFirst(queue[1..], r))[1..] == RemoveFirst(queue[1..], r);
    }
  }

  lemma TailIsDistinct(queue: seq<Request>)
    requires DistinctStamps(queue) && queue != []
    ensures DistinctStamps(queue[1..])
    ensures forall q :: q in queue <==> q == queue[0] || q in queue[1..]
    ensures forall q :: q in queue[1..] ==> q.stamp != queue[0].stamp
  {
  }

  lemma DistinctPush(head: Request, tail: seq<Request>)
    requires DistinctStamps(tail) && forall i :: 0 <= i < |tail| ==> tail[i].stamp != head.stamp
    ensures DistinctStamps([head] + tail)
  {
  }

  lemma {:induction false} RemoveKeepsOthers(queue: seq<Request>, r: Request)
    requires DistinctStamps(queue) && r in queue
    ensures DistinctStamps(RemoveFirst(queue, r))
    ensures forall q :: q in RemoveFirst(queue, r) <==> q in queue && q.stamp != r.stamp
  {
    TailIsDistinct(queue);
    if queue[0] != r {
      var rest := RemoveFirst(queue[1..], r);
      RemoveKeepsOthers(queue[1..], r);
      forall i | 0 <= i < |rest| ensures rest[i].stamp != queue[0].stamp {
        assert rest[i] in rest;
      }
      DistinctPush(queue[0], rest);
      assert forall q :: q in [queue[0]] + rest <==> q == queue[0] || q in rest;
    }
  }

  lemma SubmitKeepsPlaced(s: State, r: Request)
    requires Placed(s) && r.stamp == |s.futures|
    ensures Placed(Submitted(s, r))
  {
    var t := Submitted(s, r);
    assert forall i :: 0 <= i < |s.queue| ==> t.queue[i] == s.queue[i] && s.queue[i] in s.queue;
    assert forall q :: q in t.queue <==> q in s.queue || q == r;
    forall stamp | 0 <= stamp < |t.futures| && t.futures[stamp] == Waiting
      ensures Queued(t, stamp) || Active(t, stamp)
    {
      if stamp == |s.futures| {
        assert r in t.queue;
      } else {
        assert Queued(s, stamp) || Active(s, stamp);
      }
    }
  }

  lemma PickKeepsPlaced(s: State)
    requires Placed(s) && Enabled(s, Pick)
    ensures Placed(Picked(s))
  {
    var r, t := Least(s.queue), Picked(s);
    RemoveKeepsOthers(s.queue, r);
    forall stamp | 0 <= stamp < |t.futures| && t.futures[stamp] == Waiting
      ensures Queued(t, stamp) || Active(t, stamp)
    {
      assert Queued(s, stamp) || Active(s, stamp);
    }
  }

  lemma SettleKeepsPlaced(s: State, t: State)
    requires Placed(s) && t.queue == s.queue && |t.futures| == |s.futures|
    requires t.active == s.active || (t.active == None && s.active.Some? && t.futures[s.active.value.stamp] != Waiting)
    requires forall k :: 0 <= k < |s.futures| ==>
               t.futures[k] == s.futures[k] || t.futures[k] == Cancelled || Active(s, k)
    requires forall k :: 0 <= k < |s.futures| && t.active.Some? ==>
               t.futures[k] == s.futures[k] || t.futures[k] == Cancelled
    ensures Placed(t)
  {
  }

  lemma StepKeepsPlaced(s: State, e: Event)
    requires Placed(s) && Enabled(s, e)
    ensures Placed(Step(s, e))
  {
    match e
    case Submit(priority, name) => SubmitKeepsPlaced(s, Request(priority, |s.futures|, name));
    case Pick => PickKeepsPlaced(s);
    case _ => SettleKeepsPlaced(s, Step(s, e));
  }

  lemma PickKeepsLabels(s: State)
    requires LabelsRight(s) && Enabled(s, Pick)
    ensures LabelsRight(Picked(s))
  {
    var r := Least(s.queue);
    var rest := RemoveFirst(s.queue, r);
    NamesOfRemove(s.queue, r);
    if r.name != "" {
      RemoveFirstMultiset(s.pendingLabels, r.name);
      assert NamesOf(rest) + multiset{r.name} - multiset{r.name} == NamesOf(rest);
    }
  }

  lemma StepKeepsLabels(s: State, e: Event)
    requires LabelsRight(s) && Enabled(s, e)
    ensures LabelsRight(Step(s, e))
  {
    match e
    case Submit(priority, name) => NamesOfAppend(s.queue, Request(priority, |s.futures|, name));
    case Pick => PickKeepsLabels(s);
    case _ =>
  }

  // ---- The gate ----

  lemma AnalysisPresentAfter(s: State, e: Event)
    requires Placed(s) && Enabled(s, e)
    ensures e.Submit? ==> (AnalysisPresent(Step(s, e)) <==> AnalysisPresent(s) || e.priority == ANALYSIS)
    ensures e.Pick? || e.IdleTimeout? || e.Abandon? ==> (AnalysisPresent(Step(s, e)) <==> AnalysisPresent(s))
    ensures e.Finish? && AnalysisPresent(Step(s, e)) ==> AnalysisPresent(s) && s.queue != []
  {
    var t := Step(s, e);
    if e.Submit? {
      assert t.queue[|s.queue|].priority == e.priority && t.active == s.active;
      assert forall i :: 0 <= i < |s.queue| ==> t.queue[i] == s.queue[i];
    }
    if e.Pick? {
      var r := Least(s.queue);
      RemoveKeepsOthers(s.queue, r);
      forall q ensures q in s.queue <==> q in t.queue || q == r {
        if q in s.queue && q.stamp == r.stamp {
          var i, j :| 0 <= i < |s.queue| && 0 <= j < |s.queue| && s.queue[i] == q && s.queue[j] == r;
          assert i == j;
        }
      }
      assert forall i :: 0 <= i < |s.queue| ==> s.queue[i] in s.queue;
      assert forall i :: 0 <= i < |t.queue| ==> t.queue[i] in t.queue;
    }
  }

  /** The idle timeout fired although an analysis has been put meanwhile. */
  ghost predicate LateTimeout(s: State, e: Event) {
    e.IdleTimeout? && Enabled(s, e) && exists i :: 0 <= i < |s.queue| && s.queue[i].priority == ANALYSIS
  }

  /** The gate is right after every step except a late timeout, and wrong after
      that. */
  lemma StepKeepsGateIff(s: State, e: Event)
    requires Placed(s) && GateRight(s) && Enabled(s, e)
    ensures GateRight(Step(s, e)) <==> !LateTimeout(s, e)
  {
    AnalysisPresentAfter(s, e);
    if e.Pick? {
      assert Step(s, e).active.Some?;
    }
  }

  // ---- Runs: any sequence of events, those not enabled being skipped ----

  function Apply(s: State, e: Event): State {
    if Enabled(s, e) then Step(s, e) else s
  }

  function After(run: seq<Event>): State {
    if run == [] then INITIAL else Apply(After(run[..|run| - 1]), run[|run| - 1])
  }

  lemma {:induction false} EveryRequestIsPlaced(run: seq<Event>)
    ensures Placed(After(run)) && LabelsRight(After(run))
  {
    if run != [] {
      var s, e := After(run[..|run| - 1]), run[|run| - 1];
      EveryRequestIsPlaced(run[..|run| - 1]);
      if Enabled(s, e) {
        StepKeepsPlaced(s, e);
        StepKeepsLabels(s, e);
      }
    }
  }

  /** The last event of the run is a late timeout. */
  ghost predicate EndsLate(run: seq<Event>) {
    run != [] && LateTimeout(After(run[..|run| - 1]), run[|run| - 1])
  }

  ghost function GateCheck(): seq<Event> -> bool {
    run => GateRight(After(run))
  }

  ghost function TimelyCheck(): seq<Event> -> bool {
    run => !EndsLate(run)
  }

  /** Over every run: the gate is right at every moment exactly when no idle
      timeout finds an analysis queued. */
  lemma {:induction false} GateIsRightIff(run: seq<Event>)
    ensures Always(run, GateCheck()) <==> Always(run, TimelyCheck())
  {
    if run == [] {
      assert GateCheck()([]) && TimelyCheck()([]);
      assert run[..0] == [];
    } else {
      var init := run[..|run| - 1];
      GateIsRightIff(init);
      AlwaysNext(run, GateCheck());
      AlwaysNext(run, TimelyCheck());
      if Always(init, GateCheck()) {
        AlwaysNow(init, GateCheck());
        GateStep(run, init, run[|run| - 1]);
      }
    }
  }

  lemma GateStep(run: seq<Event>, init: seq<Event>, last: Event)
    requires run != [] && init == run[..|run| - 1] && last == run[|run| - 1] && GateCheck()(init)
    ensures GateCheck()(run) <==> TimelyCheck()(run)
  {
    EveryRequestIsPlaced(init);
    if Enabled(After(init), last) {
      StepKeepsGateIff(After(init), last);
    }
  }

  ghost predicate ClosesAt(run: seq<Event>, p: int) {
    0 <= p < |run| && run[p].Submit? && run[p].priority == ANALYSIS
  }

  /** The worker found nothing more to do: a call ended with the queue empty, or
      it waited in vain for the next request. */
  ghost predicate OpensAt(run: seq<Event>, p: int) {
    && 0 <= p < |run|
    && var s := After(run[..p]);
       (run[p].Finish? && s.active.Some? && s.queue == []) || (run[p].IdleTimeout? && s.active == None)
  }

  /** An analysis was submitted at `p`, and the gate has not been opened since. */
  ghost predicate ClosedSince(run: seq<Event>, p: int) {
    ClosesAt(run, p) && forall q :: p < q ==> !OpensAt(run, q)
  }

  ghost predicate Closed(run: seq<Event>) {
    exists p :: ClosedSince(run, p)
  }

  lemma SameBefore(run: seq<Event>, p: int)
    requires run != [] && 0 <= p < |run| - 1
    ensures ClosesAt(run, p) <==> ClosesAt(run[..|run| - 1], p)
    ensures OpensAt(run, p) <==> OpensAt(run[..|run| - 1], p)
  {
    assert run[..|run| - 1][..p] == run[..p];
  }

  lemma ClosedNext(run: seq<Event>, n: nat)
    requires run != [] && n == |run| - 1
    ensures Closed(run) <==> ClosesAt(run, n) || (Closed(run[..n]) && !OpensAt(run, n))
  {
    forall p | 0 <= p < n
      ensures ClosesAt(run, p) <==> ClosesAt(run[..n], p)
      ensures OpensAt(run, p) <==> OpensAt(run[..n], p)
    {
      SameBefore(run, p);
    }
    if ClosesAt(run, n) {
      assert ClosedSince(run, n);
    } else if p :| ClosedSince(run[..n], p) {
      assert !OpensAt(run, n) ==> ClosedSince(run, p);
    }
    if p :| ClosedSince(run, p) {
      assert p < n ==> ClosedSince(run[..n], p) && !OpensAt(run, n);
    }
  }

  lemma GateNext(run: seq<Event>, n: nat)
    requires run != [] && n == |run| - 1
    ensures !After(run).gateOpen <==> ClosesAt(run, n) || (!After(run[..n]).gateOpen && !OpensAt(run, n))
  {
  }

  /** Over every run: the gate is closed exactly when an analysis has been
      submitted since it was last opened; no other request closes it. */
  lemma {:induction false} GateIsClosedIff(run: seq<Event>)
    ensures !After(run).gateOpen <==> Closed(run)
  {
    if run != [] {
      var n := |run| - 1;
      GateIsClosedIff(run[..n]);
      ClosedNext(run, n);
      GateNext(run, n);
    }
  }

  /** A late timeout lets background work in while an analysis runs. */
  lemma LateTimeoutOpensGate(name: string)
    ensures var s := After([Submit(ANALYSIS, name), IdleTimeout, Pick]);
            s.gateOpen && s.active == Some(Request(ANALYSIS, 0, name))
  {
    var run := [Submit(ANALYSIS, name), IdleTimeout, Pick];
    assert run[..2] == [Submit(ANALYSIS, name), IdleTimeout];
    assert run[..2][..1] == [Submit(ANALYSIS, name)];
    assert run[..2][..1][..0] == [];
    var s := Submitted(INITIAL, Request(ANALYSIS, 0, name));
    assert After(run[..2][..1]) == s;
    assert After(run[..2]) == s.(gateOpen := true);
  }

  /** A future that is settled keeps its outcome for the rest of the run. */
  lemma {:induction false} SettledOnce(run: seq<Event>, more: seq<Event>, stamp: nat)
    requires stamp < |After(run).futures| && After(run).futures[stamp] != Waiting
    ensures stamp < |After(run + more).futures|
    ensures After(run + more).futures[stamp] == After(run).futures[stamp]
  {
    if more == [] {
      assert run + more == run;
    } else {
      SettledOnce(run, more[..|more| - 1], stamp);
      assert (run + more)[..|run + more| - 1] == run + more[..|more| - 1];
    }
  }

  // ---- Which event settles a future ----

  /** The call of request `stamp` returned or raised at position `p`. */
  ghost predicate AnsweredAt(run: seq<Event>, p: nat, stamp: nat) {
    p < |run| && run[p].Finish? && Active(After(run[..p]), stamp)
  }

  /** The caller of request `stamp` gave up at position `p`. */
  ghost predicate AbandonedAt(run: seq<Event>, p: nat, stamp: nat) {
    p < |run| && run[p] == Abandon(stamp) && stamp < |After(run[..p]).futures|
  }

  ghost predicate EndsAt(run: seq<Event>, p: nat, stamp: nat) {
    AnsweredAt(run, p, stamp) || AbandonedAt(run, p, stamp)
  }

  ghost predicate NeverEnds(run: seq<Event>, stamp: nat) {
    forall p: nat :: p < |run| ==> !EndsAt(run, p, stamp)
  }

  /** The first event to end request `stamp` is `e`. */
  ghost predicate FirstEndedBy(run: seq<Event>, stamp: nat, e: Event) {
    exists p: nat :: p < |run| && EndsAt(run, p, stamp) && NeverEnds(run[..p], stamp) && run[p] == e
  }

  lemma EndsInPrefix(run: seq<Event>, n: nat, p: nat, stamp: nat)
    requires p < n <= |run|
    ensures EndsAt(run[..n], p, stamp) <==> EndsAt(run, p, stamp)
  {
    assert run[..n][..p] == run[..p];
  }

  lemma NeverEndsNext(run: seq<Event>, stamp: nat)
    requires run != []
    ensures var n := |run| - 1; NeverEnds(run, stamp) <==> NeverEnds(run[..n], stamp) && !EndsAt(run, n, stamp)
  {
    var n := |run| - 1;
    forall p: nat | p < n ensures EndsAt(run[..n], p, stamp) <==> EndsAt(run, p, stamp) {
      EndsInPrefix(run, n, p, stamp);
    }
  }

  lemma FirstEndNext(run: seq<Event>, stamp: nat, e: Event)
    requires run != []
    ensures var n := |run| - 1;
            FirstEndedBy(run, stamp, e) <==>
              || FirstEndedBy(run[..n], stamp, e)
              || (NeverEnds(run[..n], stamp) && EndsAt(run, n, stamp) && run[n] == e)
  {
    var n := |run| - 1;
    forall p: nat | p < n
      ensures EndsAt(run[..n], p, stamp) <==> EndsAt(run, p, stamp)
      ensures run[..n][..p] == run[..p]
    {
      EndsInPrefix(run, n, p, stamp);
    }
    if FirstEndedBy(run[..n], stamp, e) {
      var p: nat :| p < n && EndsAt(run[..n], p, stamp) && NeverEnds(run[..n][..p], stamp) && run[..n][p] == e;
      assert EndsAt(run, p, stamp) && NeverEnds(run[..p], stamp) && run[p] == e;
    }
    if FirstEndedBy(run, stamp, e) {
      var p: nat :| p < |run| && EndsAt(run, p, stamp) && NeverEnds(run[..p], stamp) && run[p] == e;
      if p < n {
        assert EndsAt(run[..n], p, stamp) && NeverEnds(run[..n][..p], stamp) && run[..n][p] == e;
      }
    }
  }

  /** What a future holds in terms of the events that ended its request. */
  ghost predicate OutcomeRight(run: seq<Event>, stamp: nat, f: Future) {
    && (f == Waiting <==> NeverEnds(run, stamp))
    && (f == Result <==> FirstEndedBy(run, stamp, Finish(true)))
    && (f == Failed <==> FirstEndedBy(run, stamp, Finish(false)))
    && (f == Cancelled <==> FirstEndedBy(run, stamp, Abandon(stamp)))
  }

  /** A waiting future takes the outcome of the event that ends its request; a
      settled one keeps what it has. */
  lemma StepSettles(s: State, e: Event, stamp: nat)
    requires stamp < |s.futures|
    ensures var t := Apply(s, e);
            && stamp < |t.futures|
            && t.futures[stamp] == if s.futures[stamp] != Waiting then s.futures[stamp]
                                   else if e.Finish? && Active(s, stamp) then if e.ok then Result else Failed
                                   else if e == Abandon(stamp) then Cancelled
                                   else Waiting
  {
  }

  lemma OutcomeStep(run: seq<Event>, stamp: nat)
    requires run != [] && stamp < |After(run[..|run| - 1]).futures|
    requires OutcomeRight(run[..|run| - 1], stamp, After(run[..|run| - 1]).futures[stamp])
    ensures OutcomeRight(run, stamp, After(run).futures[stamp])
  {
    var n := |run| - 1;
    StepSettles(After(run[..n]), run[n], stamp);
    var before, f := After(run[..n]).futures[stamp], After(run).futures[stamp];
    NeverEndsNext(run, stamp);
    assert EndsAt(run, n, stamp) <==>
           (run[n].Finish? && Active(After(run[..n]), stamp)) || run[n] == Abandon(stamp);
    assert f == Waiting <==> NeverEnds(run, stamp);
    forall e | e in {Finish(true), Finish(false), Abandon(stamp)}
      ensures FirstEndedBy(run, stamp, e) <==>
                FirstEndedBy(run[..n], stamp, e) || (before == Waiting && EndsAt(run, n, stamp) && run[n] == e)
    {
      FirstEndNext(run, stamp, e);
    }
    assert f == Result <==> FirstEndedBy(run, stamp, Finish(true));
    assert f == Failed <==> FirstEndedBy(run, stamp, Finish(false));
    assert f == Cancelled <==> FirstEndedBy(run, stamp, Abandon(stamp));
  }

  lemma {:induction false} UnsubmittedNeverEnds(run: seq<Event>, stamp: nat)
    requires stamp >= |After(run).futures|
    ensures NeverEnds(run, stamp)
  {
    if run != [] {
      var n := |run| - 1;
      UnsubmittedNeverEnds(run[..n], stamp);
      NeverEndsNext(run, stamp);
      ActiveIsSubmitted(run[..n]);
    }
  }

  lemma ActiveIsSubmitted(run: seq<Event>)
    ensures var s := After(run); s.active.Some? ==> s.active.value.stamp < |s.futures|
  {
    EveryRequestIsPlaced(run);
  }

  /** Over every run: the future of a request holds a result exactly when the
      first event to end it was its call returning, a failure when it was its call
      raising, a cancellation when it was its caller giving up. */
  lemma {:induction false} OutcomeIff(run: seq<Event>, stamp: nat)
    requires stamp < |After(run).futures|
    ensures OutcomeRight(run, stamp, After(run).futures[stamp])
  {
    var n := |run| - 1;
    if stamp < |After(run[..n]).futures| {
      OutcomeIff(run[..n], stamp);
      OutcomeStep(run, stamp);
    } else {
      UnsubmittedNeverEnds(run[..n], stamp);
      NeverEndsNext(run, stamp);
      NothingFirst(run, stamp);
    }
  }

  lemma NothingFirst(run: seq<Event>, stamp: nat)
    requires NeverEnds(run, stamp)
    ensures forall e :: !FirstEndedBy(run, stamp, e)
  {
  }

  /** The request numbered `stamp` was submitted like this. */
  ghost predicate SubmittedAs(run: seq<Event>, stamp: nat, priority: Priority, name: string) {
    exists p: nat :: p < |run| && run[p] == Submit(priority, name) && |After(run[..p]).futures| == stamp
  }

  lemma SubmittedStays(run: seq<Event>, stamp: nat, priority: Priority, name: string)
    requires run != [] && SubmittedAs(run[..|run| - 1], stamp, priority, name)
    ensures SubmittedAs(run, stamp, priority, name)
  {
    var init := run[..|run| - 1];
    var p: nat :| p < |init| && init[p] == Submit(priority, name) && |After(init[..p]).futures| == stamp;
    assert init[..p] == run[..p];
  }

  /** Every request in the queue or running has the priority and the name it was
      submitted with. */
  lemma {:induction false} RequestsAreAsSubmitted(run: seq<Event>, r: Request)
    requires r in After(run).queue || After(run).active == Some(r)
    ensures SubmittedAs(run, r.stamp, r.priority, r.name)
  {
    var n := |run| - 1;
    var init, s, e := run[..n], After(run[..n]), run[n];
    if r in s.queue || s.active == Some(r) {
      RequestsAreAsSubmitted(init, r);
      SubmittedStays(run, r.stamp, r.priority, r.name);
    } else if e.Pick? {
      EveryRequestIsPlaced(init);
      RemoveKeepsOthers(s.queue, Least(s.queue));
      assert false;
    } else {
      assert run[..n] == init && r == Request(e.priority, |s.futures|, e.name);
    }
  }

  // ---- Order of service ----

  /** Every pick is the least entry; no embedding starts while an analysis
      waits. */
  lemma PickIsLeast(s: State)
    requires Placed(s) && Enabled(s, Pick)
    ensures var r := Step(s, Pick).active.value;
            && r in s.queue
            && (forall q :: q in s.queue && q != r ==> Before(r, q))
            && (r.priority == HEALTH_CHECK ==> forall q :: q in s.queue ==> q.priority == HEALTH_CHECK)
            && (forall q :: q in s.queue && q != r && q.priority == r.priority ==> r.stamp < q.stamp)
            && (r.priority != ANALYSIS ==> !AnalysisPresent(s))
  {
    var r := Least(s.queue);
    forall q | q in s.queue && q != r ensures Before(r, q) {
      var i, j :| 0 <= i < |s.queue| && 0 <= j < |s.queue| && s.queue[i] == q && s.queue[j] == r;
      assert i != j;
    }
    assert forall i :: 0 <= i < |s.queue| ==> s.queue[i] in s.queue;
  }

  /** Requests that would be picked before `r`. */
  ghost function Ahead(queue: seq<Request>, r: Request): nat {
    if queue == [] then 0 else (if Before(queue[0], r) then 1 else 0) + Ahead(queue[1..], r)
  }

  lemma {:induction false} AheadAppend(queue: seq<Request>, last: Request, r: Request)
    ensures Ahead(queue + [last], r) == Ahead(queue, r) + if Before(last, r) then 1 else 0
  {
    if queue != [] {
      assert (queue + [last])[1..] == queue[1..] + [last];
      AheadAppend(queue[1..], last, r);
    }
  }

  lemma {:induction false} AheadRemove(queue: seq<Request>, gone: Request, r: Request)
    requires gone in queue
    ensures Ahead(queue, r) == Ahead(RemoveFirst(queue, gone), r) + if Before(gone, r) then 1 else 0
  {
    if queue[0] != gone {
      AheadRemove(queue[1..], gone, r);
      assert ([queue[0]] + RemoveFirst(queue[1..], gone))[1..] == RemoveFirst(queue[1..], gone);
    }
  }

  /** While an analysis waits nothing overtakes it, and every pick brings it one
      place forward. */
  lemma AnalysisAdvances(s: State, e: Event, r: Request)
    requires Placed(s) && r.priority == ANALYSIS && r.stamp < |s.futures| && r in Apply(s, e).queue
    ensures r in s.queue
    ensures Ahead(Apply(s, e).queue, r) + (if e.Pick? && Enabled(s, e) then 1 else 0) <= Ahead(s.queue, r)
  {
    if Enabled(s, e) {
      match e
      case Submit(priority, name) => AheadAppend(s.queue, Request(priority, |s.futures|, name), r);
      case Pick =>
        var gone := Least(s.queue);
        RemoveKeepsOthers(s.queue, gone);
        PickIsLeast(s);
        AheadRemove(s.queue, gone, r);
      case _ =>
    }
  }

  /** Picks that happen while `more` runs after `run`. */
  ghost function Picks(run: seq<Event>, more: seq<Event>): nat {
    if more == [] then 0
    else
      var init, last := more[..|more| - 1], more[|more| - 1];
      Picks(run, init) + if last.Pick? && Enabled(After(run + init), last) then 1 else 0
  }

  lemma {:induction false} StampsGrow(run: seq<Event>, more: seq<Event>)
    ensures |After(run).futures| <= |After(run + more).futures|
  {
    if more == [] {
      assert run + more == run;
    } else {
      StampsGrow(run, more[..|more| - 1]);
      assert (run + more)[..|run + more| - 1] == run + more[..|more| - 1];
    }
  }

  lemma StampIsKnown(run: seq<Event>, more: seq<Event>, r: Request)
    requires r in After(run).queue
    ensures r.stamp < |After(run + more).futures|
  {
    EveryRequestIsPlaced(run);
    assert Open(After(run), r.stamp);
    StampsGrow(run, more);
  }

  /** Bounded waiting: an analysis with k entries ahead of it is no longer
      waiting after k + 1 picks, whatever is submitted meanwhile. */
  lemma {:induction false} BoundedWaiting(run: seq<Event>, more: seq<Event>, r: Request)
    requires r in After(run).queue && r.priority == ANALYSIS && r in After(run + more).queue
    ensures Ahead(After(run + more).queue, r) + Picks(run, more) <= Ahead(After(run).queue, r)
  {
    if more == [] {
      assert run + more == run;
    } else {
      var init := more[..|more| - 1];
      assert (run + more)[..|run + more| - 1] == run + init;
      StampIsKnown(run, init, r);
      EveryRequestIsPlaced(run + init);
      AnalysisAdvances(After(run + init), more[|more| - 1], r);
      BoundedWaiting(run, init, r);
    }
  }

  // ---- The embedding circuit breaker ----

  const EMBED_FAILURE_THRESHOLD := 3

  datatype EmbedEvent = EmbedFailed(error: string) | EmbedSucceeded | CircuitReset

  /** Failures since the last success or reset. */
  function TrailingFailures(history: seq<EmbedEvent>): nat {
    if history == [] || !history[|history| - 1].EmbedFailed? then 0
    else 1 + TrailingFailures(history[..|history| - 1])
  }

  /** The last non-empty error since the last success or reset. */
  function LastError(history: seq<EmbedEvent>): Option<string> {
    if history == [] || !history[|history| - 1].EmbedFailed? then None
    else if history[|history| - 1].error != "" then Some(history[|history| - 1].error)
    else LastError(history[..|history| - 1])
  }

  // ---- The object ----

  class Queue {
    var queue: seq<Request>
    var active: Option<Request>
    var pendingLabels: seq<string>
    var pauseEventSet: bool
    var futures: seq<Future>
    var embedAvailable: bool
    var consecutiveEmbedFailures: nat
    var lastEmbedError: Option<string>
    // Everything the embedding callers have reported.
    ghost var history: seq<EmbedEvent>

    /** The scheduling part of the object, as a value. */
    function View(): State
      reads this
    {
      State(queue, active, futures, pendingLabels, pauseEventSet)
    }

    ghost predicate CircuitRight()
      reads this
    {
      && consecutiveEmbedFailures == TrailingFailures(history)
      && lastEmbedError == LastError(history)
      && (embedAvailable <==> TrailingFailures(history) < EMBED_FAILURE_THRESHOLD)
    }

    constructor ()
      ensures View() == INITIAL && CircuitRight() && history == []
    {
      queue, active, pendingLabels, pauseEventSet, futures := [], None, [], true, [];
      embedAvailable, consecutiveEmbedFailures, lastEmbedError := true, 0, None;
      history := [];
    }

    method DoSubmit(priority: Priority, name: string) returns (stamp: nat)
      modifies this`queue, this`pendingLabels, this`futures, this`pauseEventSet
      ensures View() == Step(old(View()), Submit(priority, name))
      ensures stamp == old(|futures|)
    {
      stamp := |futures|;
      futures := futures + [Waiting];
      if name != "" {
        pendingLabels := pendingLabels + [name];
      }
      queue := queue + [Request(priority, stamp, name)];
      if priority == ANALYSIS {
        pauseEventSet := false;
      }
    }

    /** The worker's get returned: the request becomes active. */
    method DoPick()
      requires Enabled(View(), Pick)
      modifies this`queue, this`pendingLabels, this`active
      ensures View() == Step(old(View()), Pick)
    {
      var r := Least(queue);
      queue := RemoveFirst(queue, r);
      active := Some(r);
      if r.name != "" && r.name in pendingLabels {
        pendingLabels := RemoveFirst(pendingLabels, r.name);
      } else if r.name != "" {
        RemoveAbsent(pendingLabels, r.name);
      }
    }

    /** `fn()` returned or raised; the `finally` block runs. */
    method DoFinish(ok: bool)
      requires active.Some?
      modifies this`active, this`futures, this`pauseEventSet
      ensures View() == Step(old(View()), Finish(ok))
    {
      var stamp := active.value.stamp;
      if stamp < |futures| && futures[stamp] == Waiting {
        futures := futures[stamp := if ok then Result else Failed];
      }
      active := None;
      if |queue| == 0 {
        pauseEventSet := true;
      }
    }

    method DoIdleTimeout()
      requires active == None
      modifies this`pauseEventSet
      ensures View() == Step(old(View()), IdleTimeout)
    {
      if !pauseEventSet {
        pauseEventSet := true;
      }
    }

    method RecordEmbedFailure(error: string)
      requires CircuitRight()
      modifies this`embedAvailable, this`consecutiveEmbedFailures, this`lastEmbedError, this`history
      ensures CircuitRight() && history == old(history) + [EmbedFailed(error)]
    {
      history := history + [EmbedFailed(error)];
      assert history[..|history| - 1] == old(history);
      consecutiveEmbedFailures := consecutiveEmbedFailures + 1;
      if error != "" {
        lastEmbedError := Some(error);
      }
      if consecutiveEmbedFailures >= EMBED_FAILURE_THRESHOLD {
        embedAvailable := false;
      }
    }

    method RecordEmbedSuccess()
      requires CircuitRight()
      modifies this`embedAvailable, this`consecutiveEmbedFailures, this`lastEmbedError, this`history
      ensures CircuitRight() && history == old(history) + [EmbedSucceeded]
    {
      history := history + [EmbedSucceeded];
      consecutiveEmbedFailures, lastEmbedError, embedAvailable := 0, None, true;
    }

    method ResetEmbedCircuit()
      requires CircuitRight()
      modifies this`embedAvailable, this`consecutiveEmbedFailures, this`lastEmbedError, this`history
      ensures CircuitRight() && history == old(history) + [CircuitReset]
    {
      history := history + [CircuitReset];
      consecutiveEmbedFailures, lastEmbedError, embedAvailable := 0, None, true;
    }
  }

  /** The error shown is the last non-empty one since the last success or reset. */
  lemma {:induction false} LastErrorIff(history: seq<EmbedEvent>, error: string)
    ensures LastError(history) == Some(error) <==>
              error != "" && exists k :: && 0 <= k < |history| && history[k] == EmbedFailed(error)
                                         && forall j :: k < j < |history| ==> history[j] == EmbedFailed("")
  {
    if history != [] {
      var n := |history| - 1;
      var init := history[..n];
      LastErrorIff(init, error);
      assert forall j :: 0 <= j < n ==> init[j] == history[j];
      if history[n] == EmbedFailed("") {
        assert LastError(history) == LastError(init);
      }
    }
  }

  lemma {:induction false} RemoveAbsent(names: seq<string>, name: string)
    requires name !in names
    ensures RemoveFirst(names, name) == names
  {
    if names != [] {
      RemoveAbsent(names[1..], name);
    }
  }

  /** The circuit is open exactly when the last three reports were failures. */
  lemma OpenAfterThree(history: seq<EmbedEvent>)
    ensures TrailingFailures(history) >= EMBED_FAILURE_THRESHOLD <==>
              |history| >= 3 && forall k :: |history| - 3 <= k < |history| ==> history[k].EmbedFailed?
  {
    var n := |history|;
    if n >= 1 { assert history[..n - 1] == history[..n - 1]; }
    if n >= 2 { assert history[..n - 1][..n - 2] == history[..n - 2]; }
    if n >= 3 {
      assert TrailingFailures(history[..n - 2]) >= 1 <==> history[n - 3].EmbedFailed?;
    }
  }
}
