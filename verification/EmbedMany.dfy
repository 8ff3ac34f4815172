/** Concurrent embedding of many texts (`_embed_many` in
    backend/vector_store.py). Each batch is one task; a finished task writes its
    slots of the shared result list without a suspension point in between. */
module EmbedMany {
  import opened Collections

  type Vector = seq<real>

  datatype Task = Task(start: nat, count: nat)

  /** What a task's API call came back with. */
  datatype Reply = Failed | Vectors(vectors: seq<Vector>)

  type Slots = seq<Option<Vector>>

  ghost predicate Covers(t: Task, i: int) {
    t.start <= i < t.start + t.count
  }

  ghost predicate CoveredBySome(tasks: seq<Task>, i: int) {
    exists k :: 0 <= k < |tasks| && Covers(tasks[k], i)
  }

  /** The tasks split the index range into consecutive, disjoint stretches. */
  ghost predicate Tiles(tasks: seq<Task>, n: nat) {
    && (forall k :: 0 <= k < |tasks| ==> 0 < tasks[k].count && tasks[k].start + tasks[k].count <= n)
    && (forall k, m :: 0 <= k < m < |tasks| ==> tasks[k].start + tasks[k].count <= tasks[m].start)
    && (forall i :: 0 <= i < n ==> CoveredBySome(tasks, i))
  }

  /** Full batches, and a shorter one at the end. */
  ghost predicate IsBatch(t: Task, n: nat, batchSize: nat) {
    t.count == if t.start + batchSize <= n then batchSize else n - t.start
  }

  /** `for start in range(0, len(texts), batch_size)`; one task per text when the
      provider cannot batch. */
  method PlanTasks(n: nat, batchSize: nat) returns (tasks: seq<Task>)
    requires batchSize > 0
    ensures Tiles(tasks, n)
    ensures forall k :: 0 <= k < |tasks| ==> IsBatch(tasks[k], n, batchSize)
  {
    tasks := [];
    var start := 0;
    while start < n
      invariant 0 <= start
      invariant forall k :: 0 <= k < |tasks| ==>
                  0 < tasks[k].count && tasks[k].start + tasks[k].count <= start
                  && tasks[k].start + tasks[k].count <= n
      invariant forall k :: 0 <= k < |tasks| ==> IsBatch(tasks[k], n, batchSize)
      invariant forall k, m :: 0 <= k < m < |tasks| ==> tasks[k].start + tasks[k].count <= tasks[m].start
      invariant forall i :: 0 <= i < start && i < n ==> CoveredBySome(tasks, i)
    {
      var count := if start + batchSize <= n then batchSize else n - start;
      ghost var before := tasks;
      tasks := tasks + [Task(start, count)];
      forall i | 0 <= i < start + batchSize && i < n ensures CoveredBySome(tasks, i) {
        if i < start {
          assert CoveredBySome(before, i);
          var k :| 0 <= k < |before| && Covers(before[k], i);
          assert Covers(tasks[k], i);
        } else {
          assert Covers(tasks[|before|], i);
        }
      }
      start := start + batchSize;
    }
  }

  // ---- What finished tasks leave in the list ----

  /** What a task writes into slot `i`, if anything. */
  ghost function SlotOf(t: Task, r: Reply, i: int): Option<Vector> {
    if r.Vectors? && t.start <= i < t.start + |r.vectors| then Some(r.vectors[i - t.start]) else None
  }

  /** Slots after a task has finished. */
  ghost function Write(slots: Slots, t: Task, r: Reply): (s: Slots)
    ensures |s| == |slots|
  {
    seq(|slots|, i requires 0 <= i < |slots| => if SlotOf(t, r, i).Some? then SlotOf(t, r, i) else slots[i])
  }

  /** A sequence of task numbers, as finished so far. */
  ghost predicate Finishes(order: seq<nat>, tasks: seq<Task>) {
    forall p :: 0 <= p < |order| ==> order[p] < |tasks|
  }

  /** Slots after the tasks in `order` have finished, one after another. */
  ghost function WriteAll(n: nat, tasks: seq<Task>, replies: seq<Reply>, order: seq<nat>): (s: Slots)
    requires |replies| == |tasks| && Finishes(order, tasks)
    ensures |s| == n
  {
    if order == [] then seq(n, _ => None)
    else
      var last := order[|order| - 1];
      Write(WriteAll(n, tasks, replies, order[..|order| - 1]), tasks[last], replies[last])
  }

  /** The reply has a vector for an index past the end of the list. */
  ghost predicate Overflows(n: nat, t: Task, r: Reply) {
    r.Vectors? && r.vectors != [] && t.start + |r.vectors| > n
  }

  ghost predicate SomeOverflows(n: nat, tasks: seq<Task>, replies: seq<Reply>, order: seq<nat>)
    requires |replies| == |tasks| && Finishes(order, tasks)
  {
    exists p :: 0 <= p < |order| && Overflows(n, tasks[order[p]], replies[order[p]])
  }

  /** `for j, vec in enumerate(vecs): results[start + j] = vec`; an index past the
      end raises IndexError, after the slots before it have been written. */
  method FinishTask(results: array<Option<Vector>>, t: Task, r: Reply) returns (raised: bool)
    requires t.start <= results.Length
    modifies results
    ensures results[..] == Write(old(results[..]), t, r)
    ensures raised <==> r.Vectors? && r.vectors != [] && t.start + |r.vectors| > results.Length
  {
    if r.Failed? {
      assert results[..] == Write(results[..], t, r);
      return false;
    }
    for j := 0 to |r.vectors|
      invariant t.start + j <= results.Length
      invariant forall i :: 0 <= i < results.Length ==>
                  results[i] == if t.start <= i < t.start + j then Some(r.vectors[i - t.start]) else old(results[i])
    {
      if t.start + j == results.Length {
        assert results[..] == Write(old(results[..]), t, r);
        return true;
      }
      results[t.start + j] := Some(r.vectors[j]);
    }
    assert results[..] == Write(old(results[..]), t, r);
    return false;
  }

  /** `_embed_many`: `order` is the order in which the tasks happen to finish. An
      exception in one of them is raised by `gather`. */
  method EmbedAll(n: nat, tasks: seq<Task>, replies: seq<Reply>, order: seq<nat>)
    returns (raised: bool, results: array<Option<Vector>>)
    requires Tiles(tasks, n) && |replies| == |tasks| && Finishes(order, tasks)
    ensures fresh(results) && results.Length == n
    ensures raised <==> SomeOverflows(n, tasks, replies, order)
    ensures raised <==> exists k :: k in order && replies[k].Vectors? && replies[k].vectors != [] &&
                                    tasks[k].start + |replies[k].vectors| > n
    ensures results[..] == WriteAll(n, tasks, replies, order)
  {
    results := new Option<Vector>[n](_ => None);
    raised := false;
    assert results[..] == WriteAll(n, tasks, replies, []);
    for p := 0 to |order|
      invariant results.Length == n
      invariant raised <==> SomeOverflows(n, tasks, replies, order[..p])
      invariant results[..] == WriteAll(n, tasks, replies, order[..p])
    {
      PrefixNext(order, p);
      assert order[..p + 1][..p] == order[..p];
      OverflowNext(n, tasks, replies, order, p);
      var late := FinishTask(results, tasks[order[p]], replies[order[p]]);
      raised := raised || late;
    }
    PrefixEnds(order);
  }

  lemma OverflowNext(n: nat, tasks: seq<Task>, replies: seq<Reply>, order: seq<nat>, p: nat)
    requires |replies| == |tasks| && Finishes(order, tasks) && p < |order|
    ensures SomeOverflows(n, tasks, replies, order[..p + 1]) <==>
              SomeOverflows(n, tasks, replies, order[..p]) || Overflows(n, tasks[order[p]], replies[order[p]])
  {
    assert order[..p + 1][p] == order[p] && forall q :: 0 <= q < p ==> order[..p + 1][q] == order[..p][q];
  }

  // ---- Every slot is the vector of its own text, or empty ----

  /** The provider's contract: one vector per text, each that text's embedding. */
  ghost predicate Honest(texts: seq<string>, embed: string -> Vector, t: Task, r: Reply)
    requires t.start + t.count <= |texts|
  {
    r.Vectors? ==>
      |r.vectors| == t.count && forall j :: 0 <= j < t.count ==> r.vectors[j] == embed(texts[t.start + j])
  }

  /** Each task has finished, once. */
  ghost predicate Complete(order: seq<nat>, tasks: seq<Task>) {
    Finishes(order, tasks) && Distinct(order) && forall k :: 0 <= k < |tasks| ==> k in order
  }

  /** A slot was written last by one of the tasks that write it, or by none. */
  lemma {:induction false} SlotComesFromATask(n: nat, tasks: seq<Task>, replies: seq<Reply>, order: seq<nat>, i: nat)
    returns (k: int)
    requires |replies| == |tasks| && Finishes(order, tasks) && i < n
    ensures -1 <= k < |tasks|
    ensures k >= 0 ==> k in order && SlotOf(tasks[k], replies[k], i).Some?
    ensures k >= 0 ==> WriteAll(n, tasks, replies, order)[i] == SlotOf(tasks[k], replies[k], i)
    ensures k == -1 ==> WriteAll(n, tasks, replies, order)[i] == None
    ensures k == -1 ==> forall m :: m in order ==> SlotOf(tasks[m], replies[m], i) == None
  {
    if order == [] {
      k := -1;
    } else {
      var init, last := order[..|order| - 1], order[|order| - 1];
      assert order == init + [last];
      if SlotOf(tasks[last], replies[last], i).Some? {
        k := last;
      } else {
        k := SlotComesFromATask(n, tasks, replies, init, i);
      }
    }
  }

  /** With an honest provider, for any batches, any failures and any order of
      completion: nothing is raised, and a slot is empty exactly when its own
      task failed, otherwise the embedding of its own text. */
  lemma EverySlotIsItsOwnText(texts: seq<string>, embed: string -> Vector, tasks: seq<Task>, replies: seq<Reply>,
                              order: seq<nat>, k: nat, i: nat)
    requires Tiles(tasks, |texts|) && |replies| == |tasks| && Complete(order, tasks)
    requires forall m :: 0 <= m < |tasks| ==> Honest(texts, embed, tasks[m], replies[m])
    requires k < |tasks| && i < |texts| && Covers(tasks[k], i)
    ensures !SomeOverflows(|texts|, tasks, replies, order)
    ensures WriteAll(|texts|, tasks, replies, order)[i] == if replies[k].Failed? then None else Some(embed(texts[i]))
  {
    var m := SlotComesFromATask(|texts|, tasks, replies, order, i);
    if m >= 0 {
      assert Honest(texts, embed, tasks[m], replies[m]) && Covers(tasks[m], i);
      assert m == k;
    } else {
      assert k in order;
    }
    forall p | 0 <= p < |order| ensures !Overflows(|texts|, tasks[order[p]], replies[order[p]]) {
      assert Honest(texts, embed, tasks[order[p]], replies[order[p]]);
    }
  }

  // ---- When the order of completion matters ----

  datatype Outcome = Raised | Done(slots: Slots)

  ghost function OutcomeOf(n: nat, tasks: seq<Task>, replies: seq<Reply>, order: seq<nat>): Outcome
    requires |replies| == |tasks| && Finishes(order, tasks)
  {
    if SomeOverflows(n, tasks, replies, order) then Raised else Done(WriteAll(n, tasks, replies, order))
  }

  ghost predicate OrderIrrelevant(n: nat, tasks: seq<Task>, replies: seq<Reply>)
    requires |replies| == |tasks|
  {
    forall a, b :: Complete(a, tasks) && Complete(b, tasks) ==>
      OutcomeOf(n, tasks, replies, a) == OutcomeOf(n, tasks, replies, b)
  }

  /** Two tasks that both write slot `i` write the same vector. */
  ghost predicate AgreeAt(tasks: seq<Task>, replies: seq<Reply>, k: nat, m: nat, i: nat)
    requires |replies| == |tasks| && k < |tasks| && m < |tasks|
  {
    SlotOf(tasks[k], replies[k], i).Some? && SlotOf(tasks[m], replies[m], i).Some? ==>
      SlotOf(tasks[k], replies[k], i) == SlotOf(tasks[m], replies[m], i)
  }

  ghost predicate AllAgree(n: nat, tasks: seq<Task>, replies: seq<Reply>)
    requires |replies| == |tasks|
  {
    forall k, m, i :: 0 <= k < |tasks| && 0 <= m < |tasks| && 0 <= i < n ==> AgreeAt(tasks, replies, k, m, i)
  }

  /** Some reply has a vector past the end of the list. */
  ghost predicate AnyOverflows(n: nat, tasks: seq<Task>, replies: seq<Reply>)
    requires |replies| == |tasks|
  {
    exists k :: 0 <= k < |tasks| && Overflows(n, tasks[k], replies[k])
  }

  lemma CompleteOrdersOverflowAlike(n: nat, tasks: seq<Task>, replies: seq<Reply>, order: seq<nat>)
    requires |replies| == |tasks| && Complete(order, tasks)
    ensures SomeOverflows(n, tasks, replies, order) <==> AnyOverflows(n, tasks, replies)
  {
    if k :| 0 <= k < |tasks| && Overflows(n, tasks[k], replies[k]) {
      assert k in order;
      var p :| 0 <= p < |order| && order[p] == k;
    }
  }

  lemma AgreementFixesSlots(n: nat, tasks: seq<Task>, replies: seq<Reply>, a: seq<nat>, b: seq<nat>)
    requires |replies| == |tasks| && AllAgree(n, tasks, replies) && Complete(a, tasks) && Complete(b, tasks)
    ensures WriteAll(n, tasks, replies, a) == WriteAll(n, tasks, replies, b)
  {
    forall i | 0 <= i < n ensures WriteAll(n, tasks, replies, a)[i] == WriteAll(n, tasks, replies, b)[i] {
      var k := SlotComesFromATask(n, tasks, replies, a, i);
      var m := SlotComesFromATask(n, tasks, replies, b, i);
      if k >= 0 && m >= 0 {
        assert AgreeAt(tasks, replies, k, m, i);
      }
    }
  }

  lemma LastDecides(n: nat, tasks: seq<Task>, replies: seq<Reply>, order: seq<nat>, i: nat)
    requires |replies| == |tasks| && Finishes(order, tasks) && order != [] && i < n
    ensures var last := order[|order| - 1];
            SlotOf(tasks[last], replies[last], i).Some? ==>
              WriteAll(n, tasks, replies, order)[i] == SlotOf(tasks[last], replies[last], i)
  {
  }

  /** A complete order in which task `k` finishes last. */
  lemma FinishingLast(tasks: seq<Task>, k: nat) returns (order: seq<nat>)
    requires k < |tasks|
    ensures Complete(order, tasks) && order != [] && order[|order| - 1] == k
  {
    order := seq(|tasks|, p requires 0 <= p < |tasks| => if p < k then p else if p < |tasks| - 1 then p + 1 else k);
    forall m | 0 <= m < |tasks| ensures m in order {
      assert order[if m < k then m else if m == k then |tasks| - 1 else m - 1] == m;
    }
  }

  /** The order in which the batches finish is irrelevant exactly when some reply
      runs past the end of the list, which always raises, or the replies agree on
      every slot that more than one of them writes. */
  lemma OrderIrrelevantIff(n: nat, tasks: seq<Task>, replies: seq<Reply>)
    requires |replies| == |tasks|
    ensures OrderIrrelevant(n, tasks, replies) <==> AnyOverflows(n, tasks, replies) || AllAgree(n, tasks, replies)
  {
    forall order | Complete(order, tasks)
      ensures SomeOverflows(n, tasks, replies, order) <==> AnyOverflows(n, tasks, replies)
    {
      CompleteOrdersOverflowAlike(n, tasks, replies, order);
    }
    if AllAgree(n, tasks, replies) {
      forall a, b | Complete(a, tasks) && Complete(b, tasks)
        ensures WriteAll(n, tasks, replies, a) == WriteAll(n, tasks, replies, b)
      {
        AgreementFixesSlots(n, tasks, replies, a, b);
      }
    }
    if OrderIrrelevant(n, tasks, replies) && !AnyOverflows(n, tasks, replies) {
      forall k, m, i | 0 <= k < |tasks| && 0 <= m < |tasks| && 0 <= i < n ensures AgreeAt(tasks, replies, k, m, i) {
        var endsWithK := FinishingLast(tasks, k);
        var endsWithM := FinishingLast(tasks, m);
        LastDecides(n, tasks, replies, endsWithK, i);
        LastDecides(n, tasks, replies, endsWithM, i);
        assert OutcomeOf(n, tasks, replies, endsWithK) == OutcomeOf(n, tasks, replies, endsWithM);
      }
    }
  }

  /** In particular when no reply is longer than its batch, as with one text per
      call, where the reply is a single vector. */
  lemma FittingRepliesAgree(n: nat, tasks: seq<Task>, replies: seq<Reply>)
    requires Tiles(tasks, n) && |replies| == |tasks|
    requires forall k :: 0 <= k < |tasks| && replies[k].Vectors? ==> |replies[k].vectors| <= tasks[k].count
    ensures !AnyOverflows(n, tasks, replies) && AllAgree(n, tasks, replies)
  {
    forall k, m, i | 0 <= k < |tasks| && 0 <= m < |tasks| && 0 <= i < n ensures AgreeAt(tasks, replies, k, m, i) {
      assert k < m ==> tasks[k].start + tasks[k].count <= tasks[m].start;
      assert m < k ==> tasks[m].start + tasks[m].count <= tasks[k].start;
    }
  }

  const PLAN := [Task(0, 2), Task(2, 1)]

  lemma PlanIsAPlan()
    ensures Tiles(PLAN, 3)
  {
    assert Covers(PLAN[0], 0) && Covers(PLAN[0], 1) && Covers(PLAN[1], 2);
  }

  lemma LastBatchDecides(replies: seq<Reply>, first: nat, second: nat)
    requires |replies| == 2 && {first, second} == {0, 1}
    ensures WriteAll(3, PLAN, replies, [first, second]) ==
            Write(Write([None, None, None], PLAN[first], replies[first]), PLAN[second], replies[second])
  {
    assert [first, second][..1] == [first] && [first][..0] == [];
    assert WriteAll(3, PLAN, replies, []) == [None, None, None];
    assert WriteAll(3, PLAN, replies, [first]) == Write([None, None, None], PLAN[first], replies[first]);
  }

  /** Such a reply: three texts in batches of two, the first batch answered with
      one vector too many. Whichever batch finishes last decides slot 2. */
  lemma SpillDependsOnOrder(v: Vector, w: Vector, replies: seq<Reply>)
    requires v != w && replies == [Vectors([v, v, v]), Vectors([w])]
    ensures Tiles(PLAN, 3) && !AnyOverflows(3, PLAN, replies) && !OrderIrrelevant(3, PLAN, replies)
    ensures WriteAll(3, PLAN, replies, [0, 1]) == [Some(v), Some(v), Some(w)]
    ensures WriteAll(3, PLAN, replies, [1, 0]) == [Some(v), Some(v), Some(v)]
  {
    PlanIsAPlan();
    LastBatchDecides(replies, 0, 1);
    LastBatchDecides(replies, 1, 0);
    assert !AgreeAt(PLAN, replies, 0, 1, 2);
    OrderIrrelevantIff(3, PLAN, replies);
  }
}
