/** Text chunkers (`_chunk_text` and `_chunk_text_sentences` in
    backend/vector_store.py). Splitting a text into stripped sentences is a
    parameter of the model. */
module Chunking {
  import opened Collections

  // ---- Character chunks ----

  /** `s[n:]`, clipped as Python does */
  function Drop(s: string, n: nat): string {
    if n < |s| then s[n..] else ""
  }

  /** `s[:n]`, clipped as Python does */
  function Take(s: string, n: nat): string {
    if n < |s| then s[..n] else s
  }

  /** Windows of `chunkSize` characters, a new one every `step` characters. */
  ghost function Windows(text: string, chunkSize: nat, step: nat): seq<string>
    requires step > 0
    decreases |text|
  {
    if text == "" then [] else [Take(text, chunkSize)] + Windows(Drop(text, step), chunkSize, step)
  }

  /** `_chunk_text`. With `overlap >= chunkSize` the loop would not advance. */
  method ChunkText(text: string, chunkSize: nat, overlap: nat) returns (chunks: seq<string>)
    requires overlap < chunkSize
    ensures chunks == if 0 < |text| <= chunkSize then [text] else Windows(text, chunkSize, chunkSize - overlap)
  {
    if |text| == 0 {
      return [];
    }
    if |text| <= chunkSize {
      return [text];
    }
    chunks := [];
    var start := 0;
    ghost var step := chunkSize - overlap;
    ghost var all := Windows(text, chunkSize, step);
    assert Drop(text, 0) == text;
    ConcatNil(all);
    while start < |text|
      invariant 0 <= start
      invariant chunks + Windows(Drop(text, start), chunkSize, step) == all
      decreases |text| - start
    {
      WindowsStep(text, chunkSize, step, start, chunks, all);
      chunks := chunks + [Take(Drop(text, start), chunkSize)];
      start := start + (chunkSize - overlap);
    }
    ConcatNil(chunks);
  }

  lemma WindowsStep(text: string, chunkSize: nat, step: nat, start: nat, chunks: seq<string>, all: seq<string>)
    requires step > 0 && start < |text| && chunks + Windows(Drop(text, start), chunkSize, step) == all
    ensures chunks + [Take(Drop(text, start), chunkSize)] + Windows(Drop(text, start + step), chunkSize, step) == all
  {
    DropDrop(text, start, step);
    ConcatAssociates(chunks, [Take(Drop(text, start), chunkSize)], Windows(Drop(text, start + step), chunkSize, step));
  }

  lemma DropDrop(text: string, a: nat, b: nat)
    ensures Drop(Drop(text, a), b) == Drop(text, a + b)
  {
  }

  /** All chunks without their first `overlap` characters. */
  function FreshParts(chunks: seq<string>, overlap: nat): string {
    if chunks == [] then "" else Drop(chunks[0], overlap) + FreshParts(chunks[1..], overlap)
  }

  lemma DropSplits(text: string, chunkSize: nat, overlap: nat)
    requires overlap < chunkSize
    ensures Drop(Drop(text, chunkSize - overlap), overlap) == Drop(text, chunkSize)
    ensures Drop(Take(text, chunkSize), overlap) + Drop(text, chunkSize) == Drop(text, overlap)
    ensures Take(text, chunkSize) + Drop(text, chunkSize) == text
  {
  }

  lemma {:induction false} FreshPartsOfWindows(text: string, chunkSize: nat, overlap: nat, step: nat)
    requires overlap < chunkSize && step == chunkSize - overlap
    ensures FreshParts(Windows(text, chunkSize, step), overlap) == Drop(text, overlap)
    decreases |text|
  {
    if text != "" {
      var rest := Drop(text, step);
      FreshPartsOfWindows(rest, chunkSize, overlap, step);
      assert Windows(text, chunkSize, step)[1..] == Windows(rest, chunkSize, step);
      DropSplits(text, chunkSize, overlap);
    }
  }

  /** Character chunking loses nothing: the first chunk, followed by every later
      chunk without its first `overlap` characters, is the text. */
  lemma CharChunksAreInvertible(text: string, chunkSize: nat, overlap: nat, chunks: seq<string>)
    requires overlap < chunkSize && text != ""
    requires chunks == Windows(text, chunkSize, chunkSize - overlap)
    ensures chunks != [] && chunks[0] + FreshParts(chunks[1..], overlap) == text
  {
    var step := chunkSize - overlap;
    var rest := Drop(text, step);
    FreshPartsOfWindows(rest, chunkSize, overlap, step);
    assert chunks[1..] == Windows(rest, chunkSize, step);
    DropSplits(text, chunkSize, overlap);
  }

  /** Chunks are never empty and never longer than `chunkSize`; there is one for
      every started step of the text. */
  lemma {:induction false} CharChunkSizes(text: string, chunkSize: nat, step: nat)
    requires step > 0 && chunkSize > 0
    ensures var chunks := Windows(text, chunkSize, step);
            && (forall k :: 0 <= k < |chunks| ==> 0 < |chunks[k]| <= chunkSize)
            && |chunks| == (|text| + step - 1) / step
    decreases |text|
  {
    if text != "" {
      var rest := Drop(text, step);
      CharChunkSizes(rest, chunkSize, step);
      CeilStep(|text|, step);
    } else {
      assert (step - 1) / step == 0;
    }
  }

  lemma {:induction false} WindowsFit(text: string, chunkSize: nat, step: nat, chunk: string)
    requires step > 0 && chunk in Windows(text, chunkSize, step)
    ensures |chunk| <= chunkSize
    decreases |text|
  {
    if chunk != Take(text, chunkSize) {
      WindowsFit(Drop(text, step), chunkSize, step, chunk);
    }
  }

  lemma CeilStep(len: nat, step: nat)
    requires step > 0 && len > 0
    ensures (len + step - 1) / step == 1 + ((if len < step then 0 else len - step) + step - 1) / step
  {
    if len >= step {
      var q, r := (len - 1) / step, (len - 1) % step;
      assert (q + 1) * step == q * step + step;
      DivUnique(len + step - 1, step, q + 1, r);
    } else {
      DivUnique(step - 1, step, 0, step - 1);
      DivUnique(len + step - 1, step, 1, len - 1);
    }
  }

  lemma DivUnique(x: int, d: int, q: int, r: int)
    requires d > 0 && 0 <= r < d && x == q * d + r
    ensures x / d == q
  {
    assert (q - x / d) * d == x % d - r;
    MultipleIsFar(q - x / d, d);
  }

  lemma MultipleIsFar(n: int, d: int)
    requires d > 0
    ensures n >= 1 ==> n * d >= d
    ensures n <= -1 ==> n * d <= -d
  {
  }

  // ---- Sentence chunks ----

  /** Length of the sentences with one separator after each. */
  function Width(sentences: seq<string>): nat {
    if sentences == [] then 0 else Width(sentences[..|sentences| - 1]) + |sentences[|sentences| - 1]| + 1
  }

  /** `" ".join(sentences)` */
  function Join(sentences: seq<string>): string {
    if sentences == [] then ""
    else if |sentences| == 1 then sentences[0]
    else Join(sentences[..|sentences| - 1]) + " " + sentences[|sentences| - 1]
  }

  lemma {:induction false} JoinLength(sentences: seq<string>)
    requires sentences != []
    ensures |Join(sentences)| == Width(sentences) - 1
  {
    if |sentences| > 1 {
      JoinLength(sentences[..|sentences| - 1]);
    }
  }

  /** Joining puts one space between neighbours and keeps their order. */
  lemma {:induction false} JoinOfSum(a: seq<string>, b: seq<string>)
    requires a != [] && b != []
    ensures Join(a + b) == Join(a) + " " + Join(b)
    ensures |a| == 1 ==> Join(a) == a[0]
  {
    var n := |b| - 1;
    assert (a + b)[..|a + b| - 1] == a + b[..n] && (a + b)[|a + b| - 1] == b[n];
    if n == 0 {
      ConcatNil(a);
    } else {
      JoinOfSum(a, b[..n]);
      ConcatAssociates(Join(a) + " ", Join(b[..n]) + " ", b[n]);
      ConcatAssociates(Join(a) + " ", Join(b[..n]), " ");
    }
  }

  lemma {:induction false} WidthOfSum(a: seq<string>, b: seq<string>)
    ensures Width(a + b) == Width(a) + Width(b)
  {
    if b == [] {
      assert a + b == a;
    } else {
      assert (a + b)[..|a + b| - 1] == a + b[..|b| - 1];
      WidthOfSum(a, b[..|b| - 1]);
    }
  }

  /** Where a stretch of the output comes from: sentences carried over from the
      previous chunk and packed with fresh ones, or one oversized sentence split
      by characters. */
  datatype Part =
    | Packed(carry: seq<string>, added: seq<string>)
    | Split(sentence: string)
  {
    function All(): seq<string>
      requires Packed?
    {
      carry + added
    }
  }

  ghost function Render(p: Part, chunkSize: nat, overlap: nat): seq<string>
    requires overlap < chunkSize
  {
    match p
    case Packed(_, _) => [Join(p.All())]
    case Split(sentence) => Windows(sentence, chunkSize, chunkSize - overlap)
  }

  ghost function RenderAll(parts: seq<Part>, chunkSize: nat, overlap: nat): seq<string>
    requires overlap < chunkSize
  {
    if parts == [] then []
    else RenderAll(parts[..|parts| - 1], chunkSize, overlap) + Render(parts[|parts| - 1], chunkSize, overlap)
  }

  /** The sentences a run of parts accounts for, in order. */
  ghost function Source(parts: seq<Part>): seq<string> {
    if parts == [] then []
    else
      var last := parts[|parts| - 1];
      Source(parts[..|parts| - 1]) + if last.Packed? then last.added else [last.sentence]
  }

  /** `carry` is the longest run of trailing sentences that fits `overlap`. */
  ghost predicate IsLongestTail(sentences: seq<string>, carry: seq<string>, overlap: nat) {
    exists i :: 0 <= i <= |sentences| && carry == sentences[i..] && Width(carry) <= overlap
                && (i > 0 ==> Width(sentences[i - 1..]) > overlap)
  }

  /** A packed chunk holds at least one fresh sentence, none oversized, and
      outgrows `chunkSize` only by its first fresh sentence. */
  ghost predicate PartOk(p: Part, chunkSize: nat, overlap: nat) {
    match p
    case Packed(carry, added) =>
      && added != [] && (forall i :: 0 <= i < |added| ==> |added[i]| <= chunkSize)
      && Width(carry) <= overlap
      && (|added| > 1 ==> Width(carry + added) <= chunkSize)
    case Split(sentence) => |sentence| > chunkSize
  }

  /** A packed chunk starts with the longest fitting tail of the packed chunk
      before it, which was closed because the next sentence did not fit. */
  ghost predicate Follows(before: seq<Part>, p: Part, chunkSize: nat, overlap: nat)
    requires p.Packed? && p.added != []
  {
    if before == [] || before[|before| - 1].Split? then p.carry == []
    else
      var last := before[|before| - 1];
      && IsLongestTail(last.All(), p.carry, overlap)
      && Width(last.All()) + |p.added[0]| + 1 > chunkSize
  }

  ghost predicate ValidParts(parts: seq<Part>, chunkSize: nat, overlap: nat) {
    parts == [] ||
    (var init, last := parts[..|parts| - 1], parts[|parts| - 1];
     && ValidParts(init, chunkSize, overlap) && PartOk(last, chunkSize, overlap)
     && (last.Packed? ==> Follows(init, last, chunkSize, overlap)))
  }

  ghost predicate Packs(sentences: seq<string>, chunkSize: nat, overlap: nat, chunks: seq<string>, parts: seq<Part>)
    requires overlap < chunkSize
  {
    && chunks == RenderAll(parts, chunkSize, overlap)
    && ValidParts(parts, chunkSize, overlap)
    && Source(parts) == sentences
  }

  /** What the sentence chunker promises of its output. */
  ghost predicate IsPacking(sentences: seq<string>, chunkSize: nat, overlap: nat, chunks: seq<string>)
    requires overlap < chunkSize
  {
    exists parts :: Packs(sentences, chunkSize, overlap, chunks, parts)
  }

  // ---- The packing loop ----

  /** The output so far, and the packed part under construction. */
  datatype PackState = PackState(parts: seq<Part>, carry: seq<string>, added: seq<string>) {
    function Current(): seq<string> {
      carry + added
    }

    function Flushed(): seq<Part> {
      if Current() == [] then parts else parts + [Packed(carry, added)]
    }
  }

  /** Trailing sentences from the i-th on, extended while they fit. */
  function TailFrom(sentences: seq<string>, i: nat, overlap: nat): seq<string>
    requires i <= |sentences|
  {
    if i == 0 || Width(sentences[i - 1..]) > overlap then sentences[i..] else TailFrom(sentences, i - 1, overlap)
  }

  function LongestTail(sentences: seq<string>, overlap: nat): seq<string> {
    TailFrom(sentences, |sentences|, overlap)
  }

  lemma {:induction false} TailIsLongest(sentences: seq<string>, i: nat, overlap: nat)
    requires i <= |sentences| && Width(sentences[i..]) <= overlap
    ensures IsLongestTail(sentences, TailFrom(sentences, i, overlap), overlap)
  {
    if i > 0 && Width(sentences[i - 1..]) <= overlap {
      TailIsLongest(sentences, i - 1, overlap);
    }
  }

  function Advance(s: PackState, sent: string, chunkSize: nat, overlap: nat): PackState {
    if |sent| > chunkSize then PackState(s.Flushed() + [Split(sent)], [], [])
    else if s.Current() != [] && Width(s.Current()) + |sent| + 1 > chunkSize then
      PackState(s.Flushed(), LongestTail(s.Current(), overlap), [sent])
    else s.(added := s.added + [sent])
  }

  /** Trailing sentences totalling up to `overlap` characters. */
  method CarryOver(current: seq<string>, overlap: nat) returns (carry: seq<string>, carryLen: nat)
    ensures carry == LongestTail(current, overlap) && carryLen == Width(carry)
  {
    carry, carryLen := [], 0;
    var i := |current|;
    while i > 0
      invariant 0 <= i <= |current|
      invariant carry == current[i..] && carryLen == Width(carry)
      invariant TailFrom(current, i, overlap) == LongestTail(current, overlap)
    {
      var prev := current[i - 1];
      assert current[i - 1..] == [prev] + current[i..];
      WidthOfSum([prev], carry);
      if carryLen + |prev| + 1 > overlap {
        return;
      }
      carry := [prev] + carry;
      carryLen := carryLen + |prev| + 1;
      i := i - 1;
    }
  }

  /** Chunks written while `sent` is looked at. */
  ghost function Output(s: PackState, sent: string, chunkSize: nat, overlap: nat): seq<string>
    requires overlap < chunkSize
  {
    if |sent| > chunkSize then
      (if s.Current() == [] then [] else [Join(s.Current())]) + Windows(sent, chunkSize, chunkSize - overlap)
    else if s.Current() != [] && Width(s.Current()) + |sent| + 1 > chunkSize then [Join(s.Current())]
    else []
  }

  lemma RenderAdvance(s: PackState, sent: string, chunkSize: nat, overlap: nat, t: PackState)
    requires overlap < chunkSize && t == Advance(s, sent, chunkSize, overlap)
    ensures RenderAll(t.parts, chunkSize, overlap) ==
            RenderAll(s.parts, chunkSize, overlap) + Output(s, sent, chunkSize, overlap)
  {
    var out := RenderAll(s.parts, chunkSize, overlap);
    var closing := if s.Current() == [] then [] else [Join(s.Current())];
    var pieces := Windows(sent, chunkSize, chunkSize - overlap);
    if |sent| > chunkSize {
      assert t.parts == s.Flushed() + [Split(sent)];
      RenderNext(s.Flushed(), Split(sent), chunkSize, overlap);
      RenderFlushed(s, chunkSize, overlap);
      ConcatAssociates(out, closing, pieces);
    } else if s.Current() != [] && Width(s.Current()) + |sent| + 1 > chunkSize {
      assert t.parts == s.Flushed();
      RenderFlushed(s, chunkSize, overlap);
    } else {
      assert t.parts == s.parts && out + [] == out;
    }
  }

  /** Body of the packing loop: what it appends to `chunks`, and the sentences
      it leaves under construction. */
  method PackOne(ghost s: PackState, current: seq<string>, currentLen: nat, sent: string, chunkSize: nat, overlap: nat)
    returns (out: seq<string>, next: seq<string>, nextLen: nat)
    requires overlap < chunkSize
    requires current == s.Current() && currentLen == Width(current)
    ensures out == Output(s, sent, chunkSize, overlap)
    ensures next == Advance(s, sent, chunkSize, overlap).Current() && nextLen == Width(next)
  {
    out, next, nextLen := [], current, currentLen;
    if |sent| > chunkSize {
      if current != [] {
        out := [Join(current)];
      }
      var pieces := ChunkText(sent, chunkSize, overlap);
      out := out + pieces;
      next, nextLen := [], 0;
    } else {
      if current != [] && currentLen + |sent| + 1 > chunkSize {
        out := [Join(current)];
        next, nextLen := CarryOver(current, overlap);
      }
      WidthOfSum(next, [sent]);
      next := next + [sent];
      nextLen := nextLen + |sent| + 1;
    }
  }

  /** One turn of the loop keeps the state in order and accounts for `sent`. */
  method PackTurn(ghost s: PackState, current: seq<string>, currentLen: nat, sent: string, chunkSize: nat, overlap: nat)
    returns (out: seq<string>, next: seq<string>, nextLen: nat, ghost t: PackState)
    requires overlap < chunkSize && StateOk(s, chunkSize, overlap)
    requires current == s.Current() && currentLen == Width(current)
    ensures StateOk(t, chunkSize, overlap)
    ensures Source(t.Flushed()) == Source(s.Flushed()) + [sent]
    ensures RenderAll(t.parts, chunkSize, overlap) == RenderAll(s.parts, chunkSize, overlap) + out
    ensures next == t.Current() && nextLen == Width(next)
  {
    out, next, nextLen := PackOne(s, current, currentLen, sent, chunkSize, overlap);
    t := Advance(s, sent, chunkSize, overlap);
    RenderAdvance(s, sent, chunkSize, overlap, t);
    AdvanceKeepsOk(s, sent, chunkSize, overlap, t);
  }

  /** The packing loop. Chunking is lossless and ordered: the fresh sentences
      and the split ones are the input in order, each packed chunk opens with the
      longest fitting tail of the one before it, and was only started because its
      first fresh sentence did not fit there. */
  method PackSentences(sentences: seq<string>, chunkSize: nat, overlap: nat)
    returns (chunks: seq<string>)
    requires overlap < chunkSize
    ensures IsPacking(sentences, chunkSize, overlap, chunks)
  {
    chunks := [];
    var current: seq<string>, currentLen := [], 0;
    ghost var s := PackState([], [], []);
    PrefixEnds(sentences);
    for k := 0 to |sentences|
      invariant StateOk(s, chunkSize, overlap)
      invariant Source(s.Flushed()) == sentences[..k]
      invariant chunks == RenderAll(s.parts, chunkSize, overlap)
      invariant current == s.Current() && currentLen == Width(current)
    {
      var out;
      out, current, currentLen, s := PackTurn(s, current, currentLen, sentences[k], chunkSize, overlap);
      chunks := chunks + out;
      PrefixNext(sentences, k);
    }
    RenderFlushed(s, chunkSize, overlap);
    if current != [] {
      chunks := chunks + [Join(current)];
    }
    assert Packs(sentences, chunkSize, overlap, chunks, s.Flushed());
  }

  lemma RenderNext(parts: seq<Part>, p: Part, chunkSize: nat, overlap: nat)
    requires overlap < chunkSize
    ensures RenderAll(parts + [p], chunkSize, overlap) ==
            RenderAll(parts, chunkSize, overlap) + Render(p, chunkSize, overlap)
  {
  }

  lemma RenderFlushed(s: PackState, chunkSize: nat, overlap: nat)
    requires overlap < chunkSize
    ensures RenderAll(s.Flushed(), chunkSize, overlap) ==
            RenderAll(s.parts, chunkSize, overlap) + if s.Current() == [] then [] else [Join(s.Current())]
  {
  }

  // ---- What the packing guarantees ----

  /** Closing now would leave parts in order; nothing under construction means
      nothing to carry over. */
  ghost predicate StateOk(s: PackState, chunkSize: nat, overlap: nat) {
    && ValidParts(s.Flushed(), chunkSize, overlap)
    && (s.added == [] ==> s.carry == [] && (s.parts == [] || s.parts[|s.parts| - 1].Split?))
  }

  lemma ValidNext(parts: seq<Part>, p: Part, chunkSize: nat, overlap: nat)
    ensures ValidParts(parts + [p], chunkSize, overlap) <==>
              && ValidParts(parts, chunkSize, overlap) && PartOk(p, chunkSize, overlap)
              && (p.Packed? ==> Follows(parts, p, chunkSize, overlap))
    ensures Source(parts + [p]) == Source(parts) + if p.Packed? then p.added else [p.sentence]
  {
  }

  lemma CloseKeepsOk(parts: seq<Part>, last: Part, sent: string, chunkSize: nat, overlap: nat, next: Part)
    requires last.Packed? && |sent| <= chunkSize && ValidParts(parts + [last], chunkSize, overlap)
    requires Width(last.All()) + |sent| + 1 > chunkSize
    requires next == Packed(LongestTail(last.All(), overlap), [sent])
    ensures ValidParts(parts + [last] + [next], chunkSize, overlap)
  {
    TailIsLongest(last.All(), |last.All()|, overlap);
    ValidNext(parts + [last], next, chunkSize, overlap);
  }

  lemma AddKeepsPart(p: Part, sent: string, chunkSize: nat, overlap: nat, q: Part)
    requires p.Packed? && q == Packed(p.carry, p.added + [sent]) && |sent| <= chunkSize
    requires PartOk(p, chunkSize, overlap) && Width(p.All()) + |sent| + 1 <= chunkSize
    ensures PartOk(q, chunkSize, overlap) && q.added[0] == p.added[0]
  {
    assert q.All() == p.All() + [sent];
    WidthOfSum(p.All(), [sent]);
    WidthOfOne(sent);
  }

  lemma AddKeepsOk(parts: seq<Part>, p: Part, sent: string, chunkSize: nat, overlap: nat, q: Part)
    requires p.Packed? && q == Packed(p.carry, p.added + [sent]) && |sent| <= chunkSize
    requires ValidParts(parts + [p], chunkSize, overlap)
    requires Width(p.All()) + |sent| + 1 <= chunkSize
    ensures ValidParts(parts + [q], chunkSize, overlap)
  {
    ValidNext(parts, p, chunkSize, overlap);
    AddKeepsPart(p, sent, chunkSize, overlap, q);
    ValidNext(parts, q, chunkSize, overlap);
  }

  lemma AdvanceKeepsOk(s: PackState, sent: string, chunkSize: nat, overlap: nat, t: PackState)
    requires StateOk(s, chunkSize, overlap) && t == Advance(s, sent, chunkSize, overlap)
    ensures StateOk(t, chunkSize, overlap)
    ensures Source(t.Flushed()) == Source(s.Flushed()) + [sent]
  {
    var p := Packed(s.carry, s.added);
    if |sent| > chunkSize {
      ValidNext(s.Flushed(), Split(sent), chunkSize, overlap);
    } else if s.Current() == [] {
      assert s.added + [sent] == [sent];
      ValidNext(s.parts, Packed([], [sent]), chunkSize, overlap);
    } else if Width(s.Current()) + |sent| + 1 > chunkSize {
      var next := Packed(LongestTail(s.Current(), overlap), [sent]);
      CloseKeepsOk(s.parts, p, sent, chunkSize, overlap, next);
      ValidNext(s.Flushed(), next, chunkSize, overlap);
    } else {
      var q := Packed(s.carry, s.added + [sent]);
      AddKeepsOk(s.parts, p, sent, chunkSize, overlap, q);
      ValidNext(s.parts, p, chunkSize, overlap);
      ValidNext(s.parts, q, chunkSize, overlap);
    }
  }

  /** The size a packed chunk may reach, and exactly when it outgrows
      `chunkSize`: when the carried sentences leave no room for the first fresh
      one. */
  lemma PackedChunkSize(p: Part, chunkSize: nat, overlap: nat)
    requires p.Packed? && PartOk(p, chunkSize, overlap)
    ensures |Join(p.All())| <= chunkSize + overlap
    ensures |Join(p.All())| > chunkSize <==> Width(p.carry) + |p.added[0]| > chunkSize
  {
    JoinLength(p.All());
    WidthOfSum(p.carry, p.added);
    assert p.added == [p.added[0]] + p.added[1..];
    WidthOfSum([p.added[0]], p.added[1..]);
    assert Width([p.added[0]]) == |p.added[0]| + 1;
  }

  lemma {:induction false} EveryPartIsOk(parts: seq<Part>, chunkSize: nat, overlap: nat, p: Part)
    requires ValidParts(parts, chunkSize, overlap) && p in parts
    ensures PartOk(p, chunkSize, overlap)
  {
    var n := |parts| - 1;
    if p != parts[n] {
      EveryPartIsOk(parts[..n], chunkSize, overlap, p);
    }
  }

  lemma {:induction false} ChunkComesFromPart(parts: seq<Part>, chunkSize: nat, overlap: nat, chunk: string)
    returns (p: Part)
    requires overlap < chunkSize && chunk in RenderAll(parts, chunkSize, overlap)
    ensures p in parts && chunk in Render(p, chunkSize, overlap)
  {
    var n := |parts| - 1;
    if chunk in Render(parts[n], chunkSize, overlap) {
      p := parts[n];
    } else {
      p := ChunkComesFromPart(parts[..n], chunkSize, overlap, chunk);
    }
  }

  /** No chunk is longer than `chunkSize + overlap`. */
  lemma SentenceChunkBound(sentences: seq<string>, chunkSize: nat, overlap: nat, chunks: seq<string>, chunk: string)
    requires overlap < chunkSize && IsPacking(sentences, chunkSize, overlap, chunks) && chunk in chunks
    ensures |chunk| <= chunkSize + overlap
  {
    var parts :| Packs(sentences, chunkSize, overlap, chunks, parts);
    var p := ChunkComesFromPart(parts, chunkSize, overlap, chunk);
    EveryPartIsOk(parts, chunkSize, overlap, p);
    if p.Packed? {
      RenderedPacked(p, chunkSize, overlap, chunk);
      PackedChunkSize(p, chunkSize, overlap);
    } else {
      RenderedSplit(p, chunkSize, overlap, chunk);
    }
  }

  /** `_chunk_text_sentences`, given how the text splits into sentences. */
  method ChunkTextSentences(text: string, sentences: seq<string>, chunkSize: nat, overlap: nat)
    returns (chunks: seq<string>)
    requires overlap < chunkSize
    ensures |text| <= chunkSize ==> chunks == if text == "" then [] else [text]
    ensures |text| > chunkSize ==> IsPacking(sentences, chunkSize, overlap, chunks)
    ensures forall chunk :: chunk in chunks ==> |chunk| <= chunkSize + overlap
  {
    if |text| == 0 {
      return [];
    }
    if |text| <= chunkSize {
      return [text];
    }
    chunks := PackSentences(sentences, chunkSize, overlap);
    forall chunk | chunk in chunks ensures |chunk| <= chunkSize + overlap {
      SentenceChunkBound(sentences, chunkSize, overlap, chunks, chunk);
    }
  }

  // ---- The promise determines the chunks ----

  ghost function PackAll(sentences: seq<string>, chunkSize: nat, overlap: nat): PackState {
    if sentences == [] then PackState([], [], [])
    else
      var before := PackAll(sentences[..|sentences| - 1], chunkSize, overlap);
      Advance(before, sentences[|sentences| - 1], chunkSize, overlap)
  }

  /** The state whose parts, once closed, are these. */
  ghost function StateOf(parts: seq<Part>): PackState {
    if parts == [] || parts[|parts| - 1].Split? then PackState(parts, [], [])
    else PackState(parts[..|parts| - 1], parts[|parts| - 1].carry, parts[|parts| - 1].added)
  }

  lemma SuffixIsNarrower(sentences: seq<string>, i: nat, j: nat)
    requires i <= j <= |sentences|
    ensures Width(sentences[j..]) <= Width(sentences[i..])
  {
    assert sentences[i..j] + sentences[j..] == sentences[i..];
    WidthOfSum(sentences[i..j], sentences[j..]);
  }

  lemma TailIndexIsUnique(sentences: seq<string>, i: nat, j: nat, overlap: nat)
    requires i <= j <= |sentences| && Width(sentences[i..]) <= overlap
    requires j > 0 ==> Width(sentences[j - 1..]) > overlap
    ensures i == j
  {
    if i < j {
      SuffixIsNarrower(sentences, i, j - 1);
    }
  }

  lemma TailIsUnique(sentences: seq<string>, a: seq<string>, b: seq<string>, overlap: nat)
    requires IsLongestTail(sentences, a, overlap) && IsLongestTail(sentences, b, overlap)
    ensures a == b
  {
    var i :| 0 <= i <= |sentences| && a == sentences[i..] && Width(a) <= overlap
             && (i > 0 ==> Width(sentences[i - 1..]) > overlap);
    var j :| 0 <= j <= |sentences| && b == sentences[j..] && Width(b) <= overlap
             && (j > 0 ==> Width(sentences[j - 1..]) > overlap);
    if i <= j {
      TailIndexIsUnique(sentences, i, j, overlap);
    } else {
      TailIndexIsUnique(sentences, j, i, overlap);
    }
  }

  lemma StateOfPush(front: seq<Part>, p: Part)
    ensures StateOf(front + [p]) ==
            if p.Packed? then PackState(front, p.carry, p.added) else PackState(front + [p], [], [])
  {
    assert (front + [p])[..|front|] == front;
  }

  lemma PackedCloses(front: seq<Part>, carry: seq<string>, added: seq<string>)
    requires added != []
    ensures PackState(front, carry, added).Flushed() == front + [Packed(carry, added)]
  {
    assert |carry + added| > 0;
  }

  lemma LastPartIsOk(parts: seq<Part>, chunkSize: nat, overlap: nat)
    requires ValidParts(parts, chunkSize, overlap) && parts != []
    ensures PartOk(parts[|parts| - 1], chunkSize, overlap)
  {
  }

  lemma PackedStateCloses(front: seq<Part>, last: Part)
    requires last.Packed? && last.added != []
    ensures StateOf(front + [last]).Flushed() == front + [last]
  {
    StateOfPush(front, last);
    PackedCloses(front, last.carry, last.added);
  }

  lemma StateCloses(parts: seq<Part>, chunkSize: nat, overlap: nat)
    requires ValidParts(parts, chunkSize, overlap)
    ensures StateOf(parts).Flushed() == parts
  {
    if parts != [] && parts[|parts| - 1].Packed? {
      LastPartIsOk(parts, chunkSize, overlap);
      assert parts == parts[..|parts| - 1] + [parts[|parts| - 1]];
      PackedStateCloses(parts[..|parts| - 1], parts[|parts| - 1]);
    }
  }

  lemma AdvanceOpens(init: seq<Part>, p: Part, sent: string, chunkSize: nat, overlap: nat)
    requires p.Packed? && p.added == [sent] && |sent| <= chunkSize
    requires Follows(init, p, chunkSize, overlap) && ValidParts(init, chunkSize, overlap)
    ensures Advance(StateOf(init), sent, chunkSize, overlap) == StateOf(init + [p])
  {
    StateOfPush(init, p);
    StateCloses(init, chunkSize, overlap);
    if init == [] || init[|init| - 1].Split? {
      ConcatNil([sent]);
    } else {
      var last := init[|init| - 1];
      assert PartOk(last, chunkSize, overlap);
      assert StateOf(init).Current() == last.All() && last.All() != [];
      TailIsLongest(last.All(), |last.All()|, overlap);
      TailIsUnique(last.All(), p.carry, LongestTail(last.All(), overlap), overlap);
    }
  }

  lemma AdvanceAdds(init: seq<Part>, p: Part, q: Part, sent: string, chunkSize: nat, overlap: nat)
    requires p.Packed? && q == Packed(p.carry, p.added + [sent]) && p.added != [] && PartOk(q, chunkSize, overlap)
    ensures Advance(StateOf(init + [p]), sent, chunkSize, overlap) == StateOf(init + [q])
    ensures PartOk(p, chunkSize, overlap)
    ensures Follows(init, q, chunkSize, overlap) ==> Follows(init, p, chunkSize, overlap)
  {
    assert q.added[|p.added|] == sent && q.added[0] == p.added[0];
    assert forall i :: 0 <= i < |p.added| ==> p.added[i] == q.added[i];
    assert q.All() == p.All() + [sent];
    WidthOfSum(p.All(), [sent]);
    StateOfPush(init, p);
    StateOfPush(init, q);
  }

  lemma AdvanceSplits(init: seq<Part>, sent: string, chunkSize: nat, overlap: nat)
    requires |sent| > chunkSize && ValidParts(init, chunkSize, overlap)
    ensures Advance(StateOf(init), sent, chunkSize, overlap) == StateOf(init + [Split(sent)])
  {
    StateCloses(init, chunkSize, overlap);
    StateOfPush(init, Split(sent));
  }

  lemma PackAllNext(before: seq<string>, sent: string, chunkSize: nat, overlap: nat)
    ensures PackAll(before + [sent], chunkSize, overlap) ==
            Advance(PackAll(before, chunkSize, overlap), sent, chunkSize, overlap)
  {
    assert (before + [sent])[..|before|] == before;
  }

  lemma SplitIsForced(init: seq<Part>, sent: string, chunkSize: nat, overlap: nat)
    requires ValidParts(init, chunkSize, overlap) && |sent| > chunkSize
    requires PackAll(Source(init), chunkSize, overlap) == StateOf(init)
    ensures PackAll(Source(init + [Split(sent)]), chunkSize, overlap) == StateOf(init + [Split(sent)])
  {
    ValidNext(init, Split(sent), chunkSize, overlap);
    PackAllNext(Source(init), sent, chunkSize, overlap);
    AdvanceSplits(init, sent, chunkSize, overlap);
  }

  lemma OpeningIsForced(init: seq<Part>, p: Part, sent: string, chunkSize: nat, overlap: nat)
    requires p.Packed? && p.added == [sent] && |sent| <= chunkSize
    requires ValidParts(init, chunkSize, overlap) && Follows(init, p, chunkSize, overlap)
    requires PackAll(Source(init), chunkSize, overlap) == StateOf(init)
    ensures PackAll(Source(init + [p]), chunkSize, overlap) == StateOf(init + [p])
  {
    ValidNext(init, p, chunkSize, overlap);
    PackAllNext(Source(init), sent, chunkSize, overlap);
    AdvanceOpens(init, p, sent, chunkSize, overlap);
  }

  lemma {:induction false} PartsAreForced(parts: seq<Part>, sentences: seq<string>, chunkSize: nat, overlap: nat)
    requires ValidParts(parts, chunkSize, overlap) && Source(parts) == sentences
    ensures PackAll(sentences, chunkSize, overlap) == StateOf(parts)
    decreases |sentences|, |parts|
  {
    if parts != [] {
      var init, last := parts[..|parts| - 1], parts[|parts| - 1];
      assert parts == init + [last];
      if last.Packed? && |last.added| > 1 {
        PackedIsForced(init, last, sentences, chunkSize, overlap);
      } else {
        LastPartIsOk(parts, chunkSize, overlap);
        ValidNext(init, last, chunkSize, overlap);
        PartsAreForced(init, Source(init), chunkSize, overlap);
        if last.Split? {
          SplitIsForced(init, last.sentence, chunkSize, overlap);
        } else {
          assert last.added == [last.added[0]];
          OpeningIsForced(init, last, last.added[0], chunkSize, overlap);
        }
      }
    }
  }

  lemma {:induction false} PackedIsForced(init: seq<Part>, last: Part, sentences: seq<string>, chunkSize: nat,
                                          overlap: nat)
    requires last.Packed? && |last.added| > 1 && ValidParts(init + [last], chunkSize, overlap)
    requires Source(init + [last]) == sentences
    ensures PackAll(sentences, chunkSize, overlap) == StateOf(init + [last])
    decreases |sentences|, 0
  {
    var n := |last.added| - 1;
    var sent, p := last.added[n], Packed(last.carry, last.added[..n]);
    assert last.added == p.added + [sent];
    ValidNext(init, last, chunkSize, overlap);
    AdvanceAdds(init, p, last, sent, chunkSize, overlap);
    ValidNext(init, p, chunkSize, overlap);
    ConcatAssociates(Source(init), p.added, [sent]);
    assert sentences == Source(init + [p]) + [sent];
    assert sentences[..|sentences| - 1] == Source(init + [p]);
    PartsAreForced(init + [p], Source(init + [p]), chunkSize, overlap);
  }

  /** What the sentence chunker promises leaves no choice: one list of chunks
      fits a list of sentences. */
  lemma PackingIsUnique(sentences: seq<string>, chunkSize: nat, overlap: nat, chunks: seq<string>, others: seq<string>)
    requires overlap < chunkSize
    requires IsPacking(sentences, chunkSize, overlap, chunks) && IsPacking(sentences, chunkSize, overlap, others)
    ensures chunks == others
  {
    var a :| Packs(sentences, chunkSize, overlap, chunks, a);
    var b :| Packs(sentences, chunkSize, overlap, others, b);
    PartsAreForced(a, sentences, chunkSize, overlap);
    PartsAreForced(b, sentences, chunkSize, overlap);
    StateCloses(a, chunkSize, overlap);
    StateCloses(b, chunkSize, overlap);
  }

  // ---- When a chunk can outgrow `chunkSize` ----

  ghost predicate NonEmpty(sentences: seq<string>) {
    forall i :: 0 <= i < |sentences| ==> sentences[i] != ""
  }

  /** No list of sentences is packed into a chunk longer than `chunkSize`. */
  ghost predicate StaysWithin(chunkSize: nat, overlap: nat)
    requires overlap < chunkSize
  {
    forall sentences, chunks, chunk ::
      NonEmpty(sentences) && IsPacking(sentences, chunkSize, overlap, chunks) && chunk in chunks ==>
        |chunk| <= chunkSize
  }

  lemma TwoPartsAreValid(chunkSize: nat, overlap: nat, a: string, b: string)
    requires 2 <= overlap < chunkSize && |a| == overlap - 1 && |b| == chunkSize
    ensures ValidParts([Packed([], [a]), Packed([a], [b])], chunkSize, overlap)
    ensures Source([Packed([], [a]), Packed([a], [b])]) == [a, b]
  {
    var first, second := Packed([], [a]), Packed([a], [b]);
    assert [] + [first] == [first] && [first] + [second] == [first, second];
    ValidNext([], first, chunkSize, overlap);
    ValidNext([first], second, chunkSize, overlap);
    WidthOfOne(a);
    ConcatNil([a]);
    assert first.All() == [a] && [a][0..] == [a];
    assert IsLongestTail(first.All(), [a], overlap);
  }

  lemma WidthOfOne(a: string)
    ensures Width([a]) == |a| + 1
  {
    assert [a][..0] == [];
  }

  lemma TwoPartsRendered(chunkSize: nat, overlap: nat, a: string, b: string)
    requires overlap < chunkSize
    ensures RenderAll([Packed([], [a]), Packed([a], [b])], chunkSize, overlap) == [a, a + " " + b]
  {
    var first, second := Packed([], [a]), Packed([a], [b]);
    assert [] + [first] == [first] && [first] + [second] == [first, second];
    RenderNext([], first, chunkSize, overlap);
    RenderNext([first], second, chunkSize, overlap);
    ConcatNil([a]);
    assert first.All() == [a] && second.All() == [a, b] && [a, b][..1] == [a];
    assert Join([a, b]) == Join([a]) + " " + b;
  }

  /** With any overlap of two or more the bound `chunkSize + overlap` is attained:
      a sentence that just fits the overlap, and one of full size after it. */
  lemma BoundIsAttained(chunkSize: nat, overlap: nat, a: string, b: string)
    requires 2 <= overlap < chunkSize && |a| == overlap - 1 && |b| == chunkSize
    ensures IsPacking([a, b], chunkSize, overlap, [a, a + " " + b]) && |a + " " + b| == chunkSize + overlap
  {
    TwoPartsAreValid(chunkSize, overlap, a, b);
    TwoPartsRendered(chunkSize, overlap, a, b);
    assert Packs([a, b], chunkSize, overlap, [a, a + " " + b], [Packed([], [a]), Packed([a], [b])]);
  }

  /** For instance, with a chunk size of 10 and an overlap of 5. */
  lemma OversizedChunk()
    ensures IsPacking(["aaaa", "bbbbbbbbbb"], 10, 5, ["aaaa", "aaaa bbbbbbbbbb"]) && |"aaaa bbbbbbbbbb"| == 15
  {
    BoundIsAttained(10, 5, "aaaa", "bbbbbbbbbb");
    assert "aaaa" + " " + "bbbbbbbbbb" == "aaaa bbbbbbbbbb";
  }

  lemma {:induction false} NothingIsCarried(parts: seq<Part>, chunkSize: nat, overlap: nat)
    requires ValidParts(parts, chunkSize, overlap) && NonEmpty(Source(parts)) && overlap <= 1
    ensures forall p :: p in parts && p.Packed? ==> p.carry == []
  {
    if parts != [] {
      var init, last := parts[..|parts| - 1], parts[|parts| - 1];
      NonEmptyPrefix(Source(init), if last.Packed? then last.added else [last.sentence]);
      NothingIsCarried(init, chunkSize, overlap);
      assert forall p :: p in parts <==> p in init || p == last;
      if last.Packed? && init != [] && init[|init| - 1].Packed? {
        var before := init[|init| - 1];
        assert before.All() == before.added;
        assert Source(init) == Source(init[..|init| - 1]) + before.added;
        NonEmptyPrefix(Source(init[..|init| - 1]), before.added);
        NoTailFits(before.added, last.carry, overlap);
      }
    }
  }

  lemma NonEmptyPrefix(a: seq<string>, b: seq<string>)
    requires NonEmpty(a + b)
    ensures NonEmpty(a) && NonEmpty(b)
  {
    assert forall i :: 0 <= i < |a| ==> (a + b)[i] == a[i];
    assert forall i :: 0 <= i < |b| ==> (a + b)[|a| + i] == b[i];
  }

  lemma TailHasWidth(sentences: seq<string>, i: nat)
    requires NonEmpty(sentences) && i < |sentences|
    ensures Width(sentences[i..]) >= 2
  {
    assert sentences[i..][|sentences[i..]| - 1] == sentences[|sentences| - 1] != "";
  }

  lemma NoTailFits(sentences: seq<string>, carry: seq<string>, overlap: nat)
    requires NonEmpty(sentences) && IsLongestTail(sentences, carry, overlap) && overlap <= 1
    ensures carry == []
  {
    forall i | 0 <= i < |sentences| ensures Width(sentences[i..]) >= 2 {
      TailHasWidth(sentences, i);
    }
  }

  /** Exactly the overlaps of 0 and 1 keep every chunk within `chunkSize`. */
  lemma StaysWithinIff(chunkSize: nat, overlap: nat)
    requires overlap < chunkSize
    ensures StaysWithin(chunkSize, overlap) <==> overlap <= 1
  {
    if overlap <= 1 {
      forall sentences, chunks, chunk |
          NonEmpty(sentences) && IsPacking(sentences, chunkSize, overlap, chunks) && chunk in chunks
        ensures |chunk| <= chunkSize
      {
        SmallOverlapStaysWithin(sentences, chunkSize, overlap, chunks, chunk);
      }
    } else {
      var a, b := seq(overlap - 1, _ => 'a'), seq(chunkSize, _ => 'b');
      BoundIsAttained(chunkSize, overlap, a, b);
      assert NonEmpty([a, b]) && (a + " " + b) in [a, a + " " + b];
    }
  }

  lemma SmallOverlapStaysWithin(sentences: seq<string>, chunkSize: nat, overlap: nat, chunks: seq<string>,
                                chunk: string)
    requires overlap < chunkSize && overlap <= 1
    requires NonEmpty(sentences) && IsPacking(sentences, chunkSize, overlap, chunks) && chunk in chunks
    ensures |chunk| <= chunkSize
  {
    var parts :| Packs(sentences, chunkSize, overlap, chunks, parts);
    var p := ChunkComesFromPart(parts, chunkSize, overlap, chunk);
    EveryPartIsOk(parts, chunkSize, overlap, p);
    NothingIsCarried(parts, chunkSize, overlap);
    if p.Packed? {
      RenderedPacked(p, chunkSize, overlap, chunk);
      UncarriedPackedSize(p, chunkSize, overlap);
    } else {
      RenderedSplit(p, chunkSize, overlap, chunk);
    }
  }

  lemma RenderedPacked(p: Part, chunkSize: nat, overlap: nat, chunk: string)
    requires overlap < chunkSize && p.Packed? && chunk in Render(p, chunkSize, overlap)
    ensures chunk == Join(p.All())
  {
  }

  lemma RenderedSplit(p: Part, chunkSize: nat, overlap: nat, chunk: string)
    requires overlap < chunkSize && p.Split? && chunk in Render(p, chunkSize, overlap)
    ensures |chunk| <= chunkSize
  {
    WindowsFit(p.sentence, chunkSize, chunkSize - overlap, chunk);
  }

  lemma UncarriedPackedSize(p: Part, chunkSize: nat, overlap: nat)
    requires p.Packed? && p.carry == [] && PartOk(p, chunkSize, overlap)
    ensures |Join(p.All())| <= chunkSize
  {
    PackedChunkSize(p, chunkSize, overlap);
  }
}
