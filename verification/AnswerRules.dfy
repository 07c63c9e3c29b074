/** When a sentence is shown, when an attempt fails and what a citation says, in the code's own figures:
    app/agents/answer/grounding.py, citations.py and node.py. */
module AnswerRules {
  import opened Wrappers
  import opened AnswerText
  import opened TextRules
  import opened GroundedAnswer

  // ---------- When a sentence is kept ----------

  ghost predicate SomeAt(o: Oracles, clean: string, chunks: seq<ScoredChunk>, bound: real) {
    exists c :: c in chunks && o.similarity(clean, c.content) >= bound
  }

  ghost predicate SomeAbove(o: Oracles, clean: string, chunks: seq<ScoredChunk>, bound: real) {
    exists c :: c in chunks && o.similarity(clean, c.content) > bound
  }

  /** Neither near enough to be taken nor far enough to be dropped: the model is asked. */
  ghost predicate Asked(o: Oracles, sentence: string, chunks: seq<ScoredChunk>) {
    var clean := StripMarkers(sentence);
    clean != "" && !SomeAt(o, clean, chunks, 0.55) && SomeAbove(o, clean, chunks, 0.35)
  }

  /** A sentence with text is shown if some chunk is at 0.55 or more, or if none is, some is above 0.35 and
      the model, asked about the sentence in its place, says that the chunks support it. */
  ghost predicate Shown(o: Oracles, i: nat, sentence: string, chunks: seq<ScoredChunk>) {
    var clean := StripMarkers(sentence);
    clean != "" && (SomeAt(o, clean, chunks, 0.55)
                    || (SomeAbove(o, clean, chunks, 0.35) && o.supports(i, clean, chunks) == Some(true)))
  }

  lemma PassesIff(o: Oracles, i: nat, sentence: string, chunks: seq<ScoredChunk>)
    requires chunks != []
    ensures Passes(o, i, sentence, chunks) == Some(true) <==> Shown(o, i, sentence, chunks)
    ensures Passes(o, i, sentence, chunks) == None <==>
            Asked(o, sentence, chunks) && o.supports(i, StripMarkers(sentence), chunks) == None
  {
    hide StripMarkers, MaxSimilarity;
  }

  ghost function ShownAt(o: Oracles, sentences: seq<string>, chunks: seq<ScoredChunk>): seq<bool> {
    seq(|sentences|, i requires 0 <= i < |sentences| => Shown(o, i, sentences[i], chunks))
  }

  /** Grounding raises exactly when the model raises on a sentence it is asked about, and otherwise keeps
      exactly the sentences that may be shown, in order. */
  lemma GroundingKeepsTheShown(o: Oracles, sentences: seq<string>, chunks: seq<ScoredChunk>)
    requires chunks != []
    ensures Grounded(o, sentences, chunks) == None <==>
            exists i :: 0 <= i < |sentences| && Asked(o, sentences[i], chunks)
                        && o.supports(i, StripMarkers(sentences[i]), chunks) == None
    ensures Grounded(o, sentences, chunks).Some? ==>
            Grounded(o, sentences, chunks).value == Kept(sentences, ShownAt(o, sentences, chunks))
  {
    hide Passes, Shown, Asked, Kept, StripMarkers, Grounded;
    GroundedIsFilter(o, sentences, chunks);
    forall i: nat | i < |sentences|
      ensures Passes(o, i, sentences[i], chunks) == Some(true) <==> Shown(o, i, sentences[i], chunks)
      ensures Passes(o, i, sentences[i], chunks) == None <==>
              Asked(o, sentences[i], chunks) && o.supports(i, StripMarkers(sentences[i]), chunks) == None
    {
      PassesIff(o, i, sentences[i], chunks);
    }
    assert Verdicts(o, sentences, chunks) == ShownAt(o, sentences, chunks);
  }

  /** Without chunks nothing is kept. */
  lemma NoChunksNothingKept(o: Oracles, sentences: seq<string>)
    ensures Grounded(o, sentences, []) == Some([])
  {
  }

  // ---------- When an attempt fails ----------

  lemma {:induction false} KeptNothingIff(sentences: seq<string>, verdicts: seq<bool>)
    requires |sentences| == |verdicts|
    ensures Kept(sentences, verdicts) == [] <==> forall i :: 0 <= i < |verdicts| ==> !verdicts[i]
  {
    if sentences == [] {
    } else {
      KeptNothingIff(sentences[1..], verdicts[1..]);
      assert verdicts == [verdicts[0]] + verdicts[1..];
    }
  }

  /** An attempt fails exactly when the evidence is not judged sufficient, the generation raises, the model
      declines, it raises on a sentence it is asked about, or no sentence may be shown. */
  lemma AttemptFailsIff(o: Oracles, chunks: seq<ScoredChunk>)
    requires chunks != []
    ensures Attempt(o, chunks) == None <==>
      || o.sufficient != Some(true)
      || o.generated == None
      || Strip(o.generated.value) == "NO_ANSWER"
      || (var sentences := SplitSentences(Strip(o.generated.value));
          || (exists i :: 0 <= i < |sentences| && Asked(o, sentences[i], chunks)
                          && o.supports(i, StripMarkers(sentences[i]), chunks) == None)
          || forall i :: 0 <= i < |sentences| ==> !Shown(o, i, sentences[i], chunks))
  {
    hide Shown, Asked, Kept, StripMarkers, Grounded, Strip, SplitSentences, Attempt;
    AttemptFailsAt(o, chunks);
    if o.generated.Some? {
      var raw := Strip(o.generated.value);
      var sentences := SplitSentences(raw);
      StripTwice(o.generated.value);
      GroundingKeepsTheShown(o, sentences, chunks);
      var shown := ShownAt(o, sentences, chunks);
      assert forall i :: 0 <= i < |sentences| ==> shown[i] == Shown(o, i, sentences[i], chunks);
      KeptNothingIff(sentences, shown);
      if o.sufficient == Some(true) && Strip(raw) != "NO_ANSWER" && Grounded(o, sentences, chunks).Some? {
        assert Grounded(o, sentences, chunks).value == Kept(sentences, shown);
        assert Attempt(o, chunks) == None <==> forall i :: 0 <= i < |sentences| ==> !Shown(o, i, sentences[i], chunks);
      }
    }
  }

  lemma AttemptFailsAt(o: Oracles, chunks: seq<ScoredChunk>)
    ensures o.sufficient != Some(true) || o.generated.None? ==> Attempt(o, chunks) == None
    ensures o.sufficient == Some(true) && o.generated.Some? ==>
      var raw := Strip(o.generated.value);
      var grounded := Grounded(o, SplitSentences(raw), chunks);
      Attempt(o, chunks) == None <==> Strip(raw) == "NO_ANSWER" || grounded.None? || grounded.value == []
  {
    hide StripMarkers, Grounded, Strip, SplitSentences, Join, Cited, CitationsAt;
  }

  lemma StripTwice(t: string)
    ensures Strip(Strip(t)) == Strip(t)
  {
    hide IsSpace;
    var left, right := StripTakesWhitespaceOff(t);
    StripOfBare(Strip(t));
  }

  lemma StripOfBare(t: string)
    requires t != "" ==> !IsSpace(t[0]) && !IsSpace(t[|t| - 1])
    ensures Strip(t) == t
  {
  }

  /** So an answer no sentence of which has a chunk above 0.35 is never delivered. */
  lemma FarFromEveryChunkIsDeclined(o: Oracles, chunks: seq<ScoredChunk>)
    requires chunks != []
    requires forall clean: string, c: ScoredChunk :: c in chunks ==> o.similarity(clean, c.content) <= 0.35
    ensures Attempt(o, chunks) == None
  {
    hide StripMarkers, Strip, SplitSentences, Attempt;
    AttemptFailsIff(o, chunks);
  }

  /** Nor is one on no chunks at all. */
  lemma NoChunksIsDeclined(o: Oracles)
    ensures Attempt(o, []) == None
  {
    hide Strip, SplitSentences;
    if o.generated.Some? {
      NoChunksNothingKept(o, SplitSentences(Strip(o.generated.value)));
    }
  }

  // ---------- What a citation says ----------

  /** Each citation names its chunk, the chunk's document and address, and quotes the first 300 characters,
      with an ellipsis if there are more. */
  lemma CitationsQuoteTheirChunks(text: string, chunks: seq<ScoredChunk>)
    ensures
      var cited, citations := Cited(text, chunks), CitationsAt(Cited(text, chunks), chunks);
      && |citations| == |cited|
      && forall i :: 0 <= i < |cited| ==>
           && cited[i] < |chunks|
           && citations[i].documentId == chunks[cited[i]].documentId
           && citations[i].chunkId == chunks[cited[i]].chunkId
           && citations[i].sourceUrl == chunks[cited[i]].sourceUrl
           && citations[i].excerpt == if |chunks[cited[i]].content| <= 300 then chunks[cited[i]].content
                                      else chunks[cited[i]].content[..300] + "..."
  {
    hide Numbers, Dedup;
  }

  ghost function InRange(numbers: seq<nat>, n: nat): seq<nat> {
    if numbers == [] then [] else
      (if 1 <= numbers[0] <= n then [numbers[0] - 1] else []) + InRange(numbers[1..], n)
  }

  lemma {:induction false} InRangePush(numbers: seq<nat>, last: nat, n: nat)
    ensures InRange(numbers + [last], n) == InRange(numbers, n) + (if 1 <= last <= n then [last - 1] else [])
  {
    var all := numbers + [last];
    if numbers == [] {
      assert all[1..] == [] && InRange(all[1..], n) == [];
    } else {
      assert all[0] == numbers[0] && all[1..] == numbers[1..] + [last];
      InRangePush(numbers[1..], last, n);
    }
  }

  lemma {:induction false} PositionsAreInRange(numbers: seq<nat>, n: nat)
    ensures Positions(numbers, n) == InRange(numbers, n)
  {
    if numbers == [] {
    } else {
      var before, last := numbers[..|numbers| - 1], numbers[|numbers| - 1];
      PositionsAreInRange(before, n);
      InRangePush(before, last, n);
      assert numbers == before + [last];
    }
  }

  /** Chunks are cited in the order their markers are first seen, and out-of-range markers are skipped. */
  lemma CitedInFirstSeenOrder(text: string, chunks: seq<ScoredChunk>)
    ensures Cited(text, chunks) == InRange(FirstSeen(Numbers(text)), |chunks|)
  {
    hide Numbers, Dedup, FirstSeen;
    DedupIsFirstSeen(Numbers(text));
    PositionsAreInRange(Dedup(Numbers(text)), |chunks|);
  }
}
