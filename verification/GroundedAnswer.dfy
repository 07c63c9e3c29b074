/** The Answer Agent node: app/agents/answer/grounding.py, citations.py, node.py and app/agents/retry.py.

    The language model and the embedding similarity are oracles, one set of them for each attempt; any
    call of the model may raise. */
module GroundedAnswer {
  import opened Wrappers
  import opened AnswerText

  const GROUNDED_THRESHOLD := 0.55
  const UNGROUNDED_THRESHOLD := 0.35
  const EXCERPT_MAX_CHARS := 300
  const MAX_RETRIES := 2
  const NO_ANSWER_MARKER := "NO_ANSWER"
  const INSUFFICIENT_GROUNDING_MESSAGE :=
    "I don't have enough grounded information from the available sources to answer this confidently."
  const GENERATE := "answer_agent.generate"
  const ROUTE_TAKEN := "answer"

  datatype ScoredChunk = ScoredChunk(chunkId: string, documentId: string, content: string, sourceUrl: Option<string>)

  datatype Citation = Citation(documentId: string, chunkId: string, sourceUrl: Option<string>, excerpt: string)

  /** What one attempt finds when it asks: None stands for an exception. The model is asked about each
      sentence anew, so its verdict may depend on the sentence's position and not on its text alone. */
  datatype Oracles = Oracles(
    sufficient: Option<bool>,
    generated: Option<string>,
    similarity: (string, string) -> real,
    supports: (nat, string, seq<ScoredChunk>) -> Option<bool>)

  // ---------- Grounding ----------

  function MaxSimilarity(o: Oracles, clean: string, chunks: seq<ScoredChunk>): (r: real)
    requires chunks != []
    ensures exists c :: c in chunks && r == o.similarity(clean, c.content)
    ensures forall c :: c in chunks ==> o.similarity(clean, c.content) <= r
  {
    var first := o.similarity(clean, chunks[0].content);
    if |chunks| == 1 then first else
      assert chunks == [chunks[0]] + chunks[1..];
      var rest := MaxSimilarity(o, clean, chunks[1..]);
      if first >= rest then first else rest
  }

  /** Whether the `i`th sentence passes; None when the escalation call raises. */
  function Passes(o: Oracles, i: nat, sentence: string, chunks: seq<ScoredChunk>): Option<bool>
    requires chunks != []
  {
    var clean := StripMarkers(sentence);
    if clean == "" then Some(false) else
      var similarity := MaxSimilarity(o, clean, chunks);
      if similarity >= GROUNDED_THRESHOLD then Some(true)
      else if similarity <= UNGROUNDED_THRESHOLD then Some(false)
      else o.supports(i, clean, chunks)
  }

  /** The sentences that pass, in order; None as soon as an escalation call raises. */
  function Grounded(o: Oracles, sentences: seq<string>, chunks: seq<ScoredChunk>): Option<seq<string>> {
    if sentences == [] || chunks == [] then Some([]) else
      var n := |sentences| - 1;
      match Grounded(o, sentences[..n], chunks)
      case None => None
      case Some(before) =>
        match Passes(o, n, sentences[n], chunks)
        case None => None
        case Some(passes) => Some(if passes then before + [sentences[n]] else before)
  }

  lemma NothingGrounded(o: Oracles, sentences: seq<string>, chunks: seq<ScoredChunk>)
    ensures Grounded(o, sentences[..0], chunks) == Some([])
    ensures sentences == [] || chunks == [] ==> Grounded(o, sentences, chunks) == Some([])
  {
  }

  lemma GroundedStep(o: Oracles, sentences: seq<string>, i: nat, chunks: seq<ScoredChunk>)
    requires i < |sentences| && chunks != []
    ensures Grounded(o, sentences[..i + 1], chunks) ==
      match Grounded(o, sentences[..i], chunks)
      case None => None
      case Some(before) =>
        match Passes(o, i, sentences[i], chunks)
        case None => None
        case Some(passes) => Some(if passes then before + [sentences[i]] else before)
  {
    hide Passes;
    assert sentences[..i + 1][..i] == sentences[..i];
  }

  method VerifyGrounding(o: Oracles, sentences: seq<string>, chunks: seq<ScoredChunk>)
    returns (grounded: Option<seq<string>>)
    ensures grounded == Grounded(o, sentences, chunks)
  {
    if sentences == [] || chunks == [] {
      return Some([]);
    }
    hide StripMarkers, MaxSimilarity, Grounded;
    NothingGrounded(o, sentences, chunks);
    var kept: seq<string> := [];
    var i := 0;
    while i < |sentences|
      invariant 0 <= i <= |sentences|
      invariant Grounded(o, sentences[..i], chunks) == Some(kept)
    {
      GroundedStep(o, sentences, i, chunks);
      var clean := StripMarkers(sentences[i]);
      if clean != "" {
        var similarity := MaxSimilarity(o, clean, chunks);
        if similarity >= GROUNDED_THRESHOLD {
          kept := kept + [sentences[i]];
        } else if similarity > UNGROUNDED_THRESHOLD {
          var supported := o.supports(i, clean, chunks);
          if supported.None? {
            RaisingStops(o, sentences, chunks, i + 1);
            return None;
          }
          if supported.value {
            kept := kept + [sentences[i]];
          }
        }
      }
      i := i + 1;
    }
    assert sentences[..i] == sentences;
    grounded := Some(kept);
  }

  lemma {:induction false} RaisingStops(o: Oracles, sentences: seq<string>, chunks: seq<ScoredChunk>, i: nat)
    requires i <= |sentences| && Grounded(o, sentences[..i], chunks).None?
    ensures Grounded(o, sentences, chunks).None?
  {
    hide Passes;
    if i == |sentences| {
      assert sentences[..i] == sentences;
    } else {
      var n := |sentences| - 1;
      assert sentences[..n][..i] == sentences[..i];
      RaisingStops(o, sentences[..n], chunks, i);
    }
  }

  // ---------- Citations ----------

  function Excerpt(content: string): string {
    if |content| > EXCERPT_MAX_CHARS then content[..EXCERPT_MAX_CHARS] + "..." else content
  }

  function CitationOf(c: ScoredChunk): Citation {
    Citation(c.documentId, c.chunkId, c.sourceUrl, Excerpt(c.content))
  }

  /** The chunk positions that in-range markers name. */
  function Positions(numbers: seq<nat>, n: nat): (r: seq<nat>)
    ensures forall i :: 0 <= i < |r| ==> r[i] < n
  {
    if numbers == [] then [] else
      var before, last := Positions(numbers[..|numbers| - 1], n), numbers[|numbers| - 1];
      if 1 <= last <= n then before + [last - 1] else before
  }

  /** Which chunks a text cites, each once, in the order of their first marker. */
  function Cited(text: string, chunks: seq<ScoredChunk>): seq<nat> {
    Positions(Dedup(Numbers(text)), |chunks|)
  }

  function CitationsAt(positions: seq<nat>, chunks: seq<ScoredChunk>): seq<Citation>
    requires forall i :: 0 <= i < |positions| ==> positions[i] < |chunks|
  {
    seq(|positions|, i requires 0 <= i < |positions| => CitationOf(chunks[positions[i]]))
  }

  method BuildCitations(text: string, chunks: seq<ScoredChunk>) returns (citations: seq<Citation>)
    ensures citations == CitationsAt(Cited(text, chunks), chunks)
  {
    var markers := ExtractCitationMarkers(text);
    citations := [];
    var i := 0;
    while i < |markers|
      invariant 0 <= i <= |markers|
      invariant citations == CitationsAt(Positions(markers[..i], |chunks|), chunks)
    {
      assert markers[..i + 1][..i] == markers[..i];
      var index: int := markers[i] as int - 1;
      if 0 <= index < |chunks| {
        var chunk := chunks[index];
        var excerpt := if |chunk.content| < EXCERPT_MAX_CHARS then chunk.content
                       else chunk.content[..EXCERPT_MAX_CHARS];
        if |chunk.content| > EXCERPT_MAX_CHARS {
          excerpt := excerpt + "...";
        }
        assert excerpt == Excerpt(chunk.content);
        citations := citations + [Citation(chunk.documentId, chunk.chunkId, chunk.sourceUrl, excerpt)];
      }
      i := i + 1;
    }
    assert markers[..i] == markers;
  }

  lemma {:induction false} PositionsOf(numbers: seq<nat>, n: nat)
    requires forall i, j :: 0 <= i < j < |numbers| ==> numbers[i] != numbers[j]
    ensures forall p: nat :: p in Positions(numbers, n) <==> p < n && p + 1 in numbers
    ensures forall i, j :: 0 <= i < j < |Positions(numbers, n)| ==> Positions(numbers, n)[i] != Positions(numbers, n)[j]
  {
    if numbers == [] {
    } else {
      var k := |numbers| - 1;
      PositionsOf(numbers[..k], n);
      assert numbers == numbers[..k] + [numbers[k]];
      assert numbers[k] !in numbers[..k];
      var before := Positions(numbers[..k], n);
      if 1 <= numbers[k] <= n {
        assert numbers[k] - 1 !in before;
        assert Positions(numbers, n) == before + [numbers[k] - 1];
      }
    }
  }

  // ---------- One attempt ----------

  datatype Answer = Answer(text: string, citations: seq<Citation>)

  /** None when the attempt raises, for any reason. */
  function Attempt(o: Oracles, chunks: seq<ScoredChunk>): Option<Answer> {
    if o.sufficient != Some(true) || o.generated.None? then None else
      var raw := Strip(o.generated.value);
      if Strip(raw) == NO_ANSWER_MARKER then None else
        match Grounded(o, SplitSentences(raw), chunks)
        case None => None
        case Some(grounded) =>
          if grounded == [] then None else
            Some(Answer(StripMarkers(Join(grounded)), CitationsAt(Cited(Join(grounded), chunks), chunks)))
  }

  method GenerateAndVerify(o: Oracles, chunks: seq<ScoredChunk>) returns (answer: Option<Answer>)
    ensures answer == Attempt(o, chunks)
  {
    if o.sufficient.None? || !o.sufficient.value {
      return None;
    }
    if o.generated.None? {
      return None;
    }
    var raw := Strip(o.generated.value);
    if Strip(raw) == NO_ANSWER_MARKER {
      return None;
    }
    var sentences := SplitSentences(raw);
    var grounded := VerifyGrounding(o, sentences, chunks);
    if grounded.None? || grounded.value == [] {
      return None;
    }
    var text := Join(grounded.value);
    var citations := BuildCitations(text, chunks);
    answer := Some(Answer(StripMarkers(text), citations));
  }

  // ---------- Bounded retry ----------

  /** The first of the attempts from `k` on that succeeds; attempts are numbered 0, 1, 2. */
  function FirstSuccess(outcomes: nat -> Option<Answer>, k: nat): (r: Option<nat>)
    requires k <= MAX_RETRIES + 1
    ensures match r
      case Some(i) => k <= i <= MAX_RETRIES && outcomes(i).Some? && forall j :: k <= j < i ==> outcomes(j).None?
      case None => forall j :: k <= j <= MAX_RETRIES ==> outcomes(j).None?
    decreases MAX_RETRIES + 1 - k
  {
    if k > MAX_RETRIES then None
    else if outcomes(k).Some? then Some(k)
    else FirstSuccess(outcomes, k + 1)
  }

  function Outcomes(attempts: nat -> Oracles, chunks: seq<ScoredChunk>): nat -> Option<Answer> {
    (k: nat) => Attempt(attempts(k), chunks)
  }

  /** How many attempts are made, and how many of them fail, when `first` is the first to succeed. */
  function Made(first: Option<nat>): nat {
    if first.Some? then first.value + 1 else MAX_RETRIES + 1
  }

  function Failures(first: Option<nat>): nat {
    if first.Some? then first.value else MAX_RETRIES + 1
  }

  /** The retry counter afterwards: it is written on failures only. */
  function CountAfter(before: map<string, nat>, first: Option<nat>): map<string, nat> {
    if Failures(first) == 0 then before else before[GENERATE := Failures(first)]
  }

  datatype Response = Response(confidence: real, routeTaken: string, answer: string, citations: seq<Citation>)

  function Reply(confidence: Option<real>, answer: string, citations: seq<Citation>): Response {
    Response(if confidence.Some? then confidence.value else 0.0, ROUTE_TAKEN, answer, citations)
  }

  function Declined(confidence: Option<real>): Response {
    Reply(confidence, INSUFFICIENT_GROUNDING_MESSAGE, [])
  }

  /** What the node hands to the caller. */
  function Delivered(attempts: nat -> Oracles, chunks: seq<ScoredChunk>, confidence: Option<real>): Response {
    if chunks == [] then Declined(confidence) else
      match FirstSuccess(Outcomes(attempts, chunks), 0)
      case None => Declined(confidence)
      case Some(k) =>
        var answer := Attempt(attempts(k), chunks);
        if answer.None? then Declined(confidence) else Reply(confidence, answer.value.text, answer.value.citations)
  }

  class AnswerNode {
    var retryCount: map<string, nat>

    constructor ()
      ensures retryCount == map[]
    {
      retryCount := map[];
    }

    /** At most three attempts; the backoff before the next one is 1 second, then 2. Only failures are
        counted: a first attempt that succeeds leaves `retryCount` as it was. */
    method CallWithRetry(attempts: nat -> Oracles, chunks: seq<ScoredChunk>)
      returns (answer: Option<Answer>, made: nat, slept: nat)
      modifies this
      ensures
        var first := FirstSuccess(Outcomes(attempts, chunks), 0);
        && answer == (if first.Some? then Attempt(attempts(first.value), chunks) else None)
        && made == Made(first)
        && slept == (if made == 1 then 0 else if made == 2 then 1 else 3)
        && retryCount == CountAfter(old(retryCount), first)
    {
      var attempt: nat := 0;
      made, slept := 0, 0;
      ghost var first := FirstSuccess(Outcomes(attempts, chunks), 0);
      while true
        invariant attempt <= MAX_RETRIES && made == attempt
        invariant first == FirstSuccess(Outcomes(attempts, chunks), attempt)
        invariant slept == if attempt == 0 then 0 else if attempt == 1 then 1 else 3
        invariant retryCount == if attempt == 0 then old(retryCount) else old(retryCount)[GENERATE := attempt]
        decreases MAX_RETRIES - attempt
      {
        answer := GenerateAndVerify(attempts(attempt), chunks);
        made := made + 1;
        if answer.Some? {
          return;
        }
        retryCount := retryCount[GENERATE := attempt + 1];
        if attempt >= MAX_RETRIES {
          return;
        }
        slept := slept + (if attempt == 0 then 1 else 2);
        attempt := attempt + 1;
      }
    }

    method Run(attempts: nat -> Oracles, chunks: seq<ScoredChunk>, confidence: Option<real>)
      returns (r: Response)
      modifies this
      ensures r == Delivered(attempts, chunks, confidence)
      ensures retryCount == if chunks == [] then old(retryCount)
                            else CountAfter(old(retryCount), FirstSuccess(Outcomes(attempts, chunks), 0))
    {
      var score := if confidence.Some? then confidence.value else 0.0;
      if chunks == [] {
        return Response(score, ROUTE_TAKEN, INSUFFICIENT_GROUNDING_MESSAGE, []);
      }
      var answer, made, slept := CallWithRetry(attempts, chunks);
      r := if answer.None? then Response(score, ROUTE_TAKEN, INSUFFICIENT_GROUNDING_MESSAGE, [])
           else Response(score, ROUTE_TAKEN, answer.value.text, answer.value.citations);
    }
  }

  // ---------- What the retry counter counts ----------

  /** The counter is meant to show the attempts made, whether or not the call succeeds. It does exactly when
      every attempt fails, or when it happened to stand at 1 and the first attempt succeeds. */
  lemma CountShowsAttemptsIff(attempts: nat -> Oracles, chunks: seq<ScoredChunk>, before: map<string, nat>)
    ensures
      var first := FirstSuccess(Outcomes(attempts, chunks), 0);
      var after := CountAfter(before, first);
      (GENERATE in after && after[GENERATE] == Made(first)) <==>
        || (forall k: nat :: k <= MAX_RETRIES ==> Attempt(attempts(k), chunks).None?)
        || (Attempt(attempts(0), chunks).Some? && GENERATE in before && before[GENERATE] == 1)
  {
    hide Attempt;
    var outcomes := Outcomes(attempts, chunks);
    assert forall k: nat :: outcomes(k) == Attempt(attempts(k), chunks);
    var first := FirstSuccess(outcomes, 0);
    if first.Some? && first.value > 0 {
      assert outcomes(0).None?;
    }
  }

  /** From a counter that has no entry yet, it shows them exactly when every attempt fails. */
  lemma FreshCountShowsAttemptsIff(attempts: nat -> Oracles, chunks: seq<ScoredChunk>, before: map<string, nat>)
    requires GENERATE !in before
    ensures
      var first := FirstSuccess(Outcomes(attempts, chunks), 0);
      var after := CountAfter(before, first);
      (GENERATE in after && after[GENERATE] == Made(first)) <==>
      forall k: nat :: k <= MAX_RETRIES ==> Attempt(attempts(k), chunks).None?
  {
    hide *;
    CountShowsAttemptsIff(attempts, chunks, before);
  }

  /** A run on which it does not: the first generation raises, the second holds up. Two attempts were made
      and the counter says one. */
  lemma SecondAttemptIsNotCounted() returns (attempts: nat -> Oracles, chunks: seq<ScoredChunk>)
    ensures Attempt(attempts(0), chunks).None? && Attempt(attempts(1), chunks).Some?
    ensures
      var first := FirstSuccess(Outcomes(attempts, chunks), 0);
      Made(first) == 2 && CountAfter(map[], first) == map["answer_agent.generate" := 1]
  {
    var similarity: (string, string) -> real := (a: string, b: string) => 1.0;
    var supports: (nat, string, seq<ScoredChunk>) -> Option<bool> :=
      (i: nat, a: string, cs: seq<ScoredChunk>) => None;
    var raises := Oracles(Some(true), None, similarity, supports);
    var holds := Oracles(Some(true), Some("Up. [1]"), similarity, supports);
    chunks := [ScoredChunk("chunk", "document", "It is up.", None)];
    attempts := (k: nat) => if k == 0 then raises else holds;
    SimilarPasses(holds, chunks);
    NothingGenerated(raises, chunks);
    hide Passes, StripMarkers, Attempt, FirstSuccess;
    TrailingMarkerIsLost(holds, chunks);
    SecondSucceeds(Outcomes(attempts, chunks));
  }

  lemma SimilarPasses(o: Oracles, chunks: seq<ScoredChunk>)
    requires |chunks| == 1 && o.similarity("Up.", chunks[0].content) == 1.0
    ensures Passes(o, 0, "Up.", chunks) == Some(true)
  {
    PlainExample();
    hide StripMarkers;
  }

  lemma NothingGenerated(o: Oracles, chunks: seq<ScoredChunk>)
    requires o.generated.None?
    ensures Attempt(o, chunks) == None
  {
    hide Grounded;
  }

  lemma SecondSucceeds(outcomes: nat -> Option<Answer>)
    requires outcomes(0).None? && outcomes(1).Some?
    ensures FirstSuccess(outcomes, 0) == Some(1)
  {
    assert FirstSuccess(outcomes, 1) == Some(1);
  }

  // ---------- What was checked is what is shown ----------

  ghost function Verdicts(o: Oracles, sentences: seq<string>, chunks: seq<ScoredChunk>): seq<bool>
    requires chunks != []
  {
    seq(|sentences|, i requires 0 <= i < |sentences| => Passes(o, i, sentences[i], chunks) == Some(true))
  }

  /** The sentences whose verdict is good, in order: the reference for the filter. */
  ghost function Kept(sentences: seq<string>, verdicts: seq<bool>): seq<string>
    requires |sentences| == |verdicts|
  {
    if sentences == [] then [] else
      (if verdicts[0] then [sentences[0]] else []) + Kept(sentences[1..], verdicts[1..])
  }

  lemma {:induction false} KeptPush(sentences: seq<string>, verdicts: seq<bool>, last: string, verdict: bool)
    requires |sentences| == |verdicts|
    ensures Kept(sentences + [last], verdicts + [verdict])
            == Kept(sentences, verdicts) + (if verdict then [last] else [])
  {
    var all, judged := sentences + [last], verdicts + [verdict];
    if sentences == [] {
      assert all == [last] && all[1..] == [] && judged[1..] == [];
      assert Kept(all[1..], judged[1..]) == [];
    } else {
      assert all[0] == sentences[0] && all[1..] == sentences[1..] + [last];
      assert judged[0] == verdicts[0] && judged[1..] == verdicts[1..] + [verdict];
      KeptPush(sentences[1..], verdicts[1..], last, verdict);
      KeptUnfolds(sentences, verdicts);
      KeptUnfolds(all, judged);
      hide Kept;
    }
  }

  lemma KeptUnfolds(ss: seq<string>, verdicts: seq<bool>)
    requires ss != [] && |ss| == |verdicts|
    ensures Kept(ss, verdicts) == (if verdicts[0] then [ss[0]] else []) + Kept(ss[1..], verdicts[1..])
  {
  }

  /** Nothing is kept that has no good verdict. */
  lemma {:induction false} KeptOnly(sentences: seq<string>, verdicts: seq<bool>)
    requires |sentences| == |verdicts|
    ensures forall x :: x in Kept(sentences, verdicts) ==>
      exists i :: 0 <= i < |sentences| && sentences[i] == x && verdicts[i]
  {
    if sentences == [] {
    } else {
      KeptOnly(sentences[1..], verdicts[1..]);
      KeptUnfolds(sentences, verdicts);
      forall x | x in Kept(sentences, verdicts)
        ensures exists i :: 0 <= i < |sentences| && sentences[i] == x && verdicts[i]
      {
        if !(verdicts[0] && sentences[0] == x) {
          assert x in Kept(sentences[1..], verdicts[1..]);
          var i :| 0 <= i < |sentences[1..]| && sentences[1..][i] == x && verdicts[1..][i];
          assert sentences[i + 1] == x && verdicts[i + 1];
        }
      }
    }
  }

  /** Grounding only ever removes: what survives is exactly the sentences that pass, in order. */
  lemma {:induction false} GroundedIsFilter(o: Oracles, sentences: seq<string>, chunks: seq<ScoredChunk>)
    requires chunks != []
    ensures Grounded(o, sentences, chunks).None? <==>
            exists i :: 0 <= i < |sentences| && Passes(o, i, sentences[i], chunks).None?
    ensures Grounded(o, sentences, chunks).Some? ==>
      Grounded(o, sentences, chunks).value == Kept(sentences, Verdicts(o, sentences, chunks))
  {
    hide Passes, Kept;
    if sentences == [] {
      NothingKept();
    } else {
      var n := |sentences| - 1;
      var verdicts := Verdicts(o, sentences[..n], chunks);
      GroundedIsFilter(o, sentences[..n], chunks);
      KeptPush(sentences[..n], verdicts, sentences[n], Passes(o, n, sentences[n], chunks) == Some(true));
      assert sentences == sentences[..n] + [sentences[n]];
      assert Verdicts(o, sentences, chunks) == verdicts + [Passes(o, n, sentences[n], chunks) == Some(true)];
    }
  }

  lemma NothingKept()
    ensures Kept([], []) == []
  {
  }

  /** The raw generated text of an attempt. */
  ghost function Raw(o: Oracles): string
    requires o.generated.Some?
  {
    Strip(o.generated.value)
  }

  /** The delivered text is exactly the space-join of the cleaned sentences that passed grounding: nothing
      that was not checked is shown, and nothing that passed is lost or altered. */
  lemma AnswerIsJoinOfCheckedSentences(o: Oracles, chunks: seq<ScoredChunk>)
    requires chunks != [] && Attempt(o, chunks).Some?
    ensures Grounded(o, SplitSentences(Raw(o)), chunks).Some?
    ensures
      var grounded := Grounded(o, SplitSentences(Raw(o)), chunks).value;
      && grounded != []
      && grounded == Kept(SplitSentences(Raw(o)), Verdicts(o, SplitSentences(Raw(o)), chunks))
      && Attempt(o, chunks).value.text == Join(Cleaned(grounded))
      && Attempt(o, chunks).value.text != ""
  {
    hide StripMarkers, SplitSentences, Join, Kept;
    var sentences := SplitSentences(Raw(o));
    var grounded, verdicts := Grounded(o, sentences, chunks).value, Verdicts(o, sentences, chunks);
    GroundedIsFilter(o, sentences, chunks);
    KeptOnly(sentences, verdicts);
    forall k | 0 <= k < |grounded|
      ensures StripMarkers(grounded[k]) != ""
    {
      assert grounded[k] in Kept(sentences, verdicts);
      var i :| 0 <= i < |sentences| && sentences[i] == grounded[k] && verdicts[i];
      assert Passes(o, i, sentences[i], chunks) == Some(true);
    }
    CleaningCommutesWithJoin(grounded);
    JoinIsNotEmpty(Cleaned(grounded));
  }

  lemma JoinIsNotEmpty(ss: seq<string>)
    requires ss != [] && ss[0] != ""
    ensures Join(ss) != ""
  {
  }

  lemma {:induction false} KeptWords(sentences: seq<string>, verdicts: seq<bool>)
    requires |sentences| == |verdicts|
    requires forall i :: 0 <= i < |sentences| && !verdicts[i] ==> StripMarkers(sentences[i]) == ""
    ensures WordsOf(Kept(sentences, verdicts)) == WordsOf(sentences)
  {
    hide StripMarkers;
    if sentences == [] {
    } else {
      KeptWords(sentences[1..], verdicts[1..]);
      CleaningIsWords(sentences[0]);
      hide Words, Unmarked;
      var rest := Kept(sentences[1..], verdicts[1..]);
      if verdicts[0] {
        assert Kept(sentences, verdicts)[1..] == rest;
      } else {
        assert Kept(sentences, verdicts) == rest;
      }
    }
  }

  /** If every sentence that has any text passes, the caller is shown the whole generated answer, its
      markers removed: splitting, filtering, joining and stripping lose and invent nothing. */
  lemma FullyGroundedAnswerIsWhole(o: Oracles, chunks: seq<ScoredChunk>)
    requires chunks != [] && Attempt(o, chunks).Some?
    requires FullyGrounded(o, SplitSentences(Raw(o)), chunks)
    ensures Attempt(o, chunks).value.text == StripMarkers(Raw(o))
  {
    hide StripMarkers, SplitSentences, Join, Words, Unmarked, Passes;
    var sentences := SplitSentences(Raw(o));
    AnswerIsJoinOfCheckedSentences(o, chunks);
    var grounded := Grounded(o, sentences, chunks).value;
    KeptWords(sentences, Verdicts(o, sentences, chunks));
    SplitKeepsAll(Raw(o));
    JoinKeepsAll(grounded);
    CleaningIsWords(Join(grounded));
    CleaningIsWords(Raw(o));
  }

  ghost predicate MarkedSomewhere(ss: seq<string>, n: nat) {
    exists i :: 0 <= i < |ss| && n in Numbers(ss[i])
  }

  lemma {:induction false} NumbersOfMembers(ss: seq<string>)
    ensures forall n: nat :: n in NumbersOf(ss) <==> MarkedSomewhere(ss, n)
  {
    hide Numbers, MarkedSomewhere;
    if ss == [] {
      NothingMarked();
    } else {
      NumbersOfMembers(ss[1..]);
      forall n: nat
        ensures MarkedSomewhere(ss, n) <==> n in Numbers(ss[0]) || MarkedSomewhere(ss[1..], n)
      {
        MarkedFirstOrRest(ss, n);
      }
    }
  }

  lemma NothingMarked()
    ensures forall n: nat :: !MarkedSomewhere([], n)
  {
  }

  lemma MarkedFirstOrRest(ss: seq<string>, n: nat)
    requires ss != []
    ensures MarkedSomewhere(ss, n) <==> n in Numbers(ss[0]) || MarkedSomewhere(ss[1..], n)
  {
    hide Numbers;
    if MarkedSomewhere(ss[1..], n) {
      var i :| 0 <= i < |ss[1..]| && n in Numbers(ss[1..][i]);
      assert n in Numbers(ss[i + 1]);
    }
    if MarkedSomewhere(ss, n) && n !in Numbers(ss[0]) {
      var i :| 0 <= i < |ss| && n in Numbers(ss[i]);
      assert n in Numbers(ss[1..][i - 1]);
    }
  }

  /** Joining sentences forms no marker and destroys none: the markers of the join are those of the
      sentences, first-seen order, without repeats. */
  lemma MarkersOfJoin(ss: seq<string>)
    ensures Dedup(Numbers(Join(ss))) == Dedup(NumbersOf(ss))
  {
    JoinKeepsAll(ss);
  }

  /** The citations are exactly the in-range chunks that some surviving sentence marks, each once. A dropped
      sentence contributes none of its own. */
  lemma CitationsAreExact(o: Oracles, chunks: seq<ScoredChunk>)
    requires chunks != [] && Attempt(o, chunks).Some?
    ensures Grounded(o, SplitSentences(Raw(o)), chunks).Some?
    ensures
      var grounded := Grounded(o, SplitSentences(Raw(o)), chunks).value;
      var cited := Cited(Join(grounded), chunks);
      && Attempt(o, chunks).value.citations == CitationsAt(cited, chunks)
      && (forall i, j :: 0 <= i < j < |cited| ==> cited[i] != cited[j])
      && (forall p: nat :: p in cited <==>
            p < |chunks| && MarkedSomewhere(grounded, p + 1))
  {
    AttemptGenerated(o, chunks);
    hide *;
    CitedMembers(Grounded(o, SplitSentences(Raw(o)), chunks).value, chunks);
  }

  lemma CitedMembers(ss: seq<string>, chunks: seq<ScoredChunk>)
    ensures forall i, j :: 0 <= i < j < |Cited(Join(ss), chunks)| ==>
              Cited(Join(ss), chunks)[i] != Cited(Join(ss), chunks)[j]
    ensures forall p: nat :: p in Cited(Join(ss), chunks) <==> p < |chunks| && MarkedSomewhere(ss, p + 1)
  {
    hide Join, Numbers, NumbersOf, Positions, MarkedSomewhere, Dedup;
    JoinKeepsAll(ss);
    NumbersOfMembers(ss);
    PositionsOf(Dedup(NumbersOf(ss)), |chunks|);
  }

  /** The node never delivers a partial or unchecked answer: it declines, with no citations, or delivers the
      first attempt of at most three that holds up. Either way it reports the confidence it was given. */
  lemma NodeDeclinesOrDelivers(attempts: nat -> Oracles, chunks: seq<ScoredChunk>, confidence: Option<real>)
    ensures
      var r := Delivered(attempts, chunks, confidence);
      && r.routeTaken == "answer"
      && r.confidence == (if confidence.Some? then confidence.value else 0.0)
      && if chunks != [] && exists k: nat :: k < 3 && Attempt(attempts(k), chunks).Some?
         then exists k: nat ::
           && k < 3 && Attempt(attempts(k), chunks) == Some(Answer(r.answer, r.citations))
           && forall j: nat :: j < k ==> Attempt(attempts(j), chunks).None?
         else
           && r.answer == "I don't have enough grounded information from the available sources to answer this "
                          + "confidently."
           && r.citations == []
  {
    hide Attempt;
    if chunks != [] {
      var outcomes := Outcomes(attempts, chunks);
      var first := FirstSuccess(outcomes, 0);
      assert forall k: nat :: outcomes(k) == Attempt(attempts(k), chunks);
      if first.Some? {
        assert forall j: nat :: j < first.value ==> outcomes(j).None?;
      }
    }
  }

  ghost predicate MarkedWithText(ss: seq<string>, n: nat) {
    exists i :: 0 <= i < |ss| && StripMarkers(ss[i]) != "" && n in Numbers(ss[i])
  }

  /** Every sentence that has any text passes. */
  ghost predicate FullyGrounded(o: Oracles, sentences: seq<string>, chunks: seq<ScoredChunk>)
    requires chunks != []
  {
    forall i :: 0 <= i < |sentences| && StripMarkers(sentences[i]) != "" ==>
      Passes(o, i, sentences[i], chunks) == Some(true)
  }

  /** Even when every sentence with text passes, a citation can be lost: markers that stand in a sentence of
      their own, after the full stop, are dropped with it. Of the chunks the raw answer marks, one is cited
      exactly when some sentence that has text marks it. */
  lemma CitedIffMarkedWithText(o: Oracles, chunks: seq<ScoredChunk>, p: nat)
    requires chunks != [] && Attempt(o, chunks).Some? && p < |chunks|
    requires FullyGrounded(o, SplitSentences(Raw(o)), chunks)
    ensures p + 1 in Numbers(Raw(o)) <==> MarkedSomewhere(SplitSentences(Raw(o)), p + 1)
    ensures Grounded(o, SplitSentences(Raw(o)), chunks).Some?
    ensures p in Cited(Join(Grounded(o, SplitSentences(Raw(o)), chunks).value), chunks) <==>
            MarkedWithText(SplitSentences(Raw(o)), p + 1)
  {
    AttemptGenerated(o, chunks);
    hide *;
    var sentences := SplitSentences(Raw(o));
    CitationsAreExact(o, chunks);
    SplitKeepsAll(Raw(o));
    NumbersOfMembers(sentences);
    GroundedMarks(o, sentences, chunks, p + 1);
  }

  lemma AttemptGenerated(o: Oracles, chunks: seq<ScoredChunk>)
    requires Attempt(o, chunks).Some?
    ensures o.generated.Some?
    ensures
      var grounded := Grounded(o, SplitSentences(Raw(o)), chunks);
      && grounded.Some? && grounded.value != []
      && Attempt(o, chunks).value
         == Answer(StripMarkers(Join(grounded.value)), CitationsAt(Cited(Join(grounded.value), chunks), chunks))
  {
    hide StripMarkers, SplitSentences, Join, Grounded, Cited;
  }

  lemma {:induction false} GroundedMarks(o: Oracles, sentences: seq<string>, chunks: seq<ScoredChunk>, n: nat)
    requires chunks != [] && Grounded(o, sentences, chunks).Some? && FullyGrounded(o, sentences, chunks)
    ensures MarkedSomewhere(Grounded(o, sentences, chunks).value, n) <==> MarkedWithText(sentences, n)
  {
    hide StripMarkers, Numbers, Passes;
    if sentences == [] {
    } else {
      var k := |sentences| - 1;
      var before, last := sentences[..k], sentences[k];
      GroundedMarks(o, before, chunks, n);
      if StripMarkers(last) == "" {
        EmptyNeverPasses(o, k, last, chunks);
      }
      MarkedPush(before, last, n);
      MarkedPush(Grounded(o, before, chunks).value, last, n);
      assert sentences == before + [last];
    }
  }

  lemma MarkedPush(ss: seq<string>, last: string, n: nat)
    ensures MarkedSomewhere(ss + [last], n) <==> MarkedSomewhere(ss, n) || n in Numbers(last)
    ensures MarkedWithText(ss + [last], n) <==>
            MarkedWithText(ss, n) || (StripMarkers(last) != "" && n in Numbers(last))
  {
    hide StripMarkers, Numbers;
    var all := ss + [last];
    assert all[|ss|] == last;
    forall i | 0 <= i < |ss|
      ensures all[i] == ss[i]
    {
    }
  }

  lemma EmptyNeverPasses(o: Oracles, i: nat, sentence: string, chunks: seq<ScoredChunk>)
    requires chunks != [] && StripMarkers(sentence) == ""
    ensures Passes(o, i, sentence, chunks) == Some(false)
  {
  }

  /** The shape that loses one: "Up. [1]" marks chunk 1, in a second sentence with no text. */
  lemma MarkerAfterFullStop()
    ensures SplitSentences("Up. [1]") == ["Up.", "[1]"]
    ensures Numbers("[1]") == [1] && StripMarkers("[1]") == ""
  {
    SplitOfExample();
    MarkerOfExample();
    hide *;
    NothingToRead();
    CleaningIsWords("[1]");
  }

  /** So an attempt whose every sentence with text is grounded still answers without its citation. */
  lemma TrailingMarkerIsLost(o: Oracles, chunks: seq<ScoredChunk>)
    requires chunks != [] && o.sufficient == Some(true) && o.generated == Some("Up. [1]")
    requires Passes(o, 0, "Up.", chunks) == Some(true)
    ensures FullyGrounded(o, SplitSentences(Raw(o)), chunks) && Numbers(Raw(o)) == [1]
    ensures Attempt(o, chunks) == Some(Answer("Up.", []))
  {
    hide *;
    RawExample(o);
    MarkerAfterFullStop();
    GroundedExample(o, chunks);
    CitedExample(chunks);
    AttemptExample(o, chunks);
  }

  lemma RawExample(o: Oracles)
    requires o.generated == Some("Up. [1]")
    ensures Raw(o) == "Up. [1]" && Strip("Up. [1]") == "Up. [1]" && Numbers("Up. [1]") == [1]
  {
    hide *;
    NothingToStrip();
    NumbersOfExample();
    RawIs(o);
  }

  lemma RawIs(o: Oracles)
    requires o.generated.Some?
    ensures Raw(o) == Strip(o.generated.value)
  {
  }

  lemma NothingToStrip()
    ensures Strip("Up. [1]") == "Up. [1]"
  {
  }

  lemma NumbersOfExample()
    ensures Numbers("Up. [1]") == [1]
  {
    SpaceIsSpace();
    hide *;
    PlainExample();
    MarkerOfExample();
    SeamOfPieces("Up.", ' ', "[1]");
    var none: seq<nat> := [];
    assert "Up. [1]" == "Up." + [' '] + "[1]" && none + [1] == [1];
  }

  lemma SpaceIsSpace()
    ensures IsSpace(' ')
  {
  }

  lemma GroundedExample(o: Oracles, chunks: seq<ScoredChunk>)
    requires chunks != [] && Passes(o, 0, "Up.", chunks) == Some(true)
    requires StripMarkers("[1]") == ""
    ensures Grounded(o, ["Up.", "[1]"], chunks) == Some(["Up."]) && FullyGrounded(o, ["Up.", "[1]"], chunks)
  {
    hide Passes, StripMarkers, Grounded;
    EmptyNeverPasses(o, 1, "[1]", chunks);
    GroundedNone(o, chunks);
    var none: seq<string> := [];
    assert none + ["Up."] == ["Up."] && ["Up."] + ["[1]"] == ["Up.", "[1]"];
    GroundedPush(o, none, none, "Up.", true, chunks);
    GroundedPush(o, ["Up."], ["Up."], "[1]", false, chunks);
  }

  lemma GroundedNone(o: Oracles, chunks: seq<ScoredChunk>)
    ensures Grounded(o, [], chunks) == Some([])
  {
  }

  lemma GroundedPush(o: Oracles, before: seq<string>, kept: seq<string>, last: string, passes: bool,
                     chunks: seq<ScoredChunk>)
    requires chunks != [] && Grounded(o, before, chunks) == Some(kept)
    requires Passes(o, |before|, last, chunks) == Some(passes)
    ensures Grounded(o, before + [last], chunks) == Some(if passes then kept + [last] else kept)
  {
    hide Passes;
    assert (before + [last])[..|before|] == before;
  }

  lemma CitedExample(chunks: seq<ScoredChunk>)
    ensures Join(["Up."]) == "Up." && CitationsAt(Cited(Join(["Up."]), chunks), chunks) == []
  {
    PlainExample();
    hide Numbers;
    NothingToRead();
    assert Join(["Up."]) == "Up.";
    assert Cited("Up.", chunks) == [];
  }

  lemma AttemptExample(o: Oracles, chunks: seq<ScoredChunk>)
    requires o.sufficient == Some(true) && o.generated == Some("Up. [1]") && Strip("Up. [1]") == "Up. [1]"
    requires SplitSentences("Up. [1]") == ["Up.", "[1]"]
    requires Grounded(o, ["Up.", "[1]"], chunks) == Some(["Up."])
    requires Join(["Up."]) == "Up." && CitationsAt(Cited(Join(["Up."]), chunks), chunks) == []
    ensures Attempt(o, chunks) == Some(Answer("Up.", []))
  {
    hide Strip, SplitSentences, Grounded, Join, Cited, CitationsAt, StripMarkers;
    PlainExample();
    assert "Up. [1]"[0] != NO_ANSWER_MARKER[0];
  }

  lemma PlainExample()
    ensures Numbers("Up.") == [] && StripMarkers("Up.") == "Up."
  {
    PlainTextIsUnmarked("Up.");
    OneWord("Up.");
    hide *;
    CleaningIsWords("Up.");
    JoinOfOne("Up.");
  }

  lemma {:induction false} PlainTextIsUnmarked(t: string)
    requires forall i :: 0 <= i < |t| ==> t[i] != '['
    ensures Numbers(t) == [] && Unmarked(t) == t
  {
    hide Numbers, Unmarked;
    NothingToRead();
    if t == [] {
    } else {
      PlainTextIsUnmarked(t[1..]);
      PlainStep(t);
      assert t == [t[0]] + t[1..];
    }
  }

  lemma PlainStep(t: string)
    requires t != [] && t[0] != '['
    ensures Numbers(t) == Numbers(t[1..]) && Unmarked(t) == [t[0]] + Unmarked(t[1..])
  {
    assert MarkerLength(t) == 0;
    hide MarkerLength, Number;
    assert Pieces(t) == [Plain(t[0])] + Pieces(t[1..]);
    assert Pieces(t)[1..] == Pieces(t[1..]);
    var none: seq<nat> := [];
    assert none + Numbers(t[1..]) == Numbers(t[1..]);
  }

  lemma MarkerOfExample()
    ensures Numbers("[1]") == [1] && Unmarked("[1]") == ""
  {
    var m := "[1]";
    assert m[3..] == "" && m[1..2] == "1" && "1"[..0] == "";
    MarkerLengthOfExample();
    assert Number("1") == 1;
    hide MarkerLength, Number;
    assert Pieces(m[3..]) == [] && Pieces(m) == [Marker(1)];
    assert [Marker(1)][1..] == [];
  }

  lemma MarkerLengthOfExample()
    ensures MarkerLength("[1]") == 3
  {
    var m := "[1]";
    assert m[1..] == "1]" && m[1..][1..] == "]";
    assert DigitRun("]") == 0 && DigitRun("1]") == 1;
  }

  lemma SplitOfExample()
    ensures SplitSentences("Up. [1]") == ["Up.", "[1]"]
  {
    var t, m := "Up. [1]", "[1]";
    BreaksOfExample();
    assert Strip(t) == t;
    assert t[3 + 1..] == m && t[..3] == "Up.";
    hide FirstBreak, SpaceRun, Strip;
    assert RawSplit(m) == [m];
    assert RawSplit(t) == ["Up.", m];
    assert ["Up.", m][1..] == [m] && [m][1..] == [];
    assert NonEmpty([m]) == [m];
  }

  lemma BreaksOfExample()
    ensures FirstBreak("Up. [1]", 1) == 3 && SpaceRun("Up. [1]"[3..]) == 1
    ensures FirstBreak("[1]", 1) == 3
  {
    var t, m := "Up. [1]", "[1]";
    assert FirstBreak(t, 3) == 3 && FirstBreak(t, 2) == 3;
    assert t[3..] == " [1]" && t[3..][1..] == m;
    assert SpaceRun(m) == 0;
    assert FirstBreak(m, 3) == 3 && FirstBreak(m, 2) == 3;
  }
}
