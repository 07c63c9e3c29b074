/** What the scanners of AnswerText read and write, character by character: app/agents/answer/markers.py and
    app/agents/answer/grounding.py:40-54. */
module TextRules {
  import opened AnswerText

  // ---------- Characters ----------

  /** The whitespace of Python's `str`, by code point. */
  lemma WhitespaceIs(c: char)
    ensures IsSpace(c) <==>
      var code := c as int;
      || 9 <= code <= 13 || 28 <= code <= 32 || code in {133, 160, 5760} || 8192 <= code <= 8202
      || code in {8232, 8233, 8239, 8287, 12288}
  {
  }

  // ---------- Numerals ----------

  function Digit(d: nat): char
    requires d < 10
  {
    "0123456789"[d]
  }

  function Numeral(n: nat): (ds: string)
    ensures ds != []
  {
    if n < 10 then [Digit(n)] else Numeral(n / 10) + [Digit(n % 10)]
  }

  predicate AllDigits(ds: string) { forall i :: 0 <= i < |ds| ==> '0' <= ds[i] <= '9' }

  /** The decimal numeral of a number reads as that number, with any number of zeros in front. */
  lemma {:induction false} NumeralReads(n: nat)
    ensures AllDigits(Numeral(n)) && Number(Numeral(n)) == n
  {
    if n < 10 {
      DigitReads([], n);
    } else {
      NumeralReads(n / 10);
      DigitReads(Numeral(n / 10), n % 10);
    }
  }

  lemma DigitReads(ds: string, d: nat)
    requires AllDigits(ds) && d < 10
    ensures AllDigits(ds + [Digit(d)]) && Number(ds + [Digit(d)]) == 10 * Number(ds) + d
  {
    assert (ds + [Digit(d)])[..|ds|] == ds;
    assert Number("") == 0;
  }

  lemma {:induction false} LeadingZeroReads(ds: string)
    requires AllDigits(ds)
    ensures AllDigits("0" + ds) && Number("0" + ds) == Number(ds)
  {
    var all := "0" + ds;
    if ds == [] {
      assert all[..0] == "" && Number("") == 0;
    } else {
      assert all[..|ds|] == "0" + ds[..|ds| - 1];
      LeadingZeroReads(ds[..|ds| - 1]);
    }
  }

  // ---------- Markers ----------

  /** A marker stands at `i`: an opening bracket, one digit or more, a closing bracket at `j`. */
  ghost predicate MarkerAt(t: string, i: nat, j: nat) {
    i + 1 < j < |t| && t[i] == '[' && t[j] == ']' && AllDigits(t[i + 1..j])
  }

  /** A text in which no marker stands has no numbers and loses nothing. */
  lemma {:induction false} NoMarkerNothingRead(t: string)
    requires forall i: nat, j: nat :: !MarkerAt(t, i, j)
    ensures Numbers(t) == [] && Unmarked(t) == t
  {
    hide MarkerAt, Numbers, Unmarked, MarkerLength;
    NothingToRead();
    if t == [] {
    } else {
      NoMarkerHere(t);
      forall i: nat, j: nat
        ensures !MarkerAt(t[1..], i, j)
      {
        MarkerShifts(t, i, j);
      }
      NoMarkerNothingRead(t[1..]);
      PlainFirst(t);
      assert [t[0]] + t[1..] == t;
    }
  }

  lemma MarkerShifts(t: string, i: nat, j: nat)
    requires t != []
    ensures MarkerAt(t[1..], i, j) ==> MarkerAt(t, i + 1, j + 1)
  {
    if MarkerAt(t[1..], i, j) {
      assert t[1..][i + 1..j] == t[i + 2..j + 1];
    }
  }

  lemma NoMarkerHere(t: string)
    requires t != [] && forall i: nat, j: nat :: !MarkerAt(t, i, j)
    ensures MarkerLength(t) == 0
  {
    var n := MarkerLength(t);
    if n > 0 {
      MarkerHere(t);
    }
  }

  lemma MarkerHere(t: string)
    requires MarkerLength(t) > 0
    ensures MarkerAt(t, 0, MarkerLength(t) - 1)
  {
    var d := DigitRun(t[1..]);
    assert forall i :: 0 <= i < d ==> t[1..d + 1][i] == t[1..][i];
  }

  lemma PlainFirst(t: string)
    requires t != [] && MarkerLength(t) == 0
    ensures Numbers(t) == Numbers(t[1..]) && Unmarked(t) == [t[0]] + Unmarked(t[1..])
  {
    hide MarkerLength, Number;
    assert Pieces(t) == [Plain(t[0])] + Pieces(t[1..]);
    assert Pieces(t)[1..] == Pieces(t[1..]);
    var none: seq<nat> := [];
    assert none + Numbers(t[1..]) == Numbers(t[1..]);
  }

  lemma {:induction false} DigitsRun(ds: string, w: char, rest: string)
    requires AllDigits(ds) && !('0' <= w <= '9')
    ensures DigitRun(ds + [w] + rest) == |ds|
  {
    var u := ds + [w] + rest;
    if ds == [] {
      assert u[0] == w;
    } else {
      assert u[0] == ds[0] && u[1..] == ds[1..] + [w] + rest;
      DigitsRun(ds[1..], w, rest);
    }
  }

  /** A marker at the very front is read and cut out. */
  lemma MarkerFirst(ds: string, b: string)
    requires ds != [] && AllDigits(ds)
    ensures Pieces("[" + ds + "]" + b) == [Marker(Number(ds))] + Pieces(b)
  {
    var t := "[" + ds + "]" + b;
    assert t[1..] == ds + [']'] + b;
    DigitsRun(ds, ']', b);
    assert MarkerLength(t) == |ds| + 2;
    hide MarkerLength, Number;
    assert t[1..|ds| + 1] == ds && t[|ds| + 2..] == b;
  }

  lemma {:induction false} DigitRunBeforeBracket(t: string, rest: string)
    ensures DigitRun(t + ['['] + rest) == DigitRun(t)
  {
    var u := t + ['['] + rest;
    if t == [] {
      assert u[0] == '[';
    } else {
      assert u[0] == t[0] && u[1..] == t[1..] + ['['] + rest;
      DigitRunBeforeBracket(t[1..], rest);
    }
  }

  lemma MarkerLengthBeforeBracket(a: string, rest: string)
    requires a != []
    ensures MarkerLength(a + ['['] + rest) == MarkerLength(a)
  {
    var u := a + ['['] + rest;
    assert u[0] == a[0] && u[1..] == a[1..] + ['['] + rest;
    DigitRunBeforeBracket(a[1..], rest);
    var d := DigitRun(a[1..]);
    if d + 1 < |a| {
      assert u[d + 1] == a[d + 1];
    } else {
      assert u[d + 1] == '[';
    }
  }

  lemma {:induction false} PiecesAtMarker(a: string, ds: string, b: string)
    requires ds != [] && AllDigits(ds)
    ensures Pieces(a + ("[" + ds + "]" + b)) == Pieces(a) + [Marker(Number(ds))] + Pieces(b)
    decreases |a|
  {
    hide MarkerLength, Number, Pieces;
    var tail := "[" + ds + "]" + b;
    MarkerFirst(ds, b);
    if a == [] {
      NoPieces();
      assert a + tail == tail && [] + [Marker(Number(ds))] == [Marker(Number(ds))];
    } else {
      var u, n := a + tail, MarkerLength(a);
      assert tail == ['['] + tail[1..] && u == a + ['['] + tail[1..];
      MarkerLengthBeforeBracket(a, tail[1..]);
      PiecesUnfold(a);
      PiecesUnfold(u);
      if n > 0 {
        assert u[n..] == a[n..] + tail && u[1..n - 1] == a[1..n - 1];
        PiecesAtMarker(a[n..], ds, b);
        Regroup([Marker(Number(a[1..n - 1]))], Pieces(a[n..]), [Marker(Number(ds))], Pieces(b));
      } else {
        assert u[0] == a[0] && u[1..] == a[1..] + tail;
        PiecesAtMarker(a[1..], ds, b);
        Regroup([Plain(a[0])], Pieces(a[1..]), [Marker(Number(ds))], Pieces(b));
      }
    }
  }

  lemma NoPieces()
    ensures Pieces("") == []
  {
  }

  lemma PiecesUnfold(t: string)
    requires t != []
    ensures MarkerLength(t) > 0 ==>
      Pieces(t) == [Marker(Number(t[1..MarkerLength(t) - 1]))] + Pieces(t[MarkerLength(t)..])
    ensures MarkerLength(t) == 0 ==> Pieces(t) == [Plain(t[0])] + Pieces(t[1..])
  {
    hide MarkerLength, Number;
  }

  /** Wherever a marker stands, its number is read there and its characters, and no others, are cut out. */
  lemma MarkerIsCutOut(a: string, ds: string, b: string)
    requires ds != [] && AllDigits(ds)
    ensures Numbers(a + ("[" + ds + "]" + b)) == Numbers(a) + [Number(ds)] + Numbers(b)
    ensures Unmarked(a + ("[" + ds + "]" + b)) == Unmarked(a) + Unmarked(b)
  {
    PiecesAtMarker(a, ds, b);
    OneMarker(Number(ds));
    hide *;
    var mark := [Marker(Number(ds))];
    PlainConcat(Pieces(a) + mark, Pieces(b));
    PlainConcat(Pieces(a), mark);
    ReadsPieces(a + ("[" + ds + "]" + b));
    ReadsPieces(a);
    ReadsPieces(b);
    assert Unmarked(a) + "" == Unmarked(a);
  }

  lemma OneMarker(n: nat)
    ensures NumbersIn([Marker(n)]) == [n] && PlainIn([Marker(n)]) == ""
  {
    var one := [Marker(n)];
    assert one[1..] == [];
  }

  lemma ReadsPieces(t: string)
    ensures Numbers(t) == NumbersIn(Pieces(t)) && Unmarked(t) == PlainIn(Pieces(t))
  {
  }

  // ---------- First-seen order ----------

  ghost function Without(ns: seq<nat>, n: nat): seq<nat> {
    if ns == [] then [] else (if ns[0] == n then [] else [ns[0]]) + Without(ns[1..], n)
  }

  /** The reference for `seen`: take the first number, then those of the rest that differ from it. */
  ghost function FirstSeen(ns: seq<nat>): seq<nat> {
    if ns == [] then [] else [ns[0]] + Without(FirstSeen(ns[1..]), ns[0])
  }

  lemma {:induction false} WithoutPush(ns: seq<nat>, last: nat, n: nat)
    ensures Without(ns + [last], n) == Without(ns, n) + (if last == n then [] else [last])
    ensures forall x :: x in Without(ns, n) <==> x in ns && x != n
  {
    var all := ns + [last];
    if ns == [] {
      assert all[1..] == [] && Without(all[1..], n) == [];
    } else {
      assert all[0] == ns[0] && all[1..] == ns[1..] + [last];
      WithoutPush(ns[1..], last, n);
      assert ns == [ns[0]] + ns[1..];
    }
  }

  lemma {:induction false} FirstSeenPush(ns: seq<nat>, n: nat)
    ensures FirstSeen(ns + [n]) == FirstSeen(ns) + (if n in ns then [] else [n])
    ensures forall x :: x in FirstSeen(ns) <==> x in ns
  {
    var all := ns + [n];
    if ns == [] {
      assert all[1..] == [] && FirstSeen(all[1..]) == [] && Without([], n) == [];
    } else {
      assert all[0] == ns[0] && all[1..] == ns[1..] + [n] && ns == [ns[0]] + ns[1..];
      FirstSeenPush(ns[1..], n);
      WithoutPush(FirstSeen(ns[1..]), n, ns[0]);
      if n in ns[1..] {
        assert FirstSeen(ns[1..]) + [] == FirstSeen(ns[1..]);
      }
    }
  }

  lemma {:induction false} DedupIsFirstSeen(ns: seq<nat>)
    ensures Dedup(ns) == FirstSeen(ns)
  {
    if ns == [] {
    } else {
      var before, last := ns[..|ns| - 1], ns[|ns| - 1];
      DedupIsFirstSeen(before);
      FirstSeenPush(before, last);
      assert ns == before + [last];
      DedupPush(before, last);
    }
  }

  // ---------- Stripping ----------

  /** Stripping takes whitespace off both ends, and all of it. */
  lemma StripTakesWhitespaceOff(t: string) returns (left: string, right: string)
    ensures AllSpace(left) && AllSpace(right) && t == left + Strip(t) + right
    ensures Strip(t) != "" ==> !IsSpace(Strip(t)[0]) && !IsSpace(Strip(t)[|Strip(t)| - 1])
  {
    hide IsSpace;
    left := StripLeftIs(t);
    right := StripRightIs(StripLeft(t));
  }

  lemma {:induction false} StripLeftIs(t: string) returns (left: string)
    ensures AllSpace(left) && t == left + StripLeft(t) && (StripLeft(t) != "" ==> !IsSpace(StripLeft(t)[0]))
  {
    hide IsSpace;
    if t != [] && IsSpace(t[0]) {
      var rest := StripLeftIs(t[1..]);
      left := [t[0]] + rest;
    } else {
      left := "";
    }
  }

  lemma {:induction false} StripRightIs(t: string) returns (right: string)
    ensures AllSpace(right) && t == StripRight(t) + right
    ensures StripRight(t) != "" ==> !IsSpace(StripRight(t)[|StripRight(t)| - 1]) && StripRight(t)[0] == t[0]
  {
    hide IsSpace;
    if t != [] && IsSpace(t[|t| - 1]) {
      var rest := StripRightIs(t[..|t| - 1]);
      right := rest + [t[|t| - 1]];
    } else {
      right := "";
    }
  }

  // ---------- Sentences ----------

  /** A sentence may end before `j`: whitespace that follows a full stop, an exclamation or a question mark. */
  predicate BreakAt(t: string, j: nat) {
    1 <= j < |t| && IsSpace(t[j]) && (t[j - 1] == '.' || t[j - 1] == '!' || t[j - 1] == '?')
  }

  /** The text is the sentences with a run of whitespace between each and the next. */
  ghost predicate Spaced(t: string, ss: seq<string>)
    decreases |ss|
  {
    if |ss| == 0 then t == ""
    else if |ss| == 1 then t == ss[0]
    else exists n: nat :: |ss[0]| < n <= |t| && CutAt(t, ss[0], n) && Spaced(t[n..], ss[1..])
  }

  ghost predicate CutAt(t: string, s: string, n: nat)
    requires |s| < n <= |t|
  {
    t[..|s|] == s && AllSpace(t[|s|..n]) && (n < |t| ==> !IsSpace(t[n]))
  }

  ghost predicate IsSplit(t: string, ss: seq<string>) {
    && Spaced(t, ss)
    && (forall k :: 0 <= k < |ss| ==> ss[k] != "" && forall j: nat :: !BreakAt(ss[k], j))
    && forall k :: 0 <= k < |ss| - 1 ==>
         var last := ss[k][|ss[k]| - 1]; last == '.' || last == '!' || last == '?'
  }

  lemma {:induction false} FirstBreakIsFirst(t: string, from: nat)
    requires 1 <= from
    ensures forall j: nat :: from <= j < FirstBreak(t, from) ==> !BreakAt(t, j)
    ensures from < |t| && FirstBreak(t, from) < |t| ==> BreakAt(t, FirstBreak(t, from))
    decreases |t| - from
  {
    hide IsSpace;
    if from >= |t| || (IsSpace(t[from]) && EndsSentence(t[from - 1])) {
    } else {
      FirstBreakIsFirst(t, from + 1);
    }
  }

  lemma {:induction false} RawSplitIsSplit(t: string)
    requires t != "" && !IsSpace(t[|t| - 1])
    ensures IsSplit(t, RawSplit(t)) && RawSplit(t) != []
    decreases |t|
  {
    hide IsSpace, IsSplit, BreakAt, RawSplit, CutAt;
    FirstBreakIsFirst(t, 1);
    RawSplitUnfolds(t);
    var i := FirstBreak(t, 1);
    if i >= |t| {
      WholeIsSplit(t);
    } else {
      FirstCut(t, i);
      var n := i + SpaceRun(t[i..]);
      RawSplitIsSplit(t[n..]);
      SplitPush(t, t[..i], n, RawSplit(t[n..]));
    }
  }

  lemma RawSplitUnfolds(t: string)
    ensures FirstBreak(t, 1) >= |t| ==> RawSplit(t) == [t]
    ensures FirstBreak(t, 1) < |t| ==>
      var i := FirstBreak(t, 1);
      RawSplit(t) == [t[..i]] + RawSplit(RestAfter(t, i))
  {
    hide FirstBreak, RestAfter, EndsSentence, IsSpace;
  }

  lemma WholeIsSplit(t: string)
    requires t != "" && forall j: nat :: 1 <= j < |t| ==> !BreakAt(t, j)
    ensures IsSplit(t, [t])
  {
    hide IsSpace;
  }

  lemma FirstCut(t: string, i: nat)
    requires BreakAt(t, i) && !IsSpace(t[|t| - 1]) && forall j: nat :: 1 <= j < i ==> !BreakAt(t, j)
    ensures
      var s, n := t[..i], i + SpaceRun(t[i..]);
      && i < n < |t| && CutAt(t, s, n) && s != ""
      && (forall j: nat :: !BreakAt(s, j))
      && (s[|s| - 1] == '.' || s[|s| - 1] == '!' || s[|s| - 1] == '?')
  {
    hide IsSpace;
    SpaceRunIs(t, i);
    forall j: nat
      ensures !BreakAt(t[..i], j)
    {
      BreakInPrefix(t, i, j);
    }
  }

  lemma BreakInPrefix(t: string, i: nat, j: nat)
    requires i <= |t|
    ensures BreakAt(t[..i], j) ==> BreakAt(t, j) && j < i
  {
    hide IsSpace;
  }

  lemma SpaceRunIs(t: string, i: nat)
    requires i < |t| && IsSpace(t[i]) && !IsSpace(t[|t| - 1])
    ensures i < i + SpaceRun(t[i..]) < |t|
    ensures AllSpace(t[i..i + SpaceRun(t[i..])]) && !IsSpace(t[i + SpaceRun(t[i..])])
  {
    hide IsSpace;
    var n := SpaceRun(t[i..]);
    assert t[i..][..n] == t[i..i + n];
    assert t[i..][0] == t[i] && t[i..][|t| - 1 - i] == t[|t| - 1];
    assert n > 0 ==> t[i..][..n][n - 1] == t[i + n - 1];
  }

  lemma SplitPush(t: string, s: string, n: nat, rest: seq<string>)
    requires |s| < n < |t| && CutAt(t, s, n) && IsSplit(t[n..], rest) && rest != []
    requires s != "" && forall j: nat :: !BreakAt(s, j)
    requires s[|s| - 1] == '.' || s[|s| - 1] == '!' || s[|s| - 1] == '?'
    ensures IsSplit(t, [s] + rest)
  {
    hide IsSpace, CutAt, BreakAt;
    var all := [s] + rest;
    assert all[1..] == rest && all[0] == s;
    assert Spaced(t, all);
  }

  /** Sentences end where the text says, and only there: the stripped text is cut at every run of whitespace
      that follows a full stop, an exclamation or a question mark, and nowhere else. */
  lemma SentencesAreCutAtBreaks(t: string)
    ensures IsSplit(Strip(t), SplitSentences(t))
  {
    hide IsSpace, RawSplit;
    var left, right := StripTakesWhitespaceOff(t);
    hide Strip;
    var u := Strip(t);
    if u == "" {
      EmptySplit();
    } else {
      RawSplitIsSplit(u);
      NonEmptyIsAll(RawSplit(u));
    }
  }

  lemma EmptySplit()
    ensures NonEmpty(RawSplit("")) == [] && IsSplit("", [])
  {
    assert RawSplit("") == [""];
    assert [""][1..] == [];
  }

  lemma {:induction false} NonEmptyIsAll(ss: seq<string>)
    requires forall k :: 0 <= k < |ss| ==> ss[k] != ""
    ensures NonEmpty(ss) == ss
  {
    if ss == [] {
    } else {
      NonEmptyIsAll(ss[1..]);
      assert ss == [ss[0]] + ss[1..];
    }
  }

  // ---------- Words ----------

  /** Words are what whitespace separates: spaceless texts joined by spaces come apart again as they were. */
  lemma {:induction false} WordsOfJoin(ws: seq<string>)
    requires forall i :: 0 <= i < |ws| ==> ws[i] != "" && forall j :: 0 <= j < |ws[i]| ==> !IsSpace(ws[i][j])
    ensures Words(Join(ws)) == ws
  {
    hide IsSpace;
    if ws == [] {
      NothingToRead();
    } else {
      OneWord(ws[0]);
      WordsOfJoin(ws[1..]);
      if |ws| == 1 {
        assert ws == [ws[0]];
      } else {
        SpaceIsOne();
        SeamOfWords(ws[0], ' ', Join(ws[1..]));
        assert ws[0] + [' '] + Join(ws[1..]) == Join(ws) && [ws[0]] + ws[1..] == ws;
      }
    }
  }

  lemma SpaceIsOne()
    ensures IsSpace(' ')
  {
  }
}
