/** Citation markers, whitespace and sentences: app/agents/answer/markers.py and the sentence splitter of
    app/agents/answer/grounding.py. The regular expressions are written out as scanners. Digits are the
    ASCII ones; whitespace is every character Python's `str.isspace` accepts. */
module AnswerText {

  predicate IsSpace(c: char) {
    || '\U{9}' <= c <= '\U{D}' || '\U{1C}' <= c <= '\U{20}' || c == '\U{85}' || c == '\U{A0}'
    || c == '\U{1680}' || '\U{2000}' <= c <= '\U{200A}' || c == '\U{2028}' || c == '\U{2029}'
    || c == '\U{202F}' || c == '\U{205F}' || c == '\U{3000}'
  }

  predicate IsDigit(c: char) { '0' <= c <= '9' }

  predicate EndsSentence(c: char) { c == '.' || c == '!' || c == '?' }

  lemma SpaceIsNoMarker(c: char)
    requires IsSpace(c)
    ensures c != '[' && c != ']' && !IsDigit(c)
  {
  }

  predicate AllSpace(s: string) { forall i :: 0 <= i < |s| ==> IsSpace(s[i]) }

  // ---------- Markers ----------

  function DigitRun(t: string): (n: nat)
    ensures n <= |t| && (forall i :: 0 <= i < n ==> IsDigit(t[i])) && (n < |t| ==> !IsDigit(t[n]))
  {
    if t == [] || !IsDigit(t[0]) then 0 else 1 + DigitRun(t[1..])
  }

  /** How long a match of `\[(\d+)\]` at the very start of `t` is; 0 if there is none. */
  function MarkerLength(t: string): (n: nat)
    ensures n <= |t| && (n > 0 ==> n >= 3 && forall i :: 1 <= i < n - 1 ==> IsDigit(t[i]))
  {
    if t == [] || t[0] != '[' then 0 else
      var d := DigitRun(t[1..]);
      assert forall i :: 0 <= i < d ==> t[i + 1] == t[1..][i];
      if d > 0 && d + 1 < |t| && t[d + 1] == ']' then d + 2 else 0
  }

  function Number(digits: string): nat
    requires forall i :: 0 <= i < |digits| ==> IsDigit(digits[i])
  {
    if digits == [] then 0 else
      assert IsDigit(digits[|digits| - 1]);
      10 * Number(digits[..|digits| - 1]) + (digits[|digits| - 1] as int - '0' as int)
  }

  /** A text read from left to right as markers and other characters. */
  datatype Piece = Marker(number: nat) | Plain(c: char)

  function Pieces(t: string): seq<Piece> {
    if t == [] then [] else
      var n := MarkerLength(t);
      if n > 0 then [Marker(Number(t[1..n - 1]))] + Pieces(t[n..]) else [Plain(t[0])] + Pieces(t[1..])
  }

  function NumbersIn(ps: seq<Piece>): seq<nat> {
    if ps == [] then [] else (if ps[0].Marker? then [ps[0].number] else []) + NumbersIn(ps[1..])
  }

  function PlainIn(ps: seq<Piece>): string {
    if ps == [] then [] else (if ps[0].Plain? then [ps[0].c] else []) + PlainIn(ps[1..])
  }

  /** Every marker number of a text, in order, repeats included. */
  function Numbers(t: string): seq<nat> { NumbersIn(Pieces(t)) }

  /** The text with its markers cut out. */
  function Unmarked(t: string): string { PlainIn(Pieces(t)) }

  /** The distinct numbers of a list, in the order they are first seen. */
  function Dedup(ns: seq<nat>): (r: seq<nat>)
    ensures forall n :: n in r <==> n in ns
    ensures forall i, j :: 0 <= i < j < |r| ==> r[i] != r[j]
  {
    if ns == [] then [] else
      assert ns == ns[..|ns| - 1] + [ns[|ns| - 1]];
      var before, last := Dedup(ns[..|ns| - 1]), ns[|ns| - 1];
      if last in before then before else before + [last]
  }

  method ExtractCitationMarkers(text: string) returns (seen: seq<nat>)
    ensures seen == Dedup(Numbers(text))
  {
    hide Numbers, MarkerLength, Number, Dedup;
    seen := [];
    var at := 0;
    ghost var numbers: seq<nat> := [];
    assert text[at..] == text && numbers + Numbers(text) == Numbers(text);
    NothingToRead();
    while at < |text|
      invariant 0 <= at <= |text|
      invariant numbers + Numbers(text[at..]) == Numbers(text)
      invariant seen == Dedup(numbers)
    {
      var rest := text[at..];
      var n := MarkerLength(rest);
      PiecesStep(rest);
      if n > 0 {
        var number := Number(rest[1..n - 1]);
        assert rest[n..] == text[at + n..];
        DedupPush(numbers, number);
        assert numbers + ([number] + Numbers(rest[n..])) == numbers + [number] + Numbers(rest[n..]);
        numbers := numbers + [number];
        if number !in seen {
          seen := seen + [number];
        }
        at := at + n;
      } else {
        assert rest[1..] == text[at + 1..];
        at := at + 1;
      }
    }
    assert text[at..] == [] && numbers + [] == numbers;
  }

  lemma NothingToRead()
    ensures Numbers("") == [] && Unmarked("") == "" && Words("") == [] && Dedup([]) == [] && Join([]) == ""
  {
  }

  lemma DedupPush(ns: seq<nat>, n: nat)
    ensures Dedup(ns + [n]) == if n in Dedup(ns) then Dedup(ns) else Dedup(ns) + [n]
  {
    assert (ns + [n])[..|ns|] == ns;
  }

  lemma PiecesStep(t: string)
    requires t != []
    ensures MarkerLength(t) > 0 ==> Numbers(t) == [Number(t[1..MarkerLength(t) - 1])] + Numbers(t[MarkerLength(t)..])
    ensures MarkerLength(t) == 0 ==> Numbers(t) == Numbers(t[1..])
  {
    var n := MarkerLength(t);
    if n > 0 {
      assert Pieces(t)[1..] == Pieces(t[n..]);
    } else {
      assert Pieces(t)[1..] == Pieces(t[1..]);
    }
  }

  // ---------- Whitespace ----------

  /** Every run of whitespace becomes one space. */
  function Collapse(t: string): string {
    if t == [] then []
    else if !IsSpace(t[0]) then [t[0]] + Collapse(t[1..])
    else if |t| > 1 && IsSpace(t[1]) then Collapse(t[1..])
    else " " + Collapse(t[1..])
  }

  function StripLeft(t: string): string {
    if t != [] && IsSpace(t[0]) then StripLeft(t[1..]) else t
  }

  function StripRight(t: string): string {
    if t != [] && IsSpace(t[|t| - 1]) then StripRight(t[..|t| - 1]) else t
  }

  function Strip(t: string): string { StripRight(StripLeft(t)) }

  /** `strip_markers` */
  function StripMarkers(t: string): string { Strip(Collapse(Unmarked(t))) }

  /** The whitespace-separated words of a text: the reference that cleaning is measured against. */
  function Words(t: string): (ws: seq<string>)
    ensures t != [] && !IsSpace(t[0]) ==> ws != []
    ensures forall i :: 0 <= i < |ws| ==> ws[i] != [] && forall j :: 0 <= j < |ws[i]| ==> !IsSpace(ws[i][j])
  {
    if t == [] then []
    else if IsSpace(t[0]) then Words(t[1..])
    else if |t| == 1 || IsSpace(t[1]) then [[t[0]]] + Words(t[1..])
    else
      var rest := Words(t[1..]);
      [[t[0]] + rest[0]] + rest[1..]
  }

  /** `" ".join(ss)` */
  function Join(ss: seq<string>): string {
    if ss == [] then [] else if |ss| == 1 then ss[0] else ss[0] + " " + Join(ss[1..])
  }

  lemma {:induction false} JoinConcat(a: seq<string>, b: seq<string>)
    ensures a == [] ==> Join(a + b) == Join(b)
    ensures b == [] ==> Join(a + b) == Join(a)
    ensures a != [] && b != [] ==> Join(a + b) == Join(a) + " " + Join(b)
  {
    if a == [] {
      assert a + b == b;
    } else if b == [] {
      assert a + b == a;
    } else {
      assert (a + b)[1..] == a[1..] + b;
      JoinConcat(a[1..], b);
    }
  }

  /** A join of words starts and ends with a non-space. */
  lemma {:induction false} JoinOfWords(ws: seq<string>)
    requires ws != []
    requires forall i :: 0 <= i < |ws| ==> ws[i] != [] && forall j :: 0 <= j < |ws[i]| ==> !IsSpace(ws[i][j])
    ensures Join(ws) != [] && !IsSpace(Join(ws)[0]) && !IsSpace(Join(ws)[|Join(ws)| - 1])
  {
    if |ws| > 1 {
      JoinOfWords(ws[1..]);
    }
  }

  function Lead(t: string): string { if t != [] && IsSpace(t[0]) then " " else "" }

  function Trail(t: string): string { if Words(t) != [] && IsSpace(t[|t| - 1]) then " " else "" }

  ghost predicate CollapsesToWords(t: string) {
    Collapse(t) == Lead(t) + Join(Words(t)) + Trail(t)
  }

  lemma {:induction false} CollapseIsJoin(t: string)
    requires t != []
    ensures CollapsesToWords(t)
  {
    hide CollapsesToWords;
    if |t| == 1 {
      CollapseOne(t);
    } else {
      CollapseIsJoin(t[1..]);
      if IsSpace(t[0]) {
        CollapseAfterSpace(t);
      } else if IsSpace(t[1]) {
        CollapseBeforeSpace(t);
      } else {
        CollapseInWord(t);
      }
    }
  }

  lemma Reassociate(a: string, b: string, c: string, d: string)
    ensures a + (b + c + d) == a + b + c + d
    ensures a + (b + c) == a + b + c
    ensures "" + a == a && a + "" == a
  {
  }

  lemma CollapseOne(t: string)
    requires |t| == 1
    ensures CollapsesToWords(t)
  {
    hide IsSpace, Join;
    assert t[1..] == "" && Collapse("") == "" && Words("") == [] && [t[0]] == t;
    assert [[t[0]]] + [] == [t];
    JoinOfNone();
    JoinOfOne(t);
    Reassociate(t, "", "", "");
    Reassociate(" ", "", "", "");
  }

  lemma CollapseAfterSpace(t: string)
    requires |t| > 1 && IsSpace(t[0]) && CollapsesToWords(t[1..])
    ensures CollapsesToWords(t)
  {
    var rest := t[1..];
    assert Words(t) == Words(rest) && rest[|rest| - 1] == t[|t| - 1] && Trail(t) == Trail(rest);
    assert Collapse(t) == if IsSpace(t[1]) then Collapse(rest) else " " + Collapse(rest);
    assert Lead(t) == " " && Lead(rest) == if IsSpace(t[1]) then " " else "";
    hide IsSpace, Join, Words, Collapse, Lead, Trail;
    var join, trail := Join(Words(rest)), Trail(rest);
    Reassociate(" ", "", join, trail);
    Reassociate(join, "", "", "");
    Reassociate(" ", join, trail, "");
  }

  lemma CollapseBeforeSpace(t: string)
    requires |t| > 1 && !IsSpace(t[0]) && IsSpace(t[1]) && CollapsesToWords(t[1..])
    ensures CollapsesToWords(t)
  {
    var rest, first := t[1..], [t[0]];
    assert Words(t) == [first] + Words(rest) && rest[|rest| - 1] == t[|t| - 1];
    assert Collapse(t) == first + Collapse(rest) && Lead(t) == "" && Lead(rest) == " ";
    if Words(rest) == [] {
      NoWordsAllSpace(rest);
      assert Trail(rest) == "" && Trail(t) == " ";
    } else {
      assert Trail(rest) == Trail(t);
    }
    hide IsSpace, Join, Words, Collapse, Lead, Trail;
    JoinConcat([first], Words(rest));
    JoinOfOne(first);
    JoinOfNone();
    Reassociate(first, " ", Join(Words(rest)), Trail(rest));
    Reassociate(first, "", "", "");
    Reassociate(" ", "", "", "");
  }

  lemma CollapseInWord(t: string)
    requires |t| > 1 && !IsSpace(t[0]) && !IsSpace(t[1]) && CollapsesToWords(t[1..])
    ensures CollapsesToWords(t)
  {
    var rest, first := t[1..], [t[0]];
    var ws := Words(rest);
    assert Words(t) == [first + ws[0]] + ws[1..] && rest[|rest| - 1] == t[|t| - 1] && Trail(t) == Trail(rest);
    assert Collapse(t) == first + Collapse(rest) && Lead(t) == "" && Lead(rest) == "";
    FirstWordGrows(t[0], ws);
    hide IsSpace, Join, Words, Collapse, Lead, Trail;
    Reassociate(first, "", Join(ws), Trail(rest));
    Reassociate(first, "", "", "");
    Reassociate(first + Join(ws), "", "", "");
  }

  lemma JoinOfNone()
    ensures Join([]) == ""
  {
  }

  lemma JoinOfOne(s: string)
    ensures Join([s]) == s
  {
  }

  lemma JoinUnfolds(ss: seq<string>)
    requires ss != []
    ensures Join(ss) == if |ss| == 1 then ss[0] else ss[0] + " " + Join(ss[1..])
  {
  }

  lemma MoveBracket(a: string, b: string, c: string, d: string)
    ensures a + b + c + d == a + (b + c + d)
  {
  }

  lemma FirstWordGrows(c: char, ws: seq<string>)
    requires ws != []
    ensures Join([[c] + ws[0]] + ws[1..]) == [c] + Join(ws)
  {
    hide Join;
    var grown := [[c] + ws[0]] + ws[1..];
    assert grown[0] == [c] + ws[0] && grown[1..] == ws[1..] && |grown| == |ws|;
    JoinUnfolds(ws);
    JoinUnfolds(grown);
    if |ws| > 1 {
      MoveBracket([c], ws[0], " ", Join(ws[1..]));
    }
  }

  lemma {:induction false} NoWordsAllSpace(t: string)
    requires Words(t) == []
    ensures AllSpace(t)
  {
    if t == [] {
    } else {
      NoWordsAllSpace(t[1..]);
    }
  }

  lemma StripOfFramed(lead: string, s: string, trail: string)
    requires (lead == "" || lead == " ") && (trail == "" || trail == " ")
    requires s == [] ==> trail == ""
    requires s != [] ==> !IsSpace(s[0]) && !IsSpace(s[|s| - 1])
    ensures Strip(lead + s + trail) == s
  {
    var st := s + trail;
    assert lead + s + trail == lead + st && IsSpace(' ');
    assert st != [] ==> s != [] && st[0] == s[0];
    assert StripLeft(st) == st;
    if lead == " " {
      assert (lead + st)[1..] == st;
    } else {
      assert lead + st == st;
    }
    assert StripRight(s) == s;
    if trail == " " {
      assert st[|st| - 1] == ' ' && st[..|st| - 1] == s;
    } else {
      assert st == s;
    }
  }

  /** Cleaning a text is joining the words it has left once its markers are gone. */
  lemma CleaningIsWords(t: string)
    ensures StripMarkers(t) == Join(Words(Unmarked(t)))
    ensures StripMarkers(t) == "" <==> Words(Unmarked(t)) == []
  {
    var u := Unmarked(t);
    if u != [] {
      CollapseIsJoin(u);
      if Words(u) != [] {
        JoinOfWords(Words(u));
      }
      StripOfFramed(Lead(u), Join(Words(u)), Trail(u));
    }
  }

  // ---------- Whitespace is a seam ----------

  lemma {:induction false} DigitRunStops(t: string, w: char, rest: string)
    requires IsSpace(w)
    ensures DigitRun(t + [w] + rest) == DigitRun(t)
  {
    var u := t + [w] + rest;
    SpaceIsNoMarker(w);
    hide IsSpace, IsDigit;
    if t == [] {
      assert u[0] == w;
    } else {
      assert u[0] == t[0] && u[1..] == t[1..] + [w] + rest;
      DigitRunStops(t[1..], w, rest);
    }
  }

  lemma MarkerLengthStops(a: string, w: char, b: string)
    requires IsSpace(w)
    ensures MarkerLength(a + [w] + b) == MarkerLength(a)
  {
    var u := a + [w] + b;
    SpaceIsNoMarker(w);
    hide IsSpace, IsDigit;
    if a == [] {
      assert u[0] == w;
    } else {
      assert u[0] == a[0] && u[1..] == a[1..] + [w] + b;
      DigitRunStops(a[1..], w, b);
      var d := DigitRun(a[1..]);
      if d + 1 < |a| {
        assert u[d + 1] == a[d + 1];
      } else {
        assert u[d + 1] == w;
      }
    }
  }

  /** No marker spans a whitespace character. */
  lemma {:induction false} PiecesSplit(a: string, w: char, b: string)
    requires IsSpace(w)
    ensures Pieces(a + [w] + b) == Pieces(a) + [Plain(w)] + Pieces(b)
    decreases |a|
  {
    hide IsSpace, IsDigit, MarkerLength, Number;
    var u, n := a + [w] + b, MarkerLength(a);
    MarkerLengthStops(a, w, b);
    if a == [] {
      assert u[0] == w && u[1..] == b;
      assert Pieces(u) == [Plain(w)] + Pieces(b) && Pieces(a) + [Plain(w)] == [Plain(w)];
    } else if n > 0 {
      assert u[n..] == a[n..] + [w] + b && u[1..n - 1] == a[1..n - 1];
      PiecesSplit(a[n..], w, b);
      Regroup([Marker(Number(a[1..n - 1]))], Pieces(a[n..]), [Plain(w)], Pieces(b));
    } else {
      assert u[0] == a[0] && u[1..] == a[1..] + [w] + b;
      PiecesSplit(a[1..], w, b);
      Regroup([Plain(a[0])], Pieces(a[1..]), [Plain(w)], Pieces(b));
    }
  }

  lemma Regroup(first: seq<Piece>, p: seq<Piece>, seam: seq<Piece>, q: seq<Piece>)
    ensures first + (p + seam + q) == first + p + seam + q
  {
  }

  lemma {:induction false} PlainConcat(p: seq<Piece>, q: seq<Piece>)
    ensures PlainIn(p + q) == PlainIn(p) + PlainIn(q)
    ensures NumbersIn(p + q) == NumbersIn(p) + NumbersIn(q)
  {
    if p == [] {
      assert p + q == q;
      assert "" + PlainIn(q) == PlainIn(q) && [] + NumbersIn(q) == NumbersIn(q);
    } else {
      assert (p + q)[0] == p[0] && (p + q)[1..] == p[1..] + q;
      PlainConcat(p[1..], q);
      var c, n := if p[0].Plain? then [p[0].c] else [], if p[0].Marker? then [p[0].number] else [];
      assert c + (PlainIn(p[1..]) + PlainIn(q)) == c + PlainIn(p[1..]) + PlainIn(q);
      assert n + (NumbersIn(p[1..]) + NumbersIn(q)) == n + NumbersIn(p[1..]) + NumbersIn(q);
    }
  }

  lemma OnePlain(w: char)
    ensures PlainIn([Plain(w)]) == [w] && NumbersIn([Plain(w)]) == []
  {
    var seam := [Plain(w)];
    assert seam[1..] == [];
  }

  lemma SeamOfPieces(a: string, w: char, b: string)
    requires IsSpace(w)
    ensures Unmarked(a + [w] + b) == Unmarked(a) + [w] + Unmarked(b)
    ensures Numbers(a + [w] + b) == Numbers(a) + Numbers(b)
  {
    hide PlainIn, NumbersIn, Pieces, IsSpace;
    PiecesSplit(a, w, b);
    var seam, p, q := [Plain(w)], Pieces(a), Pieces(b);
    OnePlain(w);
    PlainConcat(p + seam, q);
    PlainConcat(p, seam);
    assert NumbersIn(p) + [] == NumbersIn(p);
    assert Pieces(a + [w] + b) == p + seam + q;
  }

  lemma {:induction false} SeamOfWords(a: string, w: char, b: string)
    requires IsSpace(w)
    ensures Words(a + [w] + b) == Words(a) + Words(b)
  {
    hide IsSpace;
    var u := a + [w] + b;
    if a == [] {
      assert u[0] == w && u[1..] == b;
      assert Words(u) == Words(b) && [] + Words(b) == Words(b);
    } else {
      var rest := a[1..];
      assert u[0] == a[0] && u[1..] == rest + [w] + b;
      SeamOfWords(rest, w, b);
      if |a| == 1 {
        assert rest == "" && Words(rest) == [] && u[1] == w;
      } else {
        assert u[1] == a[1];
      }
      SeamStep(a[0], Words(rest), Words(b));
    }
  }

  lemma SeamStep(c: char, ws: seq<string>, more: seq<string>)
    ensures [[c]] + (ws + more) == [[c]] + ws + more
    ensures ws != [] ==> [[c] + (ws + more)[0]] + (ws + more)[1..] == [[c] + ws[0]] + ws[1..] + more
    ensures [] + more == more
  {
  }

  lemma {:induction false} OneWord(t: string)
    requires t != [] && forall i :: 0 <= i < |t| ==> !IsSpace(t[i])
    ensures Words(t) == [t]
  {
    hide IsSpace;
    var none: seq<string> := [];
    assert [t[0]] + t[1..] == t;
    if |t| == 1 {
      assert t[1..] == [] && [t[0]] == t;
      assert Words(t[1..]) == none;
      assert [[t[0]]] + none == [t];
    } else {
      OneWord(t[1..]);
      var rest := [t[1..]];
      assert rest[1..] == none;
      assert [[t[0]] + rest[0]] + none == [t];
    }
  }

  /** A run of whitespace between two texts loses nothing and joins nothing: neither words nor markers. */
  lemma {:induction false} SeamOfRun(a: string, run: string, b: string)
    requires run != [] && AllSpace(run)
    ensures Words(Unmarked(a + run + b)) == Words(Unmarked(a)) + Words(Unmarked(b))
    ensures Numbers(a + run + b) == Numbers(a) + Numbers(b)
    decreases |run|
  {
    hide IsSpace, Unmarked, Numbers, Words;
    NothingToRead();
    var w, rest := run[0], run[1..];
    assert a + run + b == a + [w] + (rest + b);
    SeamOfPieces(a, w, rest + b);
    SeamOfWords(Unmarked(a), w, Unmarked(rest + b));
    if rest == [] {
      assert rest + b == b;
    } else {
      assert rest + b == [] + rest + b;
      SeamOfRun([], rest, b);
    }
  }

  // ---------- Sentences ----------

  function SpaceRun(t: string): (n: nat)
    ensures n <= |t| && AllSpace(t[..n]) && (n < |t| ==> !IsSpace(t[n]))
  {
    if t == [] || !IsSpace(t[0]) then 0 else
      var n := 1 + SpaceRun(t[1..]);
      assert t[..n] == [t[0]] + t[1..][..n - 1];
      n
  }

  /** Where the first sentence of `t` ends: before the first whitespace that follows an ender. */
  function FirstBreak(t: string, from: nat): (i: nat)
    requires 1 <= from
    ensures i <= |t| || i == from
    ensures i < |t| ==> from <= i && IsSpace(t[i]) && EndsSentence(t[i - 1])
    decreases |t| - from
  {
    if from >= |t| then (if |t| < from then from else |t|)
    else if IsSpace(t[from]) && EndsSentence(t[from - 1]) then from
    else FirstBreak(t, from + 1)
  }

  /** What follows the run of whitespace at `i`. */
  function RestAfter(t: string, i: nat): (rest: string)
    requires i < |t| && IsSpace(t[i])
    ensures |rest| < |t|
  {
    t[i + SpaceRun(t[i..])..]
  }

  /** `_SENTENCE_SPLIT_PATTERN.split` */
  function RawSplit(t: string): seq<string>
    decreases |t|
  {
    var i := FirstBreak(t, 1);
    if i >= |t| then [t] else [t[..i]] + RawSplit(RestAfter(t, i))
  }

  function NonEmpty(ss: seq<string>): seq<string> {
    if ss == [] then [] else (if ss[0] != "" then [ss[0]] else []) + NonEmpty(ss[1..])
  }

  function SplitSentences(t: string): seq<string> { NonEmpty(RawSplit(Strip(t))) }

  /** All the words, and all the marker numbers, of a list of texts. */
  function WordsOf(ss: seq<string>): seq<string> {
    if ss == [] then [] else Words(Unmarked(ss[0])) + WordsOf(ss[1..])
  }

  function NumbersOf(ss: seq<string>): seq<nat> {
    if ss == [] then [] else Numbers(ss[0]) + NumbersOf(ss[1..])
  }

  lemma {:induction false} RawSplitKeepsAll(t: string)
    ensures WordsOf(RawSplit(t)) == Words(Unmarked(t))
    ensures NumbersOf(RawSplit(t)) == Numbers(t)
    decreases |t|
  {
    var i := FirstBreak(t, 1);
    if i >= |t| {
      assert RawSplit(t)[1..] == [];
    } else {
      var n := SpaceRun(t[i..]);
      var run, rest := t[i..][..n], t[i + n..];
      assert t == t[..i] + run + rest;
      SeamOfRun(t[..i], run, rest);
      RawSplitKeepsAll(rest);
      assert RawSplit(t)[1..] == RawSplit(rest);
    }
  }

  lemma {:induction false} NonEmptyKeepsAll(ss: seq<string>)
    ensures WordsOf(NonEmpty(ss)) == WordsOf(ss)
    ensures NumbersOf(NonEmpty(ss)) == NumbersOf(ss)
  {
    hide Unmarked, Numbers, Words;
    NothingToRead();
    if ss == [] {
    } else {
      NonEmptyKeepsAll(ss[1..]);
      if ss[0] != "" {
        assert NonEmpty(ss)[1..] == NonEmpty(ss[1..]);
      } else {
        assert NonEmpty(ss) == NonEmpty(ss[1..]);
      }
    }
  }

  lemma {:induction false} StripLeftKeepsAll(t: string)
    ensures Words(Unmarked(StripLeft(t))) == Words(Unmarked(t)) && Numbers(StripLeft(t)) == Numbers(t)
  {
    if t != [] && IsSpace(t[0]) {
      assert t == [] + [t[0]] + t[1..];
      SeamOfRun([], [t[0]], t[1..]);
      StripLeftKeepsAll(t[1..]);
    }
  }

  lemma {:induction false} StripRightKeepsAll(t: string)
    ensures Words(Unmarked(StripRight(t))) == Words(Unmarked(t)) && Numbers(StripRight(t)) == Numbers(t)
  {
    if t != [] && IsSpace(t[|t| - 1]) {
      var n := |t| - 1;
      assert t == t[..n] + [t[n]] + [];
      SeamOfRun(t[..n], [t[n]], []);
      StripRightKeepsAll(t[..n]);
    }
  }

  /** Splitting a text into sentences keeps all of its words and all of its markers, in order. */
  lemma SplitKeepsAll(t: string)
    ensures WordsOf(SplitSentences(t)) == Words(Unmarked(t))
    ensures NumbersOf(SplitSentences(t)) == Numbers(t)
  {
    StripLeftKeepsAll(t);
    StripRightKeepsAll(StripLeft(t));
    RawSplitKeepsAll(Strip(t));
    NonEmptyKeepsAll(RawSplit(Strip(t)));
  }

  // ---------- Joining sentences ----------

  lemma {:induction false} JoinKeepsAll(ss: seq<string>)
    ensures Words(Unmarked(Join(ss))) == WordsOf(ss)
    ensures Numbers(Join(ss)) == NumbersOf(ss)
  {
    if |ss| == 1 {
      assert ss[1..] == [];
    } else if |ss| > 1 {
      JoinKeepsAll(ss[1..]);
      SeamOfRun(ss[0], " ", Join(ss[1..]));
    }
  }

  function Cleaned(ss: seq<string>): seq<string> {
    seq(|ss|, i requires 0 <= i < |ss| => StripMarkers(ss[i]))
  }

  /** Cleaning the join of sentences that are not empty once cleaned is joining the cleaned sentences. */
  lemma {:induction false} CleaningCommutesWithJoin(ss: seq<string>)
    requires forall i :: 0 <= i < |ss| ==> StripMarkers(ss[i]) != ""
    ensures StripMarkers(Join(ss)) == Join(Cleaned(ss))
  {
    JoinKeepsAll(ss);
    CleaningIsWords(Join(ss));
    WordsOfCleaned(ss);
  }

  lemma {:induction false} WordsOfCleaned(ss: seq<string>)
    requires forall i :: 0 <= i < |ss| ==> StripMarkers(ss[i]) != ""
    ensures Join(WordsOf(ss)) == Join(Cleaned(ss))
    ensures ss != [] ==> WordsOf(ss) != []
  {
    if ss == [] {
    } else {
      var rest := ss[1..];
      CleaningIsWords(ss[0]);
      WordsOfCleaned(rest);
      JoinConcat(Words(Unmarked(ss[0])), WordsOf(rest));
      assert Cleaned(ss)[1..] == Cleaned(rest);
    }
  }
}
