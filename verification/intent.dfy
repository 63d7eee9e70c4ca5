/** The intent translator (backend/app.py, `translate_intent`): keyword scores
    for three intents plus a base score for "unknown", the first highest score
    wins, and the winner's parameters are read off the lower-cased text.
    Scores are kept in tenths, so 0.4 is 4. */
module Intent {
  import opened Common

  // ---- Scores ----

  datatype IntentName = CreateSlice | RerouteTraffic | ScaleService | UnknownIntent

  /** The four scores, in tenths, in the order Python's dict holds them. */
  datatype Scores = Scores(createSlice: nat, rerouteTraffic: nat, scaleService: nat, unknown: nat)

  function ScoreOf(s: Scores, n: IntentName): nat {
    match n
    case CreateSlice => s.createSlice
    case RerouteTraffic => s.rerouteTraffic
    case ScaleService => s.scaleService
    case UnknownIntent => s.unknown
  }

  /** An intent's position in the dict. */
  function Rank(n: IntentName): nat {
    match n
    case CreateSlice => 0
    case RerouteTraffic => 1
    case ScaleService => 2
    case UnknownIntent => 3
  }

  /** The keyword scores of a lower-cased text. */
  function ScoreText(text: string): Scores {
    var latency := Contains(text, "latency");
    var reroute := Contains(text, "reroute") || Contains(text, "divert");
    var scale := Contains(text, "scale") || Contains(text, "increase") || Contains(text, "more");
    Scores(
      if latency then 4 + (if Contains(text, "low") then 4 else 0) + (if Contains(text, "slice") then 2 else 0) else 0,
      if reroute then 5 + (if Contains(text, "traffic") then 3 else 0)
        + (if Contains(text, "avoid") || Contains(text, "around") then 2 else 0) else 0,
      if scale then 3 + (if Contains(text, "capacity") || Contains(text, "resources") then 2 else 0)
        + (if Contains(text, "up") then 3 else 0) else 0,
      1)
  }

  /** No score exceeds 1.0, "unknown" stays at its base 0.1, and each intent scores
      at least 0.3 once its trigger words appear and nothing otherwise. */
  lemma ScoreBounds(text: string)
    ensures var s := ScoreText(text);
      && s.createSlice <= 10 && s.rerouteTraffic <= 10 && s.scaleService <= 8 && s.unknown == 1
      && (s.createSlice > 0 <==> Contains(text, "latency"))
      && (s.rerouteTraffic > 0 <==> Contains(text, "reroute") || Contains(text, "divert"))
      && (s.scaleService > 0 <==> Contains(text, "scale") || Contains(text, "increase") || Contains(text, "more"))
      && (s.createSlice > 0 ==> s.createSlice >= 4)
      && (s.rerouteTraffic > 0 ==> s.rerouteTraffic >= 5)
      && (s.scaleService > 0 ==> s.scaleService >= 3)
  {
  }

  /** Python's `max(scores.items(), key=score)`: the first intent, in dict order,
      with the highest score. */
  function Best(s: Scores): (r: IntentName)
    ensures forall n :: ScoreOf(s, n) <= ScoreOf(s, r)
    ensures forall n :: Rank(n) < Rank(r) ==> ScoreOf(s, n) < ScoreOf(s, r)
  {
    var a := CreateSlice;
    var b := if s.rerouteTraffic > ScoreOf(s, a) then RerouteTraffic else a;
    var c := if s.scaleService > ScoreOf(s, b) then ScaleService else b;
    if s.unknown > ScoreOf(s, c) then UnknownIntent else c
  }

  /** The intent is "unknown" exactly when the text holds none of the three
      intents' trigger words. */
  lemma UnknownIffNoTrigger(text: string)
    ensures Best(ScoreText(text)) == UnknownIntent <==>
      (!Contains(text, "latency") && !Contains(text, "reroute") && !Contains(text, "divert")
       && !Contains(text, "scale") && !Contains(text, "increase") && !Contains(text, "more"))
  {
    ScoreBounds(text);
    var s := ScoreText(text);
    var r := Best(s);
    assert ScoreOf(s, CreateSlice) <= ScoreOf(s, r) && ScoreOf(s, RerouteTraffic) <= ScoreOf(s, r);
    assert ScoreOf(s, ScaleService) <= ScoreOf(s, r);
  }

  /** A full slice request scores the maximum, and a tie goes to the intent listed
      first, so it is never outranked. */
  lemma FullSliceRequestWins(text: string)
    requires Contains(text, "latency") && Contains(text, "low") && Contains(text, "slice")
    ensures Best(ScoreText(text)) == CreateSlice
  {
    ScoreBounds(text);
    var s := ScoreText(text);
    assert ScoreOf(s, CreateSlice) == 10;
    assert ScoreOf(s, Best(s)) <= 10;
  }

  // ---- Words ----

  /** The characters `str.split()` treats as whitespace, restricted to ASCII. */
  predicate IsSpace(c: char) {
    c == ' ' || c == '\t' || c == '\n' || c == '\r' || c == '\U{B}' || c == '\U{C}'
      || ('\U{1C}' <= c <= '\U{1F}')
  }

  /** A word of a split: non-empty and free of whitespace. */
  predicate IsWord(w: string) {
    w != [] && forall i :: 0 <= i < |w| ==> !IsSpace(w[i])
  }

  function DropSpaces(s: string): (r: string)
    ensures |r| <= |s| && r == s[|s| - |r|..]
    ensures r == [] || !IsSpace(r[0])
  {
    if s != [] && IsSpace(s[0]) then DropSpaces(s[1..]) else s
  }

  /** The length of the run of non-whitespace characters at the front of `s`. */
  function WordLength(s: string): (n: nat)
    ensures n <= |s|
    ensures forall i :: 0 <= i < n ==> !IsSpace(s[i])
    ensures n == |s| || IsSpace(s[n])
  {
    if s == [] || IsSpace(s[0]) then 0
    else
      var n := WordLength(s[1..]);
      assert forall i :: 1 <= i < 1 + n ==> s[i] == s[1..][i - 1];
      1 + n
  }

  /** Python's `s.split()`: the maximal runs of non-whitespace characters. */
  function Words(s: string): (ws: seq<string>)
    ensures forall i :: 0 <= i < |ws| ==> IsWord(ws[i])
    decreases |s|
  {
    var t := DropSpaces(s);
    if t == [] then []
    else
      var n := WordLength(t);
      assert n >= 1;
      var w := t[..n];
      assert IsWord(w);
      [w] + Words(t[n..])
  }

  /** The words joined by single spaces. */
  function Join(ws: seq<string>): string {
    if ws == [] then ""
    else if |ws| == 1 then ws[0]
    else ws[0] + (" " + Join(ws[1..]))
  }

  lemma {:induction false} WordLengthOfWord(w: string, rest: string)
    requires IsWord(w) && (rest == [] || IsSpace(rest[0]))
    ensures WordLength(w + rest) == |w|
  {
    if |w| > 1 {
      WordLengthOfWord(w[1..], rest);
      assert (w + rest)[1..] == w[1..] + rest;
    } else {
      assert (w + rest)[1..] == rest;
    }
  }

  lemma {:induction false} JoinStartsWithWord(ws: seq<string>)
    requires ws != [] && forall i :: 0 <= i < |ws| ==> IsWord(ws[i])
    ensures Join(ws) != [] && !IsSpace(Join(ws)[0])
  {
    assert Join(ws)[0] == ws[0][0];
  }

  /** A word followed by whitespace or nothing is split off whole. */
  lemma WordsOfWordThen(w: string, rest: string)
    requires IsWord(w) && (rest == [] || IsSpace(rest[0]))
    ensures Words(w + rest) == [w] + Words(rest)
  {
    var s := w + rest;
    assert DropSpaces(s) == s;
    WordLengthOfWord(w, rest);
    assert s[..|w|] == w && s[|w|..] == rest;
  }

  /** Leading whitespace is skipped. */
  lemma WordsSkipSpace(x: string)
    ensures Words(" " + x) == Words(x)
  {
    assert (" " + x)[1..] == x;
    assert DropSpaces(" " + x) == DropSpaces(x);
  }

  /** Splitting words joined by single spaces gives the words back. */
  lemma {:induction false} SplitJoin(ws: seq<string>)
    requires forall i :: 0 <= i < |ws| ==> IsWord(ws[i])
    ensures Words(Join(ws)) == ws
  {
    if |ws| <= 1 {
      SplitJoinShort(ws);
    } else {
      AllWordsTail(ws);
      SplitJoin(ws[1..]);
      SplitJoinStep(ws);
    }
  }

  lemma AllWordsTail(ws: seq<string>)
    requires ws != [] && forall i :: 0 <= i < |ws| ==> IsWord(ws[i])
    ensures IsWord(ws[0]) && forall i :: 0 <= i < |ws[1..]| ==> IsWord(ws[1..][i])
  {
  }

  lemma SplitJoinShort(ws: seq<string>)
    requires |ws| <= 1 && forall i :: 0 <= i < |ws| ==> IsWord(ws[i])
    ensures Words(Join(ws)) == ws
  {
    if |ws| == 1 {
      SplitJoinOne(ws[0]);
      assert ws == [ws[0]];
    } else {
      assert Join(ws) == [];
    }
  }

  lemma SplitJoinOne(w: string)
    requires IsWord(w)
    ensures Words(Join([w])) == [w]
  {
    WordsOfWordThen(w, "");
    assert w + "" == w;
  }

  lemma SplitJoinStep(ws: seq<string>)
    requires |ws| > 1 && IsWord(ws[0]) && Words(Join(ws[1..])) == ws[1..]
    ensures Words(Join(ws)) == ws
  {
    var rest := " " + Join(ws[1..]);
    assert Join(ws) == ws[0] + rest;
    assert IsSpace(rest[0]);
    WordsOfWordThen(ws[0], rest);
    WordsSkipSpace(Join(ws[1..]));
    ConsTail(ws);
  }

  lemma ConsTail(ws: seq<string>)
    requires ws != []
    ensures [ws[0]] + ws[1..] == ws
  {
  }

  // ---- Parameters ----

  datatype SliceType = DefaultSlice | UltraLowLatency | LowLatency | HighBandwidth
  datatype Priority = MediumPriority | HighPriority | CriticalPriority

  /** The action a text translates to. */
  datatype Translated =
    | CreateSliceAction(sliceType: SliceType, priority: Priority, latencyTargetMs: nat)
    | RerouteAction(avoidNode: string)
    | ScaleAction(up: bool, amount: int)
    | UnknownAction(rawText: string)

  /** The explanation, as the intent and its confidence in tenths, or the
      could-not-determine message. */
  datatype Note = Interpreted(intent: IntentName, confidence: nat) | Unclear

  datatype Translation = Translation(translated: Translated, note: Note, scores: Scores)

  /** The slice parameters of a create-slice request. */
  function SliceAction(text: string): (a: Translated)
    ensures a.CreateSliceAction?
    ensures a.latencyTargetMs == 5 <==> a.sliceType == UltraLowLatency
    ensures a.latencyTargetMs == 10 <==> a.sliceType == LowLatency
    ensures a.latencyTargetMs == 50 <==> a.sliceType == DefaultSlice || a.sliceType == HighBandwidth
  {
    var gaming := Contains(text, "gaming") || Contains(text, "real-time") || Contains(text, "realtime");
    var ty := if gaming then UltraLowLatency
      else if Contains(text, "low") && Contains(text, "latency") then LowLatency
      else if Contains(text, "high") && Contains(text, "bandwidth") then HighBandwidth
      else DefaultSlice;
    var target := if ty == UltraLowLatency then 5 else if ty == LowLatency then 10 else 50;
    var priority := if Contains(text, "high") && Contains(text, "priority") then HighPriority
      else if Contains(text, "critical") || Contains(text, "emergency") then CriticalPriority
      else MediumPriority;
    CreateSliceAction(ty, priority, target)
  }

  /** A low-latency request without a gaming cue gets the 10 ms low-latency slice. */
  lemma LowLatencySlice(text: string)
    requires Contains(text, "low") && Contains(text, "latency")
    requires !Contains(text, "gaming") && !Contains(text, "real-time") && !Contains(text, "realtime")
    ensures SliceAction(text) == CreateSliceAction(LowLatency, SliceAction(text).priority, 10)
  {
  }

  /** A word that names a network element to avoid. */
  predicate IsTargetWord(w: string) {
    IsPrefix("node", w) || IsPrefix("cell", w) || IsPrefix("link", w)
  }

  /** The first target word of `ws`, if any. */
  function FirstTarget(ws: seq<string>): (r: Option<string>)
    ensures r.Some? ==> exists i :: 0 <= i < |ws| && ws[i] == r.value && IsTargetWord(ws[i])
                                    && forall j :: 0 <= j < i ==> !IsTargetWord(ws[j])
    ensures r.None? <==> forall j :: 0 <= j < |ws| ==> !IsTargetWord(ws[j])
  {
    if ws == [] then None
    else if IsTargetWord(ws[0]) then Some(ws[0])
    else
      var t := FirstTarget(ws[1..]);
      assert forall j :: 1 <= j < |ws| ==> ws[j] == ws[1..][j - 1];
      if t.Some? then
        var k :| 0 <= k < |ws[1..]| && ws[1..][k] == t.value && IsTargetWord(ws[1..][k])
                 && forall j :: 0 <= j < k ==> !IsTargetWord(ws[1..][j]);
        assert ws[k + 1] == t.value;
        t
      else None
  }

  /** The node the reroute avoids: the first target word, else "Node-1". */
  function AvoidNode(ws: seq<string>): string {
    FirstTarget(ws).GetOr("Node-1")
  }

  predicate IsDigit(c: char) { '0' <= c <= '9' }

  predicate AllDigits(s: string) {
    forall i :: 0 <= i < |s| ==> IsDigit(s[i])
  }

  /** The value of a string of decimal digits. */
  function DigitsValue(s: string): nat
    requires AllDigits(s)
  {
    if s == [] then 0 else DigitsValue(s[..|s| - 1]) * 10 + (s[|s| - 1] as int - '0' as int)
  }

  /** Python's `int(w)` on a whitespace-free word: an optional sign, then one or
      more decimal digits; anything else fails. */
  function ParseInt(w: string): (r: Option<int>)
    ensures r.Some? <==> (w != [] && AllDigits(w)) || (|w| >= 2 && (w[0] == '+' || w[0] == '-') && AllDigits(w[1..]))
    ensures w != [] && AllDigits(w) ==> r == Some(DigitsValue(w) as int)
  {
    if w != [] && (w[0] == '+' || w[0] == '-') then
      var body := w[1..];
      if body != [] && AllDigits(body) then Some(if w[0] == '-' then -(DigitsValue(body) as int) else DigitsValue(body))
      else None
    else if w != [] && AllDigits(w) then Some(DigitsValue(w))
    else None
  }

  lemma DigitCharValue(d: nat)
    requires d < 10
    ensures DigitChar(d) as int - '0' as int == d
  {
    var ds := "0123456789";
    assert ds[0] == '0' && ds[1] == '1' && ds[2] == '2' && ds[3] == '3' && ds[4] == '4';
    assert ds[5] == '5' && ds[6] == '6' && ds[7] == '7' && ds[8] == '8' && ds[9] == '9';
  }

  lemma {:induction false} DigitsOfNatText(n: nat)
    ensures AllDigits(NatText(n)) && DigitsValue(NatText(n)) == n
  {
    if n < 10 {
      DigitCharValue(n);
      assert NatText(n)[..0] == [];
    } else {
      DigitsOfNatText(n / 10);
      DigitCharValue(n % 10);
      var s := NatText(n);
      assert s[..|s| - 1] == NatText(n / 10);
    }
  }

  /** `int` reads back what `str` writes, with or without a sign. */
  lemma ParseNatText(n: nat)
    ensures ParseInt(NatText(n)) == Some(n)
    ensures ParseInt("-" + NatText(n)) == Some(-(n as int))
    ensures ParseInt("+" + NatText(n)) == Some(n)
  {
    DigitsOfNatText(n);
    var s := NatText(n);
    ParseDigits(s);
    ParseSigned(s, '-');
    ParseSigned(s, '+');
  }

  lemma ParseDigits(s: string)
    requires s != [] && AllDigits(s)
    ensures ParseInt(s) == Some(DigitsValue(s) as int)
  {
    assert IsDigit(s[0]);
  }

  lemma ParseSigned(s: string, sign: char)
    requires s != [] && AllDigits(s) && (sign == '-' || sign == '+')
    ensures ParseInt([sign] + s) == Some(if sign == '-' then -(DigitsValue(s) as int) else DigitsValue(s))
  {
    assert ([sign] + s)[0] == sign;
    assert ([sign] + s)[1..] == s;
  }

  predicate EndsWithPercent(w: string) {
    w != [] && w[|w| - 1] == '%'
  }

  /** Word `i` ends in `%` and the word before it is a number: the loop takes it. */
  predicate AmountAt(ws: seq<string>, i: nat)
    requires i < |ws|
  {
    i > 0 && EndsWithPercent(ws[i]) && ParseInt(ws[i - 1]).Some?
  }

  /** The amount after the loop has seen the first `n` words: the default 50,
      overwritten at each word the loop takes. */
  function AmountAfter(ws: seq<string>, n: nat): int
    requires n <= |ws|
  {
    if n == 0 then 50
    else if AmountAt(ws, n - 1) then ParseInt(ws[n - 2]).value
    else AmountAfter(ws, n - 1)
  }

  /** With no `%` word after a number, the amount stays 50. */
  lemma {:induction false} AmountDefault(ws: seq<string>, n: nat)
    requires n <= |ws|
    requires forall j :: 0 <= j < n ==> !AmountAt(ws, j)
    ensures AmountAfter(ws, n) == 50
  {
    if n > 0 {
      AmountDefault(ws, n - 1);
    }
  }

  /** The last number that precedes a `%` word wins. */
  lemma {:induction false} AmountIsLastTaken(ws: seq<string>, n: nat, i: nat)
    requires i < n <= |ws| && AmountAt(ws, i)
    requires forall j :: i < j < n ==> !AmountAt(ws, j)
    ensures AmountAfter(ws, n) == ParseInt(ws[i - 1]).value
  {
    if n - 1 > i {
      AmountIsLastTaken(ws, n - 1, i);
    }
  }

  /** The scale direction: up when the text asks for it anywhere. */
  function ScaleUp(text: string): bool {
    Contains(text, "up") || Contains(text, "increase") || Contains(text, "more")
  }

  /** A scale request that does not use the word "scale" was triggered by
      "increase" or "more", and so is always a scale-up. */
  lemma ScaleWithoutScaleWordIsUp(text: string)
    requires Best(ScoreText(text)) == ScaleService && !Contains(text, "scale")
    ensures ScaleUp(text)
  {
    ScoreBounds(text);
    var s := ScoreText(text);
    assert ScoreOf(s, UnknownIntent) <= ScoreOf(s, ScaleService);
  }

  /** The translation of a request text. */
  function TranslationOf(raw: string): Translation {
    var text := Lower(raw);
    var scores := ScoreText(text);
    var intent := Best(scores);
    var ws := Words(text);
    match intent
    case CreateSlice => Translation(SliceAction(text), Interpreted(intent, scores.createSlice), scores)
    case RerouteTraffic => Translation(RerouteAction(AvoidNode(ws)), Interpreted(intent, scores.rerouteTraffic), scores)
    case ScaleService =>
      Translation(ScaleAction(ScaleUp(text), AmountAfter(ws, |ws|)), Interpreted(intent, scores.scaleService), scores)
    case UnknownIntent => Translation(UnknownAction(text), Unclear, scores)
  }

  /** The translated action is the winning intent's, its stated confidence is the
      winning score, and the text is unknown exactly when no trigger word appears. */
  lemma TranslationMatchesIntent(raw: string)
    ensures var t := TranslationOf(raw);
      var intent := Best(ScoreText(Lower(raw)));
      && (t.translated.CreateSliceAction? <==> intent == CreateSlice)
      && (t.translated.RerouteAction? <==> intent == RerouteTraffic)
      && (t.translated.ScaleAction? <==> intent == ScaleService)
      && (t.translated.UnknownAction? <==> intent == UnknownIntent)
      && (t.note.Interpreted? ==> t.note.confidence == ScoreOf(t.scores, intent) && t.note.confidence >= 3)
  {
    ScoreBounds(Lower(raw));
    UnknownIffNoTrigger(Lower(raw));
  }

  /** The reroute loop: the first word naming a node, cell or link, else "Node-1". */
  method FindAvoidNode(ws: seq<string>) returns (node: string)
    ensures node == AvoidNode(ws)
  {
    node := "Node-1";
    var i := 0;
    while i < |ws|
      invariant 0 <= i <= |ws|
      invariant forall j :: 0 <= j < i ==> !IsTargetWord(ws[j])
    {
      if IsTargetWord(ws[i]) {
        node := ws[i];
        return;
      }
      i := i + 1;
    }
  }

  /** The amount loop: the number before each `%` word, the last one winning. */
  method FindAmount(ws: seq<string>) returns (amount: int)
    ensures amount == AmountAfter(ws, |ws|)
  {
    amount := 50;
    for i := 0 to |ws|
      invariant amount == AmountAfter(ws, i)
    {
      if EndsWithPercent(ws[i]) && i > 0 {
        var parsed := ParseInt(ws[i - 1]);
        if parsed.Some? {
          amount := parsed.value;
        }
      }
    }
  }

  /** The `/translate` route. */
  method TranslateIntent(raw: string) returns (t: Translation)
    ensures t == TranslationOf(raw)
  {
    var text := Lower(raw);
    var scores := ScoreText(text);
    var intent := Best(scores);
    match intent
    case CreateSlice =>
      t := Translation(SliceAction(text), Interpreted(intent, scores.createSlice), scores);
    case RerouteTraffic =>
      var node := FindAvoidNode(Words(text));
      t := Translation(RerouteAction(node), Interpreted(intent, scores.rerouteTraffic), scores);
    case ScaleService =>
      var amount := FindAmount(Words(text));
      t := Translation(ScaleAction(ScaleUp(text), amount), Interpreted(intent, scores.scaleService), scores);
    case UnknownIntent =>
      t := Translation(UnknownAction(text), Unclear, scores);
  }
}
