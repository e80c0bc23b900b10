// Rule-based analysis of customer transcripts and conversations: keyword mood
// detection, the extractive summary with its outcome, the escalation rules, and
// the heuristic foresights of a conversation.

module Processors {
  import opened Options
  import opened Text

  // ---------------------------------------------------------------------------
  // Keyword presence

  /** How many of the keywords occur in `text`; each counts once, however often it
      occurs. */
  function KeywordCount(keywords: seq<string>, text: string): (n: nat)
    ensures n <= |keywords|
  {
    if keywords == [] then 0
    else (if Contains(text, keywords[0]) then 1 else 0) + KeywordCount(keywords[1..], text)
  }

  /** Python `any(keyword in text for keyword in keywords)` */
  predicate AnyPresent(keywords: seq<string>, text: string) {
    exists i | 0 <= i < |keywords| :: Contains(text, keywords[i])
  }

  /** The count depends only on which keywords are present, not on how often. */
  lemma {:induction false} KeywordCountPresence(keywords: seq<string>, a: string, b: string)
    requires forall i | 0 <= i < |keywords| :: Contains(a, keywords[i]) <==> Contains(b, keywords[i])
    ensures KeywordCount(keywords, a) == KeywordCount(keywords, b)
    decreases |keywords|
  {
    if keywords != [] {
      assert Contains(a, keywords[0]) <==> Contains(b, keywords[0]);
      forall i | 0 <= i < |keywords[1..]|
        ensures Contains(a, keywords[1..][i]) <==> Contains(b, keywords[1..][i])
      {
        assert keywords[1..][i] == keywords[i + 1];
      }
      KeywordCountPresence(keywords[1..], a, b);
    }
  }

  /** Some keyword counts exactly when one is present. */
  lemma {:induction false} KeywordCountPositive(keywords: seq<string>, text: string)
    ensures KeywordCount(keywords, text) > 0 <==> AnyPresent(keywords, text)
    decreases |keywords|
  {
    if keywords != [] {
      KeywordCountPositive(keywords[1..], text);
      if AnyPresent(keywords[1..], text) {
        var i :| 0 <= i < |keywords[1..]| && Contains(text, keywords[1..][i]);
        assert Contains(text, keywords[i + 1]);
      }
      if AnyPresent(keywords, text) && !Contains(text, keywords[0]) {
        var i :| 0 <= i < |keywords| && Contains(text, keywords[i]);
        assert keywords[1..][i - 1] == keywords[i];
      }
    }
  }

  /** A single keyword counts one when it occurs and nothing otherwise. */
  lemma KeywordCountSingle(k: string, text: string)
    ensures KeywordCount([k], text) == if Contains(text, k) then 1 else 0
  {
    assert [k][1..] == [];
  }

  /** Counting distributes over concatenated keyword lists: with `KeywordCountSingle`,
      the count is the number of keywords present. */
  lemma {:induction false} KeywordCountAppend(a: seq<string>, b: seq<string>, text: string)
    ensures KeywordCount(a + b, text) == KeywordCount(a, text) + KeywordCount(b, text)
    decreases |a|
  {
    if a == [] {
      assert a + b == b;
    } else {
      assert (a + b)[0] == a[0] && (a + b)[1..] == a[1..] + b;
      KeywordCountAppend(a[1..], b, text);
    }
  }

  // ---------------------------------------------------------------------------
  // detect_mood

  const NegativeKeywords: seq<string> := [
    "cancel", "refund", "scam", "sue", "not happy", "complain", "angry",
    "terrible", "awful", "hate", "disappointed", "frustrated", "upset",
    "wrong", "mistake", "error", "problem", "issue", "broken", "failed",
    "unacceptable", "ridiculous", "waste", "useless", "stupid"]

  const PositiveKeywords: seq<string> := [
    "paid", "yes", "renew", "great", "excellent", "perfect", "love",
    "happy", "satisfied", "pleased", "thank", "good", "fine", "okay",
    "sure", "agree", "accept", "approve", "confirm", "continue"]

  datatype MoodLabel = Negative | Positive | Neutral

  /** The reasons given with a mood; their rendering as text is not modelled. */
  datatype MoodReasons = FoundKeywords(count: nat, ratio: real) | NoStrongIndicators

  datatype Mood = Mood(kind: MoodLabel, confidence: real, reasons: MoodReasons)

  function NegativeCount(transcript: string): nat {
    KeywordCount(NegativeKeywords, Lower(transcript))
  }

  function PositiveCount(transcript: string): nat {
    KeywordCount(PositiveKeywords, Lower(transcript))
  }

  /** `len(transcript.split())` */
  function WordCount(transcript: string): nat {
    |Words(transcript)|
  }

  function MaxOne(n: nat): (m: nat)
    ensures m >= 1 && (n >= 1 ==> m == n)
  {
    if n < 1 then 1 else n
  }

  /** `count / max(words, 1)`, in exact arithmetic. */
  function Ratio(count: nat, words: nat): real {
    count as real / MaxOne(words) as real
  }

  function MinReal(a: real, b: real): real {
    if a <= b then a else b
  }

  /** The ratio is above 0.05 exactly when 20 keywords per word count exceed the
      word count. */
  lemma DivAbove(c: real, w: real)
    requires w > 0.0
    ensures c / w > 0.05 <==> 20.0 * c > w
  {
    var r := c / w;
    assert r * w == c;
    if r > 0.05 {
      assert (r - 0.05) * w > 0.0;
    } else {
      assert (0.05 - r) * w >= 0.0;
    }
  }

  lemma RatioThreshold(count: nat, words: nat)
    ensures Ratio(count, words) > 0.05 <==> 20 * count > MaxOne(words)
  {
    DivAbove(count as real, MaxOne(words) as real);
  }

  /** Above the 0.05 threshold the density-based confidence is always capped at 0.9. */
  lemma StrongRatioCaps(ratio: real)
    requires ratio > 0.05
    ensures MinReal(0.9, 0.5 + ratio * 10.0) == 0.9
  {
  }

  function DetectMood(transcript: string): (m: Mood)
    ensures m.kind == Negative <==>
      NegativeCount(transcript) > PositiveCount(transcript)
      && 20 * NegativeCount(transcript) > MaxOne(WordCount(transcript))
    ensures m.kind == Positive <==>
      PositiveCount(transcript) > NegativeCount(transcript)
      && 20 * PositiveCount(transcript) > MaxOne(WordCount(transcript))
    ensures m.confidence == if m.kind == Neutral then 0.6 else 0.9
  {
    var neg, pos, words := NegativeCount(transcript), PositiveCount(transcript), WordCount(transcript);
    var negRatio, posRatio := Ratio(neg, words), Ratio(pos, words);
    RatioThreshold(neg, words);
    RatioThreshold(pos, words);
    if neg > pos && negRatio > 0.05 then
      StrongRatioCaps(negRatio);
      Mood(Negative, MinReal(0.9, 0.5 + negRatio * 10.0), FoundKeywords(neg, negRatio))
    else if pos > neg && posRatio > 0.05 then
      StrongRatioCaps(posRatio);
      Mood(Positive, MinReal(0.9, 0.5 + posRatio * 10.0), FoundKeywords(pos, posRatio))
    else
      Mood(Neutral, 0.6, NoStrongIndicators)
  }

  /** Transcripts with the same keyword presence and word count get the same mood. */
  lemma MoodDependsOnPresence(a: string, b: string)
    requires WordCount(a) == WordCount(b)
    requires forall i | 0 <= i < |NegativeKeywords| ::
      Contains(Lower(a), NegativeKeywords[i]) <==> Contains(Lower(b), NegativeKeywords[i])
    requires forall i | 0 <= i < |PositiveKeywords| ::
      Contains(Lower(a), PositiveKeywords[i]) <==> Contains(Lower(b), PositiveKeywords[i])
    ensures DetectMood(a) == DetectMood(b)
  {
    KeywordCountPresence(NegativeKeywords, Lower(a), Lower(b));
    KeywordCountPresence(PositiveKeywords, Lower(a), Lower(b));
  }

  // ---------------------------------------------------------------------------
  // summarize: sentences

  predicate IsStop(c: char) {
    c == '.' || c == '!' || c == '?'
  }

  predicate NoStop(s: string) {
    forall j | 0 <= j < |s| :: !IsStop(s[j])
  }

  function StopCount(s: string): nat {
    if s == [] then 0 else (if IsStop(s[0]) then 1 else 0) + StopCount(s[1..])
  }

  /** The text between sentence stops: `re.split(r'[.!?]+', s)` up to the empty pieces
      between consecutive stops, which the sentence filter drops either way. */
  function Pieces(s: string): (r: seq<string>)
    ensures |r| == StopCount(s) + 1
    ensures forall i | 0 <= i < |r| :: NoStop(r[i])
  {
    if s == [] then [""]
    else
      var rest := Pieces(s[1..]);
      if IsStop(s[0]) then [""] + rest else [[s[0]] + rest[0]] + rest[1..]
  }

  /** A text without a stop is one piece. */
  lemma {:induction false} PiecesNoStop(a: string)
    requires NoStop(a)
    ensures Pieces(a) == [a]
    decreases |a|
  {
    if a != [] {
      PiecesNoStop(a[1..]);
      assert [a[0]] + a[1..] == a;
    }
  }

  /** A stop cuts the text: the pieces of `a`, then the pieces of `b`. */
  lemma {:induction false} PiecesAtStop(a: string, c: char, b: string)
    requires IsStop(c)
    ensures Pieces(a + [c] + b) == Pieces(a) + Pieces(b)
    decreases |a|
  {
    if a == [] {
      assert a + [c] + b == [c] + b;
      assert ([c] + b)[1..] == b;
    } else {
      var s := a + [c] + b;
      assert s[0] == a[0] && s[1..] == a[1..] + [c] + b;
      PiecesAtStop(a[1..], c, b);
    }
  }

  lemma TrimNoStop(s: string)
    requires NoStop(s)
    ensures NoStop(Trim(s, Python))
  {
    var r := Trim(s, Python);
    var i, j :| 0 <= i <= j <= |s| && r == s[i..j];
    assert forall k | 0 <= k < |r| :: r[k] == s[i + k];
  }

  /** `[p.strip() for p in pieces if p.strip()]` */
  function TrimmedNonEmpty(pieces: seq<string>): (r: seq<string>)
    requires forall i | 0 <= i < |pieces| :: NoStop(pieces[i])
    ensures forall i | 0 <= i < |r| :: r[i] != "" && NoStop(r[i])
  {
    if pieces == [] then []
    else
      var x := Trim(pieces[0], Python);
      TrimNoStop(pieces[0]);
      (if x != "" then [x] else []) + TrimmedNonEmpty(pieces[1..])
  }

  /** The non-empty, stripped sentences of a transcript. */
  function Sentences(transcript: string): (r: seq<string>)
    ensures forall i | 0 <= i < |r| :: r[i] != "" && NoStop(r[i])
  {
    TrimmedNonEmpty(Pieces(transcript))
  }

  /** Stripping and filtering works piece by piece, so it keeps the order. */
  lemma {:induction false} TrimmedNonEmptyAppend(p: seq<string>, q: seq<string>)
    requires forall i | 0 <= i < |p| :: NoStop(p[i])
    requires forall i | 0 <= i < |q| :: NoStop(q[i])
    ensures TrimmedNonEmpty(p + q) == TrimmedNonEmpty(p) + TrimmedNonEmpty(q)
    decreases |p|
  {
    if p == [] {
      assert p + q == q;
    } else {
      assert (p + q)[0] == p[0] && (p + q)[1..] == p[1..] + q;
      TrimmedNonEmptyAppend(p[1..], q);
    }
  }

  /** A text without a stop is at most one sentence: itself, stripped. */
  lemma SentencesNoStop(a: string)
    requires NoStop(a)
    ensures Sentences(a) == if Trim(a, Python) == "" then [] else [Trim(a, Python)]
  {
    PiecesNoStop(a);
    assert [a][0] == a && [a][1..] == [];
    assert TrimmedNonEmpty([a]) == (if Trim(a, Python) != "" then [Trim(a, Python)] else []) + TrimmedNonEmpty([]);
  }

  /** The sentences of `a`, a stop and `b` are those of `a`, then those of `b`. */
  lemma SentencesAtStop(a: string, c: char, b: string)
    requires IsStop(c)
    ensures Sentences(a + [c] + b) == Sentences(a) + Sentences(b)
  {
    PiecesAtStop(a, c, b);
    TrimmedNonEmptyAppend(Pieces(a), Pieces(b));
  }

  // ---------------------------------------------------------------------------
  // summarize: choosing the summary sentences

  predicate IsLong(s: string) {
    |s| > 10
  }

  /** The sentences longer than 10 characters, in order. */
  function LongSentences(ss: seq<string>): (r: seq<string>)
    ensures |r| <= |ss|
    ensures forall i | 0 <= i < |r| :: IsLong(r[i])
  {
    if ss == [] then []
    else (if IsLong(ss[0]) then [ss[0]] else []) + LongSentences(ss[1..])
  }

  lemma {:induction false} LongSentencesAppend(a: seq<string>, b: seq<string>)
    ensures LongSentences(a + b) == LongSentences(a) + LongSentences(b)
    decreases |a|
  {
    if a == [] {
      assert a + b == b;
    } else {
      assert (a + b)[0] == a[0] && (a + b)[1..] == a[1..] + b;
      LongSentencesAppend(a[1..], b);
    }
  }

  lemma LongSentencesSnoc(ss: seq<string>, i: nat)
    requires i < |ss|
    ensures LongSentences(ss[..i + 1]) == LongSentences(ss[..i]) + (if IsLong(ss[i]) then [ss[i]] else [])
  {
    assert ss[..i + 1] == ss[..i] + [ss[i]];
    LongSentencesAppend(ss[..i], [ss[i]]);
    assert LongSentences([ss[i]]) == (if IsLong(ss[i]) then [ss[i]] else []) + LongSentences([]);
  }

  /** `sentences[:5]` */
  function Window(ss: seq<string>): (w: seq<string>)
    ensures |w| <= 5 && |w| <= |ss| && w == ss[..|w|]
    ensures |ss| >= 5 ==> |w| == 5
    ensures |ss| <= 5 ==> w == ss
  {
    if |ss| <= 5 then ss else ss[..5]
  }

  /** The first (at most) three long sentences among the first five. */
  function Selected(ss: seq<string>): (r: seq<string>) {
    var long := LongSentences(Window(ss));
    if |long| <= 3 then long else long[..3]
  }

  /** The loop over `sentences[:5]` that collects long sentences and stops at three. */
  method SelectSentences(sentences: seq<string>) returns (summary: seq<string>)
    ensures summary == Selected(sentences)
  {
    var w := Window(sentences);
    summary := [];
    var i := 0;
    while i < |w|
      invariant 0 <= i <= |w|
      invariant summary == LongSentences(w[..i]) && |summary| < 3
    {
      LongSentencesSnoc(w, i);
      if IsLong(w[i]) {
        summary := summary + [w[i]];
      }
      if |summary| >= 3 {
        assert w == w[..i + 1] + w[i + 1..];
        LongSentencesAppend(w[..i + 1], w[i + 1..]);
        assert LongSentences(w)[..3] == summary;
        break;
      }
      i := i + 1;
    }
    assert i == |w| ==> w[..i] == w;
  }

  /** `a` is `b` with some elements left out, the rest kept in order. */
  predicate IsSubsequence(a: seq<string>, b: seq<string>)
    decreases |b|
  {
    if a == [] then true
    else if b == [] then false
    else if a[0] == b[0] then IsSubsequence(a[1..], b[1..])
    else IsSubsequence(a, b[1..])
  }

  lemma {:induction false} SubsequenceTail(a: seq<string>, b: seq<string>)
    requires a != [] && IsSubsequence(a, b)
    ensures IsSubsequence(a[1..], b)
    decreases |b|, 0
  {
    if a[0] == b[0] {
      SubsequenceCons(a[1..], b[0], b[1..]);
      assert [b[0]] + b[1..] == b;
    } else {
      SubsequenceTail(a, b[1..]);
      SubsequenceCons(a[1..], b[0], b[1..]);
      assert [b[0]] + b[1..] == b;
    }
  }

  lemma {:induction false} SubsequenceCons(a: seq<string>, x: string, b: seq<string>)
    requires IsSubsequence(a, b)
    ensures IsSubsequence(a, [x] + b)
    decreases |b|, 1
  {
    assert ([x] + b)[1..] == b;
    if a != [] && a[0] == x {
      SubsequenceTail(a, b);
    }
  }

  lemma {:induction false} LongSentencesSubsequence(ss: seq<string>)
    ensures IsSubsequence(LongSentences(ss), ss)
    decreases |ss|
  {
    if ss != [] {
      LongSentencesSubsequence(ss[1..]);
      if IsLong(ss[0]) {
        assert LongSentences(ss) == [ss[0]] + LongSentences(ss[1..]);
        assert LongSentences(ss)[1..] == LongSentences(ss[1..]);
      } else {
        assert LongSentences(ss) == LongSentences(ss[1..]);
        SubsequenceCons(LongSentences(ss[1..]), ss[0], ss[1..]);
        assert [ss[0]] + ss[1..] == ss;
      }
    }
  }

  lemma {:induction false} PrefixSubsequence(a: seq<string>, n: nat, b: seq<string>)
    requires n <= |a| && IsSubsequence(a, b)
    ensures IsSubsequence(a[..n], b)
    decreases |b|
  {
    if n > 0 && b != [] {
      assert a[..n][0] == a[0];
      if a[0] == b[0] {
        assert a[..n][1..] == a[1..][..n - 1];
        PrefixSubsequence(a[1..], n - 1, b[1..]);
      } else {
        PrefixSubsequence(a, n, b[1..]);
      }
    }
  }

  /** The selection keeps at most three long sentences, in the order they come among
      the first five. */
  lemma SelectedShape(ss: seq<string>)
    ensures |Selected(ss)| <= 3
    ensures forall i | 0 <= i < |Selected(ss)| :: IsLong(Selected(ss)[i])
    ensures IsSubsequence(Selected(ss), Window(ss))
  {
    var long := LongSentences(Window(ss));
    LongSentencesSubsequence(Window(ss));
    if |long| > 3 {
      PrefixSubsequence(long, 3, Window(ss));
    }
  }

  /** `transcript[:200] + "..." if len(transcript) > 200 else transcript` */
  function Fallback(transcript: string): (r: string)
    ensures |transcript| <= 200 ==> r == transcript
    ensures |transcript| > 200 ==> |r| == 203 && r[..200] == transcript[..200] && r[200..] == "..."
  {
    if |transcript| > 200 then transcript[..200] + "..." else transcript
  }

  /** The summary lines: three selected sentences, or else the one fallback line. */
  function SummaryLines(transcript: string): seq<string> {
    var chosen := Selected(Sentences(transcript));
    if |chosen| < 3 then [Fallback(transcript)] else chosen
  }

  /** Either exactly three long sentences from the first five, or exactly one line. */
  lemma SummaryShape(transcript: string)
    ensures var s := SummaryLines(transcript);
      (|s| == 3 && (forall i | 0 <= i < 3 :: IsLong(s[i])) && IsSubsequence(s, Window(Sentences(transcript))))
      || s == [Fallback(transcript)]
  {
    SelectedShape(Sentences(transcript));
  }

  // ---------------------------------------------------------------------------
  // summarize: the outcome

  const PaymentKeywords: seq<string> := ["pay", "payment", "paid", "money", "cost", "price", "bill", "invoice"]
  const ResolutionKeywords: seq<string> := ["resolved", "fixed", "solved", "done", "complete", "finished"]
  const EscalationKeywords: seq<string> := ["manager", "supervisor", "escalate", "complaint", "formal", "legal"]
  const FollowUpKeywords: seq<string> := ["call back", "follow up", "later", "tomorrow", "next week", "schedule"]

  datatype OutcomeLabel = Resolved | PaymentPromised | Escalate | NeedsFollowUp

  datatype Outcome = Outcome(kind: OutcomeLabel, confidence: real)

  function OutcomeOf(transcript: string): Outcome {
    var lower := Lower(transcript);
    if AnyPresent(ResolutionKeywords, lower) then Outcome(Resolved, 0.8)
    else if AnyPresent(PaymentKeywords, lower) then Outcome(PaymentPromised, 0.7)
    else if AnyPresent(EscalationKeywords, lower) then Outcome(Escalate, 0.9)
    else if AnyPresent(FollowUpKeywords, lower) then Outcome(NeedsFollowUp, 0.6)
    else Outcome(NeedsFollowUp, 0.5)
  }

  /** Resolved > Payment Promised > Escalate > Needs Follow-up. */
  function Rank(l: OutcomeLabel): nat {
    match l
    case Resolved => 3
    case PaymentPromised => 2
    case Escalate => 1
    case NeedsFollowUp => 0
  }

  /** The labels whose keywords the transcript contains; "Needs Follow-up" is always
      a candidate. */
  function Triggered(transcript: string): set<OutcomeLabel> {
    var lower := Lower(transcript);
    (if AnyPresent(ResolutionKeywords, lower) then {Resolved} else {})
    + (if AnyPresent(PaymentKeywords, lower) then {PaymentPromised} else {})
    + (if AnyPresent(EscalationKeywords, lower) then {Escalate} else {})
    + {NeedsFollowUp}
  }

  /** The outcome is the highest-priority triggered label; "Needs Follow-up" is more
      certain when a follow-up keyword is present. */
  lemma OutcomeIsHighestTriggered(transcript: string)
    ensures OutcomeOf(transcript).kind in Triggered(transcript)
    ensures forall l | l in Triggered(transcript) :: Rank(l) <= Rank(OutcomeOf(transcript).kind)
    ensures OutcomeOf(transcript).kind == NeedsFollowUp ==>
      (OutcomeOf(transcript).confidence == 0.6 <==> AnyPresent(FollowUpKeywords, Lower(transcript)))
  {
  }

  datatype SummaryResult = SummaryResult(summary: seq<string>, outcome: Outcome)

  /** summarize: the sentence loop, the fallback and the outcome rules. */
  method Summarize(transcript: string) returns (r: SummaryResult)
    ensures r.summary == SummaryLines(transcript)
    ensures r.outcome == OutcomeOf(transcript)
  {
    var sentences := Sentences(transcript);
    var summary := SelectSentences(sentences);
    if |summary| < 3 {
      summary := [Fallback(transcript)];
    }
    r := SummaryResult(summary, OutcomeOf(transcript));
  }

  // ---------------------------------------------------------------------------
  // Escalation

  /** An analysed interaction escalates on a confidently negative mood or an
      "Escalate" outcome. */
  predicate ShouldEscalate(mood: Mood, outcome: Outcome) {
    (mood.kind == Negative && mood.confidence >= 0.7) || outcome.kind == Escalate
  }

  /** A negative detected mood is always confident enough, so only the label counts. */
  lemma InteractionEscalation(transcript: string)
    ensures ShouldEscalate(DetectMood(transcript), OutcomeOf(transcript)) <==>
      DetectMood(transcript).kind == Negative || OutcomeOf(transcript).kind == Escalate
  {
  }

  /** A conversation reply escalates on the "escalate" action or a confidently
      negative mood. */
  predicate ShouldEscalateReply(action: string, moodLabel: string, confidence: real) {
    action == "escalate" || (moodLabel == "negative" && confidence >= 0.7)
  }

  // ---------------------------------------------------------------------------
  // Conversation foresights

  datatype Message = Message(sender: string, content: string, action: Option<string>, moodLabel: Option<string>)

  datatype ForesightLabel =
    | HighRenewal | LowRenewal | HighEngagement | LowEngagement
    | CrossSell | PriceSensitive | ServiceQuality | EscalationRisk

  datatype Foresight = Foresight(kind: ForesightLabel, confidence: real, explain: string)

  /** The word lists the foresight heuristics look for. */
  datatype ForesightWords = ForesightWords(
    positive: seq<string>, negative: seq<string>, coverage: seq<string>,
    price: seq<string>, service: seq<string>)

  const ConversationWords := ForesightWords(
    ["yes", "sure", "agree", "pay", "payment", "thank", "great", "good", "excellent"],
    ["no", "cancel", "refund", "angry", "terrible", "hate", "problem"],
    ["coverage", "policy"],
    ["cost", "price", "discount"],
    ["thank", "help", "easy"])

  predicate IsUser(m: Message) {
    m.sender == "user"
  }

  /** Keyword hits summed over the user's messages. */
  function UserKeywordCount(messages: seq<Message>, words: seq<string>): nat {
    if messages == [] then 0
    else (if IsUser(messages[0]) then KeywordCount(words, Lower(messages[0].content)) else 0)
         + UserKeywordCount(messages[1..], words)
  }

  /** Words summed over the user's messages. */
  function UserWordCount(messages: seq<Message>): nat {
    if messages == [] then 0
    else (if IsUser(messages[0]) then WordCount(messages[0].content) else 0) + UserWordCount(messages[1..])
  }

  predicate UserMentions(messages: seq<Message>, words: seq<string>) {
    exists i | 0 <= i < |messages| :: IsUser(messages[i]) && AnyPresent(words, Lower(messages[i].content))
  }

  predicate EscalationSeen(messages: seq<Message>) {
    exists i | 0 <= i < |messages| ::
      messages[i].sender == "assistant"
      && (messages[i].action == Some("escalate") || messages[i].moodLabel == Some("negative"))
  }

  const ShowedText := "Customer showed "
  const PositiveVsText := " positive indicators vs "
  const NegativeVsText := " negative indicators vs "
  const NegativeText := " negative"
  const PositiveText := " positive"
  const DetailedText := "Customer provided detailed responses ("
  const BriefText := "Customer provided brief responses ("
  const TotalWordsText := " total words)"
  const CrossSellText := "Customer showed interest in coverage details"
  const PriceText := "Customer asked about pricing and discounts"
  const ServiceText := "Customer expressed appreciation for service"
  const EscalationText := "Conversation required escalation or showed negative sentiment"

  function RenewalForesight(pos: nat, neg: nat): Foresight {
    if pos > neg then
      Foresight(HighRenewal, MinReal(0.95, 0.6 + pos as real * 0.1),
        ShowedText + NatToString(pos) + PositiveVsText + NatToString(neg) + NegativeText)
    else
      Foresight(LowRenewal, 0.3, ShowedText + NatToString(neg) + NegativeVsText + NatToString(pos) + PositiveText)
  }

  function EngagementForesights(words: nat): seq<Foresight> {
    if words > 50 then [Foresight(HighEngagement, 0.8, DetailedText + NatToString(words) + TotalWordsText)]
    else if words < 20 then [Foresight(LowEngagement, 0.7, BriefText + NatToString(words) + TotalWordsText)]
    else []
  }

  function When(b: bool, f: Foresight): seq<Foresight> {
    if b then [f] else []
  }

  function CrossSellForesight(): Foresight {
    Foresight(CrossSell, 0.75, CrossSellText)
  }

  function PriceForesight(): Foresight {
    Foresight(PriceSensitive, 0.8, PriceText)
  }

  function ServiceForesight(): Foresight {
    Foresight(ServiceQuality, 0.85, ServiceText)
  }

  function EscalationForesight(): Foresight {
    Foresight(EscalationRisk, 0.9, EscalationText)
  }

  /** The foresights of a conversation: none without messages, else renewal, then
      engagement, cross-sell, price, service quality and escalation as they apply. */
  function ForesightsOf(w: ForesightWords, messages: seq<Message>): seq<Foresight> {
    if messages == [] then []
    else
      [RenewalForesight(UserKeywordCount(messages, w.positive), UserKeywordCount(messages, w.negative))]
      + EngagementForesights(UserWordCount(messages))
      + When(UserMentions(messages, w.coverage), CrossSellForesight())
      + When(UserMentions(messages, w.price), PriceForesight())
      + When(UserMentions(messages, w.service), ServiceForesight())
      + When(EscalationSeen(messages), EscalationForesight())
  }

  /** The heuristic body of generate_conversation_foresights, appending step by step. */
  method GenerateForesights(messages: seq<Message>) returns (foresights: seq<Foresight>)
    ensures foresights == ForesightsOf(ConversationWords, messages)
  {
    if messages == [] {
      return [];
    }
    var w := ConversationWords;
    var pos := UserKeywordCount(messages, w.positive);
    var neg := UserKeywordCount(messages, w.negative);
    var words := UserWordCount(messages);
    foresights := [];
    foresights := foresights + [RenewalForesight(pos, neg)];
    if words > 50 {
      foresights := foresights + [Foresight(HighEngagement, 0.8, DetailedText + NatToString(words) + TotalWordsText)];
    } else if words < 20 {
      foresights := foresights + [Foresight(LowEngagement, 0.7, BriefText + NatToString(words) + TotalWordsText)];
    }
    assert foresights == [RenewalForesight(pos, neg)] + EngagementForesights(words);
    var coverage, price := UserMentions(messages, w.coverage), UserMentions(messages, w.price);
    var service, escalation := UserMentions(messages, w.service), EscalationSeen(messages);
    ghost var t0 := foresights;
    if coverage {
      foresights := foresights + [CrossSellForesight()];
    }
    assert foresights == t0 + When(coverage, CrossSellForesight());
    ghost var t1 := foresights;
    if price {
      foresights := foresights + [PriceForesight()];
    }
    assert foresights == t1 + When(price, PriceForesight());
    ghost var t2 := foresights;
    if service {
      foresights := foresights + [ServiceForesight()];
    }
    assert foresights == t2 + When(service, ServiceForesight());
    ghost var t3 := foresights;
    if escalation {
      foresights := foresights + [EscalationForesight()];
    }
    assert foresights == t3 + When(escalation, EscalationForesight());
  }

  /** The two kinds of entry of which there is at most one. */
  datatype Group = RenewalGroup | EngagementGroup

  predicate InGroup(g: Group, l: ForesightLabel) {
    match g
    case RenewalGroup => l == HighRenewal || l == LowRenewal
    case EngagementGroup => l == HighEngagement || l == LowEngagement
  }

  function CountGroup(g: Group, fs: seq<Foresight>): nat {
    if fs == [] then 0 else (if InGroup(g, fs[0].kind) then 1 else 0) + CountGroup(g, fs[1..])
  }

  lemma {:induction false} CountGroupAppend(g: Group, a: seq<Foresight>, b: seq<Foresight>)
    ensures CountGroup(g, a + b) == CountGroup(g, a) + CountGroup(g, b)
    decreases |a|
  {
    if a == [] {
      assert a + b == b;
    } else {
      assert (a + b)[0] == a[0] && (a + b)[1..] == a[1..] + b;
      CountGroupAppend(g, a[1..], b);
    }
  }

  lemma WhenOther(g: Group, b: bool, f: Foresight)
    requires !InGroup(g, f.kind)
    ensures CountGroup(g, When(b, f)) == 0 && |When(b, f)| <= 1
  {
  }

  lemma GroupCounts(g: Group, a: seq<Foresight>, c: bool, p: bool, s: bool, x: bool)
    ensures var fs := a + When(c, CrossSellForesight()) + When(p, PriceForesight())
      + When(s, ServiceForesight()) + When(x, EscalationForesight());
      CountGroup(g, fs) == CountGroup(g, a) && |fs| <= |a| + 4
  {
    var f1, f2, f3, f4 := When(c, CrossSellForesight()), When(p, PriceForesight()),
      When(s, ServiceForesight()), When(x, EscalationForesight());
    WhenOther(g, c, CrossSellForesight());
    WhenOther(g, p, PriceForesight());
    WhenOther(g, s, ServiceForesight());
    WhenOther(g, x, EscalationForesight());
    CountGroupAppend(g, a, f1);
    CountGroupAppend(g, a + f1, f2);
    CountGroupAppend(g, a + f1 + f2, f3);
    CountGroupAppend(g, a + f1 + f2 + f3, f4);
  }

  /** Foresights start with the one renewal entry, hold at most one engagement entry
      (none for 20 to 50 words), number one to six, and a high renewal probability
      stays between 0.7 and 0.95. */
  lemma ForesightsShape(w: ForesightWords, messages: seq<Message>)
    requires messages != []
    ensures var fs := ForesightsOf(w, messages);
      1 <= |fs| <= 6
      && InGroup(RenewalGroup, fs[0].kind) && CountGroup(RenewalGroup, fs) == 1
      && CountGroup(EngagementGroup, fs) <= 1
      && (20 <= UserWordCount(messages) <= 50 ==> CountGroup(EngagementGroup, fs) == 0)
      && (fs[0].kind == HighRenewal ==> 0.7 <= fs[0].confidence <= 0.95)
  {
    var r := [RenewalForesight(UserKeywordCount(messages, w.positive), UserKeywordCount(messages, w.negative))];
    var e := EngagementForesights(UserWordCount(messages));
    var fs := ForesightsOf(w, messages);
    var c, p := UserMentions(messages, w.coverage), UserMentions(messages, w.price);
    var s, x := UserMentions(messages, w.service), EscalationSeen(messages);
    assert fs == r + e + When(c, CrossSellForesight()) + When(p, PriceForesight())
      + When(s, ServiceForesight()) + When(x, EscalationForesight());
    GroupCounts(RenewalGroup, r + e, c, p, s, x);
    GroupCounts(EngagementGroup, r + e, c, p, s, x);
    CountGroupAppend(RenewalGroup, r, e);
    CountGroupAppend(EngagementGroup, r, e);
    assert fs[0] == r[0];
  }

  /** The renewal entry is "High" exactly when positive hits outnumber negative ones. */
  lemma RenewalDirection(w: ForesightWords, messages: seq<Message>)
    requires messages != []
    ensures ForesightsOf(w, messages)[0].kind == HighRenewal <==>
      UserKeywordCount(messages, w.positive) > UserKeywordCount(messages, w.negative)
  {
  }

  /** A conversation without messages has no foresights. */
  lemma NoMessagesNoForesights(w: ForesightWords)
    ensures ForesightsOf(w, []) == []
  {
  }
}
