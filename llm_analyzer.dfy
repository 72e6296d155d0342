// The trading analyzer (twitter/llm-analyzer.ts): the reply of the language
// model is flattened to text, the JSON object in it is cut out and parsed,
// and every failure on the way yields a fixed default recommendation.

module LlmAnalyzer {
  import opened Wrappers
  import Json

  // ---- response text -------------------------------------------------------

  /** A content block of the model's reply: a block of type "text", or a
      block of any other type (`blockType` is then never "text"). */
  datatype ContentBlock = TextBlock(text: string) | NonTextBlock(blockType: string)

  /** What a block adds to the response text. */
  function BlockText(b: ContentBlock): string {
    match b
    case TextBlock(t) => t
    case NonTextBlock(_) => ""
  }

  /** The text blocks' texts, in order. */
  function ConcatText(blocks: seq<ContentBlock>): string {
    if blocks == [] then ""
    else ConcatText(blocks[..|blocks| - 1]) + BlockText(blocks[|blocks| - 1])
  }

  lemma {:induction false} ConcatTextAppend(a: seq<ContentBlock>, b: seq<ContentBlock>)
    ensures ConcatText(a + b) == ConcatText(a) + ConcatText(b)
    decreases |b|
  {
    if b == [] {
      assert a + b == a;
    } else {
      assert (a + b)[..|a + b| - 1] == a + b[..|b| - 1];
      ConcatTextAppend(a, b[..|b| - 1]);
    }
  }

  /** Blocks other than text contribute nothing. */
  lemma {:induction false} ConcatTextSkipsOthers(a: seq<ContentBlock>, blockType: string, b: seq<ContentBlock>)
    ensures ConcatText(a + [NonTextBlock(blockType)] + b) == ConcatText(a + b)
  {
    var other := [NonTextBlock(blockType)];
    ConcatTextOther(blockType);
    ConcatTextAppend(a, other);
    assert ConcatText(a + other) == ConcatText(a);
    ConcatTextAppend(a + other, b);
    ConcatTextAppend(a, b);
  }

  lemma ConcatTextOther(blockType: string)
    ensures ConcatText([NonTextBlock(blockType)]) == ""
  {
    assert [NonTextBlock(blockType)][..0] == [];
  }

  /** The loop that accumulates `responseText`. */
  method ResponseText(blocks: seq<ContentBlock>) returns (responseText: string)
    ensures responseText == ConcatText(blocks)
  {
    responseText := "";
    var i := 0;
    while i < |blocks|
      invariant 0 <= i <= |blocks|
      invariant responseText == ConcatText(blocks[..i])
    {
      assert blocks[..i + 1][..i] == blocks[..i];
      if blocks[i].TextBlock? {
        responseText := responseText + blocks[i].text;
      }
      i := i + 1;
    }
    assert blocks[..|blocks|] == blocks;
  }

  // ---- the JSON span -------------------------------------------------------

  /** `s[i..j]` is a match of `/\{[\s\S]*\}/`. */
  predicate IsBraceSpan(s: string, i: int, j: int) {
    0 <= i && i + 2 <= j <= |s| && s[i] == '{' && s[j - 1] == '}'
  }

  /** The index of the first `c` in `s`. */
  function FirstIndexOf(s: string, c: char): (r: Option<nat>)
    ensures r.Some? ==> r.value < |s| && s[r.value] == c && forall k :: 0 <= k < r.value ==> s[k] != c
    ensures r.None? ==> forall k :: 0 <= k < |s| ==> s[k] != c
  {
    if s == [] then None
    else if s[0] == c then Some(0)
    else match FirstIndexOf(s[1..], c)
      case None => None
      case Some(k) => Some(k + 1)
  }

  /** The index of the last `c` in `s`. */
  function LastIndexOf(s: string, c: char): (r: Option<nat>)
    ensures r.Some? ==> r.value < |s| && s[r.value] == c && forall k :: r.value < k < |s| ==> s[k] != c
    ensures r.None? ==> forall k :: 0 <= k < |s| ==> s[k] != c
  {
    if s == [] then None
    else if s[|s| - 1] == c then Some(|s| - 1)
    else LastIndexOf(s[..|s| - 1], c)
  }

  /** The bounds of `responseText.match(/\{[\s\S]*\}/)`: from the first `{`
      through the last `}`, provided the last `}` comes after it. */
  function JsonSpanBounds(s: string): Option<(nat, nat)> {
    match (FirstIndexOf(s, '{'), LastIndexOf(s, '}'))
    case (Some(i), Some(j)) => if i < j then Some((i, j + 1)) else None
    case _ => None
  }

  function ExtractJsonSpan(s: string): (r: Option<string>)
    ensures r.Some? ==> |r.value| >= 2 && r.value[0] == '{' && r.value[|r.value| - 1] == '}'
  {
    match JsonSpanBounds(s)
    case None => None
    case Some((i, j)) => Some(s[i..j])
  }

  /** The span is the regular expression's match: it starts at the leftmost
      position where a match starts, and from there it is the longest. */
  lemma JsonSpanIsLeftmostLongest(s: string)
    ensures JsonSpanBounds(s).Some? ==>
      var (i, j) := JsonSpanBounds(s).value;
      IsBraceSpan(s, i, j) &&
      forall i', j' :: IsBraceSpan(s, i', j') ==> i <= i' && j' <= j
    ensures JsonSpanBounds(s).None? ==> forall i', j' :: !IsBraceSpan(s, i', j')
  {
    var first := FirstIndexOf(s, '{');
    var last := LastIndexOf(s, '}');
    assert forall k :: 0 <= k < |s| && s[k] == '{' ==> first.Some? && first.value <= k;
    assert forall k :: 0 <= k < |s| && s[k] == '}' ==> last.Some? && k <= last.value;
  }

  // ---- the recommendation --------------------------------------------------

  datatype Action = Buy | Sell | Hold
  datatype Sentiment = Bullish | Bearish | Neutral
  datatype Risk = Low | Medium | High

  datatype TradingRecommendation = TradingRecommendation(
    recommendation: Action,
    confidence: nat,
    reasoning: string,
    marketSentiment: Sentiment,
    keyInsights: seq<string>,
    riskLevel: Risk)

  const DefaultRecommendation: TradingRecommendation :=
    TradingRecommendation(Hold, 0, "Error processing sentiment analysis", Neutral, ["Error in analysis"], High)

  function DigitChar(d: nat): char
    requires d < 10
  {
    (48 + d) as char
  }

  /** The decimal text of a natural number. */
  function DecimalText(n: nat): (r: string)
    ensures r != [] && forall k :: 0 <= k < |r| ==> '0' <= r[k] <= '9'
  {
    if n < 10 then [DigitChar(n)] else DecimalText(n / 10) + [DigitChar(n % 10)]
  }

  function ActionName(a: Action): string {
    match a case Buy => "BUY" case Sell => "SELL" case Hold => "HOLD"
  }

  function SentimentName(m: Sentiment): string {
    match m case Bullish => "BULLISH" case Bearish => "BEARISH" case Neutral => "NEUTRAL"
  }

  function RiskName(r: Risk): string {
    match r case Low => "LOW" case Medium => "MEDIUM" case High => "HIGH"
  }

  function StringsJson(xs: seq<string>): (vs: seq<Json.Value>)
    ensures |vs| == |xs| && forall k :: 0 <= k < |xs| ==> vs[k] == Json.String(xs[k])
  {
    seq(|xs|, k requires 0 <= k < |xs| => Json.String(xs[k]))
  }

  /** A recommendation as the JSON object the analyzer hands back. */
  function ToJson(t: TradingRecommendation): (v: Json.Value)
    ensures v.Object? && |v.members| == 6
  {
    Json.Object([
      ("recommendation", Json.String(ActionName(t.recommendation))),
      ("confidence", Json.Number(DecimalText(t.confidence))),
      ("reasoning", Json.String(t.reasoning)),
      ("marketSentiment", Json.String(SentimentName(t.marketSentiment))),
      ("keyInsights", Json.Array(StringsJson(t.keyInsights))),
      ("riskLevel", Json.String(RiskName(t.riskLevel)))
    ])
  }

  /** The default recommendation: hold, with no confidence, neutral
      sentiment and high risk. */
  lemma DefaultRecommendationFields()
    ensures ToJson(DefaultRecommendation).members[0] == ("recommendation", Json.String("HOLD"))
    ensures ToJson(DefaultRecommendation).members[1] == ("confidence", Json.Number("0"))
    ensures ToJson(DefaultRecommendation).members[2] == ("reasoning", Json.String("Error processing sentiment analysis"))
    ensures ToJson(DefaultRecommendation).members[3] == ("marketSentiment", Json.String("NEUTRAL"))
    ensures ToJson(DefaultRecommendation).members[4] == ("keyInsights", Json.Array([Json.String("Error in analysis")]))
    ensures ToJson(DefaultRecommendation).members[5] == ("riskLevel", Json.String("HIGH"))
  {
    assert StringsJson(["Error in analysis"]) == [Json.String("Error in analysis")];
  }

  /** What `analyzeTradingDecision` resolves to, given the model's reply
      (`None` where the API call throws): the parsed object, unvalidated,
      or the default recommendation. */
  function Analysis(reply: Option<seq<ContentBlock>>): Json.Value {
    match reply
    case None => ToJson(DefaultRecommendation)
    case Some(blocks) =>
      match ExtractJsonSpan(ConcatText(blocks))
      case None => ToJson(DefaultRecommendation)
      case Some(span) =>
        match Json.Parse(span)
        case None => ToJson(DefaultRecommendation)
        case Some(v) => v
  }

  method AnalyzeTradingDecision(reply: Option<seq<ContentBlock>>) returns (r: Json.Value)
    ensures r == Analysis(reply)
  {
    if reply.None? {
      return ToJson(DefaultRecommendation);
    }
    var responseText := ResponseText(reply.value);
    var span := ExtractJsonSpan(responseText);
    if span.None? {
      return ToJson(DefaultRecommendation);
    }
    var parsed := Json.Parse(span.value);
    if parsed.None? {
      return ToJson(DefaultRecommendation);
    }
    r := parsed.value;
  }

  /** Every failure yields the default; nothing escapes as an error. */
  lemma FailuresYieldDefault(reply: Option<seq<ContentBlock>>)
    ensures reply.None? ==> Analysis(reply) == ToJson(DefaultRecommendation)
    ensures reply.Some? && (forall i', j' :: !IsBraceSpan(ConcatText(reply.value), i', j')) ==>
      Analysis(reply) == ToJson(DefaultRecommendation)
    ensures (reply.Some? && ExtractJsonSpan(ConcatText(reply.value)).Some? &&
             Json.Parse(ExtractJsonSpan(ConcatText(reply.value)).value).None?) ==>
      Analysis(reply) == ToJson(DefaultRecommendation)
  {
    if reply.Some? {
      JsonSpanIsLeftmostLongest(ConcatText(reply.value));
    }
  }

  /** Whatever the model answers, the analysis is a JSON object: the
      default, or a parsed span, which begins with `{`. */
  lemma AnalysisIsObject(reply: Option<seq<ContentBlock>>)
    ensures Analysis(reply).Object?
  {
    if reply.Some? {
      var span := ExtractJsonSpan(ConcatText(reply.value));
      if span.Some? {
        Json.ParseBraceIsObject(span.value);
      }
    }
  }

  // ---- the sentiment score -------------------------------------------------

  /** `totalCryptoTweets > 0 ? positive / total * 100 : 0`, in exact
      arithmetic. */
  function SentimentScore(totalCryptoTweets: int, positiveTweets: int): (r: real)
    ensures totalCryptoTweets <= 0 ==> r == 0.0
    ensures 0 <= positiveTweets <= totalCryptoTweets ==> 0.0 <= r <= 100.0
  {
    if totalCryptoTweets > 0 then (positiveTweets as real / totalCryptoTweets as real) * 100.0 else 0.0
  }
}
