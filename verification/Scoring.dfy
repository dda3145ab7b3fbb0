/** app/analysis/scoring.py: from evidence to a risk score and its level. */
module Scoring {
  import opened Models

  /** app/config/settings.py, `RiskWeights`. */
  datatype RiskWeights = RiskWeights(
    explicitRule: real, regex: real, fuzzy: real, ai: real, unseen: real, rare: real, frequentUse: real, explicitFloor: real)

  const DEFAULT_WEIGHTS := RiskWeights(30.0, 28.0, 22.0, 15.0, 8.0, 4.0, -14.0, 70.0)

  /** Python's `round`: to the nearest integer, ties to the even one. */
  function Round(x: real): int
  {
    var f := x.Floor;
    var d := x - f as real;
    if d < 0.5 then f else if d > 0.5 then f + 1 else if f % 2 == 0 then f else f + 1
  }

  function Clamp(x: real): real
  {
    if x < 0.0 then 0.0 else if x > 100.0 then 100.0 else x
  }

  /** The loop over `LEVEL_THRESHOLDS`. */
  method LevelOfScore(score: int) returns (level: RiskLevel)
    ensures level == LevelOf(score)
    ensures level == Low <==> score < 20
    ensures level == Moderate <==> 20 <= score < 40
    ensures level == Elevated <==> 40 <= score < 70
    ensures level == High <==> 70 <= score < 90
    ensures level == VeryHigh <==> 90 <= score
  {
    var s := if score < 0 then 0 else if score > 100 then 100 else score;
    var thresholds := [(Low, 20), (Moderate, 40), (Elevated, 70), (High, 90), (VeryHigh, 101)];
    for i := 0 to |thresholds|
      invariant i > 0 ==> s >= thresholds[i - 1].1
    {
      if s < thresholds[i].1 {
        assert i == 0 || i == 1 || i == 2 || i == 3 || i == 4;
        return thresholds[i].0;
      }
    }
    assert false;
  }

  /** The levels of the module's table: 0-19, 20-39, 40-69, 70-89, 90-100. */
  function LevelOf(score: int): RiskLevel
  {
    if score >= 90 then VeryHigh
    else if score >= 70 then High
    else if score >= 40 then Elevated
    else if score >= 20 then Moderate
    else Low
  }

  function BaseWeight(e: EvidenceType, w: RiskWeights): real
  {
    match e
    case ExplicitRule => w.explicitRule
    case RegexRule => w.regex
    case FuzzyRuleMatch => w.fuzzy
    case SemanticMatch => w.ai
    case UnseenTerm => w.unseen
    case UnknownEvidence => w.unseen * 0.5
    case FuzzyHistoryMatch => w.fuzzy
    case ExactHistoryMatch => 0.0
    case NormalizedHistoryMatch => 0.0
  }

  function HistoryWeight(h: HistoryEvidence, w: RiskWeights): real
  {
    match h.state
    case HistorySeen => if h.count >= 5 then w.frequentUse else w.rare
    case HistoryUnseen => w.unseen
    case HistoryUnknown => w.unseen * 0.5
  }

  /** The score as a weighted sum, floored for rules, clamped and rounded. */
  function RiskOf(e: EvidenceType, h: HistoryEvidence, w: RiskWeights): int
  {
    var sum := BaseWeight(e, w) + HistoryWeight(h, w);
    var floored := if Deterministic(e) && sum < w.explicitFloor then w.explicitFloor else sum;
    Round(Clamp(floored))
  }

  function Scored(f: Finding, w: RiskWeights): Finding
  {
    var risk := RiskOf(f.evidence, f.history, w);
    f.(risk := risk, level := LevelOf(risk))
  }

  /** `score_finding`, accumulating step by step. */
  method ScoreFinding(f: Finding, w: RiskWeights) returns (scored: Finding)
    ensures scored == Scored(f, w)
  {
    var score := BaseWeight(f.evidence, w);
    if f.history.state.HistorySeen? {
      if f.history.count >= 5 {
        score := score + w.frequentUse;
      } else {
        score := score + w.rare;
      }
    } else if f.history.state.HistoryUnseen? {
      score := score + w.unseen;
    } else {
      score := score + w.unseen * 0.5;
    }
    if Deterministic(f.evidence) && score < w.explicitFloor {
      score := w.explicitFloor;
    }
    var risk := Round(Clamp(score));
    var level := LevelOfScore(risk);
    scored := f.(risk := risk, level := level);
  }

  // ---------------------------------------------------------------- laws

  /** Rounding gives the nearest integer, and of two equally near ones the even one. */
  lemma RoundNearest(x: real)
    ensures -0.5 <= Round(x) as real - x <= 0.5
    ensures x == x.Floor as real ==> Round(x) == x.Floor
    ensures Round(x) as real - x == 0.5 || Round(x) as real - x == -0.5 ==> Round(x) % 2 == 0
  {
  }

  /** The levels' ranges. */
  lemma LevelRanges(score: int)
    ensures LevelOf(score) == Low <==> score < 20
    ensures LevelOf(score) == Moderate <==> 20 <= score < 40
    ensures LevelOf(score) == Elevated <==> 40 <= score < 70
    ensures LevelOf(score) == High <==> 70 <= score < 90
    ensures LevelOf(score) == VeryHigh <==> 90 <= score
  {
  }

  /** Whatever the weights, the risk is the sum of the evidence's weight and the history's, at least the
      floor for a rule, cut to 0 and 100, to within half a point. */
  lemma RiskIsSum(e: EvidenceType, h: HistoryEvidence, w: RiskWeights, sum: real)
    requires sum == BaseWeight(e, w) + HistoryWeight(h, w)
    ensures var risk := RiskOf(e, h, w) as real;
            var aim := if e in {ExplicitRule, RegexRule} && sum <= w.explicitFloor then w.explicitFloor else sum;
            && (aim <= 0.0 ==> risk == 0.0) && (aim >= 100.0 ==> risk == 100.0)
            && (0.0 <= aim <= 100.0 ==> -0.5 <= risk - aim <= 0.5)
  {
  }

  lemma RiskInRange(e: EvidenceType, h: HistoryEvidence, w: RiskWeights)
    ensures 0 <= RiskOf(e, h, w) <= 100
  {
  }

  /** Whatever the weights and however often a term was used, a configured rule keeps the floor. */
  lemma RuleKeepsFloor(e: EvidenceType, h: HistoryEvidence, w: RiskWeights)
    requires Deterministic(e)
    ensures RiskOf(e, h, w) >= Round(Clamp(w.explicitFloor))
  {
  }

  /** The scores with the default weights: what was used often scores lowest, what is unseen highest. */
  lemma DefaultScores(e: EvidenceType, h: HistoryEvidence)
    ensures var risk := RiskOf(e, h, DEFAULT_WEIGHTS);
            match e
            case ExplicitRule => risk == 70
            case RegexRule => risk == 70
            case FuzzyRuleMatch => risk == ByHistory(h, 8, 26, 30, 26)
            case FuzzyHistoryMatch => risk == ByHistory(h, 8, 26, 30, 26)
            case SemanticMatch => risk == ByHistory(h, 1, 19, 23, 19)
            case UnseenTerm => risk == ByHistory(h, 0, 12, 16, 12)
            case UnknownEvidence => risk == ByHistory(h, 0, 8, 12, 8)
            case ExactHistoryMatch => risk == ByHistory(h, 0, 4, 8, 4)
            case NormalizedHistoryMatch => risk == ByHistory(h, 0, 4, 8, 4)
  {
  }

  /** Seen five times or more, seen less often, not seen, unknown. */
  function ByHistory(h: HistoryEvidence, frequent: int, rare: int, unseen: int, unknown: int): int
  {
    match h.state
    case HistorySeen => if h.count >= 5 then frequent else rare
    case HistoryUnseen => unseen
    case HistoryUnknown => unknown
  }

  /** With integral weights between which nothing is cut off, the score is the sum of the two weights,
      raised to the floor for a rule; each evidence has its own weight. */
  lemma SumOfWeights(e: EvidenceType, h: HistoryEvidence, rule: nat, regex: nat, fuzzy: nat, ai: nat, unseen: nat, rare: nat, frequent: nat, floor: nat)
    requires rule <= 50 && regex <= 50 && fuzzy <= 50 && ai <= 50 && unseen <= 25 && rare <= 50 && frequent <= 50 && floor <= 100
    ensures var w := RiskWeights(rule as real, regex as real, fuzzy as real, ai as real, (2 * unseen) as real, rare as real, frequent as real, floor as real);
            var own := match e {
              case ExplicitRule => rule case RegexRule => regex case FuzzyRuleMatch => fuzzy case FuzzyHistoryMatch => fuzzy case SemanticMatch => ai
              case UnseenTerm => 2 * unseen case UnknownEvidence => unseen case ExactHistoryMatch => 0 case NormalizedHistoryMatch => 0
            };
            var sum := own + ByHistory(h, frequent, rare, 2 * unseen, unseen);
            RiskOf(e, h, w) == if e in {ExplicitRule, RegexRule} && sum < floor then floor else sum
  {
  }

  /** With the default weights a rule scores exactly 70, and nothing else more than 30. */
  lemma DefaultRisk(e: EvidenceType, h: HistoryEvidence)
    ensures Deterministic(e) ==> RiskOf(e, h, DEFAULT_WEIGHTS) == 70
    ensures !Deterministic(e) ==> 0 <= RiskOf(e, h, DEFAULT_WEIGHTS) <= 30
  {
  }
}
