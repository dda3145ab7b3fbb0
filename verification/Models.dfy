/** app/analysis/models.py: findings, their evidence, and the analysis of a chat. */
module Models {
  import opened Strings
  import opened Coverage

  datatype EvidenceType =
    | ExplicitRule | RegexRule
    | ExactHistoryMatch | NormalizedHistoryMatch | FuzzyHistoryMatch
    | FuzzyRuleMatch | SemanticMatch | UnseenTerm | UnknownEvidence

  /** Evidence that a configured rule gives; all other evidence is heuristic. */
  predicate Deterministic(e: EvidenceType)
  {
    e.ExplicitRule? || e.RegexRule?
  }

  datatype HistoryState = HistorySeen | HistoryUnseen | HistoryUnknown

  datatype HistoryNote =
    | NoNote | ObservedLocally | FoundBySearch | SimilarWording(term: string, count: nat) | NotObserved | FromCoverage(note: Note)

  datatype HistoryEvidence = HistoryEvidence(state: HistoryState, count: nat, note: HistoryNote)

  /** The history a finding has before any is gathered. */
  const NO_HISTORY := HistoryEvidence(HistoryUnknown, 0, NoNote)

  datatype RiskLevel = Low | Moderate | Elevated | High | VeryHigh

  /** The texts of `reason`, by what produced them. */
  datatype Reason =
    | MatchesTerm | MatchesPattern | SimilarToTerm | NotInHistory
    | VerifyIntent | CoverageMissing | SeenInHistory
    | AiSuspicion(confidence: real, text: string)

  datatype Finding = Finding(
    term: string, category: string, evidence: EvidenceType, history: HistoryEvidence,
    risk: int, level: RiskLevel, reason: Reason, recommendation: Option<string>)

  datatype ChatStatus = Analyzed | NotAccessible | AnalysisFailed

  datatype ChatAnalysis = ChatAnalysis(
    chat: int, status: ChatStatus, score: Option<int>, level: Option<RiskLevel>, findings: seq<Finding>)
}
