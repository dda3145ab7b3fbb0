/** app/analysis/pipeline.py: the analysis of every chat, the AI merge, and the overall verdict. */
module Pipeline {
  import opened Strings
  import opened Normalize
  import opened Models
  import opened Scoring
  import opened RuleEngine
  import opened Ranking
  import opened Findings

  // ---------------------------------------------------------------- _analyze_chat

  datatype Target = Target(chat: int, accessible: bool)

  /** What the analysis of one chat meets: the matcher as the cache answers then, and the history. */
  datatype ChatWorld = ChatWorld(mt: Matcher, gather: Gather)

  /** The rules that bear on a chat: the global ones, then its own. */
  function RulesFor(rules: seq<Rule>, chat: int): seq<Rule>
  {
    Keep((r: Rule) => r.scope.GlobalScope?, rules) + Keep((r: Rule) => r.scope == ChatScope(chat), rules)
  }

  function RiskKey(f: Finding): int
  {
    f.risk
  }

  function ScoredAll(fs: seq<Finding>, w: RiskWeights): seq<Finding>
  {
    seq(|fs|, i requires 0 <= i < |fs| => Scored(fs[i], w))
  }

  function Top(fs: seq<Finding>): seq<Finding>
  {
    Take(SortDescending(RiskKey, fs), MAX_FINDINGS)
  }

  /** A chat's score and level are those of its first finding. */
  function Headed(c: ChatAnalysis, fs: seq<Finding>): ChatAnalysis
  {
    if fs == [] then c.(findings := [], score := Some(0), level := Some(Low))
    else c.(findings := fs, score := Some(fs[0].risk), level := Some(fs[0].level))
  }

  /** All findings of a chat before they are ranked, or none when gathering history fails. */
  function RawFindings(world: ChatWorld, nv: Novelty, doc: Document, rules: seq<Rule>): Option<seq<Finding>>
  {
    var fs := RuleFindings(world.mt, doc, rules);
    Gathered(world.gather, fs + UnseenFindings(world.mt.unicode.casefold, nv, doc, fs))
  }

  function ChatResult(target: Target, world: ChatWorld, nv: Novelty, doc: Document, rules: seq<Rule>, w: RiskWeights): ChatAnalysis
  {
    var blank := ChatAnalysis(target.chat, Analyzed, None, None, []);
    if !target.accessible then blank.(status := NotAccessible)
    else
      var raw := RawFindings(world, nv, doc, RulesFor(rules, target.chat));
      if raw.None? then blank.(status := AnalysisFailed)
      else Headed(blank, Top(ScoredAll(raw.value, w)))
  }

  method ScoreAll(fs: seq<Finding>, w: RiskWeights) returns (scored: seq<Finding>)
    ensures scored == ScoredAll(fs, w)
  {
    scored := [];
    for i := 0 to |fs|
      invariant scored == ScoredAll(fs[..i], w)
    {
      var f := ScoreFinding(fs[i], w);
      scored := scored + [f];
    }
    assert fs[..|fs|] == fs;
  }

  method AnalyzeChat(target: Target, world: ChatWorld, nv: Novelty, doc: Document, rules: seq<Rule>, w: RiskWeights)
    returns (result: ChatAnalysis)
    ensures result == ChatResult(target, world, nv, doc, rules, w)
  {
    result := ChatAnalysis(target.chat, Analyzed, None, None, []);
    if !target.accessible {
      return result.(status := NotAccessible);
    }
    var findings := CollectRuleFindings(world.mt, doc, RulesFor(rules, target.chat));
    findings := UnseenScan(world.mt.unicode.casefold, nv, doc, findings);
    var gathered := GatherHistory(world.gather, findings);
    if gathered.None? {
      return result.(status := AnalysisFailed);
    }
    var scored := ScoreAll(gathered.value, w);
    result := result.(findings := Top(scored));
    if result.findings != [] {
      result := result.(score := Some(result.findings[0].risk), level := Some(result.findings[0].level));
    } else {
      result := result.(score := Some(0), level := Some(Low));
    }
  }

  // ---------------------------------------------------------------- _merge_ai

  datatype AiPhrase = AiPhrase(phrase: string, suspicious: bool, confidence: real, reason: string, suggestion: Option<string>)

  predicate Flagged(p: AiPhrase)
  {
    p.suspicious && p.confidence >= 0.5 && p.phrase != ""
  }

  /** The phrase and the term contain one another, folded. */
  predicate Touches(casefold: string -> string, p: AiPhrase, f: Finding)
  {
    Contains(casefold(f.term), casefold(p.phrase)) || Contains(casefold(p.phrase), casefold(f.term))
  }

  /** The first finding the phrase touches, or the length. */
  function FirstTouched(casefold: string -> string, p: AiPhrase, fs: seq<Finding>): (i: nat)
    ensures i <= |fs| && (i < |fs| ==> Touches(casefold, p, fs[i]))
    ensures forall j | 0 <= j < i :: !Touches(casefold, p, fs[j])
  {
    if fs == [] || Touches(casefold, p, fs[0]) then 0 else 1 + FirstTouched(casefold, p, fs[1..])
  }

  predicate Attachable(casefold: string -> string, p: AiPhrase, c: ChatAnalysis)
  {
    c.status.Analyzed? && FirstTouched(casefold, p, c.findings) < |c.findings|
  }

  /** The first chat that satisfies `p`, or the length. */
  function FirstChat(p: ChatAnalysis -> bool, cs: seq<ChatAnalysis>): (i: nat)
    ensures i <= |cs| && (i < |cs| ==> p(cs[i]))
    ensures forall j | 0 <= j < i :: !p(cs[j])
  {
    if cs == [] || p(cs[0]) then 0 else 1 + FirstChat(p, cs[1..])
  }

  /** A touched finding takes the phrase's suggestion and reason, and is scored again. */
  function Attached(p: AiPhrase, f: Finding, w: RiskWeights): Finding
  {
    var recommendation := if p.suggestion.Some? && p.suggestion.value != "" then p.suggestion else f.recommendation;
    var reason := if f.reason.AiSuspicion? then f.reason else AiSuspicion(p.confidence, p.reason);
    Scored(f.(recommendation := recommendation, reason := reason), w)
  }

  function SemanticFinding(p: AiPhrase, w: RiskWeights): Finding
  {
    Scored(Finding(p.phrase, "semantic", SemanticMatch, NO_HISTORY, 0, Low, AiSuspicion(p.confidence, p.reason), p.suggestion), w)
  }

  /** One flagged phrase: attached to the first finding it touches in the chats in order, without
      ranking anew; else, when the message has it, a new finding of the first analyzed chat. */
  function MergePhrase(casefold: string -> string, original: string, p: AiPhrase, cs: seq<ChatAnalysis>, w: RiskWeights): seq<ChatAnalysis>
  {
    var at := FirstChat(c => Attachable(casefold, p, c), cs);
    var first := FirstChat((c: ChatAnalysis) => c.status.Analyzed?, cs);
    if at < |cs| then
      var i := FirstTouched(casefold, p, cs[at].findings);
      cs[at := cs[at].(findings := cs[at].findings[i := Attached(p, cs[at].findings[i], w)])]
    else if first < |cs| && Contains(casefold(original), casefold(p.phrase)) then
      cs[first := Headed(cs[first], Top(cs[first].findings + [SemanticFinding(p, w)]))]
    else cs
  }

  function MergeAll(casefold: string -> string, original: string, ps: seq<AiPhrase>, cs: seq<ChatAnalysis>, w: RiskWeights): seq<ChatAnalysis>
  {
    if ps == [] then cs
    else
      var before := MergeAll(casefold, original, ps[..|ps| - 1], cs, w);
      if Flagged(ps[|ps| - 1]) then MergePhrase(casefold, original, ps[|ps| - 1], before, w) else before
  }

  // ---------------------------------------------------------------- analyze

  function MaxScore(cs: seq<ChatAnalysis>): (m: int)
  {
    if cs == [] then 0
    else
      var rest := MaxScore(cs[..|cs| - 1]);
      var last := cs[|cs| - 1].score;
      if last.Some? && (last.value > rest || !HasScore(cs[..|cs| - 1])) then last.value else rest
  }

  predicate HasScore(cs: seq<ChatAnalysis>)
  {
    exists c :: c in cs && c.score.Some?
  }

  function CountAnalyzed(cs: seq<ChatAnalysis>): (n: nat)
    ensures n <= |cs|
  {
    if cs == [] then 0 else CountAnalyzed(cs[..|cs| - 1]) + if cs[|cs| - 1].status.Analyzed? then 1 else 0
  }

  lemma {:induction false} NothingToMerge(casefold: string -> string, original: string, ps: seq<AiPhrase>, w: RiskWeights)
    ensures MergeAll(casefold, original, ps, [], w) == []
  {
    if ps != [] {
      NothingToMerge(casefold, original, ps[..|ps| - 1], w);
    }
  }

  /** What one request meets: its document, chats and rules, and per chat the world then. */
  datatype Request = Request(
    doc: Document, targets: seq<Target>, worlds: seq<ChatWorld>, nv: Novelty, rules: seq<Rule>,
    casefold: string -> string, ai: Option<seq<AiPhrase>>, weights: RiskWeights)
  {
    ghost predicate Valid()
    {
      |worlds| == |targets|
    }

    /** The result of each chat before the AI merge. */
    function Results(): seq<ChatAnalysis>
      requires |worlds| == |targets|
    {
      seq(|targets|, i requires 0 <= i < |targets| => ChatResult(targets[i], worlds[i], nv, doc, rules, weights))
    }

    function Merged(): seq<ChatAnalysis>
      requires |worlds| == |targets|
    {
      if ai.None? then Results() else MergeAll(casefold, doc.original, ai.value, Results(), weights)
    }
  }

  /** Every chat on its own: one that fails or is not accessible never stops the others. */
  method AnalyzeChats(q: Request) returns (cs: seq<ChatAnalysis>)
    requires q.Valid()
    ensures cs == q.Results()
  {
    cs := [];
    for i := 0 to |q.targets|
      invariant cs == q.Results()[..i]
    {
      var result := AnalyzeChat(q.targets[i], q.worlds[i], q.nv, q.doc, q.rules, q.weights);
      cs := cs + [result];
    }
    assert q.Results()[..|q.targets|] == q.Results();
  }

  class AnalysisOutcome {
    var chatResults: seq<ChatAnalysis>
    var overallScore: int
    var overallLevel: RiskLevel
    var chatsChecked: nat
    var chatsOk: nat
    var chatsUnavailable: nat

    constructor ()
      ensures chatResults == [] && overallScore == 0 && overallLevel == Low
      ensures chatsChecked == 0 && chatsOk == 0 && chatsUnavailable == 0
    {
      chatResults, overallScore, overallLevel := [], 0, Low;
      chatsChecked, chatsOk, chatsUnavailable := 0, 0, 0;
    }

    /** `_merge_ai`: the loops over phrases, chats and findings, with their two breaks. */
    method MergeAi(casefold: string -> string, original: string, ps: seq<AiPhrase>, w: RiskWeights)
      modifies this`chatResults
      ensures chatResults == MergeAll(casefold, original, ps, old(chatResults), w)
    {
      for n := 0 to |ps|
        invariant chatResults == MergeAll(casefold, original, ps[..n], old(chatResults), w)
      {
        assert ps[..n + 1][..n] == ps[..n] && ps[..n + 1][n] == ps[n];
        if Flagged(ps[n]) {
          MergeOne(casefold, original, ps[n], w);
        }
      }
      assert ps[..|ps|] == ps;
    }

    method MergeOne(casefold: string -> string, original: string, p: AiPhrase, w: RiskWeights)
      modifies this`chatResults
      ensures chatResults == MergePhrase(casefold, original, p, old(chatResults), w)
    {
      var cs := chatResults;
      var k := 0;
      while k < |cs| && !Attachable(casefold, p, cs[k])
        invariant k <= FirstChat(c => Attachable(casefold, p, c), cs)
      {
        k := k + 1;
      }
      if k < |cs| {
        var i := FirstTouched(casefold, p, cs[k].findings);
        var f := cs[k].findings[i];
        var touched := f.(recommendation := if p.suggestion.Some? && p.suggestion.value != "" then p.suggestion else f.recommendation,
                          reason := if f.reason.AiSuspicion? then f.reason else AiSuspicion(p.confidence, p.reason));
        var rescored := ScoreFinding(touched, w);
        chatResults := cs[k := cs[k].(findings := cs[k].findings[i := rescored])];
        return;
      }
      var first := FirstChat((c: ChatAnalysis) => c.status.Analyzed?, cs);
      if first < |cs| && Contains(casefold(original), casefold(p.phrase)) {
        var found := ScoreFinding(
          Finding(p.phrase, "semantic", SemanticMatch, NO_HISTORY, 0, Low, AiSuspicion(p.confidence, p.reason), p.suggestion), w);
        var ranked := Top(cs[first].findings + [found]);
        HeadIsTop(RiskKey, cs[first].findings + [found], MAX_FINDINGS);
        chatResults := cs[first := cs[first].(findings := ranked, score := Some(ranked[0].risk), level := Some(ranked[0].level))];
      }
    }

    /** `analyze`, once chats and rules are read. */
    method Analyze(q: Request)
      requires q.Valid() && chatResults == [] && overallScore == 0 && overallLevel == Low
      requires chatsChecked == 0 && chatsOk == 0 && chatsUnavailable == 0
      modifies this
      ensures chatResults == q.Merged() && chatsChecked == |q.targets|
      ensures overallScore == MaxScore(chatResults) && overallLevel == LevelOf(overallScore)
      ensures chatsOk == CountAnalyzed(q.Results()) && chatsUnavailable == |q.targets| - CountAnalyzed(q.Results())
    {
      if q.targets == [] {
        if q.ai.Some? {
          NothingToMerge(q.casefold, q.doc.original, q.ai.value, q.weights);
        }
        return;
      }
      chatResults := AnalyzeChats(q);
      chatsChecked := |q.targets|;
      chatsOk := CountAnalyzed(chatResults);
      chatsUnavailable := |chatResults| - CountAnalyzed(chatResults);
      if q.ai.Some? {
        MergeAi(q.casefold, q.doc.original, q.ai.value, q.weights);
      }
      overallScore := MaxScore(chatResults);
      overallLevel := LevelOf(overallScore);
    }
  }

  /** The counts of an outcome: the chats that can be analyzed, and the others. */
  lemma OutcomeCounts(q: Request)
    requires q.Valid()
    ensures CountAnalyzed(q.Results()) == |set i: nat | i < |q.targets| && Analyzable(q, i)|
  {
    var cs := q.Results();
    CountIs(cs, |cs|);
    assert cs[..|cs|] == cs;
    forall i: nat | i < |cs| ensures cs[i].status.Analyzed? <==> Analyzable(q, i) {
      ChatStatusIff(q.targets[i], q.worlds[i], q.nv, q.doc, q.rules, q.weights);
    }
    assert (set i: nat | i < |q.targets| && Analyzable(q, i)) == AnalyzedPlaces(cs, |cs|);
  }

  function AnalyzedPlaces(cs: seq<ChatAnalysis>, n: nat): set<nat>
    requires n <= |cs|
  {
    set i: nat | i < n && cs[i].status.Analyzed?
  }

  lemma {:induction false} CountIs(cs: seq<ChatAnalysis>, n: nat)
    requires n <= |cs|
    ensures CountAnalyzed(cs[..n]) == |AnalyzedPlaces(cs, n)|
  {
    if n > 0 {
      CountIs(cs, n - 1);
      assert cs[..n][..n - 1] == cs[..n - 1];
      assert AnalyzedPlaces(cs, n) == AnalyzedPlaces(cs, n - 1) + if cs[n - 1].status.Analyzed? then {n - 1} else {};
    }
  }

  // ---------------------------------------------------------------- the ranking of a chat

  /** The risk and level of a finding are those its evidence gives. */
  predicate IsScored(f: Finding, w: RiskWeights)
  {
    f.risk == RiskOf(f.evidence, f.history, w) && f.level == LevelOf(f.risk)
  }

  /** An analyzed chat: scored findings, at most eight, highest risk first; the chat's score is the
      head's risk, its level the level of that. Other chats have no score and no findings. */
  ghost predicate Ranked(c: ChatAnalysis, w: RiskWeights)
  {
    if c.status.Analyzed? then
      && Descending(RiskKey, c.findings) && |c.findings| <= MAX_FINDINGS
      && (forall f :: f in c.findings ==> IsScored(f, w))
      && c.score == Some(if c.findings == [] then 0 else c.findings[0].risk)
      && c.level == Some(LevelOf(c.score.value))
    else
      c.score == None && c.level == None && c.findings == []
  }

  lemma TopIsRanked(c: ChatAnalysis, fs: seq<Finding>, w: RiskWeights)
    requires c.status.Analyzed? && forall f :: f in fs ==> IsScored(f, w)
    ensures Ranked(Headed(c, Top(fs)), w)
    ensures HasRuleFinding(Top(fs)) ==> HasRuleFinding(fs)
    ensures fs != [] ==> Top(fs) != [] && forall f :: f in fs ==> f.risk <= Top(fs)[0].risk
  {
    if fs == [] {
      assert Top(fs) == [];
    } else {
      HeadIsTop(RiskKey, fs, MAX_FINDINGS);
      assert Top(fs)[0] in Top(fs);
      assert IsScored(Top(fs)[0], w);
    }
  }

  lemma ScoredAllIsScored(fs: seq<Finding>, w: RiskWeights)
    ensures forall f :: f in ScoredAll(fs, w) ==> IsScored(f, w)
    ensures HasRuleFinding(ScoredAll(fs, w)) <==> HasRuleFinding(fs)
  {
    var r := ScoredAll(fs, w);
    if f :| f in fs && Deterministic(f.evidence) {
      var i :| 0 <= i < |fs| && fs[i] == f;
      assert r[i] in r;
    }
    if f :| f in r && Deterministic(f.evidence) {
      var i :| 0 <= i < |r| && r[i] == f;
      assert fs[i] in fs;
    }
  }

  /** Every chat's analysis comes out ranked. */
  lemma ResultIsRanked(target: Target, world: ChatWorld, nv: Novelty, doc: Document, rules: seq<Rule>, w: RiskWeights)
    ensures Ranked(ChatResult(target, world, nv, doc, rules, w), w)
  {
    var raw := RawFindings(world, nv, doc, RulesFor(rules, target.chat));
    if target.accessible && raw.Some? {
      ScoredAllIsScored(raw.value, w);
      TopIsRanked(ChatAnalysis(target.chat, Analyzed, None, None, []), ScoredAll(raw.value, w), w);
    }
  }

  /** What a merge may do to a chat. */
  ghost predicate MergedFrom(before: ChatAnalysis, after: ChatAnalysis, w: RiskWeights)
    requires Ranked(before, w)
  {
    && after.chat == before.chat && after.status == before.status
    && Ranked(after, w)
    && (before.status.Analyzed? ==> after.score.value >= before.score.value)
    && (!before.status.Analyzed? ==> after == before)
    && (HasRuleFinding(after.findings) ==> HasRuleFinding(before.findings))
  }

  /** Attaching a phrase leaves the risk, so the order needs no new ranking. */
  lemma AttachKeepsRanking(casefold: string -> string, p: AiPhrase, c: ChatAnalysis, w: RiskWeights)
    requires Ranked(c, w) && Attachable(casefold, p, c)
    ensures var i := FirstTouched(casefold, p, c.findings);
            MergedFrom(c, c.(findings := c.findings[i := Attached(p, c.findings[i], w)]), w)
  {
    var i := FirstTouched(casefold, p, c.findings);
    var f, g := c.findings[i], Attached(p, c.findings[i], w);
    assert IsScored(f, w);
    assert g.risk == f.risk && g.level == f.level && g.evidence == f.evidence;
    var fs := c.findings[i := g];
    if HasRuleFinding(fs) {
      var d :| d in fs && Deterministic(d.evidence);
      assert d == g || d in c.findings;
      assert f in c.findings;
    }
  }

  lemma SemanticKeepsRanking(p: AiPhrase, c: ChatAnalysis, w: RiskWeights)
    requires Ranked(c, w) && c.status.Analyzed?
    ensures MergedFrom(c, Headed(c, Top(c.findings + [SemanticFinding(p, w)])), w)
  {
    var fs := c.findings + [SemanticFinding(p, w)];
    TopIsRanked(c, fs, w);
    RiskInRange(SemanticMatch, NO_HISTORY, w);
    assert SemanticFinding(p, w) in fs;
    if c.findings != [] {
      assert c.findings[0] in fs;
    }
  }

  lemma PhraseKeepsRanking(casefold: string -> string, original: string, p: AiPhrase, cs: seq<ChatAnalysis>, w: RiskWeights)
    requires forall c :: c in cs ==> Ranked(c, w)
    ensures |MergePhrase(casefold, original, p, cs, w)| == |cs|
    ensures forall k | 0 <= k < |cs| :: MergedFrom(cs[k], MergePhrase(casefold, original, p, cs, w)[k], w)
  {
    var at := FirstChat(c => Attachable(casefold, p, c), cs);
    var first := FirstChat((c: ChatAnalysis) => c.status.Analyzed?, cs);
    assert forall k | 0 <= k < |cs| :: MergedFrom(cs[k], cs[k], w);
    if at < |cs| {
      AttachKeepsRanking(casefold, p, cs[at], w);
    } else if first < |cs| {
      SemanticKeepsRanking(p, cs[first], w);
    }
  }

  /** The AI merge keeps every ranking, lowers no score, leaves chats that were not analyzed alone,
      and adds no finding of a rule. */
  lemma {:induction false} MergeKeepsRanking(casefold: string -> string, original: string, ps: seq<AiPhrase>, cs: seq<ChatAnalysis>, w: RiskWeights)
    requires forall c :: c in cs ==> Ranked(c, w)
    ensures |MergeAll(casefold, original, ps, cs, w)| == |cs|
    ensures forall k | 0 <= k < |cs| :: MergedFrom(cs[k], MergeAll(casefold, original, ps, cs, w)[k], w)
  {
    if ps == [] {
      assert forall k | 0 <= k < |cs| :: cs[k] in cs;
    } else {
      var init, p := ps[..|ps| - 1], ps[|ps| - 1];
      MergeKeepsRanking(casefold, original, init, cs, w);
      var before := MergeAll(casefold, original, init, cs, w);
      forall c | c in before ensures Ranked(c, w) {
        var k :| 0 <= k < |before| && before[k] == c;
        assert MergedFrom(cs[k], before[k], w);
      }
      PhraseKeepsRanking(casefold, original, p, before, w);
      var after := MergeAll(casefold, original, ps, cs, w);
      forall k | 0 <= k < |cs| ensures MergedFrom(cs[k], after[k], w) {
        assert before[k] in before && cs[k] in cs;
        assert MergedFrom(cs[k], before[k], w);
        assert Flagged(p) ==> MergedFrom(before[k], after[k], w);
      }
    }
  }

  /** So in the outcome of a request every analyzed chat is ranked: its score is its head's risk and
      its level the level of that, although attached findings are scored again in place. */
  lemma OutcomeIsRanked(q: Request)
    requires q.Valid()
    ensures |q.Merged()| == |q.targets|
    ensures forall i | 0 <= i < |q.targets| :: Ranked(q.Results()[i], q.weights) && MergedFrom(q.Results()[i], q.Merged()[i], q.weights)
  {
    var cs := q.Results();
    forall i | 0 <= i < |cs| ensures Ranked(cs[i], q.weights) && MergedFrom(cs[i], cs[i], q.weights) {
      ResultIsRanked(q.targets[i], q.worlds[i], q.nv, q.doc, q.rules, q.weights);
    }
    if q.ai.Some? {
      MergeKeepsRanking(q.casefold, q.doc.original, q.ai.value, cs, q.weights);
    }
  }

  /** The first finding, over the chats in order, that contains the phrase or is contained in it. */
  ghost predicate FirstTouch(casefold: string -> string, p: AiPhrase, cs: seq<ChatAnalysis>, k: nat, i: nat)
  {
    && k < |cs| && cs[k].status.Analyzed? && i < |cs[k].findings| && RelatesTo(casefold, p, cs[k].findings[i])
    && (forall j | 0 <= j < i :: !RelatesTo(casefold, p, cs[k].findings[j]))
    && (forall l, f | 0 <= l < k && cs[l].status.Analyzed? && f in cs[l].findings :: !RelatesTo(casefold, p, f))
  }

  ghost predicate RelatesTo(casefold: string -> string, p: AiPhrase, f: Finding)
  {
    Occurs(casefold(p.phrase), casefold(f.term)) || Occurs(casefold(f.term), casefold(p.phrase))
  }

  /** The first analyzed chat. */
  predicate FirstAnalyzed(cs: seq<ChatAnalysis>, k: nat)
  {
    k < |cs| && cs[k].status.Analyzed? && forall l | 0 <= l < k :: !cs[l].status.Analyzed?
  }

  lemma TouchesIff(casefold: string -> string, p: AiPhrase, f: Finding)
    ensures Touches(casefold, p, f) <==> RelatesTo(casefold, p, f)
  {
    ContainsIff(casefold(f.term), casefold(p.phrase));
    ContainsIff(casefold(p.phrase), casefold(f.term));
  }

  lemma FirstTouchIs(casefold: string -> string, p: AiPhrase, cs: seq<ChatAnalysis>, k: nat, i: nat)
    requires FirstTouch(casefold, p, cs, k, i)
    ensures FirstChat(c => Attachable(casefold, p, c), cs) == k && FirstTouched(casefold, p, cs[k].findings) == i
  {
    forall f: Finding ensures Touches(casefold, p, f) <==> RelatesTo(casefold, p, f) {
      TouchesIff(casefold, p, f);
    }
    assert Attachable(casefold, p, cs[k]);
  }

  /** What a phrase that is flagged leads to. It marks the first finding that it relates to: with its
      suggestion, if it has one, and with the suspicion as reason, and changes nothing else. */
  lemma FlaggedMarks(casefold: string -> string, original: string, ps: seq<AiPhrase>, p: AiPhrase, cs: seq<ChatAnalysis>, w: RiskWeights, k: nat, i: nat)
    requires p.suspicious && p.confidence >= 0.5 && p.phrase != ""
    requires FirstTouch(casefold, p, MergeAll(casefold, original, ps, cs, w), k, i)
    ensures var before, after := MergeAll(casefold, original, ps, cs, w), MergeAll(casefold, original, ps + [p], cs, w);
            && |after| == |before| && (forall l | 0 <= l < |before| && l != k :: after[l] == before[l])
            && after[k] == before[k].(findings := after[k].findings) && |after[k].findings| == |before[k].findings|
            && (forall j | 0 <= j < |before[k].findings| && j != i :: after[k].findings[j] == before[k].findings[j])
            && var f, g := before[k].findings[i], after[k].findings[i];
            && g.term == f.term && g.category == f.category && g.evidence == f.evidence && g.history == f.history
            && g.recommendation == (if p.suggestion.Some? && p.suggestion.value != "" then p.suggestion else f.recommendation)
            && g.reason == (if f.reason.AiSuspicion? then f.reason else AiSuspicion(p.confidence, p.reason))
  {
    assert (ps + [p])[..|ps|] == ps;
    FirstTouchIs(casefold, p, MergeAll(casefold, original, ps, cs, w), k, i);
  }

  /** With no such finding, and if the message has the phrase, the first analyzed chat gains a
      finding of it, unless eight others rank at least as high. */
  lemma FlaggedAdds(casefold: string -> string, original: string, ps: seq<AiPhrase>, p: AiPhrase, cs: seq<ChatAnalysis>, w: RiskWeights, k: nat)
    requires p.suspicious && p.confidence >= 0.5 && p.phrase != ""
    requires var before := MergeAll(casefold, original, ps, cs, w);
             FirstAnalyzed(before, k) && forall l, f | 0 <= l < |before| && before[l].status.Analyzed? && f in before[l].findings :: !RelatesTo(casefold, p, f)
    ensures var before, after := MergeAll(casefold, original, ps, cs, w), MergeAll(casefold, original, ps + [p], cs, w);
            var f := SemanticFinding(p, w);
            && f.term == p.phrase && f.evidence == SemanticMatch && f.recommendation == p.suggestion && f.reason == AiSuspicion(p.confidence, p.reason)
            && (!Occurs(casefold(p.phrase), casefold(original)) ==> after == before)
            && (Occurs(casefold(p.phrase), casefold(original)) ==>
                  && |after| == |before| && (forall l | 0 <= l < |before| && l != k :: after[l] == before[l])
                  && (f in after[k].findings || (|after[k].findings| == MAX_FINDINGS && forall g :: g in after[k].findings ==> g.risk >= f.risk)))
  {
    var before := MergeAll(casefold, original, ps, cs, w);
    assert (ps + [p])[..|ps|] == ps;
    forall f: Finding ensures Touches(casefold, p, f) <==> RelatesTo(casefold, p, f) {
      TouchesIff(casefold, p, f);
    }
    ContainsIff(casefold(original), casefold(p.phrase));
    assert FirstChat((c: ChatAnalysis) => c.status.Analyzed?, before) == k;
    assert FirstChat(c => Attachable(casefold, p, c), before) == |before|;
    KeptOrOutranked(before[k].findings, SemanticFinding(p, w));
  }

  lemma KeptOrOutranked(fs: seq<Finding>, f: Finding)
    ensures f in Top(fs + [f]) || (|Top(fs + [f])| == MAX_FINDINGS && forall g :: g in Top(fs + [f]) ==> g.risk >= f.risk)
  {
    var all := fs + [f];
    assert f in all;
    SortMembers(RiskKey, all);
    HeadIsTop(RiskKey, all, MAX_FINDINGS);
    assert forall g :: g in Top(all) ==> RiskKey(g) == g.risk;
    assert RiskKey(f) == f.risk;
  }

  /** A phrase that is not flagged changes nothing. */
  lemma UnflaggedIgnored(casefold: string -> string, original: string, ps: seq<AiPhrase>, p: AiPhrase, cs: seq<ChatAnalysis>, w: RiskWeights)
    requires !p.suspicious || p.confidence < 0.5 || p.phrase == ""
    ensures MergeAll(casefold, original, ps + [p], cs, w) == MergeAll(casefold, original, ps, cs, w)
  {
    assert (ps + [p])[..|ps|] == ps;
  }

  // ---------------------------------------------------------------- the verdict

  /** With the default weights a ranked chat scores 70 exactly when it has a finding of a rule, and
      otherwise at most 30. */
  lemma RankedVerdict(c: ChatAnalysis)
    requires Ranked(c, DEFAULT_WEIGHTS) && c.status.Analyzed?
    ensures HasRuleFinding(c.findings) ==> c.score == Some(70)
    ensures !HasRuleFinding(c.findings) ==> 0 <= c.score.value <= 30
  {
    if c.findings != [] {
      var head := c.findings[0];
      assert head in c.findings;
      DefaultRisk(head.evidence, head.history);
      if HasRuleFinding(c.findings) {
        var f :| f in c.findings && Deterministic(f.evidence);
        DefaultRisk(f.evidence, f.history);
        var i :| 0 <= i < |c.findings| && c.findings[i] == f;
        assert RiskKey(head) >= RiskKey(f);
      }
    }
  }

  /** The rule is a global one, or of this chat. */
  predicate BearsOn(r: Rule, chat: int)
  {
    r.scope == GlobalScope || r.scope == ChatScope(chat)
  }

  /** The rule blocks a fragment of the message that no allow rule that bears on the chat covers. */
  predicate Unsuppressed(mt: Matcher, doc: Document, rules: seq<Rule>, chat: int, r: Rule)
  {
    && r.enabled && !r.isAllowlist && BearsOn(r, chat) && Fragment(mt, doc, r).Some?
    && forall a :: a in rules && a.enabled && a.isAllowlist && BearsOn(a, chat) && Fragment(mt, doc, a).Some?
         ==> mt.unicode.casefold(Fragment(mt, doc, a).value) != mt.unicode.casefold(Fragment(mt, doc, r).value)
  }

  /** Some unsuppressed exact, phrase or regex match bears on the chat. */
  predicate RuleFires(target: Target, world: ChatWorld, doc: Document, rules: seq<Rule>)
  {
    exists r :: r in rules && Unsuppressed(world.mt, doc, rules, target.chat, r)
  }

  /** The matches of the global rules and the chat's own are there exactly when such a rule is. */
  lemma RuleFiresIff(target: Target, world: ChatWorld, doc: Document, rules: seq<Rule>)
    ensures RuleFires(target, world, doc, rules) <==> Matches(world.mt, doc, RulesFor(rules, target.chat)) != []
  {
    var own, mt := RulesFor(rules, target.chat), world.mt;
    assert forall r :: r in own <==> r in rules && BearsOn(r, target.chat);
    var ms := Matches(mt, doc, own);
    if ms != [] {
      assert ms[0] in ms;
      MatchedIff(mt, doc, own, ms[0]);
    }
    if r :| r in rules && Unsuppressed(mt, doc, rules, target.chat, r) {
      MatchedIff(mt, doc, own, MatchOf(mt, doc, r));
    }
  }

  /** The findings of a chat before their history is gathered. */
  function Found(target: Target, world: ChatWorld, nv: Novelty, doc: Document, rules: seq<Rule>): seq<Finding>
  {
    var found := RuleFindings(world.mt, doc, RulesFor(rules, target.chat));
    found + UnseenFindings(world.mt.unicode.casefold, nv, doc, found)
  }

  /** A chat that is not accessible is not analyzed; an accessible one fails exactly when gathering
      the history of one of its findings does, and is analyzed otherwise. */
  lemma ChatStatusIff(target: Target, world: ChatWorld, nv: Novelty, doc: Document, rules: seq<Rule>, w: RiskWeights)
    ensures var status := ChatResult(target, world, nv, doc, rules, w).status;
            && (status == NotAccessible <==> !target.accessible)
            && (status == AnalysisFailed <==> target.accessible && exists f :: f in Found(target, world, nv, doc, rules) && world.gather(f.term).None?)
            && (status == Analyzed <==> target.accessible && forall f :: f in Found(target, world, nv, doc, rules) ==> world.gather(f.term).Some?)
  {
    GatheredLaws(world.gather, Found(target, world, nv, doc, rules));
  }

  /** Dropping duplicates, the novelty scan, the history and the scoring neither lose nor invent a
      finding of a rule. */
  lemma RawHasRule(world: ChatWorld, nv: Novelty, doc: Document, rules: seq<Rule>, w: RiskWeights)
    requires RawFindings(world, nv, doc, rules).Some?
    ensures HasRuleFinding(ScoredAll(RawFindings(world, nv, doc, rules).value, w)) <==> Matches(world.mt, doc, rules) != []
  {
    var found := RuleFindings(world.mt, doc, rules);
    var unseen := UnseenFindings(world.mt.unicode.casefold, nv, doc, found);
    var raw := RawFindings(world, nv, doc, rules).value;
    RuleFoundIff(world.mt, doc, rules);
    UnseenScanLaws(world.mt.unicode.casefold, nv, doc, found);
    GatheredLaws(world.gather, found + unseen);
    HistoryKeepsEvidence(found + unseen, raw);
    UnseenAddsNoRule(found, unseen);
    ScoredAllIsScored(raw, w);
  }

  /** The findings of an analyzed chat hold one of a rule exactly when a rule fires, through the
      sort and the cut as well. */
  lemma RuleSurvives(target: Target, world: ChatWorld, nv: Novelty, doc: Document, rules: seq<Rule>)
    requires ChatResult(target, world, nv, doc, rules, DEFAULT_WEIGHTS).status.Analyzed?
    ensures HasRuleFinding(ChatResult(target, world, nv, doc, rules, DEFAULT_WEIGHTS).findings) <==> RuleFires(target, world, doc, rules)
  {
    var own := RulesFor(rules, target.chat);
    var scored := ScoredAll(RawFindings(world, nv, doc, own).value, DEFAULT_WEIGHTS);
    RuleFiresIff(target, world, doc, rules);
    RawHasRule(world, nv, doc, own, DEFAULT_WEIGHTS);
    ScoredAllIsScored(RawFindings(world, nv, doc, own).value, DEFAULT_WEIGHTS);
    TopIsRanked(ChatAnalysis(target.chat, Analyzed, None, None, []), scored, DEFAULT_WEIGHTS);
    if HasRuleFinding(scored) {
      var f :| f in scored && Deterministic(f.evidence);
      DefaultRisk(f.evidence, f.history);
      var head := Top(scored)[0];
      assert head in Top(scored);
      assert IsScored(head, DEFAULT_WEIGHTS);
      DefaultRisk(head.evidence, head.history);
    }
  }

  lemma UnseenAddsNoRule(found: seq<Finding>, unseen: seq<Finding>)
    requires forall u :: u in unseen ==> u.evidence == UnseenTerm
    ensures HasRuleFinding(found + unseen) <==> HasRuleFinding(found)
  {
  }

  lemma HistoryKeepsEvidence(fs: seq<Finding>, gs: seq<Finding>)
    requires |fs| == |gs| && forall i | 0 <= i < |fs| :: gs[i].evidence == fs[i].evidence
    ensures HasRuleFinding(gs) <==> HasRuleFinding(fs)
  {
  }

  lemma {:induction false} MaxScoreLaws(cs: seq<ChatAnalysis>)
    ensures HasScore(cs) ==> exists c :: c in cs && c.score == Some(MaxScore(cs))
    ensures forall c :: c in cs && c.score.Some? ==> c.score.value <= MaxScore(cs)
    ensures !HasScore(cs) ==> MaxScore(cs) == 0
  {
    if cs != [] {
      var init, last := cs[..|cs| - 1], cs[|cs| - 1];
      MaxScoreLaws(init);
      assert cs == init + [last];
      if HasScore(init) {
        var c :| c in init && c.score.Some?;
        assert c in cs;
        var best :| best in init && best.score == Some(MaxScore(init));
        assert best in cs;
      }
      assert last in cs;
    }
  }

  /** The chat is accessible, and the history of each of its findings can be gathered. */
  predicate Analyzable(q: Request, i: nat)
    requires |q.worlds| == |q.targets| && i < |q.targets|
  {
    && q.targets[i].accessible
    && forall f :: f in Found(q.targets[i], q.worlds[i], q.nv, q.doc, q.rules) ==> q.worlds[i].gather(f.term).Some?
  }

  /** A rule fires in some chat that can be analyzed. */
  ghost predicate SomeRuleFires(q: Request)
    requires q.Valid()
  {
    exists i | 0 <= i < |q.targets| :: FiresAt(q, i)
  }

  ghost predicate FiresAt(q: Request, i: nat)
    requires q.Valid() && i < |q.targets|
  {
    Analyzable(q, i) && RuleFires(q.targets[i], q.worlds[i], q.doc, q.rules)
  }

  /** A chat of the final outcome against its rules. */
  lemma MergedVerdict(q: Request, i: nat)
    requires q.Valid() && q.weights == DEFAULT_WEIGHTS && i < |q.targets|
    ensures |q.Merged()| == |q.targets|
    ensures var c := q.Merged()[i];
            if !Analyzable(q, i) then c.score == None && c.status == (if q.targets[i].accessible then AnalysisFailed else NotAccessible)
            else if RuleFires(q.targets[i], q.worlds[i], q.doc, q.rules) then c.score == Some(70)
            else c.score.Some? && 0 <= c.score.value <= 30
  {
    var cs := q.Results();
    OutcomeIsRanked(q);
    ChatStatusIff(q.targets[i], q.worlds[i], q.nv, q.doc, q.rules, q.weights);
    assert MergedFrom(cs[i], q.Merged()[i], DEFAULT_WEIGHTS);
    if cs[i].status.Analyzed? {
      RuleSurvives(q.targets[i], q.worlds[i], q.nv, q.doc, q.rules);
      RankedVerdict(cs[i]);
      RankedVerdict(q.Merged()[i]);
    }
  }

  /** The chat's score, if any, tells whether a rule fires in it. */
  lemma ScoreTells(q: Request, i: nat)
    requires q.Valid() && q.weights == DEFAULT_WEIGHTS && i < |q.targets| && i < |q.Merged()|
    ensures FiresAt(q, i) ==> q.Merged()[i].score == Some(70)
    ensures q.Merged()[i].score.Some? && !FiresAt(q, i) ==> 0 <= q.Merged()[i].score.value <= 30
    ensures q.Merged()[i].score.Some? ==> 0 <= q.Merged()[i].score.value <= 70
  {
    MergedVerdict(q, i);
  }

  /** The critical design rule, end to end: with the default weights the overall score is exactly
      70, HIGH, when an unsuppressed rule matched in some chat that can be analyzed; otherwise it is at most
      30, so novelty, fuzzy likeness, history and AI suspicion never exceed MODERATE. */
  lemma OverallVerdict(q: Request)
    requires q.Valid() && q.weights == DEFAULT_WEIGHTS
    ensures SomeRuleFires(q) ==> MaxScore(q.Merged()) == 70 && LevelOf(MaxScore(q.Merged())) == High
    ensures !SomeRuleFires(q) ==> 0 <= MaxScore(q.Merged()) <= 30 && LevelOf(MaxScore(q.Merged())) in {Low, Moderate}
  {
    var hot := set i: nat | i < |q.targets| && FiresAt(q, i);
    OutcomeIsRanked(q);
    forall i: nat | i < |q.targets|
      ensures i in hot ==> q.Merged()[i].score == Some(70)
      ensures q.Merged()[i].score.Some? && i !in hot ==> 0 <= q.Merged()[i].score.value <= 30
    {
      ScoreTells(q, i);
    }
    MaxOfVerdicts(q.Merged(), hot);
    HotIff(q, hot);
  }

  lemma HotIff(q: Request, hot: set<nat>)
    requires q.Valid() && forall i: nat :: i in hot <==> i < |q.targets| && FiresAt(q, i)
    ensures hot != {} <==> SomeRuleFires(q)
  {
    if SomeRuleFires(q) {
      var i :| 0 <= i < |q.targets| && FiresAt(q, i);
      assert i in hot;
    }
    if hot != {} {
      var i := Member(hot);
    }
  }

  /** The maximum over chats of which some score 70 and the others, if at all, at most 30. */
  lemma MaxOfVerdicts(cs: seq<ChatAnalysis>, hot: set<nat>)
    requires forall i :: i in hot ==> i < |cs| && cs[i].score == Some(70)
    requires forall i: nat | i < |cs| && i !in hot && cs[i].score.Some? :: 0 <= cs[i].score.value <= 30
    ensures hot != {} ==> MaxScore(cs) == 70
    ensures hot == {} ==> 0 <= MaxScore(cs) <= 30
  {
    MaxScoreLaws(cs);
    if hot != {} {
      var i := Member(hot);
      assert cs[i] in cs;
    }
  }

  /** So a literal occurrence of a rule's folded pattern in the clean view gives exactly 70, unless an
      allow rule covers it. */
  lemma LiteralVerdict(q: Request, i: nat, r: Rule, a: string, b: string)
    requires q.Valid() && q.weights == DEFAULT_WEIGHTS && i < |q.targets| && Analyzable(q, i)
    requires r in q.rules && r.enabled && !r.isAllowlist && BearsOn(r, q.targets[i].chat)
    requires r.kind in {Exact, Phrase} && !r.caseSensitive
    requires var u := q.worlds[i].mt.unicode; u.casefold(r.pattern) != "" && q.doc.clean == a + u.casefold(r.pattern) + b
    requires var mt := q.worlds[i].mt;
             forall x :: x in q.rules && x.enabled && x.isAllowlist && BearsOn(x, q.targets[i].chat) && Fragment(mt, q.doc, x).Some?
               ==> mt.unicode.casefold(Fragment(mt, q.doc, x).value) != mt.unicode.casefold(mt.unicode.casefold(r.pattern))
    ensures MaxScore(q.Merged()) == 70
  {
    var mt := q.worlds[i].mt;
    MatchRuleMeaning(mt, r, q.doc);
    assert Occurs(mt.unicode.casefold(r.pattern), q.doc.clean);
    assert Unsuppressed(mt, q.doc, q.rules, q.targets[i].chat, r);
    assert FiresAt(q, i);
    OverallVerdict(q);
  }

  // ---------------------------------------------------------------- the verdict under any weights

  /** A rule that fires in an analyzed chat gives it at least the floor, before the merge. */
  lemma RuleFloorsChat(target: Target, world: ChatWorld, nv: Novelty, doc: Document, rules: seq<Rule>, w: RiskWeights)
    requires ChatResult(target, world, nv, doc, rules, w).status.Analyzed? && RuleFires(target, world, doc, rules)
    ensures var c := ChatResult(target, world, nv, doc, rules, w);
            c.score.Some? && c.score.value >= Round(Clamp(w.explicitFloor))
  {
    var own := RulesFor(rules, target.chat);
    var scored := ScoredAll(RawFindings(world, nv, doc, own).value, w);
    RuleFiresIff(target, world, doc, rules);
    RawHasRule(world, nv, doc, own, w);
    ScoredAllIsScored(RawFindings(world, nv, doc, own).value, w);
    TopIsRanked(ChatAnalysis(target.chat, Analyzed, None, None, []), scored, w);
    var f :| f in scored && Deterministic(f.evidence);
    RuleKeepsFloor(f.evidence, f.history, w);
  }

  /** Whatever the weights, and whatever history and AI say, a rule that fires in some analyzed chat
      keeps the overall score at the configured floor or above. */
  lemma RuleFloorsVerdict(q: Request, i: nat)
    requires q.Valid() && i < |q.targets| && FiresAt(q, i)
    ensures MaxScore(q.Merged()) >= Round(Clamp(q.weights.explicitFloor))
  {
    OutcomeIsRanked(q);
    ChatStatusIff(q.targets[i], q.worlds[i], q.nv, q.doc, q.rules, q.weights);
    RuleFloorsChat(q.targets[i], q.worlds[i], q.nv, q.doc, q.rules, q.weights);
    assert MergedFrom(q.Results()[i], q.Merged()[i], q.weights);
    MaxScoreLaws(q.Merged());
    assert q.Merged()[i] in q.Merged();
  }
}
