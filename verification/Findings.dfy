/** app/analysis/pipeline.py, the stages that build the findings of one chat: rule matches with
    their duplicates dropped, the novelty scan, and the history of every term. */
module Findings {
  import opened Strings
  import opened Tokenize
  import opened Normalize
  import opened Models
  import opened RuleEngine
  import opened Ranking

  const MAX_FINDINGS := 8
  const UNSEEN_MIN_LENGTH := 6

  // ---------------------------------------------------------------- _rule_findings

  function ReasonFor(e: EvidenceType): Reason
  {
    if e.ExplicitRule? then MatchesTerm else if e.RegexRule? then MatchesPattern else SimilarToTerm
  }

  function FindingOf(m: RuleMatch): Finding
  {
    Finding(m.text, m.category, m.evidence, NO_HISTORY, 0, Low, ReasonFor(m.evidence), m.note)
  }

  /** The finding of a match: its text, category, evidence and note, with the reason that goes with
      the evidence, and no history yet. */
  lemma FindingOfMatch(m: RuleMatch)
    ensures var f := FindingOf(m);
            && f.term == m.text && f.category == m.category && f.evidence == m.evidence && f.recommendation == m.note
            && f.history.state == HistoryUnknown && f.history.count == 0
            && (m.evidence == ExplicitRule ==> f.reason == MatchesTerm)
            && (m.evidence == RegexRule ==> f.reason == MatchesPattern)
            && (m.evidence == FuzzyRuleMatch ==> f.reason == SimilarToTerm)
  {
  }

  predicate HasTerm(fs: seq<Finding>, term: string)
  {
    exists f :: f in fs && f.term == term
  }

  /** Matches become findings, except for terms there is a finding for already. */
  function AddMatches(fs: seq<Finding>, ms: seq<RuleMatch>): seq<Finding>
  {
    if ms == [] then fs
    else
      var before := AddMatches(fs, ms[..|ms| - 1]);
      var m := ms[|ms| - 1];
      if HasTerm(before, m.text) then before else before + [FindingOf(m)]
  }

  method AddAll(fs: seq<Finding>, ms: seq<RuleMatch>) returns (r: seq<Finding>)
    ensures r == AddMatches(fs, ms)
  {
    r := fs;
    for i := 0 to |ms|
      invariant r == AddMatches(fs, ms[..i])
    {
      assert ms[..i + 1][..i] == ms[..i] && ms[..i + 1][i] == ms[i];
      if HasTerm(r, ms[i].text) {
        continue;
      }
      r := r + [FindingOf(ms[i])];
    }
    assert ms[..|ms|] == ms;
  }

  function RuleFindings(mt: Matcher, doc: Document, rules: seq<Rule>): seq<Finding>
  {
    AddMatches(AddMatches([], Matches(mt, doc, rules)), FuzzyMatches(mt, doc, rules))
  }

  method CollectRuleFindings(mt: Matcher, doc: Document, rules: seq<Rule>) returns (fs: seq<Finding>)
    ensures fs == RuleFindings(mt, doc, rules)
  {
    var ms := MatchRules(mt, doc, rules);
    fs := AddAll([], ms);
    var fuzzy := FuzzyRuleMatches(mt, doc, rules);
    fs := AddAll(fs, fuzzy);
  }

  predicate DistinctTerms(fs: seq<Finding>)
  {
    forall i, j | 0 <= i < j < |fs| :: fs[i].term != fs[j].term
  }

  /** `m` is the first of the matches with its text. */
  predicate IsFirst(ms: seq<RuleMatch>, m: RuleMatch)
  {
    exists i | 0 <= i < |ms| :: ms[i] == m && forall j | 0 <= j < i :: ms[j].text != m.text
  }

  lemma HasTermAppend(fs: seq<Finding>, f: Finding, t: string)
    ensures HasTerm(fs + [f], t) <==> HasTerm(fs, t) || t == f.term
  {
  }

  lemma IsFirstAppend(ms: seq<RuleMatch>, m: RuleMatch)
    ensures forall x :: IsFirst(ms, x) ==> IsFirst(ms + [m], x)
    ensures (forall x :: x in ms ==> x.text != m.text) ==> IsFirst(ms + [m], m)
  {
    forall x | IsFirst(ms, x) ensures IsFirst(ms + [m], x) {
      var i :| 0 <= i < |ms| && ms[i] == x && forall j | 0 <= j < i :: ms[j].text != x.text;
      assert (ms + [m])[i] == x;
    }
    assert (ms + [m])[|ms|] == m;
  }

  /** Adding matches keeps what there was, keeps terms distinct, covers every text, and adds for a
      new text the finding of its first match. */
  ghost predicate Added(fs: seq<Finding>, ms: seq<RuleMatch>, r: seq<Finding>)
  {
    && fs <= r
    && (DistinctTerms(fs) ==> DistinctTerms(r))
    && (forall t :: HasTerm(r, t) <==> HasTerm(fs, t) || exists m :: m in ms && m.text == t)
    && (forall f :: f in r ==> f in fs || (!HasTerm(fs, f.term) && exists m :: m in ms && IsFirst(ms, m) && f == FindingOf(m)))
  }

  lemma AddedDuplicate(fs: seq<Finding>, ms: seq<RuleMatch>, r: seq<Finding>, m: RuleMatch)
    requires Added(fs, ms, r) && HasTerm(r, m.text)
    ensures Added(fs, ms + [m], r)
  {
    IsFirstAppend(ms, m);
  }

  lemma AddedFresh(fs: seq<Finding>, ms: seq<RuleMatch>, r: seq<Finding>, m: RuleMatch)
    requires Added(fs, ms, r) && !HasTerm(r, m.text)
    ensures Added(fs, ms + [m], r + [FindingOf(m)])
  {
    IsFirstAppend(ms, m);
    assert m in ms + [m];
    forall t ensures HasTerm(r + [FindingOf(m)], t) <==> HasTerm(r, t) || t == m.text {
      HasTermAppend(r, FindingOf(m), t);
    }
  }

  lemma {:induction false} AddMatchesLaws(fs: seq<Finding>, ms: seq<RuleMatch>)
    ensures Added(fs, ms, AddMatches(fs, ms))
  {
    if ms != [] {
      var init, m := ms[..|ms| - 1], ms[|ms| - 1];
      AddMatchesLaws(fs, init);
      assert ms == init + [m];
      var before := AddMatches(fs, init);
      if HasTerm(before, m.text) {
        AddedDuplicate(fs, init, before, m);
      } else {
        AddedFresh(fs, init, before, m);
      }
    }
  }

  /** The rule findings: distinct terms; every unsuppressed rule match has its term among them with
      the evidence of the first such match; and a fuzzy match is reported only for a term that no
      rule matched. */
  lemma RuleFindingsLaws(mt: Matcher, doc: Document, rules: seq<Rule>)
    ensures var fs := RuleFindings(mt, doc, rules); var ms := Matches(mt, doc, rules);
            && DistinctTerms(fs)
            && (forall m :: m in ms ==> HasTerm(fs, m.text))
            && (forall f :: f in fs && Deterministic(f.evidence) ==> exists m :: m in ms && IsFirst(ms, m) && f == FindingOf(m))
            && (forall f :: f in fs && !Deterministic(f.evidence) ==> f.evidence == FuzzyRuleMatch && forall m :: m in ms ==> m.text != f.term)
  {
    var ms, fuzzy := Matches(mt, doc, rules), FuzzyMatches(mt, doc, rules);
    AddMatchesLaws([], ms);
    AddMatchesLaws(AddMatches([], ms), fuzzy);
    forall m | m in ms ensures Deterministic(m.evidence) {
      MatchedIff(mt, doc, rules, m);
    }
    forall m | m in fuzzy ensures m.evidence == FuzzyRuleMatch {
      CollectedIff(r => FuzzyMatchOf(mt, doc, r), rules, m);
      var r :| r in rules && FuzzyMatchOf(mt, doc, r) == Some(m);
      FuzzyMatchMeaning(mt, doc, r, m);
    }
  }

  /** Some finding is of a rule exactly when some rule match is unsuppressed. */
  lemma RuleFoundIff(mt: Matcher, doc: Document, rules: seq<Rule>)
    ensures HasRuleFinding(RuleFindings(mt, doc, rules)) <==> Matches(mt, doc, rules) != []
  {
    RuleFindingsLaws(mt, doc, rules);
    var ms := Matches(mt, doc, rules);
    if ms != [] {
      var deterministic := AddMatches([], ms);
      AddMatchesLaws([], ms);
      AddMatchesLaws(deterministic, FuzzyMatches(mt, doc, rules));
      assert ms[0] in ms;
      var f :| f in deterministic && f.term == ms[0].text;
      var m :| m in ms && f == FindingOf(m);
      MatchedIff(mt, doc, rules, m);
    }
  }

  predicate HasRuleFinding(fs: seq<Finding>)
  {
    exists f :: f in fs && Deterministic(f.evidence)
  }

  // ---------------------------------------------------------------- _unseen_scan

  /** What makes a token a word worth flagging: its characters, and the list of common words. */
  datatype Novelty = Novelty(isAlpha: char -> bool, isDigit: char -> bool, common: set<string>)

  predicate UnseenCandidate(nv: Novelty, token: string)
  {
    && |token| >= UNSEEN_MIN_LENGTH
    && (exists i | 0 <= i < |token| :: nv.isAlpha(token[i]))
    && (forall i | 0 <= i < |token| :: !nv.isDigit(token[i]))
    && token !in nv.common
    && token[0] != '@' && token[0] != '#'
    && forall c :: c in ['/', '\\', '.', ',', ':', ';'] ==> c !in token
  }

  predicate UnseenPair(nv: Novelty, bigram: string)
  {
    var words := SplitWords(bigram);
    |words| == 2 && UnseenCandidate(nv, words[0]) && UnseenCandidate(nv, words[1])
  }

  /** A novel word has six characters or more, a letter among them and no digit, is not a common word,
      no mention, hash tag, link or number, and has no punctuation inside. */
  lemma UnseenCandidateIff(nv: Novelty, token: string)
    ensures UnseenCandidate(nv, token) <==>
            && 6 <= |token|
            && (exists c :: c in token && nv.isAlpha(c))
            && (forall c :: c in token ==> !nv.isDigit(c))
            && token !in nv.common
            && !StartsWith(token, "@") && !StartsWith(token, "#")
            && '/' !in token && '\\' !in token && '.' !in token && ',' !in token && ':' !in token && ';' !in token
  {
    if |token| >= 6 {
      assert token[..1] == [token[0]];
      assert forall c :: c in ['/', '\\', '.', ',', ':', ';'] <==> c in {'/', '\\', '.', ',', ':', ';'};
    }
  }

  /** A pair of words of a message is novel exactly when both words are. */
  lemma UnseenPairIff(u: Unicode, lex: Lexicon, nv: Novelty, text: string, i: nat)
    requires lex.isSpace(' ') && i + 1 < |NormalizeDocument(u, lex, text).tokens|
    ensures var doc := NormalizeDocument(u, lex, text);
            UnseenPair(nv, doc.bigrams[i]) <==> UnseenCandidate(nv, doc.tokens[i]) && UnseenCandidate(nv, doc.tokens[i + 1])
  {
    BigramRoundTrip(u, lex, text, i);
  }

  /** A word or a pair of words of the message that passes the filters. */
  predicate Novel(nv: Novelty, doc: Document, c: string)
  {
    (c in doc.tokens && UnseenCandidate(nv, c)) || (c in doc.bigrams && UnseenPair(nv, c))
  }

  /** The items that pass the test and are not covered, each at its first place. */
  function Uncovered(ok: string -> bool, covered: set<string>, items: seq<string>): seq<string>
  {
    if items == [] then []
    else
      var before := Uncovered(ok, covered, items[..|items| - 1]);
      var last := items[|items| - 1];
      if ok(last) && last !in covered && last !in before then before + [last] else before
  }

  function Candidates(nv: Novelty, covered: set<string>, doc: Document): seq<string>
  {
    var tokens := Uncovered(t => UnseenCandidate(nv, t), covered, doc.tokens);
    tokens + Uncovered(b => UnseenPair(nv, b), covered + (set t | t in tokens), doc.bigrams)
  }

  /** At most eight, the longest first when there are more. */
  function Chosen(candidates: seq<string>): seq<string>
  {
    if |candidates| > MAX_FINDINGS then Take(SortDescending((s: string) => |s|, candidates), MAX_FINDINGS) else candidates
  }

  function UnseenFinding(term: string): Finding
  {
    Finding(term, "history", UnseenTerm, NO_HISTORY, 0, Low, NotInHistory, None)
  }

  function Covered(casefold: string -> string, fs: seq<Finding>): set<string>
  {
    set f | f in fs :: casefold(f.term)
  }

  function UnseenFindings(casefold: string -> string, nv: Novelty, doc: Document, fs: seq<Finding>): seq<Finding>
  {
    FlagAll(Chosen(Candidates(nv, Covered(casefold, fs), doc)))
  }

  function FlagAll(terms: seq<string>): seq<Finding>
  {
    seq(|terms|, i requires 0 <= i < |terms| => UnseenFinding(terms[i]))
  }

  method ScanItems(ok: string -> bool, start: set<string>, items: seq<string>) returns (found: seq<string>, covered: set<string>)
    ensures found == Uncovered(ok, start, items)
    ensures covered == start + set t | t in found
  {
    found, covered := [], start;
    for i := 0 to |items|
      invariant found == Uncovered(ok, start, items[..i])
      invariant covered == start + set t | t in found
    {
      assert items[..i + 1][..i] == items[..i] && items[..i + 1][i] == items[i];
      if !ok(items[i]) || items[i] in covered {
        continue;
      }
      found := found + [items[i]];
      covered := covered + {items[i]};
    }
    assert items[..|items|] == items;
  }

  method UnseenScan(casefold: string -> string, nv: Novelty, doc: Document, fs: seq<Finding>) returns (r: seq<Finding>)
    ensures r == fs + UnseenFindings(casefold, nv, doc, fs)
  {
    var covered := Covered(casefold, fs);
    var tokens, covered' := ScanItems(t => UnseenCandidate(nv, t), covered, doc.tokens);
    var pairs, _ := ScanItems(b => UnseenPair(nv, b), covered', doc.bigrams);
    var candidates := tokens + pairs;
    assert candidates == Candidates(nv, covered, doc);
    if |candidates| > MAX_FINDINGS {
      candidates := Take(SortDescending((s: string) => |s|, candidates), MAX_FINDINGS);
    }
    r := AppendFlagged(fs, candidates);
  }

  method AppendFlagged(fs: seq<Finding>, terms: seq<string>) returns (r: seq<Finding>)
    ensures r == fs + FlagAll(terms)
  {
    r := fs;
    for i := 0 to |terms|
      invariant r == fs + FlagAll(terms[..i])
    {
      assert FlagAll(terms[..i + 1]) == FlagAll(terms[..i]) + [UnseenFinding(terms[i])];
      r := r + [UnseenFinding(terms[i])];
    }
    assert terms[..|terms|] == terms;
  }

  lemma {:induction false} UncoveredLaws(ok: string -> bool, covered: set<string>, items: seq<string>)
    ensures var r := Uncovered(ok, covered, items);
            && (forall t :: t in r <==> t in items && ok(t) && t !in covered)
            && (forall i, j | 0 <= i < j < |r| :: r[i] != r[j])
  {
    if items != [] {
      var init, last := items[..|items| - 1], items[|items| - 1];
      UncoveredLaws(ok, covered, init);
      assert items == init + [last];
    }
  }

  lemma FlaggedIff(terms: seq<string>, f: Finding)
    ensures f in FlagAll(terms) <==> f.term in terms && f == UnseenFinding(f.term)
  {
    if f.term in terms {
      var i :| 0 <= i < |terms| && terms[i] == f.term;
      assert FlagAll(terms)[i] == UnseenFinding(f.term);
    }
  }

  lemma CandidatesIff(casefold: string -> string, nv: Novelty, doc: Document, fs: seq<Finding>, c: string)
    ensures c in Candidates(nv, Covered(casefold, fs), doc) <==> c !in Covered(casefold, fs) && Novel(nv, doc, c)
  {
    var covered := Covered(casefold, fs);
    var tokens := Uncovered(t => UnseenCandidate(nv, t), covered, doc.tokens);
    UncoveredLaws(t => UnseenCandidate(nv, t), covered, doc.tokens);
    UncoveredLaws(b => UnseenPair(nv, b), covered + (set t | t in tokens), doc.bigrams);
  }

  /** The novelty scan flags words and pairs of words of the message that pass the filters and that
      no finding covers: all of them when there are at most eight, else eight of the longest. */
  lemma UnseenScanLaws(casefold: string -> string, nv: Novelty, doc: Document, fs: seq<Finding>)
    ensures var us := UnseenFindings(casefold, nv, doc, fs); var cs := Candidates(nv, Covered(casefold, fs), doc);
            && |us| == (if |cs| <= MAX_FINDINGS then |cs| else MAX_FINDINGS)
            && (forall u :: u in us ==> u.term in cs && u.evidence == UnseenTerm && u.category == "history" && u.history.state == HistoryUnknown
                                        && u.reason == NotInHistory && u.recommendation == None)
            && (|cs| <= MAX_FINDINGS ==> forall c :: c in cs ==> UnseenFinding(c) in us)
            && (forall c, u :: c in cs && UnseenFinding(c) !in us && u in us ==> |c| <= |u.term|)
  {
    var cs := Candidates(nv, Covered(casefold, fs), doc);
    var chosen := Chosen(cs);
    var us := UnseenFindings(casefold, nv, doc, fs);
    forall f ensures f in us <==> f.term in chosen && f == UnseenFinding(f.term) {
      FlaggedIff(chosen, f);
    }
    if |cs| > MAX_FINDINGS {
      HeadIsTop((s: string) => |s|, cs, MAX_FINDINGS);
      SortMembers((s: string) => |s|, cs);
    }
  }

  // ---------------------------------------------------------------- _history_evidence

  /** The evidence for a term, or none when gathering it raises. */
  type Gather = string -> Option<HistoryEvidence>

  function WithHistory(f: Finding, e: HistoryEvidence): Finding
  {
    f.(history := e, reason := match e.state case HistoryUnseen => NotInHistory case HistoryUnknown => CoverageMissing case HistorySeen => SeenInHistory)
  }

  /** The finding with this history, and the reason that its state calls for: whatever the reason was,
      a configured rule included, it is replaced. Nothing else changes. */
  predicate Informed(f: Finding, e: HistoryEvidence, g: Finding)
  {
    && g.(history := f.history, reason := f.reason) == f && g.history == e
    && (g.reason == NotInHistory <==> e.state == HistoryUnseen)
    && (g.reason == CoverageMissing <==> e.state == HistoryUnknown)
    && (g.reason == SeenInHistory <==> e.state == HistorySeen)
  }

  /** All findings with their history; none if any term fails. */
  function Gathered(gather: Gather, fs: seq<Finding>): Option<seq<Finding>>
  {
    if fs == [] then Some([])
    else
      var before, last := Gathered(gather, fs[..|fs| - 1]), fs[|fs| - 1];
      if before.None? || gather(last.term).None? then None
      else Some(before.value + [WithHistory(last, gather(last.term).value)])
  }

  method GatherHistory(gather: Gather, fs: seq<Finding>) returns (r: Option<seq<Finding>>)
    ensures r == Gathered(gather, fs)
  {
    var done: seq<Finding> := [];
    for i := 0 to |fs|
      invariant Gathered(gather, fs[..i]) == Some(done)
    {
      assert fs[..i + 1][..i] == fs[..i] && fs[..i + 1][i] == fs[i];
      var e := gather(fs[i].term);
      if e.None? {
        GatherFails(gather, fs, i + 1);
        return None;
      }
      var finding := fs[i].(history := e.value);
      if e.value.note.SimilarWording? {
        finding := finding.(reason := VerifyIntent);
      }
      if e.value.state.HistoryUnseen? {
        finding := finding.(reason := NotInHistory);
      } else if e.value.state.HistoryUnknown? {
        finding := finding.(reason := CoverageMissing);
      } else {
        finding := finding.(reason := SeenInHistory);
      }
      done := done + [finding];
    }
    assert fs[..|fs|] == fs;
    return Some(done);
  }

  lemma {:induction false} GatherFails(gather: Gather, fs: seq<Finding>, n: nat)
    requires n <= |fs| && Gathered(gather, fs[..n]) == None
    ensures Gathered(gather, fs) == None
    decreases |fs|
  {
    if n == |fs| {
      assert fs[..n] == fs;
    } else {
      var init := fs[..|fs| - 1];
      assert init[..n] == fs[..n];
      GatherFails(gather, init, n);
    }
  }

  /** Gathering succeeds exactly when it does for every term, and changes nothing but history and
      reason. */
  lemma {:induction false} GatheredLaws(gather: Gather, fs: seq<Finding>)
    ensures Gathered(gather, fs).Some? <==> forall f :: f in fs ==> gather(f.term).Some?
    ensures Gathered(gather, fs).Some? ==>
              var r := Gathered(gather, fs).value;
              |r| == |fs| && forall i | 0 <= i < |fs| :: gather(fs[i].term).Some? && Informed(fs[i], gather(fs[i].term).value, r[i])
  {
    if fs != [] {
      var init, last := fs[..|fs| - 1], fs[|fs| - 1];
      GatheredLaws(gather, init);
      assert fs == init + [last];
    }
  }
}
