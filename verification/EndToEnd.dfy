/** Theorems that span the components: what a verdict says about the history a chat really has,
    and what the compile cache does to the design rule. */
module EndToEnd {
  import opened Strings
  import opened Normalize
  import opened IndexStore
  import opened Coverage
  import opened Models
  import opened Scoring
  import opened CompileCache
  import opened RuleEngine
  import opened Ranking
  import opened Findings
  import opened Pipeline
  import Searcher
  import IndexRuns

  // ---------------------------------------------------------------- the history of a finding

  /** The searcher's answer for a term, from the chat row it was given, the tables as they are then,
      the message search and a frequency list. */
  function EvidenceAt(s: Searcher.SearchSettings, row: ChatRow, t: Tables, chat: ChatId, term: string, hits: nat, freq: seq<Searcher.Frequency>): HistoryEvidence
  {
    Searcher.Evidence(PhraseCount(t.phrases, chat, Searcher.LookupKey(s, term)), hits,
                      Searcher.FuzzyMatch(s, s.casefold(term), freq), ComputeCoverage(row), s.requireCoverage)
  }

  ghost predicate Answers(s: Searcher.SearchSettings, row: ChatRow, t: Tables, chat: ChatId, term: string, e: HistoryEvidence)
  {
    exists hits, freq :: e == EvidenceAt(s, row, t, chat, term, hits, freq)
  }

  /** The chat's row was read in world `j`; the searcher was asked for each term in a world of its
      own, then or later. */
  ghost predicate GathersFrom(gather: Gather, s: Searcher.SearchSettings, ws: seq<IndexRuns.World>, j: nat, chat: ChatId)
    requires j < |ws| && chat in ws[j].tables.chats
  {
    forall term :: gather(term).Some? ==>
      exists k | j <= k < |ws| :: Answers(s, ws[j].tables.chats[chat], ws[k].tables, chat, term, gather(term).value)
  }

  /** Every finding has the history that was gathered for its own term, or none. */
  ghost predicate HistoryFrom(gather: Gather, fs: seq<Finding>)
  {
    forall f :: f in fs ==> f.history == NO_HISTORY || gather(f.term) == Some(f.history)
  }

  lemma TopKeepsHistory(gather: Gather, fs: seq<Finding>)
    requires HistoryFrom(gather, fs)
    ensures HistoryFrom(gather, Top(fs))
  {
    SortMembers(RiskKey, fs);
    forall f | f in Top(fs) ensures f in fs {
      assert f in SortDescending(RiskKey, fs);
    }
  }

  lemma ResultHistory(target: Target, world: ChatWorld, nv: Novelty, doc: Document, rules: seq<Rule>, w: RiskWeights)
    ensures HistoryFrom(world.gather, ChatResult(target, world, nv, doc, rules, w).findings)
  {
    var own := RulesFor(rules, target.chat);
    var found := RuleFindings(world.mt, doc, own);
    var all := found + UnseenFindings(world.mt.unicode.casefold, nv, doc, found);
    GatheredLaws(world.gather, all);
    var raw := RawFindings(world, nv, doc, own);
    if raw.Some? {
      var scored := ScoredAll(raw.value, w);
      forall f | f in scored ensures world.gather(f.term) == Some(f.history) {
        var i :| 0 <= i < |scored| && scored[i] == f;
        assert Informed(all[i], world.gather(all[i].term).value, raw.value[i]);
      }
      TopKeepsHistory(world.gather, scored);
    }
  }

  lemma PhraseKeepsHistory(q: Request, p: AiPhrase, cs: seq<ChatAnalysis>)
    requires q.Valid() && |cs| == |q.targets|
    requires forall i | 0 <= i < |cs| :: HistoryFrom(q.worlds[i].gather, cs[i].findings)
    ensures var after := MergePhrase(q.casefold, q.doc.original, p, cs, q.weights);
            |after| == |cs| && forall i | 0 <= i < |cs| :: HistoryFrom(q.worlds[i].gather, after[i].findings)
  {
    var at := FirstChat(c => Attachable(q.casefold, p, c), cs);
    var first := FirstChat((c: ChatAnalysis) => c.status.Analyzed?, cs);
    if at < |cs| {
      var i := FirstTouched(q.casefold, p, cs[at].findings);
      assert cs[at].findings[i] in cs[at].findings;
    } else if first < |cs| {
      TopKeepsHistory(q.worlds[first].gather, cs[first].findings + [SemanticFinding(p, q.weights)]);
    }
  }

  lemma {:induction false} MergeKeepsHistory(q: Request, ps: seq<AiPhrase>)
    requires q.Valid()
    ensures var after := MergeAll(q.casefold, q.doc.original, ps, q.Results(), q.weights);
            |after| == |q.targets| && forall i | 0 <= i < |q.targets| :: HistoryFrom(q.worlds[i].gather, after[i].findings)
  {
    if ps == [] {
      forall i | 0 <= i < |q.targets| ensures HistoryFrom(q.worlds[i].gather, q.Results()[i].findings) {
        ResultHistory(q.targets[i], q.worlds[i], q.nv, q.doc, q.rules, q.weights);
      }
    } else {
      var init := ps[..|ps| - 1];
      MergeKeepsHistory(q, init);
      PhraseKeepsHistory(q, ps[|ps| - 1], MergeAll(q.casefold, q.doc.original, init, q.Results(), q.weights));
    }
  }

  /** In the outcome of a request, after scoring, ranking and the AI merge, a finding's history is
      still that of its own term. */
  lemma OutcomeHistory(q: Request, i: nat)
    requires q.Valid() && i < |q.targets|
    ensures |q.Merged()| == |q.targets| && HistoryFrom(q.worlds[i].gather, q.Merged()[i].findings)
  {
    MergeKeepsHistory(q, if q.ai.Some? then q.ai.value else []);
  }

  // ---------------------------------------------------------------- what UNSEEN means

  /** A visible message at or below the cursor has the term. */
  ghost predicate SaidBefore(az: Analyzer, history: seq<Message>, cursor: int, key: Term)
  {
    exists m :: m in history && Inked(az, m) && m.id <= cursor && key in TermsOf(az, m)
  }

  /** What UNSEEN claims of world `k`, with a row read in world `j`: nine tenths of the history that
      the row knows of are stored, the key is no index term of a stored text, and no message that
      the chat shows has it, up to any cursor the chat has had so far. */
  ghost predicate AbsentAt(az: Analyzer, ws: seq<IndexRuns.World>, j: nat, k: nat, chat: ChatId, key: Term)
    requires j < |ws| && k < |ws| && chat in ws[j].tables.chats
  {
    var row, t := ws[j].tables.chats[chat], ws[k].tables;
    && row.estimate.Some? && 10 * |MessageRows(t.messages, chat)| >= 9 * row.estimate.value > 0
    && Searcher.AbsentFromTexts(az, t, chat, key)
    && forall i | 0 <= i <= k && chat in ws[i].tables.chats :: !SaidBefore(az, HistoryOf(ws[k].h, chat), CursorOf(ws[i].tables.chats[chat]), key)
  }

  /** The whole chain, over every behaviour of any number of sync jobs and crashes, which go on while
      the analysis does, and through scoring, ranking, cut and AI merge: if the report of a chat
      says of a finding that its term was not observed, and coverage is required, then the term was
      absent at the moment it was looked up. */
  lemma UnseenFindingMeansAbsent(az: Analyzer, ws: seq<IndexRuns.World>, steps: seq<IndexRuns.Step>, j: nat,
                                 q: Request, i: nat, s: Searcher.SearchSettings, f: Finding)
    requires IndexRuns.Behaviour(az, ws, steps) && j < |ws|
    requires q.Valid() && i < |q.targets| && q.targets[i].chat in ws[j].tables.chats
    requires s.requireCoverage && GathersFrom(q.worlds[i].gather, s, ws, j, q.targets[i].chat)
    requires i < |q.Merged()| && f in q.Merged()[i].findings && f.history.state.HistoryUnseen?
    ensures exists k | j <= k < |ws| :: AbsentAt(az, ws, j, k, q.targets[i].chat, Searcher.LookupKey(s, f.term))
  {
    var chat := q.targets[i].chat;
    OutcomeHistory(q, i);
    var k :| j <= k < |ws| && Answers(s, ws[j].tables.chats[chat], ws[k].tables, chat, f.term, f.history);
    UnseenAnswerMeansAbsent(az, ws, steps, j, k, chat, s, f.term, f.history);
  }

  lemma UnseenAnswerMeansAbsent(az: Analyzer, ws: seq<IndexRuns.World>, steps: seq<IndexRuns.Step>, j: nat, k: nat, chat: ChatId,
                                s: Searcher.SearchSettings, term: string, e: HistoryEvidence)
    requires IndexRuns.Behaviour(az, ws, steps) && j <= k < |ws| && chat in ws[j].tables.chats
    requires s.requireCoverage && Answers(s, ws[j].tables.chats[chat], ws[k].tables, chat, term, e) && e.state.HistoryUnseen?
    ensures AbsentAt(az, ws, j, k, chat, Searcher.LookupKey(s, term))
  {
    var key := Searcher.LookupKey(s, term);
    var hits, freq :| e == EvidenceAt(s, ws[j].tables.chats[chat], ws[k].tables, chat, term, hits, freq);
    IndexRuns.AlwaysSafe(az, ws, steps, j);
    IndexRuns.AlwaysSafe(az, ws, steps, k);
    IndexRuns.RowsForever(az, ws, steps, j, k, chat);
    Searcher.UnseenIsBacked(az, ws[k].tables, chat, ws[j].tables.chats[chat], s, term, hits, freq, true);
    forall i | 0 <= i <= k && chat in ws[i].tables.chats
      ensures !SaidBefore(az, HistoryOf(ws[k].h, chat), CursorOf(ws[i].tables.chats[chat]), key)
    {
      NotSaidBefore(az, ws, steps, i, k, chat, key);
    }
  }

  /** Without term rows no message shown up to a past or present cursor has the term. */
  lemma NotSaidBefore(az: Analyzer, ws: seq<IndexRuns.World>, steps: seq<IndexRuns.Step>, i: nat, k: nat, chat: ChatId, key: Term)
    requires IndexRuns.Behaviour(az, ws, steps) && i <= k < |ws| && chat in ws[i].tables.chats
    requires TermRows(ws[k].tables.terms, chat, key) == {}
    ensures !SaidBefore(az, HistoryOf(ws[k].h, chat), CursorOf(ws[i].tables.chats[chat]), key)
  {
    var t, cursor := ws[k].tables, CursorOf(ws[i].tables.chats[chat]);
    forall m | m in HistoryOf(ws[k].h, chat) && Inked(az, m) && m.id <= cursor ensures key !in TermsOf(az, m) {
      IndexRuns.PastCursorsHold(az, ws, steps, i, k, chat, m);
      assert key in TermsOf(az, m) ==> TermKey(chat, key, m.id) in TermRows(t.terms, chat, key);
    }
  }

  // ---------------------------------------------------------------- the design rule and the cache

  /** The design rule lapses with the compile cache: in a process where every block rule is a regex
      rule first looked up more than 300 seconds ago, the overall score is at most 30, whatever the
      rules would match. */
  lemma ExpiredRulesLoseVerdict(q: Request, compile: Compiler)
    requires q.Valid() && q.weights == DEFAULT_WEIGHTS
    requires forall i, r | 0 <= i < |q.worlds| && r in q.rules && r.enabled && !r.isAllowlist :: r.kind.RegexKind? && Expired(compile, q.worlds[i].mt, r)
    ensures 0 <= MaxScore(q.Merged()) <= 30
  {
    forall i | 0 <= i < |q.targets| ensures !RuleFires(q.targets[i], q.worlds[i], q.doc, q.rules) {
      forall r | r in q.rules ensures !Unsuppressed(q.worlds[i].mt, q.doc, q.rules, q.targets[i].chat, r) {
        if r.enabled && !r.isAllowlist {
          ExpiredRuleIsSilent(compile, q.worlds[i].mt, q.doc, r);
        }
      }
    }
    OverallVerdict(q);
  }
}
