/** app/history/searcher.py: was a term seen, not seen, or is that unknown? */
module Searcher {
  import opened Strings
  import opened Tokenize
  import opened IndexStore
  import opened Coverage
  import opened Models

  const FREQUENT_LIMIT := 500
  const FREQUENT_TTL := 600.0
  const MIN_FUZZY_LENGTH := 5

  type Frequency = (Term, nat)

  datatype SearchSettings = SearchSettings(
    casefold: string -> string, similarity: (string, string) -> real, threshold: real, requireCoverage: bool)

  // ---------------------------------------------------------------- the frequent terms

  /** What the database returns for the query: terms of the chat with their counts, highest first,
      at most `limit`, and leaving out none that is used more than a returned one. */
  ghost predicate IsTop(phrases: map<PhraseKey, nat>, chat: ChatId, limit: nat, rows: seq<Frequency>)
  {
    && |rows| <= limit
    && (forall i :: 0 <= i < |rows| ==> PhraseKey(chat, rows[i].0) in phrases && phrases[PhraseKey(chat, rows[i].0)] == rows[i].1)
    && (forall i, j :: 0 <= i < j < |rows| ==> rows[i].1 >= rows[j].1 && rows[i].0 != rows[j].0)
    && (forall k :: k in phrases && k.chat == chat && (k.term, phrases[k]) !in rows
          ==> |rows| == limit && forall i :: 0 <= i < |rows| ==> rows[i].1 >= phrases[k])
  }

  function LongTerms(rows: seq<Frequency>): (r: seq<Frequency>)
    ensures forall f :: f in r <==> f in rows && |f.0| >= MIN_FUZZY_LENGTH
  {
    if rows == [] then [] else (if |rows[0].0| >= MIN_FUZZY_LENGTH then [rows[0]] else []) + LongTerms(rows[1..])
  }

  // ---------------------------------------------------------------- the fuzzy match

  /** A candidate other than the term itself that is similar enough to speak for it. */
  predicate Similar(s: SearchSettings, term: string, candidate: string)
  {
    candidate != term && s.similarity(term, candidate) > 0.0 && s.similarity(term, candidate) >= s.threshold
  }

  /** The similarity reached so far; nothing yet counts as 0. */
  function Reached(s: SearchSettings, term: string, best: Option<Frequency>): real
  {
    if best.Some? then s.similarity(term, best.value.0) else 0.0
  }

  function BestCandidate(s: SearchSettings, term: string, freq: seq<Frequency>): Option<Frequency>
  {
    if freq == [] then None
    else
      var best := BestCandidate(s, term, freq[..|freq| - 1]);
      var last := freq[|freq| - 1];
      if last.0 != term && s.similarity(term, last.0) > Reached(s, term, best) then Some(last) else best
  }

  /** `_fuzzy_history_match` on the list in use: short terms have no similar wording. */
  function FuzzyMatch(s: SearchSettings, term: string, freq: seq<Frequency>): Option<Frequency>
  {
    var best := BestCandidate(s, term, freq);
    if |term| >= MIN_FUZZY_LENGTH && best.Some? && Reached(s, term, best) >= s.threshold then best else None
  }

  /** The loop of `_fuzzy_history_match`. */
  method MostSimilar(s: SearchSettings, term: string, freq: seq<Frequency>) returns (best: Option<Frequency>)
    ensures best == BestCandidate(s, term, freq)
  {
    best := None;
    var bestScore := 0.0;
    for i := 0 to |freq|
      invariant best == BestCandidate(s, term, freq[..i]) && bestScore == Reached(s, term, best)
    {
      assert freq[..i + 1][..i] == freq[..i] && freq[..i + 1][i] == freq[i];
      var (candidate, count) := freq[i];
      if candidate == term {
        continue;
      }
      var sim := s.similarity(term, candidate);
      if sim > bestScore {
        bestScore := sim;
        best := Some((candidate, count));
      }
    }
    assert freq[..|freq|] == freq;
  }

  lemma {:induction false} BestIsFirstMaximum(s: SearchSettings, term: string, freq: seq<Frequency>)
    ensures var best := BestCandidate(s, term, freq);
            && (forall f :: f in freq && f.0 != term ==> s.similarity(term, f.0) <= Reached(s, term, best))
            && (best.Some? ==> exists i | 0 <= i < |freq| ::
                  && freq[i] == best.value && best.value.0 != term && s.similarity(term, best.value.0) > 0.0
                  && forall j | 0 <= j < i && freq[j].0 != term :: s.similarity(term, freq[j].0) < s.similarity(term, best.value.0))
  {
    if freq != [] {
      var init, last := freq[..|freq| - 1], freq[|freq| - 1];
      BestIsFirstMaximum(s, term, init);
      var before, best := BestCandidate(s, term, init), BestCandidate(s, term, freq);
      assert freq == init + [last];
      if best == before && before.Some? {
        var i :| 0 <= i < |init| && init[i] == best.value
                 && forall j | 0 <= j < i && init[j].0 != term :: s.similarity(term, init[j].0) < s.similarity(term, best.value.0);
        assert freq[i] == best.value;
      } else if best.Some? {
        assert freq[|freq| - 1] == best.value;
        forall j | 0 <= j < |freq| - 1 && freq[j].0 != term
          ensures s.similarity(term, freq[j].0) < s.similarity(term, best.value.0)
        {
          assert freq[j] in init;
        }
      }
    }
  }

  /** A similar wording is found exactly for terms of five or more characters that some other
      frequent term resembles closely enough. */
  lemma FuzzyMatchIff(s: SearchSettings, term: string, freq: seq<Frequency>)
    ensures FuzzyMatch(s, term, freq).Some? <==> |term| >= MIN_FUZZY_LENGTH && exists f :: f in freq && Similar(s, term, f.0)
    ensures var r := FuzzyMatch(s, term, freq); r.Some? ==> r.value in freq && Similar(s, term, r.value.0)
  {
    BestIsFirstMaximum(s, term, freq);
  }

  // ---------------------------------------------------------------- the decision

  /** The key a term is looked up by; the query folds the already folded key again. */
  function LookupKey(s: SearchSettings, term: string): Term
  {
    s.casefold(s.casefold(term))
  }

  /** The chain of `evidence_for_term`: the local index, the message search, similar wording, and
      only then absence, which needs a complete history. */
  function Evidence(local: nat, hits: nat, fuzzy: Option<Frequency>, coverage: ChatCoverage, requireCoverage: bool): HistoryEvidence
  {
    if local > 0 then HistoryEvidence(HistorySeen, local, ObservedLocally)
    else if hits > 0 then HistoryEvidence(HistorySeen, hits, FoundBySearch)
    else if fuzzy.Some? then HistoryEvidence(HistorySeen, 0, SimilarWording(fuzzy.value.0, fuzzy.value.1))
    else if coverage.state == Complete || !requireCoverage then HistoryEvidence(HistoryUnseen, 0, NotObserved)
    else HistoryEvidence(HistoryUnknown, 0, FromCoverage(coverage.note))
  }

  /** A list of frequent terms and when it was read. */
  datatype Entry = Entry(rows: seq<Frequency>, at: real)

  class HistorySearcher {
    const settings: SearchSettings
    var freqCache: map<ChatId, Entry>

    constructor (settings: SearchSettings)
      ensures this.settings == settings && freqCache == map[]
    {
      this.settings := settings;
      freqCache := map[];
    }

    /** The cached list serves: it is not empty, and not older than ten minutes. */
    predicate Serves(chat: ChatId, now: real)
      reads this
    {
      chat in freqCache && freqCache[chat].rows != [] && now - freqCache[chat].at < FREQUENT_TTL
    }

    /** The list in use at `now`, when the database would return `top`. */
    function FrequentNow(chat: ChatId, now: real, top: seq<Frequency>): seq<Frequency>
      reads this
    {
      if Serves(chat, now) then freqCache[chat].rows else LongTerms(top)
    }

    method FrequentTerms(chat: ChatId, now: real, top: seq<Frequency>) returns (rows: seq<Frequency>)
      modifies this
      ensures rows == old(FrequentNow(chat, now, top))
      ensures var kept := chat in old(freqCache) && old(freqCache[chat]).rows != [] && now - old(freqCache[chat]).at < 600.0;
              rows == (if kept then old(freqCache[chat]).rows else LongTerms(top)) && (kept ==> freqCache == old(freqCache))
      ensures freqCache == if old(Serves(chat, now)) then old(freqCache) else old(freqCache)[chat := Entry(LongTerms(top), now)]
    {
      if Serves(chat, now) {
        return freqCache[chat].rows;
      }
      rows := LongTerms(top);
      freqCache := freqCache[chat := Entry(rows, now)];
    }

    /** `_fuzzy_history_match`. */
    method SimilarHistory(chat: ChatId, term: string, now: real, top: seq<Frequency>) returns (r: Option<Frequency>)
      modifies this
      ensures r == FuzzyMatch(settings, term, old(FrequentNow(chat, now, top)))
      ensures freqCache == if |term| < MIN_FUZZY_LENGTH || old(Serves(chat, now)) then old(freqCache)
                           else old(freqCache)[chat := Entry(LongTerms(top), now)]
    {
      if |term| < MIN_FUZZY_LENGTH {
        return None;
      }
      var freq := FrequentTerms(chat, now, top);
      if freq == [] {
        return None;
      }
      var best := MostSimilar(settings, term, freq);
      return if best.Some? && Reached(settings, term, best) >= settings.threshold then best else None;
    }

    /** Evidence for a term of a chat. `hits` is what the message search found, none if it failed;
        `top` is what the query for frequent terms returns. */
    method EvidenceForTerm(t: Tables, chat: ChatId, row: ChatRow, term: string, hits: nat, now: real, top: seq<Frequency>, fuzzyCandidates: bool)
      returns (e: HistoryEvidence, matched: Option<Term>)
      modifies this
      ensures var similar := if fuzzyCandidates then FuzzyMatch(settings, settings.casefold(term), old(FrequentNow(chat, now, top))) else None;
              e == Evidence(PhraseCount(t.phrases, chat, LookupKey(settings, term)), hits, similar, ComputeCoverage(row), settings.requireCoverage)
      ensures matched == if e.note.SimilarWording? then Some(e.note.term) else None
      ensures freqCache == old(freqCache) || freqCache == old(freqCache)[chat := Entry(LongTerms(top), now)]
    {
      var key := settings.casefold(term);
      var coverage := ComputeCoverage(row);
      var local := PhraseCount(t.phrases, chat, settings.casefold(key));
      if local > 0 {
        return HistoryEvidence(HistorySeen, local, ObservedLocally), None;
      }
      if hits > 0 {
        return HistoryEvidence(HistorySeen, hits, FoundBySearch), None;
      }
      if fuzzyCandidates {
        var best := SimilarHistory(chat, key, now, top);
        if best.Some? {
          return HistoryEvidence(HistorySeen, 0, SimilarWording(best.value.0, best.value.1)), Some(best.value.0);
        }
      }
      if coverage.state == Complete || !settings.requireCoverage {
        return HistoryEvidence(HistoryUnseen, 0, NotObserved), None;
      }
      return HistoryEvidence(HistoryUnknown, 0, FromCoverage(coverage.note)), None;
    }
  }

  // ---------------------------------------------------------------- evidence against the index

  /** No stored text of the chat has the term. */
  ghost predicate AbsentFromTexts(az: Analyzer, t: Tables, chat: ChatId, term: Term)
  {
    forall k :: k in t.messages && k.chat == chat ==> term !in Terms(az.lex, t.messages[k].normalized)
  }

  /** The aggregate is zero exactly when the relation has no row, and then no stored text has the
      term: the two other structures of the index say the same as the one that is asked. */
  lemma LocalAbsence(az: Analyzer, t: Tables, chat: ChatId, term: Term)
    requires Consistent(az, t)
    ensures PhraseCount(t.phrases, chat, term) == |TermRows(t.terms, chat, term)|
    ensures PhraseCount(t.phrases, chat, term) == 0 <==> forall k :: k in t.terms ==> !(k.chat == chat && k.term == term)
    ensures PhraseCount(t.phrases, chat, term) == 0 ==> AbsentFromTexts(az, t, chat, term)
  {
    var rows := TermRows(t.terms, chat, term);
    if PhraseCount(t.phrases, chat, term) == 0 {
      assert rows == {};
      forall k | k in t.terms ensures !(k.chat == chat && k.term == term) {
        assert k !in rows;
      }
    } else {
      assert rows != {};
    }
  }

  /** What is not of the shape of a term is never found in the local index, whatever is stored, even
      if every message of the chat is that very text: a novel token keeps its punctuation, and so
      do phrase fragments, while the index holds bare words and pairs. */
  lemma UnindexableIsNeverLocal(az: Analyzer, t: Tables, chat: ChatId, s: SearchSettings, term: string)
    requires az.lex.ValidWords() && forall c :: az.lex.lower(az.lex.lower(c)) == az.lex.lower(c)
    requires Consistent(az, t) && !Indexable(az.lex, LookupKey(s, term))
    ensures PhraseCount(t.phrases, chat, LookupKey(s, term)) == 0
  {
    IndexableIff(az.lex, LookupKey(s, term));
    LocalAbsence(az, t, chat, LookupKey(s, term));
  }

  /** When coverage is required, a term is called unseen only if: nine tenths of a known history
      are stored, no stored text has the term, the search found nothing, and no other frequent
      term resembles it. The chat's row may have been read long before the tables are asked. */
  lemma UnseenIsBacked(az: Analyzer, t: Tables, chat: ChatId, row: ChatRow, s: SearchSettings, term: string, hits: nat, freq: seq<Frequency>, fuzzyCandidates: bool)
    requires Consistent(az, t) && s.requireCoverage && row.indexedCount <= |MessageRows(t.messages, chat)|
    requires var fuzzy := if fuzzyCandidates then FuzzyMatch(s, s.casefold(term), freq) else None;
             Evidence(PhraseCount(t.phrases, chat, LookupKey(s, term)), hits, fuzzy, ComputeCoverage(row), true).state == HistoryUnseen
    ensures row.estimate.Some? && 10 * |MessageRows(t.messages, chat)| >= 9 * row.estimate.value > 0
    ensures AbsentFromTexts(az, t, chat, LookupKey(s, term)) && TermRows(t.terms, chat, LookupKey(s, term)) == {}
    ensures hits == 0
    ensures fuzzyCandidates && |s.casefold(term)| >= MIN_FUZZY_LENGTH ==> forall f :: f in freq ==> !Similar(s, s.casefold(term), f.0)
  {
    CompleteIsBacked(t, chat, row);
    LocalAbsence(az, t, chat, LookupKey(s, term));
    FuzzyMatchIff(s, s.casefold(term), freq);
  }

  /** With a freshly read list of frequent terms, the only terms of the chat that may resemble an
      unseen one are those the list had no room for: it is full of terms used at least as often. */
  lemma UnseenAgainstFreshList(s: SearchSettings, t: Tables, chat: ChatId, term: string, top: seq<Frequency>, k: PhraseKey)
    requires IsTop(t.phrases, chat, FREQUENT_LIMIT, top)
    requires FuzzyMatch(s, s.casefold(term), LongTerms(top)) == None && |s.casefold(term)| >= MIN_FUZZY_LENGTH
    requires k in t.phrases && k.chat == chat && |k.term| >= MIN_FUZZY_LENGTH && Similar(s, s.casefold(term), k.term)
    ensures |top| == FREQUENT_LIMIT && forall f :: f in top ==> f.1 >= t.phrases[k]
  {
    FuzzyMatchIff(s, s.casefold(term), LongTerms(top));
    var f := (k.term, t.phrases[k]);
    assert f in LongTerms(top) <==> f in top;
    assert f !in top;
  }

  /** The decision in full. The local count is reported when there is one; else the number of search
      hits; else a similar wording, with no count of its own. With none of these the term is called
      unseen exactly when the history is complete or that is not required, and unknown otherwise. */
  lemma EvidenceIff(local: nat, hits: nat, fuzzy: Option<Frequency>, coverage: ChatCoverage, required: bool)
    ensures var e := Evidence(local, hits, fuzzy, coverage, required);
            && (e.state == HistorySeen <==> local > 0 || hits > 0 || fuzzy.Some?)
            && (e.state == HistoryUnseen <==> local == 0 && hits == 0 && fuzzy.None? && (required ==> coverage.state == Complete))
            && (e.state == HistoryUnknown <==> local == 0 && hits == 0 && fuzzy.None? && required && coverage.state != Complete)
            && (local > 0 ==> e.count == local && e.note == ObservedLocally)
            && (local == 0 && hits > 0 ==> e.count == hits && e.note == FoundBySearch)
            && (local == 0 && hits == 0 ==> e.count == 0)
            && (local == 0 && hits == 0 && fuzzy.Some? ==> e.note == SimilarWording(fuzzy.value.0, fuzzy.value.1))
            && (e.state == HistoryUnseen ==> e.note == NotObserved)
            && (e.state == HistoryUnknown ==> e.note == FromCoverage(coverage.note))
  {
  }

  /** A term found in the local index is reported with the number of its term rows. */
  lemma SeenCountsRows(az: Analyzer, t: Tables, chat: ChatId, s: SearchSettings, term: string, hits: nat, fuzzy: Option<Frequency>, coverage: ChatCoverage)
    requires Consistent(az, t)
    ensures var e := Evidence(PhraseCount(t.phrases, chat, LookupKey(s, term)), hits, fuzzy, coverage, s.requireCoverage);
            && (e.note == ObservedLocally <==> TermRows(t.terms, chat, LookupKey(s, term)) != {})
            && (e.note == ObservedLocally ==> e.state == HistorySeen && e.count == |TermRows(t.terms, chat, LookupKey(s, term))|)
  {
  }

  /** Absence is never concluded from an incomplete history: without complete coverage the answer
      is that the term was seen, or that nothing is known. */
  lemma IncompleteIsUnknown(local: nat, hits: nat, fuzzy: Option<Frequency>, row: ChatRow)
    requires !(row.state in {Done, Partial, Running} && row.estimate.Some? && 10 * row.indexedCount >= 9 * row.estimate.value > 0)
    ensures Evidence(local, hits, fuzzy, ComputeCoverage(row), true).state != HistoryUnseen
    ensures Evidence(local, hits, fuzzy, ComputeCoverage(row), true).state == HistoryUnknown <==> local == 0 && hits == 0 && fuzzy.None?
  {
  }
}
