/** app/analysis/tokenize.py: words, n-grams, and the terms the history index holds. */
module Tokenize {
  import opened Strings

  /** What the engine asks of a character. One-to-one case maps stand for Unicode's. */
  datatype Lexicon = Lexicon(
    isSpace: char -> bool,
    isWord: char -> bool,
    isLower: char -> bool,
    isUpper: char -> bool,
    lower: char -> char,
    upper: char -> char,
    fold: char -> char)
  {
    /** Spaces separate words, and lower-casing keeps a word a word. */
    ghost predicate ValidWords()
    {
      && isSpace(' ')
      && (forall c :: isSpace(c) ==> !isWord(c))
      && (forall c :: isWord(c) ==> isWord(lower(c)))
    }
  }

  const MIN_TERM_LENGTH := 3

  function TokenizeWords(lex: Lexicon, text: string): seq<string>
  {
    var runs := Runs(lex.isWord, text);
    seq(|runs|, i requires 0 <= i < |runs| => MapChars(lex.lower, runs[i]))
  }

  function Ngrams(tokens: seq<string>, n: int): (r: seq<string>)
    ensures |r| == if n <= 0 || |tokens| < n then 0 else |tokens| - n + 1
  {
    if n <= 0 || |tokens| < n then []
    else seq(|tokens| - n + 1, i requires 0 <= i <= |tokens| - n => Join(" ", tokens[i..i + n]))
  }

  /** `bi.split(" ")`, for text without empty parts. */
  function SplitWords(s: string): seq<string>
  {
    Runs(c => c != ' ', s)
  }

  predicate LongEnough(words: seq<string>)
  {
    forall w :: w in words ==> |w| >= MIN_TERM_LENGTH
  }

  /** Token `i` is long enough to be a term. */
  predicate IsLong(tokens: seq<string>, i: int)
    requires 0 <= i < |tokens|
  {
    |tokens[i]| >= MIN_TERM_LENGTH
  }

  /** Tokens `i` and `i + 1` make a bigram term. */
  predicate IsLongPair(tokens: seq<string>, i: int)
    requires 0 <= i < |tokens| - 1
  {
    IsLong(tokens, i) && IsLong(tokens, i + 1)
  }

  function Bigram(tokens: seq<string>, i: int): string
    requires 0 <= i < |tokens| - 1
  {
    tokens[i] + " " + tokens[i + 1]
  }

  function LongTokens(tokens: seq<string>, n: int): set<string>
    requires n <= |tokens|
  {
    set i | 0 <= i < n && IsLong(tokens, i) :: tokens[i]
  }

  function LongPairs(tokens: seq<string>, n: int): set<string>
    requires n < |tokens| || n <= 0
  {
    set i | 0 <= i < n && IsLongPair(tokens, i) :: Bigram(tokens, i)
  }

  lemma LongTokensStep(tokens: seq<string>, n: nat)
    requires n < |tokens|
    ensures LongTokens(tokens, n + 1) == LongTokens(tokens, n) + if IsLong(tokens, n) then {tokens[n]} else {}
  {
  }

  lemma LongPairsStep(tokens: seq<string>, n: nat)
    requires n < |tokens| - 1
    ensures LongPairs(tokens, n + 1) == LongPairs(tokens, n) + if IsLongPair(tokens, n) then {Bigram(tokens, n)} else {}
  {
  }

  /** The terms of a text: words of three or more characters, and pairs of such
      neighbours. It says what `ExtractTerms` collects without naming its loops. */
  function Terms(lex: Lexicon, text: string): set<string>
  {
    var tokens := TokenizeWords(lex, text);
    LongTokens(tokens, |tokens|) + LongPairs(tokens, |tokens| - 1)
  }

  lemma WordsAreWords(lex: Lexicon, text: string)
    requires lex.ValidWords()
    ensures forall t :: t in TokenizeWords(lex, text) ==> t != [] && All(lex.isWord, t)
    ensures forall t :: t in TokenizeWords(lex, text) ==> All(c => c != ' ', t)
  {
    RunsConserve(lex.isWord, text);
    var runs := Runs(lex.isWord, text);
    forall t | t in TokenizeWords(lex, text)
      ensures t != [] && All(lex.isWord, t) && All(c => c != ' ', t)
    {
      var i :| 0 <= i < |runs| && t == MapChars(lex.lower, runs[i]);
      assert runs[i] in runs;
      forall k | 0 <= k < |t| ensures lex.isWord(t[k]) && t[k] != ' ' {
        assert lex.isWord(runs[i][k]);
      }
    }
  }

  /** Splitting a bigram gives back the two tokens it was made of. */
  lemma SplitBigram(a: string, b: string)
    requires a != [] && b != [] && ' ' !in a && ' ' !in b
    ensures Join(" ", [a, b]) == a + " " + b
    ensures SplitWords(a + " " + b) == [a, b]
  {
    var p := (c: char) => c != ' ';
    assert Join(" ", [a, b]) == a + " " + b by {
      assert [a, b][1..] == [b];
    }
    RunsCons(p, a, ' ', b);
    RunsOfOne(p, b);
  }

  /** The loops of `extract_terms` collect exactly `Terms`. */
  method ExtractTerms(lex: Lexicon, text: string) returns (terms: set<string>)
    requires lex.ValidWords()
    ensures terms == Terms(lex, text)
  {
    var tokens := TokenizeWords(lex, text);
    terms := {};
    for i := 0 to |tokens|
      invariant terms == LongTokens(tokens, i)
    {
      LongTokensStep(tokens, i);
      if |tokens[i]| >= MIN_TERM_LENGTH {
        terms := terms + {tokens[i]};
      }
    }
    ghost var unigrams := terms;
    var bigrams := Ngrams(tokens, 2);
    for i := 0 to |bigrams|
      invariant terms == unigrams + LongPairs(tokens, i)
    {
      BigramChecked(lex, text, tokens, i);
      LongPairsStep(tokens, i);
      if LongEnough(SplitWords(bigrams[i])) {
        terms := terms + {bigrams[i]};
      }
    }
  }

  /** The test of `extract_terms` on a joined bigram is the test on its two tokens. */
  lemma BigramChecked(lex: Lexicon, text: string, tokens: seq<string>, i: nat)
    requires lex.ValidWords() && tokens == TokenizeWords(lex, text)
    requires i < |tokens| - 1
    ensures Ngrams(tokens, 2)[i] == Bigram(tokens, i)
    ensures LongEnough(SplitWords(Ngrams(tokens, 2)[i])) <==> IsLongPair(tokens, i)
  {
    WordsAreWords(lex, text);
    assert tokens[i] in tokens && tokens[i + 1] in tokens;
    assert tokens[i..i + 2] == [tokens[i], tokens[i + 1]];
    SplitBigram(tokens[i], tokens[i + 1]);
    var words := SplitWords(Bigram(tokens, i));
    assert words == [tokens[i], tokens[i + 1]];
    assert words[0] in words && words[1] in words;
  }

  /** Some text has the term. */
  ghost predicate IsTerm(lex: Lexicon, term: string)
  {
    exists text :: term in Terms(lex, text)
  }

  predicate IsTermWord(lex: Lexicon, w: string)
  {
    |w| >= MIN_TERM_LENGTH && All(lex.isWord, w) && MapChars(lex.lower, w) == w
  }

  /** One or two lower-case words of three or more word characters, joined by a blank. */
  predicate Indexable(lex: Lexicon, term: string)
  {
    var words := SplitWords(term);
    1 <= |words| <= 2 && term == Join(" ", words) && forall w :: w in words ==> IsTermWord(lex, w)
  }

  /** A string is a term of some text exactly when it has the shape of one. So a phrase with
      punctuation, of three words, or with a word of two letters is in no index. */
  lemma IndexableIff(lex: Lexicon, term: string)
    requires lex.ValidWords() && forall c :: lex.lower(lex.lower(c)) == lex.lower(c)
    ensures IsTerm(lex, term) <==> Indexable(lex, term)
  {
    if IsTerm(lex, term) {
      var text :| term in Terms(lex, text);
      TermIsIndexable(lex, text, term);
    }
    if Indexable(lex, term) {
      IndexableIsTerm(lex, term);
    }
  }

  lemma TokenIsTermWord(lex: Lexicon, text: string, i: nat)
    requires lex.ValidWords() && forall c :: lex.lower(lex.lower(c)) == lex.lower(c)
    requires i < |TokenizeWords(lex, text)| && IsLong(TokenizeWords(lex, text), i)
    ensures IsTermWord(lex, TokenizeWords(lex, text)[i]) && ' ' !in TokenizeWords(lex, text)[i]
  {
    WordsAreWords(lex, text);
    var t := TokenizeWords(lex, text)[i];
    assert t in TokenizeWords(lex, text);
    assert t == MapChars(lex.lower, Runs(lex.isWord, text)[i]);
  }

  lemma TermIsIndexable(lex: Lexicon, text: string, term: string)
    requires lex.ValidWords() && forall c :: lex.lower(lex.lower(c)) == lex.lower(c)
    requires term in Terms(lex, text)
    ensures Indexable(lex, term)
  {
    var tokens := TokenizeWords(lex, text);
    if i :| 0 <= i < |tokens| && IsLong(tokens, i) && term == tokens[i] {
      TokenIsTermWord(lex, text, i);
      RunsOfOne(c => c != ' ', term);
    } else {
      var i :| 0 <= i < |tokens| - 1 && IsLongPair(tokens, i) && term == Bigram(tokens, i);
      TokenIsTermWord(lex, text, i);
      TokenIsTermWord(lex, text, i + 1);
      SplitBigram(tokens[i], tokens[i + 1]);
    }
  }

  /** A term is itself a text that has it. */
  lemma IndexableIsTerm(lex: Lexicon, term: string)
    requires lex.ValidWords() && Indexable(lex, term)
    ensures IsTerm(lex, term)
  {
    var words := SplitWords(term);
    assert words[0] in words && words[|words| - 1] in words;
    if |words| == 1 {
      WordIsTerm(lex, term);
    } else {
      assert words[1..] == [words[1]] && Join(" ", words[1..]) == words[1];
      assert term == words[0] + " " + words[1];
      PairIsTerm(lex, words[0], words[1]);
    }
  }

  lemma WordIsTerm(lex: Lexicon, w: string)
    requires IsTermWord(lex, w)
    ensures w in Terms(lex, w)
  {
    RunsOfOne(lex.isWord, w);
    var tokens := TokenizeWords(lex, w);
    assert |tokens| == 1 && tokens[0] == w && IsLong(tokens, 0);
    assert tokens[0] in LongTokens(tokens, |tokens|);
  }

  lemma PairIsTerm(lex: Lexicon, a: string, b: string)
    requires lex.ValidWords() && IsTermWord(lex, a) && IsTermWord(lex, b)
    ensures a + " " + b in Terms(lex, a + " " + b)
  {
    var term := a + " " + b;
    assert !lex.isWord(' ');
    RunsCons(lex.isWord, a, ' ', b);
    RunsOfOne(lex.isWord, b);
    assert Runs(lex.isWord, term) == [a, b];
    var tokens := TokenizeWords(lex, term);
    assert tokens[0] == a && tokens[1] == b;
    assert IsLongPair(tokens, 0) && Bigram(tokens, 0) == term;
  }
}
