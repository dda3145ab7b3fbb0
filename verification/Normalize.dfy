/** app/analysis/normalize.py: the derived views of a message. */
module Normalize {
  import opened Strings
  import opened Tokenize

  // ---------------------------------------------------------------- tables

  function Leet(c: char): string
  {
    match c
    case '4' => "a" case '@' => "a" case '8' => "b" case '3' => "e"
    case '6' => "g" case '9' => "g" case '1' => "i" case '!' => "i"
    case '0' => "o" case '7' => "t" case '5' => "s" case '$' => "s"
    case '2' => "z" case '+' => "t" case '|' => "i" case '_' => ""
    case '-' => ""
    case _ => [c]
  }

  /** CYRILLIC SMALL LETTER BE, the one confusable folded to a digit. */
  const BE := '\U{0431}'

  function Confusable(c: char): char
  {
    match c
    case '\U{0430}' => 'a' case '\U{0435}' => 'e' case '\U{043e}' => 'o'
    case '\U{0440}' => 'p' case '\U{0441}' => 'c' case '\U{0443}' => 'y'
    case '\U{0445}' => 'x' case '\U{0456}' => 'i' case '\U{0131}' => 'i'
    case '\U{017f}' => 's' case '\U{03bd}' => 'v' case '\U{03c9}' => 'w'
    case '\U{0433}' => 'r' case '\U{0442}' => 't' case '\U{044a}' => 'b'
    case '\U{044c}' => 'b' case '\U{0431}' => '6' case '\U{0458}' => 'j'
    case '\U{0455}' => 's' case '\U{1d05}' => 'd' case '\U{0245}' => 'v'
    case '\U{043c}' => 'm'
    case _ => c
  }

  predicate ZeroWidth(c: char)
  {
    c in {'\U{200b}', '\U{200c}', '\U{200d}', '\U{2060}', '\U{feff}', '\U{00ad}'}
  }

  function Punctuation(c: char): string
  {
    match c
    case '\U{2013}' => "- " case '\U{2014}' => "- "
    case '\U{2010}' => "-" case '\U{2212}' => "-"
    case '\U{2018}' => "'" case '\U{2019}' => "'"
    case '\U{201c}' => "\"" case '\U{201d}' => "\""
    case '\U{2026}' => "..." case '\U{00a0}' => " "
    case _ => [c]
  }

  /** `"".join(f(ch) for ch in s)`. */
  function FlatMap(f: char -> string, s: string): string
  {
    if s == [] then [] else f(s[0]) + FlatMap(f, s[1..])
  }

  // ---------------------------------------------------------------- deobfuscation

  /** Length of the run of equal characters at the start. */
  function RunLength(s: string): (n: nat)
    requires s != []
    ensures 1 <= n <= |s|
    ensures n < |s| ==> s[n] != s[0]
  {
    if |s| == 1 || s[1] != s[0] then 1 else 1 + RunLength(s[1..])
  }

  /** `re.sub(r"(.)\1{2,}", r"\1\1", s)`: leftmost, greedy, `.` not matching newline. */
  function CollapseRepeats(s: string): string
    decreases |s|
  {
    if s == [] then []
    else if |s| >= 3 && s[0] == s[1] == s[2] && s[0] != '\n' then
      [s[0], s[0]] + CollapseRepeats(s[RunLength(s)..])
    else [s[0]] + CollapseRepeats(s[1..])
  }

  function DeobfuscateToken(token: string): string
  {
    CollapseRepeats(MapChars(Confusable, FlatMap(Leet, token)))
  }

  /** A text as its maximal runs of equal characters. */
  datatype Run = Run(c: char, n: nat)

  function RunsOf(s: string): seq<Run>
    decreases |s|
  {
    if s == [] then []
    else [Run(s[0], RunLength(s))] + RunsOf(s[RunLength(s)..])
  }

  function Repeat(c: char, n: nat): string
  {
    seq(n, i => c)
  }

  function Spell(rs: seq<Run>): string
  {
    if rs == [] then [] else Repeat(rs[0].c, rs[0].n) + Spell(rs[1..])
  }

  function Capped(r: Run): Run
  {
    if r.c == '\n' || r.n <= 2 then r else Run(r.c, 2)
  }

  function CapAll(rs: seq<Run>): seq<Run>
  {
    seq(|rs|, i requires 0 <= i < |rs| => Capped(rs[i]))
  }

  lemma SpellCons(r: Run, rs: seq<Run>)
    ensures Spell([r] + rs) == Repeat(r.c, r.n) + Spell(rs)
  {
  }

  lemma CapCons(r: Run, rs: seq<Run>)
    ensures CapAll([r] + rs) == [Capped(r)] + CapAll(rs)
  {
  }

  lemma {:induction false} RunsSpell(s: string)
    ensures Spell(RunsOf(s)) == s
    decreases |s|
  {
    if s != [] {
      FirstRun(s);
      var n := RunLength(s);
      RunsSpell(s[n..]);
      assert RunsOf(s) == [Run(s[0], n)] + RunsOf(s[n..]);
      SpellCons(Run(s[0], n), RunsOf(s[n..]));
    }
  }

  lemma {:induction false} FirstRun(s: string)
    requires s != []
    ensures s == Repeat(s[0], RunLength(s)) + s[RunLength(s)..]
  {
    var n := RunLength(s);
    if n > 1 {
      FirstRun(s[1..]);
      RepeatCons(s[0], n, s[n..]);
      assert s[1..][n - 1..] == s[n..];
    }
    assert s == [s[0]] + s[1..];
  }

  lemma {:induction false} RunLengthOf(c: char, n: nat, t: string)
    requires n > 0 && (t == [] || t[0] != c)
    ensures RunLength(Repeat(c, n) + t) == n
  {
    var s := Repeat(c, n) + t;
    if n > 1 {
      assert s[1..] == Repeat(c, n - 1) + t;
      RunLengthOf(c, n - 1, t);
    }
  }

  lemma RunsOfCons(c: char, n: nat, t: string)
    requires n > 0 && (t == [] || t[0] != c)
    ensures RunsOf(Repeat(c, n) + t) == [Run(c, n)] + RunsOf(t)
  {
    var s := Repeat(c, n) + t;
    RunLengthOf(c, n, t);
    assert s[n..] == t && s[0] == c;
  }

  lemma CollapseHead(s: string)
    ensures CollapseRepeats(s) == [] <==> s == []
    ensures s != [] ==> CollapseRepeats(s)[0] == s[0]
  {
  }

  /** A run the expression does not match is copied. */
  lemma {:induction false} CollapseShortRun(c: char, n: nat, t: string)
    requires t == [] || t[0] != c
    requires n <= 2 || c == '\n'
    ensures CollapseRepeats(Repeat(c, n) + t) == Repeat(c, n) + CollapseRepeats(t)
  {
    if n == 0 {
      assert Repeat(c, 0) + t == t;
      assert Repeat(c, 0) + CollapseRepeats(t) == CollapseRepeats(t);
    } else {
      CollapseShortRun(c, n - 1, t);
      RepeatCons(c, n, t);
      RepeatCons(c, n, CollapseRepeats(t));
      CollapseStep(c, Repeat(c, n - 1) + t);
    }
  }

  lemma RepeatCons(c: char, n: nat, t: string)
    requires n > 0
    ensures Repeat(c, n) + t == [c] + (Repeat(c, n - 1) + t)
  {
  }

  lemma CollapseStep(c: char, rest: string)
    requires |rest| < 2 || rest[0] != c || rest[1] != c || c == '\n'
    ensures CollapseRepeats([c] + rest) == [c] + CollapseRepeats(rest)
  {
  }

  /** One maximal run of `n` becomes a run of at most two, or stays when it is of newlines. */
  lemma CollapseRun(c: char, n: nat, t: string)
    requires t == [] || t[0] != c
    ensures CollapseRepeats(Repeat(c, n) + t) == Repeat(c, Capped(Run(c, n)).n) + CollapseRepeats(t)
  {
    if n <= 2 || c == '\n' {
      CollapseShortRun(c, n, t);
    } else {
      var s := Repeat(c, n) + t;
      RunLengthOf(c, n, t);
      assert s[0] == s[1] == s[2] == c;
      assert s[n..] == t;
      assert Repeat(c, 2) == [c, c];
    }
  }

  /** `collapse_repeats` caps every maximal run at two and touches nothing else. */
  lemma {:induction false} CollapseCapsRuns(s: string)
    ensures RunsOf(CollapseRepeats(s)) == CapAll(RunsOf(s))
    decreases |s|
  {
    if s != [] {
      var n := RunLength(s);
      var c, t := s[0], s[n..];
      FirstRun(s);
      CollapseCapsRuns(t);
      CollapseRun(c, n, t);
      CollapseHead(t);
      RunsOfCons(c, Capped(Run(c, n)).n, CollapseRepeats(t));
      CapCons(Run(c, n), RunsOf(t));
    }
  }

  lemma CollapseIdempotent(s: string)
    ensures CollapseRepeats(CollapseRepeats(s)) == CollapseRepeats(s)
  {
    var once := CollapseRepeats(s);
    var twice := CollapseRepeats(once);
    CollapseCapsRuns(s);
    CollapseCapsRuns(once);
    assert RunsOf(twice) == RunsOf(once);
    RunsSpell(once);
    RunsSpell(twice);
  }

  lemma {:induction false} CollapseKeepsCharacters(s: string)
    ensures forall c :: c in CollapseRepeats(s) <==> c in s
    decreases |s|
  {
    if s != [] {
      if |s| >= 3 && s[0] == s[1] == s[2] && s[0] != '\n' {
        var n := RunLength(s);
        CollapseKeepsCharacters(s[n..]);
        FirstRun(s);
        assert forall c :: c in Repeat(s[0], n) <==> c == s[0] by {
          assert Repeat(s[0], n)[0] == s[0];
        }
      } else {
        CollapseKeepsCharacters(s[1..]);
      }
    }
  }

  lemma {:induction false} FlatMapIn(f: char -> string, s: string)
    ensures forall d :: d in FlatMap(f, s) <==> exists c :: c in s && d in f(c)
  {
    if s != [] {
      FlatMapIn(f, s[1..]);
      assert s == [s[0]] + s[1..];
    }
  }

  lemma {:induction false} FlatMapFixed(f: char -> string, s: string)
    requires forall c :: c in s ==> f(c) == [c]
    ensures FlatMap(f, s) == s
  {
    if s != [] {
      FlatMapFixed(f, s[1..]);
    }
  }

  /** What both foldings make of a character is left alone by another pass, except '6',
      which comes from 'BE' only. */
  lemma FoldedCharacter(c: char, e: char)
    requires e in Leet(c)
    ensures var d := Confusable(e);
            && d != BE
            && (d == '6' <==> c == BE)
            && (d != '6' ==> Leet(d) == [d] && Confusable(d) == d)
  {
  }

  /** The characters before runs are collapsed. */
  function FoldedToken(t: string): string
  {
    MapChars(Confusable, FlatMap(Leet, t))
  }

  lemma DeobfuscatedCharacters(t: string)
    ensures forall d :: d in DeobfuscateToken(t) <==> d in FoldedToken(t)
    ensures forall d :: d in DeobfuscateToken(t) ==> d != BE
    ensures forall d :: d in DeobfuscateToken(t) && d != '6' ==> Leet(d) == [d] && Confusable(d) == d
    ensures '6' in DeobfuscateToken(t) <==> BE in t
  {
    var leet := FlatMap(Leet, t);
    var folded := FoldedToken(t);
    CollapseKeepsCharacters(folded);
    FlatMapIn(Leet, t);
    forall d | d in folded
      ensures d != BE
      ensures d != '6' ==> Leet(d) == [d] && Confusable(d) == d
      ensures d == '6' ==> BE in t
    {
      var k :| 0 <= k < |folded| && folded[k] == d;
      assert leet[k] in leet;
      var c :| c in t && leet[k] in Leet(c);
      FoldedCharacter(c, leet[k]);
    }
    if BE in t {
      assert Leet(BE) == [BE];
      assert BE in leet;
      var k :| 0 <= k < |leet| && leet[k] == BE;
      assert Confusable(BE) == '6';
      assert folded[k] == '6';
    }
  }

  const DIGITS_AND_SIGNS := "4@83691!075$2+|"
  const LETTERS_MEANT := "aabeggiiotsszti"

  /** The substitutes of leetspeak, each with the letter it is read as; '_' and '-' are read as nothing. */
  lemma LeetReads(c: char)
    ensures forall i | 0 <= i < |DIGITS_AND_SIGNS| :: Leet(DIGITS_AND_SIGNS[i]) == [LETTERS_MEANT[i]]
    ensures Leet('_') == "" && Leet('-') == ""
    ensures c !in DIGITS_AND_SIGNS && c !in "_-" ==> Leet(c) == [c]
  {
  }

  const LOOKALIKES := "\U{0430}\U{0435}\U{043e}\U{0440}\U{0441}\U{0443}\U{0445}\U{0456}\U{0131}\U{017f}\U{03bd}\U{03c9}\U{0433}\U{0442}\U{044a}\U{044c}\U{0431}\U{0458}\U{0455}\U{1d05}\U{0245}\U{043c}"
  const LATIN := "aeopcyxiisvwrtbb6jsdvm"

  /** The look-alikes of other scripts, each with its Latin counterpart. */
  lemma ConfusableReads(c: char)
    ensures |LOOKALIKES| == |LATIN| && forall i | 0 <= i < |LATIN| :: Confusable(LOOKALIKES[i]) == LATIN[i]
    ensures c !in LOOKALIKES ==> Confusable(c) == c
  {
  }

  /** Deobfuscating twice is deobfuscating once exactly for the tokens without 'BE':
      that letter folds to '6', which a second pass folds on to 'g'. */
  lemma DeobfuscateIdempotentIff(t: string)
    ensures DeobfuscateToken(DeobfuscateToken(t)) == DeobfuscateToken(t) <==> BE !in t
  {
    var once := DeobfuscateToken(t);
    DeobfuscatedCharacters(t);
    DeobfuscatedCharacters(once);
    if BE !in t {
      FlatMapFixed(Leet, once);
      assert MapChars(Confusable, once) == once;
      CollapseIdempotent(FoldedToken(t));
    }
  }

  // ---------------------------------------------------------------- views of a text

  /** Foreign Unicode functions, kept uninterpreted. */
  datatype Unicode = Unicode(nfc: string -> string, nfkc: string -> string, casefold: string -> string)

  /** `re.sub(r"\s+", " ", s)`. */
  function CollapseSpaces(lex: Lexicon, s: string): string
    decreases |s|
  {
    if s == [] then []
    else if lex.isSpace(s[0]) then " " + CollapseSpaces(lex, s[Prefix(lex.isSpace, s)..])
    else [s[0]] + CollapseSpaces(lex, s[1..])
  }

  function StripLeft(lex: Lexicon, s: string): string
  {
    s[Prefix(lex.isSpace, s)..]
  }

  function StripRight(lex: Lexicon, s: string): string
  {
    if s != [] && lex.isSpace(s[|s| - 1]) then StripRight(lex, s[..|s| - 1]) else s
  }

  /** `s.strip()`. */
  function Strip(lex: Lexicon, s: string): string
  {
    StripRight(lex, StripLeft(lex, s))
  }

  lemma {:induction false} StripRightEmptyIff(lex: Lexicon, s: string)
    ensures StripRight(lex, s) == "" <==> All(lex.isSpace, s)
  {
    if s != [] && lex.isSpace(s[|s| - 1]) {
      StripRightEmptyIff(lex, s[..|s| - 1]);
      assert s == s[..|s| - 1] + [s[|s| - 1]];
    }
  }

  /** Stripping leaves nothing exactly of a text of spaces. */
  lemma StripEmptyIff(lex: Lexicon, s: string)
    ensures Strip(lex, s) == "" <==> forall c :: c in s ==> lex.isSpace(c)
  {
    var n := Prefix(lex.isSpace, s);
    StripRightEmptyIff(lex, s[n..]);
    assert s == s[..n] + s[n..];
    if n < |s| {
      assert s[n..][0] == s[n];
    }
  }

  /** A text without zero-width characters, its punctuation folded. */
  function Plain(s: string): string
  {
    FlatMap(Punctuation, Filter(c => !ZeroWidth(c), s))
  }

  /** The text as `normalize_text` has it before whitespace is collapsed. */
  function Folded(u: Unicode, text: string): string
  {
    u.casefold(u.nfkc(Plain(u.nfc(text))))
  }

  function NormalizeText(u: Unicode, lex: Lexicon, text: string): string
  {
    Strip(lex, CollapseSpaces(lex, Folded(u, text)))
  }

  function CompactText(u: Unicode, lex: Lexicon, text: string): string
  {
    NormalizeText(u, lex, Filter(lex.isWord, text))
  }

  function NonEmpty(ss: seq<string>): seq<string>
  {
    if ss == [] then [] else (if ss[0] != "" then [ss[0]] else []) + NonEmpty(ss[1..])
  }

  function DeobfuscateText(lex: Lexicon, text: string): string
  {
    var runs := Runs(lex.isWord, text);
    Join(" ", NonEmpty(seq(|runs|, i requires 0 <= i < |runs| => DeobfuscateToken(runs[i]))))
  }

  datatype Document = Document(
    original: string, clean: string, deobfuscated: string, compact: string,
    tokens: seq<string>, bigrams: seq<string>, trigrams: seq<string>)

  function NormalizeDocument(u: Unicode, lex: Lexicon, text: string): Document
  {
    var clean := NormalizeText(u, lex, text);
    var tokens := SplitWords(clean);
    Document(text, clean, DeobfuscateText(lex, clean), CompactText(u, lex, clean),
             tokens, Ngrams(tokens, 2), Ngrams(tokens, 3))
  }

  function NotSpace(lex: Lexicon): char -> bool
  {
    c => !lex.isSpace(c)
  }

  lemma {:induction false} CollapseSpacesPrefix(lex: Lexicon, t: string, rest: string)
    requires All(NotSpace(lex), t)
    ensures CollapseSpaces(lex, t + rest) == t + CollapseSpaces(lex, rest)
  {
    if t == [] {
      assert t + rest == rest;
    } else {
      assert !lex.isSpace(t[0]);
      assert (t + rest)[1..] == t[1..] + rest;
      CollapseSpacesPrefix(lex, t[1..], rest);
    }
  }

  lemma SkipSpaces(lex: Lexicon, s: string, n: nat)
    requires n <= |s| && forall k :: 0 <= k < n ==> lex.isSpace(s[k])
    ensures Runs(NotSpace(lex), s) == Runs(NotSpace(lex), s[n..])
    decreases n
  {
    if n > 0 {
      SkipSpaces(lex, s[1..], n - 1);
      assert s[1..][n - 1..] == s[n..];
    }
  }

  /** Collapsed text is its words joined by blanks, between at most one blank on either side. */
  lemma {:induction false} CollapseSpacesShape(lex: Lexicon, s: string) returns (lead: string, trail: string)
    requires lex.isSpace(' ')
    ensures lead in {"", " "} && trail in {"", " "}
    ensures lead == " " <==> s != [] && lex.isSpace(s[0])
    ensures CollapseSpaces(lex, s) == lead + Join(" ", Runs(NotSpace(lex), s)) + trail
    decreases |s|
  {
    var p := NotSpace(lex);
    if s == [] {
      lead, trail := "", "";
    } else if lex.isSpace(s[0]) {
      var n := Prefix(lex.isSpace, s);
      SkipSpaces(lex, s, n);
      lead, trail := CollapseSpacesShape(lex, s[n..]);
      assert lead == "";
      lead := " ";
    } else {
      var rest := s[Prefix(p, s)..];
      var gap, end := CollapseSpacesShape(lex, rest);
      lead := "";
      trail := if Runs(p, rest) == [] then CollapseSpaces(lex, rest) else end;
      ShapeAfterWord(lex, s, gap, end);
    }
  }

  /** The shape of a text that starts with a word, from the shape of what follows the word. */
  lemma ShapeAfterWord(lex: Lexicon, s: string, gap: string, end: string)
    requires s != [] && !lex.isSpace(s[0]) && lex.isSpace(' ')
    requires var rest := s[Prefix(NotSpace(lex), s)..];
             && CollapseSpaces(lex, rest) == gap + Join(" ", Runs(NotSpace(lex), rest)) + end
             && (rest != [] ==> gap == " ")
    ensures var rest := s[Prefix(NotSpace(lex), s)..];
            var trail := if Runs(NotSpace(lex), rest) == [] then CollapseSpaces(lex, rest) else end;
            && CollapseSpaces(lex, s) == Join(" ", Runs(NotSpace(lex), s)) + trail
            && (Runs(NotSpace(lex), rest) == [] ==> trail in {"", " "})
  {
    var p := NotSpace(lex);
    var n := Prefix(p, s);
    var t, rest := s[..n], s[n..];
    assert s == t + rest;
    CollapseSpacesPrefix(lex, t, rest);
    assert Runs(p, s) == [t] + Runs(p, rest);
    if Runs(p, rest) == [] {
      NoWords(lex, rest);
    }
    JoinCons(t, Runs(p, rest), gap, end);
  }

  lemma JoinCons(t: string, ts: seq<string>, gap: string, end: string)
    ensures ts == [] ==> Join(" ", [t] + ts) == t
    ensures ts != [] && gap == " " ==> t + (gap + Join(" ", ts) + end) == Join(" ", [t] + ts) + end
  {
  }

  /** A text without words collapses to nothing or to one blank. */
  lemma NoWords(lex: Lexicon, s: string)
    requires Runs(NotSpace(lex), s) == []
    ensures CollapseSpaces(lex, s) == if s == [] then "" else " "
  {
  }

  lemma {:induction false} JoinEnds(lex: Lexicon, ts: seq<string>)
    requires ts != [] && forall t :: t in ts ==> t != [] && All(NotSpace(lex), t)
    ensures var j := Join(" ", ts); j != [] && !lex.isSpace(j[0]) && !lex.isSpace(j[|j| - 1])
  {
    assert ts[0] in ts;
    assert !lex.isSpace(ts[0][0]) && !lex.isSpace(ts[0][|ts[0]| - 1]);
    if |ts| > 1 {
      assert forall t :: t in ts[1..] ==> t in ts;
      JoinEnds(lex, ts[1..]);
    }
  }

  lemma StripPadded(lex: Lexicon, lead: string, j: string, trail: string)
    requires lex.isSpace(' ') && lead in {"", " "} && trail in {"", " "}
    requires j == [] || (!lex.isSpace(j[0]) && !lex.isSpace(j[|j| - 1]))
    ensures Strip(lex, lead + j + trail) == j
  {
    var s := lead + j + trail;
    if j == [] {
      assert All(lex.isSpace, s);
      assert Prefix(lex.isSpace, s) == |s|;
      assert StripLeft(lex, s) == [];
    } else {
      assert Prefix(lex.isSpace, s) == |lead| by {
        assert s[|lead|] == j[0];
      }
      var left := StripLeft(lex, s);
      assert left == j + trail;
      assert StripRight(lex, j) == j;
      if trail == "" {
        assert left == j;
      } else {
        assert left[..|left| - 1] == j;
        assert lex.isSpace(left[|left| - 1]);
      }
    }
  }

  /** `normalize_text` in one step: the words of the folded text joined by single blanks. */
  lemma CleanIsJoinedWords(u: Unicode, lex: Lexicon, text: string)
    requires lex.isSpace(' ')
    ensures NormalizeText(u, lex, text) == Join(" ", Runs(NotSpace(lex), Folded(u, text)))
  {
    var s := Folded(u, text);
    var words := Runs(NotSpace(lex), s);
    var lead, trail := CollapseSpacesShape(lex, s);
    RunsConserve(NotSpace(lex), s);
    if words != [] {
      JoinEnds(lex, words);
    }
    StripPadded(lex, lead, Join(" ", words), trail);
  }

  /** The tokens of a document are the words of its folded text, and joining them with
      blanks gives back the clean view. */
  lemma TokensRoundTrip(u: Unicode, lex: Lexicon, text: string)
    requires lex.isSpace(' ')
    ensures var doc := NormalizeDocument(u, lex, text);
            && doc.tokens == Runs(NotSpace(lex), Folded(u, text))
            && Join(" ", doc.tokens) == doc.clean
            && (forall t :: t in doc.tokens ==> t != [] && ' ' !in t)
  {
    var p := (c: char) => c != ' ';
    var words := Runs(NotSpace(lex), Folded(u, text));
    CleanIsJoinedWords(u, lex, text);
    RunsConserve(NotSpace(lex), Folded(u, text));
    forall t | t in words ensures t != [] && All(p, t) && ' ' !in t
    {
      forall k | 0 <= k < |t| ensures t[k] != ' ' { assert NotSpace(lex)(t[k]); }
    }
    RunsOfJoin(p, ' ', words);
  }

  /** Splitting a bigram of a document recovers the two neighbouring tokens. */
  lemma BigramRoundTrip(u: Unicode, lex: Lexicon, text: string, i: nat)
    requires lex.isSpace(' ')
    requires i + 1 < |NormalizeDocument(u, lex, text).tokens|
    ensures var doc := NormalizeDocument(u, lex, text);
            SplitWords(doc.bigrams[i]) == [doc.tokens[i], doc.tokens[i + 1]]
  {
    TokensRoundTrip(u, lex, text);
    SplitBigramOf(NormalizeDocument(u, lex, text).tokens, i);
  }

  lemma SplitBigramOf(tokens: seq<string>, i: nat)
    requires i + 1 < |tokens|
    requires forall t :: t in tokens ==> t != [] && ' ' !in t
    ensures SplitWords(Ngrams(tokens, 2)[i]) == [tokens[i], tokens[i + 1]]
  {
    assert tokens[i] in tokens && tokens[i + 1] in tokens;
    assert tokens[i..i + 2] == [tokens[i], tokens[i + 1]];
    SplitBigram(tokens[i], tokens[i + 1]);
  }

  /** Compaction does not see characters that are not of a word, wherever they are put. */
  lemma CompactIgnoresSeparators(u: Unicode, lex: Lexicon, a: string, noise: string, b: string)
    requires All(c => !lex.isWord(c), noise)
    ensures CompactText(u, lex, a + noise + b) == CompactText(u, lex, a + b)
  {
    FilterAppend(lex.isWord, a + noise, b);
    FilterAppend(lex.isWord, a, noise);
    FilterAppend(lex.isWord, a, b);
    FilterNone(lex.isWord, noise);
    var w := lex.isWord;
    assert Filter(w, a) + [] + Filter(w, b) == Filter(w, a) + Filter(w, b);
    assert Filter(w, a + noise + b) == Filter(w, a + b);
  }

  /** Folding the fold of `c` changes nothing more. */
  ghost predicate FoldedOnce(g: char -> string, c: char)
  {
    FlatMap(g, g(c)) == g(c)
  }

  /** A fold that works character by character: composition forms change nothing, the fold may
      expand a character, is idempotent, and keeps words words and the rest the rest. */
  ghost predicate CharacterWise(u: Unicode, lex: Lexicon, g: char -> string)
  {
    && (forall s :: u.nfc(s) == s && u.nfkc(s) == s && u.casefold(s) == FlatMap(g, s))
    && (forall c :: FoldedOnce(g, c))
    && (forall c, d :: d in g(c) ==> (lex.isWord(d) <==> lex.isWord(c)))
    && (forall c :: ZeroWidth(c) || Punctuation(c) != [c] || lex.isSpace(c) ==> !lex.isWord(c))
  }

  lemma {:induction false} FlatMapAppend(g: char -> string, a: string, b: string)
    ensures FlatMap(g, a + b) == FlatMap(g, a) + FlatMap(g, b)
  {
    if a == [] {
      assert a + b == b;
    } else {
      assert (a + b)[1..] == a[1..] + b;
      FlatMapAppend(g, a[1..], b);
    }
  }

  /** Filtering the words of a folded text and folding again is folding the filtered text. */
  lemma {:induction false} FoldFilterFold(u: Unicode, lex: Lexicon, g: char -> string, s: string)
    requires CharacterWise(u, lex, g)
    ensures FlatMap(g, Filter(lex.isWord, FlatMap(g, s))) == FlatMap(g, Filter(lex.isWord, s))
  {
    if s != [] {
      var w := lex.isWord;
      var h, rest := g(s[0]), FlatMap(g, s[1..]);
      FoldFilterFold(u, lex, g, s[1..]);
      FilterAppend(w, h, rest);
      FlatMapAppend(g, Filter(w, h), Filter(w, rest));
      FoldOfCharacter(u, lex, g, s[0]);
      FlatMapAppend(g, Filter(w, [s[0]]), Filter(w, s[1..]));
      assert Filter(w, s) == Filter(w, [s[0]]) + Filter(w, s[1..]);
    }
  }

  lemma FoldOfCharacter(u: Unicode, lex: Lexicon, g: char -> string, c: char)
    requires CharacterWise(u, lex, g)
    ensures FlatMap(g, Filter(lex.isWord, g(c))) == FlatMap(g, Filter(lex.isWord, [c]))
  {
    assert FlatMap(g, [c]) == g(c) + FlatMap(g, []);
    assert FoldedOnce(g, c);
    if lex.isWord(c) {
      FilterAll(lex.isWord, g(c));
    } else {
      FilterNone(lex.isWord, g(c));
    }
  }

  /** With such a fold, compacting is folding the word characters. */
  lemma CompactIsFold(u: Unicode, lex: Lexicon, g: char -> string, s: string)
    requires CharacterWise(u, lex, g) && lex.isSpace(' ')
    ensures CompactText(u, lex, s) == FlatMap(g, Filter(lex.isWord, s))
  {
    var w := Filter(lex.isWord, s);
    FilterAll(c => !ZeroWidth(c), w);
    FlatMapFixed(Punctuation, w);
    var f := FlatMap(g, w);
    assert Folded(u, w) == f;
    FlatMapIn(g, w);
    assert forall d :: d in f ==> lex.isWord(d) && !lex.isSpace(d);
    CleanIsJoinedWords(u, lex, w);
    assert All(NotSpace(lex), f) by {
      forall k | 0 <= k < |f| ensures NotSpace(lex)(f[k]) { assert f[k] in f; }
    }
    RunsOfOne(NotSpace(lex), f);
  }

  /** `c` is one of the typographic characters that stand for `m`; those of no width for nothing. */
  predicate StandsFor(c: char, m: string)
  {
    || (c in {'\U{200b}', '\U{200c}', '\U{200d}', '\U{2060}', '\U{feff}', '\U{00ad}'} && m == "")
    || (c in {'\U{2018}', '\U{2019}'} && m == "'") || (c in {'\U{201c}', '\U{201d}'} && m == "\"")
    || (c in {'\U{2010}', '\U{2212}'} && m == "-") || (c in {'\U{2013}', '\U{2014}'} && m == "- ")
    || (c == '\U{2026}' && m == "...") || (c == '\U{00a0}' && m == " ")
  }

  lemma PlainCharacter(c: char, m: string)
    requires StandsFor(c, m)
    ensures Plain([c]) == m && Plain(m) == m
  {
    var p := (c: char) => !ZeroWidth(c);
    assert Filter(p, [c]) == (if p(c) then [c] else []) + Filter(p, []);
    assert FlatMap(Punctuation, [c]) == Punctuation(c) + FlatMap(Punctuation, []);
    PlainStays(m);
  }

  lemma PlainStays(m: string)
    requires m in {"", "'", "\"", "-", "- ", "...", " "}
    ensures Plain(m) == m
  {
    FilterAll(c => !ZeroWidth(c), m);
    FlatMapFixed(Punctuation, m);
  }

  /** Where composition forms change nothing, the clean view does not tell typographic characters from
      what they stand for, nor see those of no width. */
  lemma CleanFoldsPunctuation(u: Unicode, lex: Lexicon, a: string, c: char, m: string, b: string)
    requires u.nfc(a + [c] + b) == a + [c] + b && u.nfc(a + m + b) == a + m + b && StandsFor(c, m)
    ensures NormalizeText(u, lex, a + [c] + b) == NormalizeText(u, lex, a + m + b)
  {
    PlainCharacter(c, m);
    PunctuationOf(a, [c], b);
    PunctuationOf(a, m, b);
  }

  lemma PunctuationOf(a: string, m: string, b: string)
    ensures Plain(a + m + b) == Plain(a) + Plain(m) + Plain(b)
  {
    var p := (c: char) => !ZeroWidth(c);
    FilterAppend(p, a + m, b);
    FilterAppend(p, a, m);
    FlatMapAppend(Punctuation, Filter(p, a) + Filter(p, m), Filter(p, b));
    FlatMapAppend(Punctuation, Filter(p, a), Filter(p, m));
  }

  /** A literal occurrence of a phrase in the clean view is also a compact occurrence, so the
      variant-tolerant check of a phrase rule never misses what the literal check finds. */
  lemma LiteralImpliesCompact(u: Unicode, lex: Lexicon, g: char -> string, text: string, pattern: string)
    requires CharacterWise(u, lex, g) && lex.isSpace(' ')
    requires Contains(NormalizeDocument(u, lex, text).clean, u.casefold(pattern))
    ensures Contains(NormalizeDocument(u, lex, text).compact, CompactText(u, lex, pattern))
  {
    var clean := NormalizeText(u, lex, text);
    var a, b := ContainsElim(clean, u.casefold(pattern));
    var w := lex.isWord;
    FilterAppend(w, a + u.casefold(pattern), b);
    FilterAppend(w, a, u.casefold(pattern));
    var fa, fp, fb := Filter(w, a), Filter(w, FlatMap(g, pattern)), Filter(w, b);
    FlatMapAppend(g, fa + fp, fb);
    FlatMapAppend(g, fa, fp);
    FoldFilterFold(u, lex, g, pattern);
    CompactIsFold(u, lex, g, clean);
    CompactIsFold(u, lex, g, pattern);
    ContainsIntro(FlatMap(g, fa), FlatMap(g, fp), FlatMap(g, fb));
  }
}
