/** app/rules/engine.py: matching a document against the rules, with allowlist suppression. */
module RuleEngine {
  import opened Strings
  import opened Tokenize
  import opened Normalize
  import opened CompileCache
  import opened Models

  datatype RuleKind = Exact | Phrase | RegexKind
  datatype Scope = GlobalScope | ChatScope(chat: int)

  datatype Rule = Rule(
    id: int, scope: Scope, kind: RuleKind, pattern: string, category: string, note: Option<string>,
    isAllowlist: bool, caseSensitive: bool, enabled: bool)

  datatype RuleMatch = RuleMatch(ruleId: int, kind: RuleKind, text: string, category: string, evidence: EvidenceType, note: Option<string>)

  /** What matching asks of the world: the text functions, the compiled object that the cache
      answers for a rule, and the search of the regex module (none on a timeout). */
  datatype Matcher = Matcher(
    unicode: Unicode, lex: Lexicon,
    compiled: Rule -> Option<Regex>,
    search: (Regex, string) -> Option<string>,
    ratio: (string, string) -> real,
    threshold: real,
    describe: (real, string) -> string)

  /** `_match_rule`: the matched fragment, or none. */
  function MatchRule(mt: Matcher, rule: Rule, doc: Document): Option<string>
  {
    match rule.kind
    case RegexKind =>
      var regex := mt.compiled(rule);
      if regex.None? then None
      else mt.search(regex.value, if rule.caseSensitive then doc.original else doc.clean)
    case Phrase =>
      if rule.caseSensitive then (if Contains(doc.original, rule.pattern) then Some(rule.pattern) else None)
      else
        var pattern := mt.unicode.casefold(rule.pattern);
        if Contains(doc.clean, pattern) then Some(pattern)
        else
          var compact := CompactText(mt.unicode, mt.lex, rule.pattern);
          if compact != "" && Contains(doc.compact, compact) then Some(rule.pattern) else None
    case Exact =>
      if rule.caseSensitive then (if Contains(doc.original, rule.pattern) then Some(rule.pattern) else None)
      else
        var pattern := mt.unicode.casefold(rule.pattern);
        if Contains(doc.clean, pattern) then Some(pattern)
        else
          var token := DeobfuscateToken(rule.pattern);
          if token != "" && token in SplitWords(doc.deobfuscated) then Some(rule.pattern) else None
  }

  /** What a rule matches. A regex rule searches the original exactly when it is case-sensitive. A
      case-sensitive exact or phrase rule matches its pattern where the original has it; any other
      one its folded pattern where the clean view has that. Failing this, a phrase rule matches when
      its compact form is not empty and occurs in the compact view, and an exact rule when a word of
      the deobfuscated view is its own deobfuscated form. */
  lemma MatchRuleMeaning(mt: Matcher, rule: Rule, doc: Document)
    ensures rule.kind.RegexKind? && mt.compiled(rule).None? ==> MatchRule(mt, rule, doc) == None
    ensures rule.kind.RegexKind? && mt.compiled(rule).Some? && rule.caseSensitive ==> MatchRule(mt, rule, doc) == mt.search(mt.compiled(rule).value, doc.original)
    ensures rule.kind.RegexKind? && mt.compiled(rule).Some? && !rule.caseSensitive ==> MatchRule(mt, rule, doc) == mt.search(mt.compiled(rule).value, doc.clean)
    ensures !rule.kind.RegexKind? && rule.caseSensitive && Occurs(rule.pattern, doc.original) ==> MatchRule(mt, rule, doc) == Some(rule.pattern)
    ensures !rule.kind.RegexKind? && rule.caseSensitive && !Occurs(rule.pattern, doc.original) ==> MatchRule(mt, rule, doc) == None
    ensures LiteralIn(mt, rule, doc) ==> MatchRule(mt, rule, doc) == Some(mt.unicode.casefold(rule.pattern))
    ensures NotLiteralIn(mt, rule, doc) ==> (MatchRule(mt, rule, doc) == Some(rule.pattern) <==> VariantIn(mt, rule, doc))
    ensures NotLiteralIn(mt, rule, doc) ==> (MatchRule(mt, rule, doc) == None <==> !VariantIn(mt, rule, doc))
  {
    ContainsIff(doc.original, rule.pattern);
    ContainsIff(doc.clean, mt.unicode.casefold(rule.pattern));
    ContainsIff(doc.compact, CompactText(mt.unicode, mt.lex, rule.pattern));
  }

  /** A case-insensitive exact or phrase rule whose folded pattern the clean view has. */
  ghost predicate LiteralIn(mt: Matcher, rule: Rule, doc: Document)
  {
    !rule.kind.RegexKind? && !rule.caseSensitive && Occurs(mt.unicode.casefold(rule.pattern), doc.clean)
  }

  ghost predicate NotLiteralIn(mt: Matcher, rule: Rule, doc: Document)
  {
    !rule.kind.RegexKind? && !rule.caseSensitive && !Occurs(mt.unicode.casefold(rule.pattern), doc.clean)
  }

  /** The spelling variants that a rule tolerates. */
  ghost predicate VariantIn(mt: Matcher, rule: Rule, doc: Document)
  {
    if rule.kind.Phrase? then
      var compact := CompactText(mt.unicode, mt.lex, rule.pattern);
      compact != "" && Occurs(compact, doc.compact)
    else
      var token := DeobfuscateToken(rule.pattern);
      token != "" && exists w :: w in SplitWords(doc.deobfuscated) && w == token
  }

  /** The non-empty fragment a rule matches; an empty match is no match. */
  function Fragment(mt: Matcher, doc: Document, rule: Rule): Option<string>
  {
    var m := MatchRule(mt, rule, doc);
    if m.Some? && m.value != "" then m else None
  }

  function EvidenceFor(rule: Rule): EvidenceType
  {
    if rule.kind.RegexKind? then RegexRule else ExplicitRule
  }

  /** The folded fragments that the enabled allow rules match. */
  function Allowed(mt: Matcher, doc: Document, rules: seq<Rule>): set<string>
  {
    set r | r in rules && r.enabled && r.isAllowlist && Fragment(mt, doc, r).Some?
      :: mt.unicode.casefold(Fragment(mt, doc, r).value)
  }

  /** An enabled block rule whose fragment no allow rule matched. */
  predicate Fires(mt: Matcher, doc: Document, allowed: set<string>, rule: Rule)
  {
    && rule.enabled && !rule.isAllowlist
    && Fragment(mt, doc, rule).Some? && mt.unicode.casefold(Fragment(mt, doc, rule).value) !in allowed
  }

  function Keep(p: Rule -> bool, rules: seq<Rule>): (r: seq<Rule>)
    ensures forall x :: x in r <==> x in rules && p(x)
  {
    if rules == [] then [] else
      var init, last := rules[..|rules| - 1], rules[|rules| - 1];
      assert rules == init + [last];
      Keep(p, init) + if p(last) then [last] else []
  }

  function MatchOf(mt: Matcher, doc: Document, rule: Rule): RuleMatch
  {
    var f := Fragment(mt, doc, rule);
    RuleMatch(rule.id, rule.kind, if f.Some? then f.value else "", rule.category, EvidenceFor(rule), rule.note)
  }

  /** A match carries its rule's identity, category and note; its evidence is a regex rule's for a
      regex, an explicit rule's otherwise. */
  lemma MatchReads(mt: Matcher, doc: Document, rule: Rule)
    requires Fragment(mt, doc, rule).Some?
    ensures var m := MatchOf(mt, doc, rule);
            && m.text != "" && MatchRule(mt, rule, doc) == Some(m.text)
            && m.ruleId == rule.id && m.kind == rule.kind && m.category == rule.category && m.note == rule.note
            && (m.evidence == RegexRule <==> rule.kind == RegexKind) && (m.evidence == ExplicitRule <==> rule.kind in {Exact, Phrase})
  {
  }

  /** The findings of `match_rules`: the rules that fire, in order. */
  function Matches(mt: Matcher, doc: Document, rules: seq<Rule>): seq<RuleMatch>
  {
    MatchesOf(mt, doc, Keep(r => Fires(mt, doc, Allowed(mt, doc, rules), r), rules))
  }

  function MatchesOf(mt: Matcher, doc: Document, fired: seq<Rule>): seq<RuleMatch>
  {
    seq(|fired|, i requires 0 <= i < |fired| => MatchOf(mt, doc, fired[i]))
  }

  /** The two passes of `match_rules`: allow rules first, then block rules. */
  method MatchRules(mt: Matcher, doc: Document, rules: seq<Rule>) returns (findings: seq<RuleMatch>)
    ensures findings == Matches(mt, doc, rules)
  {
    var allowlist: set<string> := {};
    for i := 0 to |rules|
      invariant allowlist == Allowed(mt, doc, rules[..i])
    {
      AllowedStep(mt, doc, rules, i);
      if rules[i].enabled && rules[i].isAllowlist {
        var matched := MatchRule(mt, rules[i], doc);
        if matched.Some? && matched.value != "" {
          allowlist := allowlist + {mt.unicode.casefold(matched.value)};
        }
      }
    }
    assert rules[..|rules|] == rules;
    findings := [];
    ghost var fires := r => Fires(mt, doc, allowlist, r);
    for i := 0 to |rules|
      invariant findings == MatchesOf(mt, doc, Keep(fires, rules[..i]))
    {
      var rule := rules[i];
      KeepStep(mt, doc, fires, rules, i);
      if rule.enabled && !rule.isAllowlist {
        var matched := MatchRule(mt, rule, doc);
        if matched.None? || matched.value == "" {
          continue;
        }
        if mt.unicode.casefold(matched.value) in allowlist {
          continue;
        }
        findings := findings + [RuleMatch(rule.id, rule.kind, matched.value, rule.category, EvidenceFor(rule), rule.note)];
      }
    }
  }

  lemma AllowedStep(mt: Matcher, doc: Document, rules: seq<Rule>, i: nat)
    requires i < |rules|
    ensures var r := rules[i];
            Allowed(mt, doc, rules[..i + 1]) == Allowed(mt, doc, rules[..i])
              + if r.enabled && r.isAllowlist && Fragment(mt, doc, r).Some? then {mt.unicode.casefold(Fragment(mt, doc, r).value)} else {}
  {
  }

  lemma KeepStep(mt: Matcher, doc: Document, p: Rule -> bool, rules: seq<Rule>, i: nat)
    requires i < |rules|
    ensures MatchesOf(mt, doc, Keep(p, rules[..i + 1]))
         == MatchesOf(mt, doc, Keep(p, rules[..i])) + if p(rules[i]) then [MatchOf(mt, doc, rules[i])] else []
  {
    assert rules[..i + 1][..i] == rules[..i] && rules[..i + 1][i] == rules[i];
  }

  // ---------------------------------------------------------------- laws of the two passes

  /** A finding is there exactly when some enabled block rule matched a non-empty fragment that no
      enabled allow rule matched, up to folding. */
  lemma MatchedIff(mt: Matcher, doc: Document, rules: seq<Rule>, m: RuleMatch)
    ensures m in Matches(mt, doc, rules) <==>
            exists r :: r in rules && m == MatchOf(mt, doc, r) && r.enabled && !r.isAllowlist && Fragment(mt, doc, r).Some?
              && forall a :: a in rules && a.enabled && a.isAllowlist && Fragment(mt, doc, a).Some?
                   ==> mt.unicode.casefold(Fragment(mt, doc, a).value) != mt.unicode.casefold(Fragment(mt, doc, r).value)
  {
    var allowed := Allowed(mt, doc, rules);
    var fired := Keep(r => Fires(mt, doc, allowed, r), rules);
    var ms := Matches(mt, doc, rules);
    if m in ms {
      var i :| 0 <= i < |ms| && ms[i] == m;
      assert fired[i] in fired;
    }
    if r :| r in rules && m == MatchOf(mt, doc, r) && Fires(mt, doc, allowed, r) {
      var i :| 0 <= i < |fired| && fired[i] == r;
      assert ms[i] == m;
    }
  }

  lemma {:induction false} KeepSame(p: Rule -> bool, q: Rule -> bool, rules: seq<Rule>)
    requires forall r :: r in rules ==> p(r) == q(r)
    ensures Keep(p, rules) == Keep(q, rules)
  {
    if rules != [] {
      KeepSame(p, q, rules[..|rules| - 1]);
      assert rules[|rules| - 1] in rules;
    }
  }

  lemma {:induction false} KeepAppend(p: Rule -> bool, a: seq<Rule>, b: seq<Rule>)
    ensures Keep(p, a + b) == Keep(p, a) + Keep(p, b)
  {
    if b == [] {
      assert a + b == a;
    } else {
      assert (a + b)[..|a + b| - 1] == a + b[..|b| - 1];
      KeepAppend(p, a, b[..|b| - 1]);
    }
  }

  lemma {:induction false} KeepTwice(p: Rule -> bool, q: Rule -> bool, rules: seq<Rule>)
    requires forall r :: q(r) ==> p(r)
    ensures Keep(q, Keep(p, rules)) == Keep(q, rules)
  {
    if rules != [] {
      var init, last := rules[..|rules| - 1], rules[|rules| - 1];
      KeepTwice(p, q, init);
      if p(last) {
        KeepAppend(q, Keep(p, init), [last]);
        assert [last][..0] == [];
        assert Keep(q, [last]) == [] + if q(last) then [last] else [];
      } else {
        assert Keep(p, rules) == Keep(p, init);
      }
    }
  }

  predicate IsBlock(r: Rule)
  {
    !r.isAllowlist
  }

  /** The findings depend on the block rules in their order and on which allow rules there are,
      not on where these stand. */
  lemma AllowOrderIrrelevant(mt: Matcher, doc: Document, a: seq<Rule>, b: seq<Rule>)
    requires Keep(IsBlock, a) == Keep(IsBlock, b)
    requires forall r: Rule :: r.isAllowlist ==> (r in a <==> r in b)
    ensures Matches(mt, doc, a) == Matches(mt, doc, b)
  {
    assert Allowed(mt, doc, a) == Allowed(mt, doc, b);
    var fires := r => Fires(mt, doc, Allowed(mt, doc, a), r);
    KeepTwice(IsBlock, fires, a);
    KeepTwice(IsBlock, fires, b);
    KeepSame(r => Fires(mt, doc, Allowed(mt, doc, b), r), fires, b);
    KeepSame(r => Fires(mt, doc, Allowed(mt, doc, a), r), fires, a);
  }

  /** Adding allow rules only takes findings away: what is left are, in order, the findings of the
      rules whose fragments the new allow rules do not match. */
  lemma AllowRulesOnlyRemove(mt: Matcher, doc: Document, rules: seq<Rule>, more: seq<Rule>)
    requires forall r :: r in more ==> r.isAllowlist
    ensures var fired := Keep(r => Fires(mt, doc, Allowed(mt, doc, rules), r), rules);
            var left := Keep(r => Fires(mt, doc, Allowed(mt, doc, rules + more), r), rules + more);
            left == Keep(r => Fires(mt, doc, Allowed(mt, doc, more), r), fired)
    ensures forall m :: m in Matches(mt, doc, rules + more) ==> m in Matches(mt, doc, rules)
  {
    var all := rules + more;
    assert Allowed(mt, doc, all) == Allowed(mt, doc, rules) + Allowed(mt, doc, more);
    var before := r => Fires(mt, doc, Allowed(mt, doc, rules), r);
    var after := r => Fires(mt, doc, Allowed(mt, doc, all), r);
    var fired := Keep(before, rules);
    KeepAppend(after, rules, more);
    KeepNone(after, more);
    KeepTwice(before, after, rules);
    KeepSame(after, r => Fires(mt, doc, Allowed(mt, doc, more), r), fired);
    assert Keep(after, all) == Keep(after, rules);
    forall m | m in Matches(mt, doc, all) ensures m in Matches(mt, doc, rules) {
      var ms := Matches(mt, doc, all);
      var i :| 0 <= i < |ms| && ms[i] == m;
      var r := Keep(r => Fires(mt, doc, Allowed(mt, doc, all), r), all)[i];
      assert r in Keep(r => Fires(mt, doc, Allowed(mt, doc, all), r), all);
      MatchedIff(mt, doc, rules, m);
    }
  }

  lemma {:induction false} KeepNone(p: Rule -> bool, rules: seq<Rule>)
    requires forall r :: r in rules ==> !p(r)
    ensures Keep(p, rules) == []
  {
    if rules != [] {
      KeepNone(p, rules[..|rules| - 1]);
      assert rules[|rules| - 1] in rules;
    }
  }

  // ---------------------------------------------------------------- rules and the compile cache

  function KeyOf(rule: Rule): Key
  {
    Key(rule.id, rule.pattern, rule.caseSensitive)
  }

  /** The cache answered this regex rule more than 300 seconds after it was first asked for it. */
  ghost predicate Expired(compile: Compiler, mt: Matcher, rule: Rule)
  {
    exists past, first, more, l :: AnsweredLate(compile, mt, rule, past, first, more, l)
  }

  ghost predicate AnsweredLate(compile: Compiler, mt: Matcher, rule: Rule, past: seq<Lookup>, first: Lookup, more: seq<Lookup>, l: Lookup)
  {
    && first.key == KeyOf(rule) && l.key == KeyOf(rule) && l.now - first.now > CACHE_TTL
    && (forall p :: p in past ==> p.key != first.key)
    && mt.compiled(rule) == Answer(compile, past + [first] + more, l)
  }

  /** A regex rule with an expired entry matches nothing, whatever the message. */
  lemma ExpiredRuleIsSilent(compile: Compiler, mt: Matcher, doc: Document, rule: Rule)
    requires rule.kind.RegexKind? && Expired(compile, mt, rule)
    ensures MatchRule(mt, rule, doc) == None
  {
    var past, first, more, l :| AnsweredLate(compile, mt, rule, past, first, more, l);
    FreshIff(compile, past + [first] + more, l);
    if Fresh(compile, l.key).Some? {
      ExpiredForGood(compile, past, first, more, l);
    }
  }

  // ---------------------------------------------------------------- spelling variants

  const MIN_FUZZY_TOKEN := 4

  /** The long tokens of a message, `t for t in doc.tokens if len(t) >= 4`. */
  function FuzzyTokens(tokens: seq<string>): (r: seq<string>)
    ensures forall t :: t in r <==> t in tokens && |t| >= MIN_FUZZY_TOKEN
  {
    if tokens == [] then []
    else (if |tokens[0]| >= MIN_FUZZY_TOKEN then [tokens[0]] else []) + FuzzyTokens(tokens[1..])
  }

  /** The keys of `token_forms` in insertion order: each deobfuscated form at its first token. */
  function Forms(tokens: seq<string>): (r: seq<string>)
    ensures forall f :: f in r <==> exists t :: t in tokens && f == DeobfuscateToken(t)
  {
    if tokens == [] then []
    else
      var init, last := tokens[..|tokens| - 1], tokens[|tokens| - 1];
      assert tokens == init + [last];
      var before := Forms(init);
      if DeobfuscateToken(last) in before then before else before + [DeobfuscateToken(last)]
  }

  /** The value of `token_forms` at a form: the last token that has it. */
  function TokenOf(tokens: seq<string>, form: string): (t: string)
    requires form in Forms(tokens)
    ensures t in tokens && DeobfuscateToken(t) == form
  {
    var last := tokens[|tokens| - 1];
    if DeobfuscateToken(last) == form then last else TokenOf(tokens[..|tokens| - 1], form)
  }

  /** `process.extractOne`: the first of the candidates with the highest ratio. */
  function ExtractOne(mt: Matcher, token: string, forms: seq<string>): (best: Option<string>)
    ensures best.Some? ==> best.value in forms && best.value != token
    ensures best.None? <==> forall f :: f in forms ==> f == token
    ensures best.Some? ==> forall f :: f in forms && f != token ==> mt.ratio(token, f) <= mt.ratio(token, best.value)
  {
    if forms == [] then None
    else
      var init, last := forms[..|forms| - 1], forms[|forms| - 1];
      assert forms == init + [last];
      var best := ExtractOne(mt, token, init);
      if last != token && (best.None? || mt.ratio(token, last) > mt.ratio(token, best.value)) then Some(last) else best
  }

  /** `obfuscation_equivalent`. */
  predicate ObfuscationEquivalent(pattern: string, token: string)
  {
    pattern != "" && token != "" && DeobfuscateToken(pattern) == DeobfuscateToken(token)
  }

  /** One turn of the loop of `fuzzy_rule_matches`. */
  function FuzzyMatchOf(mt: Matcher, doc: Document, rule: Rule): Option<RuleMatch>
  {
    var tokens := FuzzyTokens(doc.tokens);
    var token := DeobfuscateToken(rule.pattern);
    if !rule.enabled || rule.isAllowlist || rule.kind.RegexKind? || |token| < MIN_FUZZY_TOKEN then None
    else
      var best := ExtractOne(mt, token, Forms(tokens));
      if best.None? || mt.ratio(token, best.value) / 100.0 < mt.threshold then None
      else if ObfuscationEquivalent(rule.pattern, TokenOf(tokens, best.value)) then None
      else Some(RuleMatch(rule.id, rule.kind, TokenOf(tokens, best.value), rule.category, FuzzyRuleMatch,
                          Some(mt.describe(mt.ratio(token, best.value) / 100.0, rule.pattern))))
  }

  /** The results that `f` gives over the rules, in order. */
  function Collect(f: Rule -> Option<RuleMatch>, rules: seq<Rule>): seq<RuleMatch>
  {
    if rules == [] then []
    else
      var m := f(rules[|rules| - 1]);
      Collect(f, rules[..|rules| - 1]) + if m.Some? then [m.value] else []
  }

  function FuzzyMatches(mt: Matcher, doc: Document, rules: seq<Rule>): seq<RuleMatch>
  {
    Collect(r => FuzzyMatchOf(mt, doc, r), rules)
  }

  method FuzzyRuleMatches(mt: Matcher, doc: Document, rules: seq<Rule>) returns (out: seq<RuleMatch>)
    ensures out == FuzzyMatches(mt, doc, rules)
  {
    out := [];
    for i := 0 to |rules|
      invariant out == FuzzyMatches(mt, doc, rules[..i])
    {
      FuzzyStep(mt, doc, rules, i);
      var m := FuzzyMatchOf(mt, doc, rules[i]);
      if m.Some? {
        out := out + [m.value];
      }
    }
    assert rules[..|rules|] == rules;
  }

  lemma FuzzyStep(mt: Matcher, doc: Document, rules: seq<Rule>, i: nat)
    requires i < |rules|
    ensures FuzzyMatches(mt, doc, rules[..i + 1]) ==
            FuzzyMatches(mt, doc, rules[..i]) + var m := FuzzyMatchOf(mt, doc, rules[i]); if m.Some? then [m.value] else []
  {
    assert rules[..i + 1][..i] == rules[..i] && rules[..i + 1][i] == rules[i];
  }

  lemma {:induction false} CollectedIff(f: Rule -> Option<RuleMatch>, rules: seq<Rule>, m: RuleMatch)
    ensures m in Collect(f, rules) <==> exists r :: r in rules && f(r) == Some(m)
  {
    if rules != [] {
      var init, last := rules[..|rules| - 1], rules[|rules| - 1];
      CollectedIff(f, init, m);
      assert rules == init + [last];
    }
  }

  /** The candidates exclude the rule's own form, so the test for an equivalent spelling never
      skips a match. */
  lemma EquivalenceTestIsDead(mt: Matcher, doc: Document, rule: Rule)
    ensures var tokens := FuzzyTokens(doc.tokens); var best := ExtractOne(mt, DeobfuscateToken(rule.pattern), Forms(tokens));
            best.Some? ==> !ObfuscationEquivalent(rule.pattern, TokenOf(tokens, best.value))
  {
  }

  /** A fuzzy match is of a long token of the message that is spelled unlike the rule's pattern,
      closely enough, and as closely as any. */
  lemma FuzzyMatchMeaning(mt: Matcher, doc: Document, r: Rule, m: RuleMatch)
    requires FuzzyMatchOf(mt, doc, r) == Some(m)
    ensures m.evidence == FuzzyRuleMatch && m.text in doc.tokens && |m.text| >= MIN_FUZZY_TOKEN
    ensures var token, form := DeobfuscateToken(r.pattern), DeobfuscateToken(m.text);
            && form != token && mt.ratio(token, form) / 100.0 >= mt.threshold
            && forall t :: t in doc.tokens && |t| >= MIN_FUZZY_TOKEN && DeobfuscateToken(t) != token
                 ==> mt.ratio(token, DeobfuscateToken(t)) <= mt.ratio(token, form)
  {
  }

  /** Place `i` has `best`, and every other form before it is less close. */
  predicate FirstAt(mt: Matcher, token: string, forms: seq<string>, best: string, i: nat)
  {
    && i < |forms| && forms[i] == best
    && forall j | 0 <= j < i && forms[j] != token :: mt.ratio(token, forms[j]) < mt.ratio(token, best)
  }

  /** Of equally close forms the first is taken. */
  lemma {:induction false} ExtractOneIsFirst(mt: Matcher, token: string, forms: seq<string>)
    requires ExtractOne(mt, token, forms).Some?
    ensures exists i :: FirstAt(mt, token, forms, ExtractOne(mt, token, forms).value, i)
  {
    var init, best := forms[..|forms| - 1], ExtractOne(mt, token, forms).value;
    if ExtractOne(mt, token, init) == Some(best) {
      ExtractOneIsFirst(mt, token, init);
      var i :| FirstAt(mt, token, init, best, i);
      assert FirstAt(mt, token, forms, best, i);
    } else {
      forall j | 0 <= j < |init| && forms[j] != token ensures mt.ratio(token, forms[j]) < mt.ratio(token, best) {
        assert init[j] == forms[j] && init[j] in init;
      }
      assert FirstAt(mt, token, forms, best, |init|);
    }
  }

  /** The closest form is close enough exactly when some long token of another form is. */
  lemma CloseEnoughIff(mt: Matcher, doc: Document, token: string)
    ensures var best := ExtractOne(mt, token, Forms(FuzzyTokens(doc.tokens)));
            (best.Some? && mt.ratio(token, best.value) / 100.0 >= mt.threshold) <==> exists t :: t in doc.tokens && CloseTo(mt, token, t)
  {
    var tokens := FuzzyTokens(doc.tokens);
    var best := ExtractOne(mt, token, Forms(tokens));
    if t :| t in doc.tokens && CloseTo(mt, token, t) {
      assert t in tokens && DeobfuscateToken(t) in Forms(tokens);
      assert mt.ratio(token, DeobfuscateToken(t)) <= mt.ratio(token, best.value);
    }
    if best.Some? && mt.ratio(token, best.value) / 100.0 >= mt.threshold {
      assert CloseTo(mt, token, TokenOf(tokens, best.value));
    }
  }

  /** A rule has a fuzzy match exactly when it is an enabled block rule, no regex, with a form of four
      or more characters, and some long token of the message of another form is close enough. */
  lemma FuzzyMatchOfIff(mt: Matcher, doc: Document, r: Rule)
    ensures FuzzyMatchOf(mt, doc, r).Some? <==>
            && r.enabled && !r.isAllowlist && r.kind in {Exact, Phrase} && |DeobfuscateToken(r.pattern)| >= 4
            && exists t :: t in doc.tokens && CloseTo(mt, DeobfuscateToken(r.pattern), t)
  {
    CloseEnoughIff(mt, doc, DeobfuscateToken(r.pattern));
    EquivalenceTestIsDead(mt, doc, r);
  }

  /** It carries its rule's identity and category, and a note of how close it is. */
  lemma FuzzyMatchReads(mt: Matcher, doc: Document, r: Rule, m: RuleMatch)
    requires FuzzyMatchOf(mt, doc, r) == Some(m)
    ensures m.ruleId == r.id && m.kind == r.kind && m.category == r.category
    ensures m.note == Some(mt.describe(mt.ratio(DeobfuscateToken(r.pattern), DeobfuscateToken(m.text)) / 100.0, r.pattern))
  {
  }

  predicate CloseTo(mt: Matcher, token: string, t: string)
  {
    |t| >= 4 && DeobfuscateToken(t) != token && mt.ratio(token, DeobfuscateToken(t)) / 100.0 >= mt.threshold
  }

  /** Allow rules have no say in fuzzy matching: whatever they match, the fuzzy matches are those of
      the block rules alone. */
  lemma FuzzyIgnoresAllowRules(mt: Matcher, doc: Document, rules: seq<Rule>)
    ensures FuzzyMatches(mt, doc, rules) == FuzzyMatches(mt, doc, Keep(IsBlock, rules))
  {
    CollectKept(r => FuzzyMatchOf(mt, doc, r), rules);
  }

  lemma {:induction false} CollectKept(f: Rule -> Option<RuleMatch>, rules: seq<Rule>)
    requires forall r :: !IsBlock(r) ==> f(r) == None
    ensures Collect(f, rules) == Collect(f, Keep(IsBlock, rules))
  {
    if rules != [] {
      var init, last := rules[..|rules| - 1], rules[|rules| - 1];
      CollectKept(f, init);
      if IsBlock(last) {
        assert Keep(IsBlock, rules)[..|Keep(IsBlock, init)|] == Keep(IsBlock, init);
      } else {
        assert Keep(IsBlock, rules) == Keep(IsBlock, init);
      }
    }
  }
}
