/** app/bot/handlers/text_transform.py: joining words readably. */
module TextTransform {
  import opened Strings
  import opened Tokenize
  import opened Normalize

  predicate Cased(lex: Lexicon, c: char)
  {
    lex.isLower(c) || lex.isUpper(c)
  }

  /** What is asked of the case maps at one character. Upper-casing need not give an upper-case
      character, only one that stays put and stays cased; Unicode has such letters. */
  ghost predicate SoundAt(lex: Lexicon, c: char)
  {
    Cased(lex, c) ==>
      && !lex.isSpace(c)
      && Cased(lex, lex.upper(c)) && Cased(lex, lex.lower(c))
      && lex.upper(lex.upper(c)) == lex.upper(c)
      && lex.lower(lex.lower(c)) == lex.lower(c)
  }

  ghost predicate SoundCasing(lex: Lexicon)
  {
    forall c :: SoundAt(lex, c)
  }

  predicate IsProtected(lex: Lexicon, token: string)
  {
    var lowered := MapChars(lex.fold, token);
    || Contains(token, "://")
    || '@' in token
    || StartsWith(token, "#")
    || StartsWith(lowered, "www.") || StartsWith(lowered, "t.me/")
  }

  predicate HasCase(lex: Lexicon, token: string)
  {
    exists k | 0 <= k < |token| :: Cased(lex, token[k])
  }

  predicate IsAcronym(lex: Lexicon, token: string)
  {
    !IsProtected(lex, token) && forall k | 0 <= k < |token| :: Cased(lex, token[k]) ==> lex.isUpper(token[k])
  }

  /** Tokens that pass through unchanged. */
  predicate Verbatim(lex: Lexicon, token: string)
  {
    !HasCase(lex, token) || IsProtected(lex, token) || IsAcronym(lex, token)
  }

  /** Position by position: the first cased character is capitalized on demand, every later
      one is lower-cased, the rest is kept. */
  function RecasedAt(lex: Lexicon, token: string, capitalize: bool, i: nat): char
    requires i < |token|
  {
    if !Cased(lex, token[i]) then token[i]
    else if capitalize && i == Prefix(c => !Cased(lex, c), token) then lex.upper(token[i])
    else lex.lower(token[i])
  }

  function Recased(lex: Lexicon, token: string, capitalize: bool): string
  {
    seq(|token|, i requires 0 <= i < |token| => RecasedAt(lex, token, capitalize, i))
  }

  /** `_normalize_token_case`: the loop with its flag computes `Recased`. */
  method NormalizeTokenCase(lex: Lexicon, token: string, capitalize: bool) returns (r: string)
    ensures r == Recased(lex, token, capitalize)
  {
    r := "";
    var found := false;
    for i := 0 to |token|
      invariant |r| == i
      invariant found <==> exists k | 0 <= k < i :: Cased(lex, token[k])
      invariant forall k | 0 <= k < i :: r[k] == RecasedAt(lex, token, capitalize, k)
    {
      var c := token[i];
      if !Cased(lex, c) {
        r := r + [c];
      } else if !found {
        r := r + [if capitalize then lex.upper(c) else lex.lower(c)];
        found := true;
      } else {
        r := r + [lex.lower(c)];
      }
    }
  }

  /** The two flags `transform_message_text` carries along. */
  datatype Flags = Flags(seenWord: bool, afterAcronym: bool)

  function OutToken(lex: Lexicon, t: string, flags: Flags): string
  {
    if Verbatim(lex, t) then t else Recased(lex, t, !flags.seenWord || !flags.afterAcronym)
  }

  function FlagsAfter(lex: Lexicon, t: string, flags: Flags): Flags
  {
    if HasCase(lex, t) then Flags(true, IsAcronym(lex, t)) else flags
  }

  function TransformTokens(lex: Lexicon, tokens: seq<string>, flags: Flags): (r: seq<string>)
    ensures |r| == |tokens|
  {
    if tokens == [] then []
    else [OutToken(lex, tokens[0], flags)] + TransformTokens(lex, tokens[1..], FlagsAfter(lex, tokens[0], flags))
  }

  function Tokens(lex: Lexicon, text: string): seq<string>
  {
    Runs(NotSpace(lex), text)
  }

  function Transform(lex: Lexicon, text: string): string
  {
    Concat(TransformTokens(lex, Tokens(lex, text), Flags(false, false)))
  }

  method TransformMessageText(lex: Lexicon, text: string) returns (r: string)
    ensures r == Transform(lex, text)
  {
    var tokens := Tokens(lex, text);
    var transformed: seq<string> := [];
    var seenWord, afterAcronym := false, false;
    for i := 0 to |tokens|
      invariant transformed + TransformTokens(lex, tokens[i..], Flags(seenWord, afterAcronym))
             == TransformTokens(lex, tokens, Flags(false, false))
    {
      var token := tokens[i];
      ghost var flags, before := Flags(seenWord, afterAcronym), transformed;
      var out := token;
      if HasCase(lex, token) {
        var isProtected := IsProtected(lex, token);
        var isAcronym := !isProtected && IsAcronym(lex, token);
        if !(isProtected || isAcronym) {
          out := NormalizeTokenCase(lex, token, !seenWord || !afterAcronym);
        }
        seenWord, afterAcronym := true, isAcronym;
      }
      transformed := transformed + [out];
      assert out == OutToken(lex, token, flags) && Flags(seenWord, afterAcronym) == FlagsAfter(lex, token, flags);
      StepToken(lex, tokens, i, flags, before);
    }
    assert tokens[|tokens|..] == [];
    assert transformed + [] == transformed;
    r := Concat(transformed);
  }

  lemma StepToken(lex: Lexicon, tokens: seq<string>, i: nat, flags: Flags, done: seq<string>)
    requires i < |tokens|
    ensures done + [OutToken(lex, tokens[i], flags)]
              + TransformTokens(lex, tokens[i + 1..], FlagsAfter(lex, tokens[i], flags))
         == done + TransformTokens(lex, tokens[i..], flags)
  {
  }

  // ---------------------------------------------------------------- what the loop means per token

  /** The last cased token before position `i`. */
  function LastCased(lex: Lexicon, tokens: seq<string>, i: nat): (r: Option<nat>)
    requires i <= |tokens|
    ensures r.Some? ==> r.value < i && HasCase(lex, tokens[r.value])
    ensures forall k :: (if r.Some? then r.value < k else 0 <= k) && k < i ==> !HasCase(lex, tokens[k])
  {
    if i == 0 then None
    else if HasCase(lex, tokens[i - 1]) then Some(i - 1)
    else LastCased(lex, tokens, i - 1)
  }

  /** A word is capitalized unless the word before it, skipping caseless tokens, is an acronym. */
  predicate Capitalizes(lex: Lexicon, tokens: seq<string>, i: nat)
    requires i <= |tokens|
  {
    var last := LastCased(lex, tokens, i);
    last.None? || !IsAcronym(lex, tokens[last.value])
  }

  /** Every token of the result from its neighbourhood in the input: verbatim when caseless,
      protected or all-caps, and re-cased otherwise. */
  lemma TokenAt(lex: Lexicon, tokens: seq<string>, i: nat)
    requires i < |tokens|
    ensures TransformTokens(lex, tokens, Flags(false, false))[i] ==
            if Verbatim(lex, tokens[i]) then tokens[i] else Recased(lex, tokens[i], Capitalizes(lex, tokens, i))
  {
    assert tokens[0..] == tokens;
    FlagsAt(lex, tokens, i, 0, Flags(false, false));
  }

  /** The flags at token `j` summarize the last cased token before it. */
  ghost predicate Summarize(lex: Lexicon, tokens: seq<string>, j: nat, flags: Flags)
    requires j <= |tokens|
  {
    var last := LastCased(lex, tokens, j);
    && (flags.seenWord <==> last.Some?)
    && (flags.afterAcronym <==> last.Some? && IsAcronym(lex, tokens[last.value]))
  }

  lemma SummarizeStep(lex: Lexicon, tokens: seq<string>, j: nat, flags: Flags)
    requires j < |tokens| && Summarize(lex, tokens, j, flags)
    ensures Summarize(lex, tokens, j + 1, FlagsAfter(lex, tokens[j], flags))
  {
  }

  lemma {:induction false} FlagsAt(lex: Lexicon, tokens: seq<string>, i: nat, j: nat, flags: Flags)
    requires j <= i < |tokens| && Summarize(lex, tokens, j, flags)
    ensures TransformTokens(lex, tokens[j..], flags)[i - j] ==
            if Verbatim(lex, tokens[i]) then tokens[i] else Recased(lex, tokens[i], Capitalizes(lex, tokens, i))
    decreases i - j
  {
    assert tokens[j..][0] == tokens[j] && tokens[j..][1..] == tokens[j + 1..];
    if j < i {
      SummarizeStep(lex, tokens, j, flags);
      FlagsAt(lex, tokens, i, j + 1, FlagsAfter(lex, tokens[j], flags));
    }
  }

  /** What is protected: links, mentions, hash tags, and what starts like a web address. */
  lemma ProtectedIff(lex: Lexicon, t: string)
    ensures IsProtected(lex, t) <==>
            || Occurs("://", t)
            || (exists k | 0 <= k < |t| :: t[k] == '@')
            || (t != "" && t[0] == '#')
            || FoldsTo(lex, t, "www.") || FoldsTo(lex, t, "t.me/")
  {
    ContainsIff(t, "://");
    assert |t| >= 1 ==> t[..1] == [t[0]];
  }

  /** The token starts with these characters, folded. */
  predicate FoldsTo(lex: Lexicon, t: string, start: string)
  {
    |start| <= |t| && forall k | 0 <= k < |start| :: lex.fold(t[k]) == start[k]
  }

  /** A token is an acronym: it has cased characters, all upper-case, and is not protected. */
  predicate AllCaps(lex: Lexicon, t: string)
  {
    && (exists c :: c in t && lex.isUpper(c))
    && (forall c :: c in t ==> lex.isUpper(c) || !lex.isLower(c))
    && !IsProtected(lex, t)
  }

  /** The last token with a cased character before place `i` is an acronym. */
  predicate AfterAcronym(lex: Lexicon, tokens: seq<string>, i: nat)
    requires i <= |tokens|
  {
    exists j | 0 <= j < i ::
      AllCaps(lex, tokens[j]) && forall l | j < l < i :: Caseless(lex, tokens[l])
  }

  predicate Caseless(lex: Lexicon, t: string)
  {
    forall c :: c in t ==> !lex.isLower(c) && !lex.isUpper(c)
  }

  lemma CaselessIff(lex: Lexicon, t: string)
    ensures Caseless(lex, t) <==> !HasCase(lex, t)
    ensures AllCaps(lex, t) <==> HasCase(lex, t) && IsAcronym(lex, t)
  {
    assert forall k | 0 <= k < |t| :: t[k] in t;
  }

  lemma CapitalizesIff(lex: Lexicon, tokens: seq<string>, i: nat)
    requires i <= |tokens|
    ensures Capitalizes(lex, tokens, i) <==> !AfterAcronym(lex, tokens, i)
  {
    var last := LastCased(lex, tokens, i);
    forall t: string
      ensures Caseless(lex, t) <==> !HasCase(lex, t)
      ensures AllCaps(lex, t) <==> HasCase(lex, t) && IsAcronym(lex, t)
    {
      CaselessIff(lex, t);
    }
    if AfterAcronym(lex, tokens, i) {
      var j :| 0 <= j < i && AllCaps(lex, tokens[j]) && forall l | j < l < i :: Caseless(lex, tokens[l]);
      assert HasCase(lex, tokens[j]);
      assert last.Some? && last.value == j;
    }
  }

  /** Where the transform puts which character. A token without case, a protected one and an acronym
      come out unchanged. In any other, characters without case stay, the first cased one becomes
      upper-case, or lower-case right after an acronym, and every later one lower-case. */
  lemma CharacterAt(lex: Lexicon, tokens: seq<string>, i: nat, k: nat)
    requires i < |tokens| && k < |tokens[i]|
    ensures var t, r := tokens[i], TransformTokens(lex, tokens, Flags(false, false))[i];
            && |r| == |t|
            && (IsProtected(lex, t) || AllCaps(lex, t) || !(lex.isLower(t[k]) || lex.isUpper(t[k])) ==> r[k] == t[k])
            && (!IsProtected(lex, t) && !AllCaps(lex, t) && (lex.isLower(t[k]) || lex.isUpper(t[k])) ==>
                  r[k] == if (forall l | 0 <= l < k :: !lex.isLower(t[l]) && !lex.isUpper(t[l])) && !AfterAcronym(lex, tokens, i)
                          then lex.upper(t[k]) else lex.lower(t[k]))
  {
    var t := tokens[i];
    TokenAt(lex, tokens, i);
    CapitalizesIff(lex, tokens, i);
    CaselessIff(lex, t);
    assert Cased(lex, t[k]) ==> HasCase(lex, t);
    var p := (c: char) => !Cased(lex, c);
    var n := Prefix(p, t);
    assert k == n <==> Cased(lex, t[k]) && forall l | 0 <= l < k :: !Cased(lex, t[l]) by {
      assert n < |t| ==> !p(t[n]);
      assert k < n ==> p(t[k]);
      assert forall l | 0 <= l < n :: p(t[l]);
      assert k > n ==> Cased(lex, t[n]);
    }
  }

  // ---------------------------------------------------------------- conservation

  predicate SameUpToCase(lex: Lexicon, a: char, b: char)
  {
    a == b || (Cased(lex, b) && (a == lex.upper(b) || a == lex.lower(b)))
  }

  /** `a` is `b` with the case of some letters changed. */
  predicate CaseVariant(lex: Lexicon, a: string, b: string)
  {
    |a| == |b| && forall k | 0 <= k < |a| :: SameUpToCase(lex, a[k], b[k])
  }

  lemma {:induction false} TokensAreVariants(lex: Lexicon, tokens: seq<string>, flags: Flags)
    ensures CaseVariant(lex, Concat(TransformTokens(lex, tokens, flags)), Concat(tokens))
  {
    if tokens != [] {
      TokensAreVariants(lex, tokens[1..], FlagsAfter(lex, tokens[0], flags));
      assert CaseVariant(lex, OutToken(lex, tokens[0], flags), tokens[0]);
    }
  }

  /** The result has no whitespace, and is the input without its whitespace, character by
      character up to case. */
  lemma JoinConserves(lex: Lexicon, text: string)
    requires SoundCasing(lex)
    ensures CaseVariant(lex, Transform(lex, text), Filter(NotSpace(lex), text))
    ensures All(NotSpace(lex), Transform(lex, text))
  {
    RunsConserve(NotSpace(lex), text);
    TokensAreVariants(lex, Tokens(lex, text), Flags(false, false));
    var kept := Filter(NotSpace(lex), text);
    var r := Transform(lex, text);
    forall k | 0 <= k < |r| ensures NotSpace(lex)(r[k])
    {
      assert SameUpToCase(lex, r[k], kept[k]);
      assert SoundAt(lex, kept[k]) && SoundAt(lex, r[k]);
      assert kept[k] in kept;
    }
  }

  // ---------------------------------------------------------------- idempotence

  lemma CaselessPlaces(lex: Lexicon, a: string, b: string)
    requires SoundCasing(lex) && CaseVariant(lex, a, b)
    ensures forall k | 0 <= k < |a| :: Cased(lex, a[k]) <==> Cased(lex, b[k])
    ensures forall k | 0 <= k < |a| :: !Cased(lex, a[k]) ==> a[k] == b[k]
  {
    forall k | 0 <= k < |a|
      ensures Cased(lex, a[k]) <==> Cased(lex, b[k])
      ensures !Cased(lex, a[k]) ==> a[k] == b[k]
    {
      assert SameUpToCase(lex, a[k], b[k]) && SoundAt(lex, b[k]);
    }
  }

  lemma RecasedTwice(lex: Lexicon, t: string)
    requires SoundCasing(lex)
    ensures Recased(lex, Recased(lex, t, true), true) == Recased(lex, t, true)
  {
    var r := Recased(lex, t, true);
    assert CaseVariant(lex, r, t);
    CaselessPlaces(lex, r, t);
    PrefixSame(lex, r, t);
    forall k | 0 <= k < |r| ensures Recased(lex, r, true)[k] == r[k] {
      assert SoundAt(lex, t[k]);
    }
  }

  lemma PrefixSame(lex: Lexicon, a: string, b: string)
    requires |a| == |b| && forall k | 0 <= k < |a| :: Cased(lex, a[k]) <==> Cased(lex, b[k])
    ensures Prefix(c => !Cased(lex, c), a) == Prefix(c => !Cased(lex, c), b)
  {
  }

  lemma TransformOne(lex: Lexicon, t: string)
    requires All(NotSpace(lex), t)
    ensures Transform(lex, t) == if Verbatim(lex, t) then t else Recased(lex, t, true)
  {
    RunsOfOne(NotSpace(lex), t);
    if t != [] {
      TokenAt(lex, [t], 0);
      var out := TransformTokens(lex, [t], Flags(false, false));
      assert out == [out[0]];
      assert out[1..] == [];
      assert Concat(out) == out[0];
    }
  }

  /** On text without whitespace the transform is idempotent. */
  lemma JoinIdempotent(lex: Lexicon, t: string)
    requires SoundCasing(lex) && All(NotSpace(lex), t)
    ensures Transform(lex, Transform(lex, t)) == Transform(lex, t)
  {
    JoinConserves(lex, t);
    FilterAll(NotSpace(lex), t);
    TransformOne(lex, t);
    TransformOne(lex, Transform(lex, t));
    if !Verbatim(lex, t) {
      RecasedTwice(lex, t);
    }
  }

  /** So a third pass never changes what the second gave, whatever the text. */
  lemma ThirdPassChangesNothing(lex: Lexicon, text: string)
    requires SoundCasing(lex)
    ensures var second := Transform(lex, Transform(lex, text));
            Transform(lex, second) == second
  {
    JoinConserves(lex, text);
    JoinIdempotent(lex, Transform(lex, text));
  }

  // ---------------------------------------------------------------- an instance

  function AsciiUpper(c: char): char
  {
    if 'a' <= c <= 'z' then ((c as int) - 32) as char else c
  }

  function AsciiLower(c: char): char
  {
    if 'A' <= c <= 'Z' then ((c as int) + 32) as char else c
  }

  const ASCII := Lexicon(
    c => c == ' ',
    c => 'a' <= c <= 'z' || 'A' <= c <= 'Z' || '0' <= c <= '9' || c == '_',
    c => 'a' <= c <= 'z',
    c => 'A' <= c <= 'Z',
    AsciiLower, AsciiUpper, AsciiLower)

  /** ASCII text meets what is asked of a lexicon. */
  lemma AsciiIsSound()
    ensures ASCII.ValidWords() && SoundCasing(ASCII)
    ensures forall c :: 'a' <= c <= 'z' ==> 'A' <= AsciiUpper(c) <= 'Z' && AsciiLower(AsciiUpper(c)) == c
    ensures forall c :: 'A' <= c <= 'Z' ==> 'a' <= AsciiLower(c) <= 'z' && AsciiUpper(AsciiLower(c)) == c
  {
  }
}
