/** Options, sizes and members of sets, and the string operations of Python that the engine relies on. */
module Strings {

  datatype Option<+T> = None | Some(value: T)

  /** The number of leading characters that satisfy `p`. */
  function Prefix(p: char -> bool, s: string): (n: nat)
    ensures n <= |s|
    ensures forall k :: 0 <= k < n ==> p(s[k])
    ensures n < |s| ==> !p(s[n])
  {
    if s == [] || !p(s[0]) then 0 else 1 + Prefix(p, s[1..])
  }

  /** The maximal runs of characters that satisfy `p`, in order: `str.split()`,
      `re.findall` of a character class, and `split(" ")` with empties dropped. */
  function Runs(p: char -> bool, s: string): seq<string>
    decreases |s|
  {
    if s == [] then []
    else if !p(s[0]) then Runs(p, s[1..])
    else
      var n := Prefix(p, s);
      [s[..n]] + Runs(p, s[n..])
  }

  function Filter(p: char -> bool, s: string): (r: string)
    ensures forall c :: c in r <==> c in s && p(c)
  {
    if s == [] then [] else (if p(s[0]) then [s[0]] else []) + Filter(p, s[1..])
  }

  function MapChars(f: char -> char, s: string): (r: string)
  {
    seq(|s|, i requires 0 <= i < |s| => f(s[i]))
  }

  function Concat(ss: seq<string>): string
  {
    if ss == [] then "" else ss[0] + Concat(ss[1..])
  }

  /** `sep.join(ss)`. */
  function Join(sep: string, ss: seq<string>): string
  {
    if ss == [] then ""
    else if |ss| == 1 then ss[0]
    else ss[0] + sep + Join(sep, ss[1..])
  }

  /** The sequence holds only characters that satisfy `p`. */
  predicate All(p: char -> bool, s: string)
  {
    forall k :: 0 <= k < |s| ==> p(s[k])
  }

  /** `needle in hay`. */
  predicate Contains(hay: string, needle: string)
    decreases |hay|
  {
    |needle| <= |hay| && (StartsWith(hay, needle) || (hay != [] && Contains(hay[1..], needle)))
  }

  predicate StartsWith(s: string, prefix: string)
  {
    |prefix| <= |s| && s[..|prefix|] == prefix
  }

  // ---------------------------------------------------------------- lemmas

  lemma SubsetSize<T>(a: set<T>, b: set<T>)
    requires a <= b
    ensures |a| <= |b|
  {
    assert b == a + (b - a);
  }

  lemma Member<T>(s: set<T>) returns (x: T)
    requires s != {}
    ensures x in s
  {
    x :| x in s;
  }

  lemma {:induction false} FilterAppend(p: char -> bool, a: string, b: string)
    ensures Filter(p, a + b) == Filter(p, a) + Filter(p, b)
  {
    if a == [] {
      assert a + b == b;
    } else {
      assert (a + b)[1..] == a[1..] + b;
      FilterAppend(p, a[1..], b);
    }
  }

  lemma {:induction false} FilterAll(p: char -> bool, s: string)
    requires All(p, s)
    ensures Filter(p, s) == s
  {
    if s != [] {
      FilterAll(p, s[1..]);
    }
  }

  lemma {:induction false} FilterNone(p: char -> bool, s: string)
    requires All(c => !p(c), s)
    ensures Filter(p, s) == []
  {
    if s != [] {
      assert !p(s[0]);
      FilterNone(p, s[1..]);
    }
  }

  /** Runs lose only the characters outside `p` and hold none of those. */
  lemma {:induction false} RunsConserve(p: char -> bool, s: string)
    ensures Concat(Runs(p, s)) == Filter(p, s)
    ensures forall r :: r in Runs(p, s) ==> r != [] && All(p, r)
    decreases |s|
  {
    if s == [] {
    } else if !p(s[0]) {
      RunsConserve(p, s[1..]);
    } else {
      var n := Prefix(p, s);
      assert s == s[..n] + s[n..];
      FilterAppend(p, s[..n], s[n..]);
      FilterAll(p, s[..n]);
      RunsConserve(p, s[n..]);
    }
  }

  /** A text without characters outside `p` is one run, or none when empty. */
  lemma RunsOfOne(p: char -> bool, s: string)
    requires All(p, s)
    ensures Runs(p, s) == if s == [] then [] else [s]
  {
    if s != [] {
      assert Prefix(p, s) == |s|;
      assert s[..|s|] == s;
    }
  }

  lemma {:induction false} PrefixOf(p: char -> bool, t: string, sep: char, rest: string)
    requires All(p, t) && !p(sep)
    ensures Prefix(p, t + [sep] + rest) == |t|
  {
    var s := t + [sep] + rest;
    if t != [] {
      assert s[1..] == t[1..] + [sep] + rest;
      PrefixOf(p, t[1..], sep, rest);
    }
  }

  /** Splitting a run from what follows a separator character. */
  lemma RunsCons(p: char -> bool, t: string, sep: char, rest: string)
    requires t != [] && All(p, t) && !p(sep)
    ensures Runs(p, t + [sep] + rest) == [t] + Runs(p, rest)
  {
    var s := t + [sep] + rest;
    PrefixOf(p, t, sep, rest);
    var n := Prefix(p, s);
    assert s[..n] == t;
    assert s[n..] == [sep] + rest;
    assert (s[n..])[1..] == rest;
  }

  /** Splitting a joined list of tokens recovers the list. */
  lemma {:induction false} RunsOfJoin(p: char -> bool, sep: char, ts: seq<string>)
    requires !p(sep)
    requires forall t :: t in ts ==> t != [] && All(p, t)
    ensures Runs(p, Join([sep], ts)) == ts
  {
    if ts == [] {
    } else if |ts| == 1 {
      RunsOfOne(p, ts[0]);
    } else {
      assert ts[0] in ts;
      assert forall t :: t in ts[1..] ==> t in ts;
      RunsOfJoin(p, sep, ts[1..]);
      RunsCons(p, ts[0], sep, Join([sep], ts[1..]));
    }
  }

  /** `Contains` is what its name says: some split of the text has the needle in the middle. */
  lemma {:induction false} ContainsIntro(a: string, needle: string, b: string)
    ensures Contains(a + needle + b, needle)
  {
    var hay := a + needle + b;
    if a == [] {
      assert hay[..|needle|] == needle;
    } else {
      assert hay[1..] == a[1..] + needle + b;
      ContainsIntro(a[1..], needle, b);
    }
  }

  /** Some split of the text has the needle in the middle. */
  ghost predicate Occurs(needle: string, hay: string)
  {
    exists a, b :: hay == a + needle + b
  }

  lemma ContainsIff(hay: string, needle: string)
    ensures Contains(hay, needle) <==> Occurs(needle, hay)
  {
    if Contains(hay, needle) {
      var a, b := ContainsElim(hay, needle);
    }
    if Occurs(needle, hay) {
      var a, b :| hay == a + needle + b;
      ContainsIntro(a, needle, b);
    }
  }

  lemma {:induction false} ContainsElim(hay: string, needle: string) returns (a: string, b: string)
    requires Contains(hay, needle)
    ensures hay == a + needle + b
    decreases |hay|
  {
    if StartsWith(hay, needle) {
      a, b := [], hay[|needle|..];
    } else {
      a, b := ContainsElim(hay[1..], needle);
      a := [hay[0]] + a;
    }
  }
}
