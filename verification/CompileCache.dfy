/** app/rules/engine.py, `compile_rule_pattern`: the process-wide cache of compiled patterns. */
module CompileCache {
  import opened Strings

  const CACHE_TTL := 300.0

  /** A compiled expression of the `regex` module, opaque to the engine. */
  datatype Regex = Regex(id: nat)

  datatype Key = Key(ruleId: int, pattern: string, caseSensitive: bool)

  /** The compiler, foreign: a pattern and its case flag give an object, or nothing when invalid. */
  type Compiler = (string, bool) -> Option<Regex>

  function Fresh(compile: Compiler, key: Key): Option<Regex>
  {
    compile(key.pattern, key.caseSensitive)
  }

  // ---------------------------------------------------------------- the cache as its lookups

  /** One lookup: the rule as it is then, and the time. Edited rules and reused ids are other keys. */
  datatype Lookup = Lookup(key: Key, now: real)

  /** When the entry a lookup would find was compiled: at the first lookup of its key, or for an
      invalid pattern at the last recompilation. */
  function CompiledAt(compile: Compiler, past: seq<Lookup>, key: Key): Option<real>
  {
    if past == [] then None
    else
      var before := CompiledAt(compile, past[..|past| - 1], key);
      var last := past[|past| - 1];
      if last.key != key then before
      else if before.Some? && (Fresh(compile, key).Some? || last.now - before.value < CACHE_TTL) then before
      else Some(last.now)
  }

  /** What a lookup answers after a past of lookups. */
  function Answer(compile: Compiler, past: seq<Lookup>, l: Lookup): Option<Regex>
  {
    var at := CompiledAt(compile, past, l.key);
    if at.Some? && l.now - at.value > CACHE_TTL then None else Fresh(compile, l.key)
  }

  class RuleCompiler {
    const compile: Compiler
    var compiled: map<Key, Option<Regex>>
    var cachedAt: map<Key, real>
    /** All lookups so far, whatever rules were edited in between. */
    ghost var past: seq<Lookup>

    /** Every entry is the compilation of its own key, made when the past says. */
    ghost predicate Valid()
      reads this
    {
      && compiled.Keys == cachedAt.Keys
      && (forall k :: k in compiled ==> compiled[k] == Fresh(compile, k))
      && (forall k :: k in compiled <==> CompiledAt(compile, past, k).Some?)
      && (forall k :: k in compiled ==> CompiledAt(compile, past, k) == Some(cachedAt[k]))
    }

    constructor (compile: Compiler)
      ensures Valid() && this.compile == compile && past == []
    {
      this.compile := compile;
      compiled, cachedAt, past := map[], map[], [];
    }

    /** One lookup at time `now`: `Answer` of all lookups before it. */
    method CompileRulePattern(key: Key, now: real) returns (r: Option<Regex>)
      requires Valid()
      modifies this
      ensures Valid() && past == old(past) + [Lookup(key, now)]
      ensures r == Answer(compile, old(past), Lookup(key, now))
    {
      ghost var l := Lookup(key, now);
      assert (past + [l])[..|past|] == past && (past + [l])[|past|] == l;
      var cached := if key in compiled then compiled[key] else None;
      var at := if key in cachedAt then cachedAt[key] else 0.0;
      if cached.Some? || (key in compiled && now - at < CACHE_TTL) {
        if now - at > CACHE_TTL && key in compiled {
          cached := None;
        }
        past := past + [l];
        return cached;
      }
      r := compile(key.pattern, key.caseSensitive);
      compiled := compiled[key := r];
      cachedAt := cachedAt[key := now];
      past := past + [l];
    }
  }

  // ---------------------------------------------------------------- laws over any sequence of lookups

  /** What the engine asks for is the fresh compilation. It gets that exactly when the pattern is
      invalid or the entry has not outlived the time to live; otherwise it gets nothing. A stale
      or foreign compilation is never returned. */
  lemma FreshIff(compile: Compiler, past: seq<Lookup>, l: Lookup)
    ensures var at := CompiledAt(compile, past, l.key);
            Answer(compile, past, l) == Fresh(compile, l.key) <==>
            (at.None? || l.now - at.value <= CACHE_TTL || Fresh(compile, l.key).None?)
    ensures Answer(compile, past, l).Some? ==> Answer(compile, past, l) == Fresh(compile, l.key)
  {
  }

  /** A valid pattern keeps the time of its first lookup for the life of the process. */
  lemma {:induction false} NeverRecompiled(compile: Compiler, past: seq<Lookup>, more: seq<Lookup>, key: Key)
    requires Fresh(compile, key).Some? && CompiledAt(compile, past, key).Some?
    ensures CompiledAt(compile, past + more, key) == CompiledAt(compile, past, key)
  {
    if more == [] {
      assert past + more == past;
    } else {
      var init := more[..|more| - 1];
      NeverRecompiled(compile, past, init, key);
      assert (past + more)[..|past + more| - 1] == past + init;
    }
  }

  /** So a valid pattern is answered with its compilation exactly in the 300 seconds after it was
      first looked up, and with nothing ever after: its rule then no longer matches. */
  lemma ExpiredForGood(compile: Compiler, past: seq<Lookup>, first: Lookup, more: seq<Lookup>, l: Lookup)
    requires l.key == first.key && Fresh(compile, l.key).Some?
    requires forall p :: p in past ==> p.key != first.key
    ensures Answer(compile, past + [first] + more, l) == Fresh(compile, l.key) <==> l.now - first.now <= CACHE_TTL
    ensures l.now - first.now > CACHE_TTL ==> Answer(compile, past + [first] + more, l) == None
  {
    NotCompiled(compile, past, first.key);
    assert (past + [first])[..|past|] == past;
    NeverRecompiled(compile, past + [first], more, first.key);
  }

  lemma {:induction false} NotCompiled(compile: Compiler, past: seq<Lookup>, key: Key)
    requires forall p :: p in past ==> p.key != key
    ensures CompiledAt(compile, past, key) == None
  {
    if past != [] {
      NotCompiled(compile, past[..|past| - 1], key);
      assert past[|past| - 1] in past;
    }
  }
}
