/** app/telegram/gateway.py, `_call` and `_space_chat_calls`: a semaphore, a spacing lock per chat,
    and bounded retries, interleaved over a clock. */
module CallGate {
  import opened Strings

  type TaskId = int
  type ChatId = int

  datatype Settings = Settings(maxConcurrency: nat, minInterval: real, retryLimit: int)

  /** Where a call is. From `Admitted` to `InCall` it holds a permit of the semaphore; from
      `Measured` to its stamp it holds the lock of its chat. */
  datatype Phase =
    | Waiting                      // for a permit
    | Admitted                     // for the chat's lock
    | Measured(wakeAt: real)       // has read the clock, sleeps until then
    | InCall
    | Backoff(until: real)
    | Finished(ok: bool)

  datatype Call = Call(chat: Option<ChatId>, attempts: nat, phase: Phase)

  datatype Gate = Gate(lastCall: real, holder: Option<TaskId>)

  /** The gateway, its clock, and every stamp a chat has been given, oldest first. */
  datatype World = World(now: real, calls: map<TaskId, Call>, gates: map<ChatId, Gate>, stamps: map<ChatId, seq<real>>)

  /** A permit is held. */
  predicate InsideSemaphore(c: Call)
  {
    c.phase.Admitted? || c.phase.Measured? || c.phase.InCall?
  }

  function Holders(calls: map<TaskId, Call>): set<TaskId>
  {
    set t | t in calls && InsideSemaphore(calls[t])
  }

  function GateOf(gates: map<ChatId, Gate>, c: ChatId): Gate
  {
    if c in gates then gates[c] else Gate(0.0, None)
  }

  function StampsOf(stamps: map<ChatId, seq<real>>, c: ChatId): seq<real>
  {
    if c in stamps then stamps[c] else []
  }

  /** What a try of the Telegram call comes to, as `classify_access_error` sorts its errors. */
  datatype Answer = Success | FloodWait(seconds: real) | SessionExpired | NetworkError | AccessDenied(code: nat)

  datatype Step =
    | Tick(to: real)                       // the clock moves on
    | Begin(t: TaskId, chat: Option<ChatId>)
    | Admit(t: TaskId)                     // a permit is taken, an attempt starts
    | Lock(t: TaskId)                      // the chat's lock is taken, the clock read
    | Stamp(t: TaskId)                     // the sleep is over, the stamp set, the lock released
    | Skip(t: TaskId)                      // a call without a chat is not spaced
    | Reply(t: TaskId, a: Answer, delay: real)
    | Retry(t: TaskId)                     // the backoff is over
    | Cancel(t: TaskId)                    // the caller goes away, in any phase

  function WithPhase(w: World, t: TaskId, p: Phase): World
    requires t in w.calls
  {
    w.(calls := w.calls[t := w.calls[t].(phase := p)])
  }

  predicate Enabled(s: Settings, w: World, step: Step)
  {
    match step
    case Tick(to) => to >= w.now
    case Begin(t, _) => t !in w.calls
    case Admit(t) => t in w.calls && w.calls[t].phase.Waiting? && |Holders(w.calls)| < s.maxConcurrency
    case Lock(t) =>
      && t in w.calls && w.calls[t].phase.Admitted? && w.calls[t].chat.Some?
      && GateOf(w.gates, w.calls[t].chat.value).holder == None
    case Stamp(t) => t in w.calls && w.calls[t].phase.Measured? && w.now >= w.calls[t].phase.wakeAt
    case Skip(t) => t in w.calls && w.calls[t].phase.Admitted? && w.calls[t].chat.None?
    case Reply(t, _, delay) => t in w.calls && w.calls[t].phase.InCall? && delay >= 0.0
    case Retry(t) => t in w.calls && w.calls[t].phase.Backoff? && w.now >= w.calls[t].phase.until
    case Cancel(t) => t in w.calls
  }

  /** `elapsed < interval` makes the call sleep for the rest of the interval. */
  function WakeAt(now: real, lastCall: real, interval: real): real
  {
    var elapsed := now - lastCall;
    if elapsed < interval then now + (interval - elapsed) else now
  }

  /** Retry only transient failures, and only while attempts are left. */
  predicate MayRetry(s: Settings, attempts: nat, a: Answer)
  {
    a.NetworkError? && attempts < s.retryLimit
  }

  function Released(w: World, t: TaskId): World
    requires t in w.calls
  {
    var c := w.calls[t];
    if c.phase.Measured? && c.chat.Some? then w.(gates := w.gates[c.chat.value := GateOf(w.gates, c.chat.value).(holder := None)]) else w
  }

  function Next(s: Settings, w: World, step: Step): World
    requires Enabled(s, w, step)
  {
    match step
    case Tick(to) => w.(now := to)
    case Begin(t, chat) => w.(calls := w.calls[t := Call(chat, 0, Waiting)])
    case Admit(t) => w.(calls := w.calls[t := w.calls[t].(phase := Admitted, attempts := w.calls[t].attempts + 1)])
    case Lock(t) =>
      var c := w.calls[t].chat.value;
      var gate := GateOf(w.gates, c);
      WithPhase(w, t, Measured(WakeAt(w.now, gate.lastCall, s.minInterval))).(gates := w.gates[c := gate.(holder := Some(t))])
    case Stamp(t) =>
      if w.calls[t].chat.None? then WithPhase(w, t, InCall)
      else
        var c := w.calls[t].chat.value;
        WithPhase(w, t, InCall).(gates := w.gates[c := Gate(w.now, None)], stamps := w.stamps[c := StampsOf(w.stamps, c) + [w.now]])
    case Skip(t) => WithPhase(w, t, InCall)
    case Reply(t, a, delay) =>
      if a.Success? then WithPhase(w, t, Finished(true))
      else if MayRetry(s, w.calls[t].attempts, a) then WithPhase(w, t, Backoff(w.now + delay))
      else WithPhase(w, t, Finished(false))
    case Retry(t) => WithPhase(w, t, Waiting)
    case Cancel(t) => Released(w, t).(calls := w.calls - {t})
  }

  /** A run of the gateway: worlds, each from the one before by a step; the clock starts at 0 or later. */
  ghost predicate Behaviour(s: Settings, ws: seq<World>, steps: seq<Step>)
  {
    && |ws| == |steps| + 1 && ws[0].now >= 0.0
    && ws[0].calls == map[] && ws[0].gates == map[] && ws[0].stamps == map[]
    && forall i :: 0 <= i < |steps| ==> Enabled(s, ws[i], steps[i]) && ws[i + 1] == Next(s, ws[i], steps[i])
  }

  // ---------------------------------------------------------------- invariants

  /** Stamps at least the interval apart. */
  ghost predicate Spaced(d: real, stamps: seq<real>)
  {
    forall i, j :: 0 <= i && j == i + 1 && j < |stamps| ==> stamps[j] - stamps[i] >= d
  }

  function LastStamp(stamps: map<ChatId, seq<real>>, c: ChatId): real
  {
    var st := StampsOf(stamps, c);
    if st == [] then 0.0 else st[|st| - 1]
  }

  /** The gate remembers the last stamp of its chat. */
  ghost predicate GatesRemember(w: World)
  {
    forall c :: GateOf(w.gates, c).lastCall == LastStamp(w.stamps, c)
  }

  /** A sleeping call holds its chat's lock, alone, and wakes no sooner than the interval after the
      last stamp. */
  ghost predicate SleepersHold(s: Settings, w: World)
  {
    && (forall t :: t in w.calls ==> SleepsSafely(s, w, t, w.calls[t]))
    && (forall c :: HeldByASleeper(w, c))
  }

  ghost predicate SleepsSafely(s: Settings, w: World, t: TaskId, c: Call)
  {
    c.phase.Measured? ==>
      && c.chat.Some?
      && GateOf(w.gates, c.chat.value).holder == Some(t)
      && c.phase.wakeAt >= GateOf(w.gates, c.chat.value).lastCall + s.minInterval
  }

  ghost predicate HeldByASleeper(w: World, c: ChatId)
  {
    var holder := GateOf(w.gates, c).holder;
    holder.Some? ==> holder.value in w.calls && w.calls[holder.value].phase.Measured? && w.calls[holder.value].chat == Some(c)
  }

  ghost predicate AttemptsBounded(s: Settings, w: World)
  {
    forall t :: t in w.calls ==>
      var c := w.calls[t];
      && c.attempts <= MaxAttempts(s)
      && ((c.phase.Waiting? || c.phase.Backoff?) ==> c.attempts < MaxAttempts(s))
  }

  /** The retry limit; one attempt is made in any case. */
  function MaxAttempts(s: Settings): nat
  {
    if s.retryLimit >= 1 then s.retryLimit else 1
  }

  ghost predicate Inv(s: Settings, w: World)
  {
    && |Holders(w.calls)| <= s.maxConcurrency
    && (forall c :: Spaced(s.minInterval, StampsOf(w.stamps, c)))
    && GatesRemember(w) && SleepersHold(s, w) && AttemptsBounded(s, w)
  }

  lemma HoldersStep(calls: map<TaskId, Call>, t: TaskId, c: Call)
    ensures |Holders(calls[t := c])| <= |Holders(calls)| + if InsideSemaphore(c) && !(t in calls && InsideSemaphore(calls[t])) then 1 else 0
  {
    var before, after := Holders(calls), Holders(calls[t := c]);
    if InsideSemaphore(c) {
      assert after == before + {t};
    } else {
      assert after == before - {t};
    }
  }

  lemma StepKeepsHolders(s: Settings, w: World, step: Step)
    requires |Holders(w.calls)| <= s.maxConcurrency && Enabled(s, w, step)
    ensures |Holders(Next(s, w, step).calls)| <= s.maxConcurrency
  {
    var w' := Next(s, w, step);
    match step
    case Tick(_) =>
    case Cancel(t) =>
      assert Holders(w'.calls) == Holders(w.calls) - {t};
    case Begin(t, _) => HoldersStep(w.calls, t, w'.calls[t]);
    case Admit(t) => HoldersStep(w.calls, t, w'.calls[t]);
    case Lock(t) => HoldersStep(w.calls, t, w'.calls[t]);
    case Stamp(t) => HoldersStep(w.calls, t, w'.calls[t]);
    case Skip(t) => HoldersStep(w.calls, t, w'.calls[t]);
    case Reply(t, _, _) => HoldersStep(w.calls, t, w'.calls[t]);
    case Retry(t) => HoldersStep(w.calls, t, w'.calls[t]);
  }

  lemma StepKeepsMemory(s: Settings, w: World, step: Step)
    requires GatesRemember(w) && Enabled(s, w, step)
    ensures GatesRemember(Next(s, w, step))
  {
    var w' := Next(s, w, step);
    forall c ensures GateOf(w'.gates, c).lastCall == LastStamp(w'.stamps, c) {
      assert GateOf(w.gates, c).lastCall == LastStamp(w.stamps, c);
    }
  }

  lemma StepKeepsSleeper(s: Settings, w: World, step: Step, t: TaskId)
    requires SleepersHold(s, w) && Enabled(s, w, step) && t in Next(s, w, step).calls
    ensures SleepsSafely(s, Next(s, w, step), t, Next(s, w, step).calls[t])
  {
    assert t in w.calls ==> SleepsSafely(s, w, t, w.calls[t]);
    match step
    case Stamp(u) => assert SleepsSafely(s, w, u, w.calls[u]);
    case Cancel(u) => assert SleepsSafely(s, w, u, w.calls[u]);
    case _ =>
  }

  lemma StepKeepsHolder(s: Settings, w: World, step: Step, c: ChatId)
    requires SleepersHold(s, w) && Enabled(s, w, step)
    ensures HeldByASleeper(Next(s, w, step), c)
  {
    assert HeldByASleeper(w, c);
    match step
    case Stamp(u) => assert SleepsSafely(s, w, u, w.calls[u]);
    case Cancel(u) => assert SleepsSafely(s, w, u, w.calls[u]);
    case _ =>
  }

  lemma StepKeepsGates(s: Settings, w: World, step: Step)
    requires GatesRemember(w) && SleepersHold(s, w) && Enabled(s, w, step)
    ensures GatesRemember(Next(s, w, step)) && SleepersHold(s, Next(s, w, step))
  {
    StepKeepsMemory(s, w, step);
    forall t | t in Next(s, w, step).calls ensures SleepsSafely(s, Next(s, w, step), t, Next(s, w, step).calls[t]) {
      StepKeepsSleeper(s, w, step, t);
    }
    forall c ensures HeldByASleeper(Next(s, w, step), c) {
      StepKeepsHolder(s, w, step, c);
    }
  }

  lemma StepKeepsSpacing(s: Settings, w: World, step: Step, c: ChatId)
    requires GatesRemember(w) && SleepersHold(s, w) && Enabled(s, w, step)
    requires Spaced(s.minInterval, StampsOf(w.stamps, c))
    ensures Spaced(s.minInterval, StampsOf(Next(s, w, step).stamps, c))
  {
  }

  lemma StepKeepsAttempts(s: Settings, w: World, step: Step)
    requires AttemptsBounded(s, w) && Enabled(s, w, step)
    ensures AttemptsBounded(s, Next(s, w, step))
  {
  }

  lemma StepKeepsInv(s: Settings, w: World, step: Step)
    requires Inv(s, w) && Enabled(s, w, step)
    ensures Inv(s, Next(s, w, step))
  {
    StepKeepsHolders(s, w, step);
    StepKeepsGates(s, w, step);
    StepKeepsAttempts(s, w, step);
    forall c ensures Spaced(s.minInterval, StampsOf(Next(s, w, step).stamps, c)) {
      StepKeepsSpacing(s, w, step, c);
    }
  }

  /** In every interleaving, with cancellations anywhere: calls inside the semaphore never exceed the
      maximum, stamps of a chat are at least the minimum interval apart, and no call makes more
      attempts than the retry limit. */
  lemma {:induction false} AlwaysInv(s: Settings, ws: seq<World>, steps: seq<Step>, i: nat)
    requires Behaviour(s, ws, steps) && i < |ws|
    ensures Inv(s, ws[i])
    ensures forall t :: t in ws[i].calls ==> ws[i].calls[t].attempts <= 1 || ws[i].calls[t].attempts <= s.retryLimit
  {
    if i == 0 {
      assert Holders(ws[0].calls) == {};
    } else {
      AlwaysInv(s, ws, steps, i - 1);
      StepKeepsInv(s, ws[i - 1], steps[i - 1]);
    }
  }

  // ---------------------------------------------------------------- what each step does

  function WithCall(w: World, t: TaskId, c: Call): World
  {
    w.(calls := w.calls[t := c])
  }

  /** An attempt starts only with a free permit, and takes it until its answer; an answer ends the call
      unless it is a network error and attempts are left; the next attempt may start once the backoff
      is over. */
  lemma AttemptAndAnswer(s: Settings, w: World, t: TaskId)
    requires t in w.calls
    ensures Enabled(s, w, Admit(t)) ==>
              && w.calls[t].phase == Waiting
              && Next(s, w, Admit(t)) == WithCall(w, t, Call(w.calls[t].chat, w.calls[t].attempts + 1, Admitted))
    ensures forall a, delay :: Enabled(s, w, Reply(t, a, delay)) ==>
              var after := Next(s, w, Reply(t, a, delay));
              && w.calls[t].phase == InCall && t in after.calls && after == WithCall(w, t, after.calls[t])
              && after.calls[t].attempts == w.calls[t].attempts
              && (after.calls[t].phase == Finished(true) <==> a == Success)
              && (after.calls[t].phase == Finished(false) <==> a != Success && (a != NetworkError || w.calls[t].attempts >= s.retryLimit))
              && (a == NetworkError && w.calls[t].attempts < s.retryLimit ==> after.calls[t].phase == Backoff(w.now + delay))
    ensures Enabled(s, w, Retry(t)) <==> w.calls[t].phase.Backoff? && w.calls[t].phase.until <= w.now
    ensures Enabled(s, w, Retry(t)) ==>
              Next(s, w, Retry(t)) == WithCall(w, t, Call(w.calls[t].chat, w.calls[t].attempts, Waiting))
  {
  }

  /** A call in a chat takes the chat's free lock, wakes at once if the interval has passed and exactly
      at its end otherwise, and then leaves its stamp and the lock; a call without a chat does neither. */
  lemma Spacing(s: Settings, w: World, t: TaskId)
    requires t in w.calls
    ensures Enabled(s, w, Lock(t)) ==>
              var after := Next(s, w, Lock(t));
              && w.calls[t].phase == Admitted && w.calls[t].chat.Some?
              && var c := w.calls[t].chat.value;
              && var due := GateOf(w.gates, c).lastCall + s.minInterval;
              && GateOf(w.gates, c).holder == None
              && after.calls == w.calls[t := Call(Some(c), w.calls[t].attempts, Measured(if due <= w.now then w.now else due))]
              && after.gates == w.gates[c := Gate(GateOf(w.gates, c).lastCall, Some(t))]
              && after.stamps == w.stamps && after.now == w.now
    ensures Enabled(s, w, Stamp(t)) && w.calls[t].chat.Some? ==>
              var after := Next(s, w, Stamp(t));
              && w.calls[t].phase.Measured? && w.calls[t].phase.wakeAt <= w.now
              && var c := w.calls[t].chat.value;
              && after.calls == w.calls[t := Call(Some(c), w.calls[t].attempts, InCall)]
              && after.gates == w.gates[c := Gate(w.now, None)]
              && StampsOf(after.stamps, c) == StampsOf(w.stamps, c) + [w.now]
              && (forall d :: d != c ==> StampsOf(after.stamps, d) == StampsOf(w.stamps, d))
    ensures Enabled(s, w, Skip(t)) ==>
              && w.calls[t].chat == None && w.calls[t].phase == Admitted
              && Next(s, w, Skip(t)) == WithCall(w, t, Call(None, w.calls[t].attempts, InCall))
  {
  }

  /** A cancelled call is gone, whatever its phase, and the lock it held is free again; other locks
      are held on. */
  lemma CancelLeavesNothing(s: Settings, w: World, t: TaskId)
    requires t in w.calls && SleepersHold(s, w)
    ensures Enabled(s, w, Cancel(t))
    ensures var after := Next(s, w, Cancel(t));
            && t !in after.calls && (forall u :: u != t ==> (u in after.calls <==> u in w.calls) && (u in w.calls ==> after.calls[u] == w.calls[u]))
            && (forall c :: GateOf(after.gates, c).holder == if GateOf(w.gates, c).holder == Some(t) then None else GateOf(w.gates, c).holder)
            && (forall c :: GateOf(after.gates, c).lastCall == GateOf(w.gates, c).lastCall)
  {
    assert SleepsSafely(s, w, t, w.calls[t]);
    forall c ensures GateOf(Next(s, w, Cancel(t)).gates, c).holder == if GateOf(w.gates, c).holder == Some(t) then None else GateOf(w.gates, c).holder {
      assert HeldByASleeper(w, c);
    }
  }

  ghost predicate Reached(s: Settings, w: World)
  {
    exists ws: seq<World>, steps: seq<Step> :: Behaviour(s, ws, steps) && ws[|steps|] == w
  }

  lemma ReachedNext(s: Settings, w: World, step: Step)
    requires Reached(s, w) && Enabled(s, w, step)
    ensures Reached(s, Next(s, w, step))
  {
    var ws: seq<World>, steps: seq<Step> :| Behaviour(s, ws, steps) && ws[|steps|] == w;
    var ws', steps' := ws + [Next(s, w, step)], steps + [step];
    assert Behaviour(s, ws', steps') && ws'[|steps'|] == Next(s, w, step);
  }

  /** Nothing else stops a call: alone, with a permit to give and the interval over, it gets through,
      in its first attempt and without sleeping. */
  lemma AloneItGetsThrough(s: Settings, chat: Option<ChatId>, t: TaskId, now: real)
    requires s.maxConcurrency >= 1 && now >= s.minInterval && now >= 0.0
    ensures exists w :: Reached(s, w) && w.now == now && t in w.calls && w.calls[t] == Call(chat, 1, Finished(true))
  {
    var w0 := World(now, map[], map[], map[]);
    var none: seq<Step> := [];
    assert Behaviour(s, [w0], none) && [w0][|none|] == w0;
    var w1 := Next(s, w0, Begin(t, chat));
    ReachedNext(s, w0, Begin(t, chat));
    assert Holders(w1.calls) == {};
    var w2 := Next(s, w1, Admit(t));
    ReachedNext(s, w1, Admit(t));
    var pass := if chat.Some? then Stamp(t) else Skip(t);
    var w3 := if chat.Some? then Next(s, w2, Lock(t)) else w2;
    if chat.Some? {
      ReachedNext(s, w2, Lock(t));
    }
    ReachedNext(s, w3, pass);
    var w4 := Next(s, w3, pass);
    ReachedNext(s, w4, Reply(t, Success, 0.0));
    assert Next(s, w4, Reply(t, Success, 0.0)).calls[t] == Call(chat, 1, Finished(true));
  }

  // ---------------------------------------------------------------- windows

  lemma {:induction false} SpacedFar(d: real, stamps: seq<real>, i: nat, j: nat)
    requires Spaced(d, stamps) && i <= j < |stamps|
    ensures stamps[j] - stamps[i] >= (j - i) as real * d
  {
    if i < j {
      SpacedFar(d, stamps, i, j - 1);
      assert (j - i) as real * d == (j - 1 - i) as real * d + d;
    }
  }

  /** The positions of the stamps in a window of length `len`, which are consecutive. */
  function InWindow(stamps: seq<real>, from: real, len: real): set<nat>
  {
    set i: nat | i < |stamps| && from <= stamps[i] <= from + len
  }

  /** A window of length W holds at most floor(W / interval) + 1 stamps of a chat. */
  lemma WindowBound(s: Settings, ws: seq<World>, steps: seq<Step>, n: nat, c: ChatId, from: real, len: real)
    requires Behaviour(s, ws, steps) && n < |ws| && s.minInterval > 0.0 && len >= 0.0
    ensures |InWindow(StampsOf(ws[n].stamps, c), from, len)| <= (len / s.minInterval).Floor + 1
  {
    AlwaysInv(s, ws, steps, n);
    assert Spaced(s.minInterval, StampsOf(ws[n].stamps, c));
    SpacedWindow(s.minInterval, StampsOf(ws[n].stamps, c), from, len);
  }

  lemma SpacedWindow(d: real, stamps: seq<real>, from: real, len: real)
    requires Spaced(d, stamps) && d > 0.0 && len >= 0.0
    ensures |InWindow(stamps, from, len)| <= (len / d).Floor + 1
  {
    var inside := InWindow(stamps, from, len);
    DivideSpan(0, d, len);
    if inside != {} {
      var first := Least(inside);
      forall i | i in inside ensures first <= i <= first + (len / d).Floor {
        WithinBlock(d, stamps, from, len, first, i);
      }
      AtMost(inside, first, (len / d).Floor + 1);
    }
  }

  lemma AtMost(a: set<nat>, first: nat, n: nat)
    requires forall i :: i in a ==> first <= i < first + n
    ensures |a| <= n
  {
    var block := Block(first, n);
    assert block == a + (block - a);
  }

  /** Two stamps in one window are no more than floor(W / interval) places apart. */
  lemma WithinBlock(d: real, stamps: seq<real>, from: real, len: real, first: nat, i: nat)
    requires Spaced(d, stamps) && d > 0.0 && first <= i < |stamps|
    requires from <= stamps[first] && stamps[i] <= from + len
    ensures i - first <= (len / d).Floor
  {
    SpacedFar(d, stamps, first, i);
    DivideSpan(i - first, d, len);
  }

  ghost function Least(a: set<nat>): (m: nat)
    requires a != {}
    ensures m in a && forall i :: i in a ==> m <= i
  {
    var x :| x in a;
    if a == {x} then x
    else
      var rest := Least(a - {x});
      assert a == (a - {x}) + {x};
      if x < rest then x else rest
  }

  /** `n` numbers from `first` on. */
  function Block(first: nat, n: nat): (r: set<nat>)
    ensures |r| == n && forall i :: i in r <==> first <= i < first + n
  {
    if n == 0 then {} else Block(first, n - 1) + {first + n - 1}
  }

  /** If `m` intervals fit into a length, `m` is at most the floor of the quotient. */
  lemma DivideSpan(m: nat, d: real, len: real)
    requires d > 0.0 && m as real * d <= len
    ensures m <= (len / d).Floor
  {
    var q := len / d;
    assert q * d == len;
    assert (m as real - q) * d <= 0.0;
    assert m as real <= q;
  }

  // ---------------------------------------------------------------- the retry loop of one call

  datatype CallResult = Returned | FloodRaised(seconds: real) | SessionRaised | NetworkRaised | AccessRaised(code: nat)

  function Min(a: real, b: real): real
  {
    if a < b then a else b
  }

  function PowerOfTwo(n: nat): real
  {
    if n == 0 then 1.0 else 2.0 * PowerOfTwo(n - 1)
  }

  /** The sleeps before attempts 2 to `n`: two to the number of attempts made, and the jitter, but at
      most half a minute. */
  function Backoffs(jitter: nat -> real, n: nat): real
  {
    if n <= 1 then 0.0 else Backoffs(jitter, n - 1) + Min(PowerOfTwo(n - 1) + jitter(n - 1), 30.0)
  }

  /** The loop of `_call`: it stops at the first answer that is not a network error, or when the
      attempts are used up, having backed off between two attempts for 2 to 30 seconds. The caller sees the last answer; a flood
      wait is capped, and one of no stated length counts as a minute. */
  method CallWithRetry(s: Settings, maxFloodSleep: real, answers: nat -> Answer, jitter: nat -> real)
    returns (r: CallResult, attempts: nat, slept: real)
    requires forall k :: 0.0 <= jitter(k) <= 1.0
    ensures attempts == 1 || 1 <= attempts <= s.retryLimit
    ensures forall k | 0 <= k < attempts - 1 :: answers(k).NetworkError?
    ensures !answers(attempts - 1).NetworkError? || attempts >= s.retryLimit
    ensures var last := answers(attempts - 1);
            && (r == Returned <==> last == Success) && (r == SessionRaised <==> last == SessionExpired)
            && (r == NetworkRaised <==> last == NetworkError) && (forall code :: r == AccessRaised(code) <==> last == AccessDenied(code))
            && (last.FloodWait? ==> var raw := if last.seconds == 0.0 then 60.0 else last.seconds;
                                    r == FloodRaised(if raw <= maxFloodSleep then raw else maxFloodSleep))
    ensures slept == Backoffs(jitter, attempts)
    ensures 2.0 * (attempts - 1) as real <= slept <= 30.0 * (attempts - 1) as real
  {
    attempts, slept := 0, 0.0;
    while true
      invariant attempts < MaxAttempts(s)
      invariant forall k | 0 <= k < attempts :: answers(k).NetworkError?
      invariant slept == Backoffs(jitter, attempts + 1) && 2.0 * attempts as real <= slept <= 30.0 * attempts as real
      decreases MaxAttempts(s) - attempts
    {
      var a := answers(attempts);
      attempts := attempts + 1;
      if a.Success? {
        return Returned, attempts, slept;
      }
      if a.FloodWait? {
        var raw := if a.seconds == 0.0 then 60.0 else a.seconds;
        return FloodRaised(Min(raw, maxFloodSleep)), attempts, slept;
      }
      if a.NetworkError? && attempts < s.retryLimit {
        PowerPositive(attempts);
        slept := slept + Min(PowerOfTwo(attempts) + jitter(attempts), 30.0);
        continue;
      }
      r := match a
        case SessionExpired => SessionRaised
        case NetworkError => NetworkRaised
        case AccessDenied(code) => AccessRaised(code);
      return r, attempts, slept;
    }
  }

  lemma {:induction false} PowerPositive(n: nat)
    ensures PowerOfTwo(n) >= 1.0 && (n > 0 ==> PowerOfTwo(n) >= 2.0) && (n >= 5 ==> PowerOfTwo(n) >= 32.0)
  {
    if n > 0 {
      PowerPositive(n - 1);
      assert n == 5 ==> PowerOfTwo(5) == 2.0 * PowerOfTwo(4) && PowerOfTwo(4) == 2.0 * PowerOfTwo(3) && PowerOfTwo(3) == 2.0 * PowerOfTwo(2)
                        && PowerOfTwo(2) == 2.0 * PowerOfTwo(1) && PowerOfTwo(1) == 2.0 * PowerOfTwo(0);
    }
  }

  /** The backoff doubles, up to the jitter, and from the fifth on it is half a minute. */
  lemma BackoffDoubles(jitter: nat -> real, n: nat)
    requires n >= 2 && forall k :: 0.0 <= jitter(k) <= 1.0
    ensures var pause := (k: nat) => Backoffs(jitter, k + 1) - Backoffs(jitter, k);
            && (n == 2 ==> 2.0 <= pause(1) <= 3.0)
            && (pause(n) < 30.0 ==> 2.0 * pause(n - 1) - 2.0 <= pause(n) <= 2.0 * pause(n - 1) + 1.0)
            && (n >= 5 ==> pause(n) == 30.0)
  {
    PowerPositive(n);
    PowerPositive(n - 1);
  }
}
