/** app/services/analysis_service.py: the life of an analysis request. Every database session is
    one atomic step; the steps of the bot, of several workers and of crashes interleave freely. */
module Lifecycle {
  import opened Strings

  type RequestId = int
  type ExecutionId = int

  datatype Status = Queued | Running | Done | Failed

  datatype Request = Request(text: string, status: Status, retryCount: nat)

  datatype ResultRow = ResultRow(score: int)

  /** Jobs by their id: the request's own, or one per recheck. */
  datatype Job = SubmitJob(request: RequestId) | RecheckJob(request: RequestId, retry: nat)

  /** A job at work, between its claim and its end: the text it claimed, and how many rechecks the
      request had had by then. */
  datatype Execution = Execution(request: RequestId, version: nat, text: string)

  datatype Limits = Limits(isBlank: string -> bool, maxChars: nat)

  /** The shared rows and queue; and, beside them, the executions in flight, the execution each
      result came from, and every text a request has held. */
  datatype World = World(
    requests: map<RequestId, Request>,
    results: map<RequestId, ResultRow>,
    queue: set<Job>,
    active: map<ExecutionId, Execution>,
    origins: map<RequestId, Execution>,
    texts: map<RequestId, seq<string>>)

  const EMPTY := World(map[], map[], {}, map[], map[], map[])

  // ---------------------------------------------------------------- the atomic steps

  /** An enqueue that comes later than its session is one with Redis down and a recovery. */
  function Enqueued(w: World, job: Job, redisUp: bool): World
  {
    if redisUp then w.(queue := w.queue + {job}) else w
  }

  predicate Acceptable(lim: Limits, text: string)
  {
    text != "" && !lim.isBlank(text) && |text| <= lim.maxChars
  }

  /** `submit`: blank and oversized texts are refused, an id already used cannot be inserted. */
  function Submitted(lim: Limits, w: World, id: RequestId, text: string, redisUp: bool): World
  {
    if !Acceptable(lim, text) || id in w.requests then w
    else Enqueued(w.(requests := w.requests[id := Request(text, Queued, 0)], texts := w.texts[id := [text]]), SubmitJob(id), redisUp)
  }

  /** `recover_queued`, for one of the requests that its query found queued, perhaps a while ago. */
  function Recovered(w: World, id: RequestId, redisUp: bool): World
  {
    if id in w.requests then Enqueued(w, SubmitJob(id), redisUp) else w
  }

  /** `run_request` skips a request that is gone, running, or done with a result. */
  predicate Claimable(w: World, id: RequestId)
  {
    id in w.requests && w.requests[id].status != Running && !(w.requests[id].status == Done && id in w.results)
  }

  /** The first session of `run_request`. */
  function Claimed(w: World, e: ExecutionId, id: RequestId): World
  {
    if !Claimable(w, id) then w
    else
      var r := w.requests[id];
      w.(requests := w.requests[id := r.(status := Running)], active := w.active[e := Execution(id, r.retryCount, r.text)])
  }

  /** The second session of `run_request`: the result row is written or overwritten. */
  function Finished(w: World, e: ExecutionId, score: int): World
    requires e in w.active
  {
    var x := w.active[e];
    var ended := w.(active := w.active - {e});
    if x.request !in w.requests then ended
    else ended.(requests := w.requests[x.request := w.requests[x.request].(status := Done)],
                results := w.results[x.request := ResultRow(score)], origins := w.origins[x.request := x])
  }

  /** The session of the exception handler. */
  function FailedWorld(w: World, e: ExecutionId): World
    requires e in w.active
  {
    var x := w.active[e];
    var ended := w.(active := w.active - {e});
    if x.request !in w.requests then ended
    else ended.(requests := w.requests[x.request := w.requests[x.request].(status := Failed)])
  }

  /** The worker dies, or the job is cancelled by its timeout: nothing is written. */
  function Crashed(w: World, e: ExecutionId): World
    requires e in w.active
  {
    w.(active := w.active - {e})
  }

  /** `recheck`: new text, queued again, the old result deleted. A blank text is accepted here. */
  function Rechecked(lim: Limits, w: World, id: RequestId, text: string, redisUp: bool): World
  {
    if |text| > lim.maxChars || id !in w.requests then w
    else
      var r := w.requests[id];
      var r' := Request(text, Queued, r.retryCount + 1);
      Enqueued(w.(requests := w.requests[id := r'], results := w.results - {id}, origins := w.origins - {id},
                  texts := w.texts[id := (if id in w.texts then w.texts[id] else []) + [text]]),
               RecheckJob(id, r'.retryCount), redisUp)
  }

  datatype Step =
    | Submit(id: RequestId, text: string, redisUp: bool)
    | Recover(id: RequestId, redisUp: bool)
    | Claim(e: ExecutionId, job: Job, redelivered: bool)
    | Finish(e: ExecutionId, score: int)
    | Fail(e: ExecutionId)
    | Crash(e: ExecutionId)
    | Recheck(id: RequestId, text: string, redisUp: bool)

  /** The step can happen: a claim is of a queued job under a new execution, an end is of one in flight. */
  predicate Enabled(w: World, s: Step)
  {
    match s
    case Claim(e, job, _) => job in w.queue && e !in w.active
    case Finish(e, _) => e in w.active
    case Fail(e) => e in w.active
    case Crash(e) => e in w.active
    case _ => true
  }

  function Next(lim: Limits, w: World, s: Step): World
    requires Enabled(w, s)
  {
    match s
    case Submit(id, text, up) => Submitted(lim, w, id, text, up)
    case Recover(id, up) => Recovered(w, id, up)
    case Claim(e, job, redelivered) =>
      Claimed(if redelivered then w else w.(queue := w.queue - {job}), e, job.request)
    case Finish(e, score) => Finished(w, e, score)
    case Fail(e) => FailedWorld(w, e)
    case Crash(e) => Crashed(w, e)
    case Recheck(id, text, up) => Rechecked(lim, w, id, text, up)
  }

  /** Worlds, each from the one before by a step. */
  ghost predicate Continues(lim: Limits, ws: seq<World>, steps: seq<Step>)
  {
    && |ws| == |steps| + 1
    && forall i :: 0 <= i < |steps| ==> Enabled(ws[i], steps[i]) && ws[i + 1] == Next(lim, ws[i], steps[i])
  }

  ghost predicate Behaviour(lim: Limits, ws: seq<World>, steps: seq<Step>)
  {
    Continues(lim, ws, steps) && ws[0] == EMPTY
  }

  /** Which of the first `n` enqueues reach Redis. */
  ghost function UpTo(up: nat -> bool, n: nat): set<nat>
  {
    set i: nat | i < n && up(i)
  }

  // ---------------------------------------------------------------- the service, field by field

  class AnalysisService {
    const lim: Limits
    var requests: map<RequestId, Request>
    var results: map<RequestId, ResultRow>
    var queue: set<Job>
    ghost var active: map<ExecutionId, Execution>
    ghost var origins: map<RequestId, Execution>
    ghost var texts: map<RequestId, seq<string>>

    constructor (lim: Limits)
      ensures this.lim == lim && Snapshot() == EMPTY
    {
      this.lim := lim;
      requests, results, queue := map[], map[], {};
      active, origins, texts := map[], map[], map[];
    }

    ghost function Snapshot(): World
      reads this
    {
      World(requests, results, queue, active, origins, texts)
    }

    method Submit(id: RequestId, text: string, redisUp: bool) returns (queued: Option<bool>)
      modifies this
      ensures Snapshot() == Submitted(lim, old(Snapshot()), id, text, redisUp)
      ensures queued == if text != "" && !lim.isBlank(text) && |text| <= lim.maxChars && id !in old(requests) then Some(redisUp) else None
      ensures queue == if queued == Some(true) then old(queue) + {SubmitJob(id)} else old(queue)
      ensures queued.Some? ==> requests == old(requests)[id := Request(text, Queued, 0)]
      ensures queued.None? ==> requests == old(requests)
    {
      if text == "" || lim.isBlank(text) {
        return None;
      }
      if |text| > lim.maxChars {
        return None;
      }
      if id in requests {
        return None;
      }
      requests := requests[id := Request(text, Queued, 0)];
      texts := texts[id := [text]];
      if redisUp {
        queue := queue + {SubmitJob(id)};
      }
      return Some(redisUp);
    }

    /** The query of `recover_queued`: queued requests, at most `limit`, all of them if they fit. */
    method QueuedIds(limit: nat) returns (ids: seq<RequestId>)
      ensures |ids| <= limit && forall i, j | 0 <= i < j < |ids| :: ids[i] != ids[j]
      ensures forall id :: id in ids ==> id in requests && requests[id].status == Queued
      ensures |ids| < limit ==> forall id :: id in requests && requests[id].status == Queued ==> id in ids
    {
      ids := [];
      var all, seen: set<RequestId> := requests.Keys, {};
      while |ids| < limit && seen != all
        invariant |ids| <= limit && seen <= all
        invariant forall i, j | 0 <= i < j < |ids| :: ids[i] != ids[j]
        invariant forall id :: id in ids <==> id in seen && requests[id].status == Queued
        decreases all - seen
      {
        ghost var some := Member(all - seen);
        var id :| id in all - seen;
        if requests[id].status == Queued {
          ids := ids + [id];
        }
        seen := seen + {id};
      }
    }

    /** Queued requests get their job again; `up` tells which enqueues reach Redis. */
    method RecoverQueued(limit: nat, up: nat -> bool) returns (recovered: nat, ids: seq<RequestId>)
      modifies this`queue
      ensures |ids| <= limit && forall id :: id in ids ==> id in requests && requests[id].status == Queued
      ensures |ids| < limit ==> forall id :: id in requests && requests[id].status == Queued ==> id in ids
      ensures queue == old(queue) + set i | 0 <= i < |ids| && up(i) :: SubmitJob(ids[i])
      ensures recovered == |set i: nat | i < |ids| && up(i)|
    {
      ids := QueuedIds(limit);
      recovered := 0;
      for i := 0 to |ids|
        invariant queue == old(queue) + set j | 0 <= j < i && up(j) :: SubmitJob(ids[j])
        invariant recovered == |UpTo(up, i)|
      {
        assert UpTo(up, i + 1) == UpTo(up, i) + if up(i) then {i} else {};
        if up(i) {
          queue := queue + {SubmitJob(ids[i])};
          recovered := recovered + 1;
        }
      }
      assert UpTo(up, |ids|) == set i: nat | i < |ids| && up(i);
    }

    /** The first session of `run_request`: the text to analyze, or nothing to do. */
    method ClaimRequest(ghost e: ExecutionId, id: RequestId) returns (original: Option<string>)
      modifies this`requests, this`active
      ensures Snapshot() == Claimed(old(Snapshot()), e, id)
      ensures original == if old(Claimable(Snapshot(), id)) then Some(old(requests[id].text)) else None
      ensures original.Some? ==> requests == old(requests)[id := old(requests[id]).(status := Running)]
      ensures original.None? ==> requests == old(requests) && active == old(active)
    {
      if id !in requests {
        return None;
      }
      var request := requests[id];
      if request.status == Done {
        if id in results {
          return None;
        }
      }
      if request.status == Running {
        return None;
      }
      requests := requests[id := request.(status := Running)];
      active := active[e := Execution(id, request.retryCount, request.text)];
      return Some(request.text);
    }

    /** The second session of `run_request`. */
    method StoreResult(ghost e: ExecutionId, id: RequestId, score: int)
      requires e in active && active[e].request == id
      modifies this`requests, this`results, this`active, this`origins
      ensures Snapshot() == Finished(old(Snapshot()), e, score)
      ensures id in old(requests) ==> requests == old(requests)[id := old(requests[id]).(status := Done)]
      ensures id in old(requests) ==> results == old(results)[id := ResultRow(score)]
      ensures id !in old(requests) ==> requests == old(requests) && results == old(results)
    {
      ghost var x := active[e];
      active := active - {e};
      if id in requests {
        var row := if id in results then results[id] else ResultRow(0);
        row := row.(score := score);
        results := results[id := row];
        origins := origins[id := x];
        requests := requests[id := requests[id].(status := Done)];
      }
    }

    method MarkFailed(ghost e: ExecutionId, id: RequestId)
      requires e in active && active[e].request == id
      modifies this`requests, this`active
      ensures Snapshot() == FailedWorld(old(Snapshot()), e)
      ensures id in old(requests) ==> requests == old(requests)[id := old(requests[id]).(status := Failed)]
      ensures id !in old(requests) ==> requests == old(requests)
    {
      active := active - {e};
      if id in requests {
        requests := requests[id := requests[id].(status := Failed)];
      }
    }

    method Recheck(id: RequestId, newText: string, redisUp: bool) returns (queued: Option<bool>)
      modifies this
      ensures Snapshot() == Rechecked(lim, old(Snapshot()), id, newText, redisUp)
      ensures queued == if |newText| <= lim.maxChars && id in old(requests) then Some(redisUp) else None
      ensures queued.Some? ==> requests == old(requests)[id := Request(newText, Queued, old(requests[id].retryCount) + 1)]
      ensures queued.Some? ==> results == old(results) - {id}
      ensures queue == if queued == Some(true) then old(queue) + {RecheckJob(id, requests[id].retryCount)} else old(queue)
    {
      if |newText| > lim.maxChars {
        return None;
      }
      if id !in requests {
        return None;
      }
      var request := requests[id].(text := newText);
      request := request.(status := Queued);
      request := request.(retryCount := request.retryCount + 1);
      requests := requests[id := request];
      texts := texts[id := (if id in texts then texts[id] else []) + [newText]];
      results, origins := results - {id}, origins - {id};
      if redisUp {
        queue := queue + {RecheckJob(id, request.retryCount)};
      }
      return Some(redisUp);
    }
  }

  // ---------------------------------------------------------------- no request is forgotten

  /** The job that the last submit or recheck of a request enqueued, or should have. */
  function OwnJob(id: RequestId, r: Request): Job
  {
    if r.retryCount == 0 then SubmitJob(id) else RecheckJob(id, r.retryCount)
  }

  /** Every queued request has its own job waiting, except those whose enqueue failed. */
  ghost predicate NoneForgotten(w: World, lost: set<Job>)
  {
    forall id :: id in w.requests && w.requests[id].status == Queued
      ==> OwnJob(id, w.requests[id]) in w.queue || OwnJob(id, w.requests[id]) in lost
  }

  /** The jobs that submits and rechecks could not enqueue in the first `n` steps. */
  function LostJobs(lim: Limits, ws: seq<World>, steps: seq<Step>, n: nat): set<Job>
    requires n <= |steps| && |ws| == |steps| + 1
  {
    if n == 0 then {}
    else
      var before, w := LostJobs(lim, ws, steps, n - 1), ws[n - 1];
      match steps[n - 1]
      case Submit(id, text, up) => if !up then before + {SubmitJob(id)} else before
      case Recheck(id, text, up) => if !up && id in w.requests then before + {RecheckJob(id, w.requests[id].retryCount + 1)} else before
      case _ => before
  }

  lemma StepForgetsNone(lim: Limits, w: World, s: Step, lost: set<Job>, lost': set<Job>)
    requires Enabled(w, s) && NoneForgotten(w, lost) && lost <= lost'
    requires s.Submit? && !s.redisUp ==> SubmitJob(s.id) in lost'
    requires s.Recheck? && !s.redisUp && s.id in w.requests ==> RecheckJob(s.id, w.requests[s.id].retryCount + 1) in lost'
    ensures NoneForgotten(Next(lim, w, s), lost')
  {
    var w' := Next(lim, w, s);
    forall id | id in w'.requests && w'.requests[id].status == Queued
      ensures OwnJob(id, w'.requests[id]) in w'.queue || OwnJob(id, w'.requests[id]) in lost'
    {
      assert id in w.requests && w.requests[id].status == Queued ==> OwnJob(id, w.requests[id]) in w.queue || OwnJob(id, w.requests[id]) in lost;
    }
  }

  /** In every world of every behaviour a queued request has its own job waiting, unless Redis was
      down when that was enqueued. */
  lemma {:induction false} QueuedHasJob(lim: Limits, ws: seq<World>, steps: seq<Step>, i: nat)
    requires Behaviour(lim, ws, steps) && i < |ws|
    ensures NoneForgotten(ws[i], LostJobs(lim, ws, steps, i))
  {
    if i > 0 {
      QueuedHasJob(lim, ws, steps, i - 1);
      StepForgetsNone(lim, ws[i - 1], steps[i - 1], LostJobs(lim, ws, steps, i - 1), LostJobs(lim, ws, steps, i));
    }
  }

  predicate AllUp(steps: seq<Step>)
  {
    forall i | 0 <= i < |steps| :: (steps[i].Submit? ==> steps[i].redisUp) && (steps[i].Recheck? ==> steps[i].redisUp)
  }

  lemma {:induction false} NoneLost(lim: Limits, ws: seq<World>, steps: seq<Step>, n: nat)
    requires n <= |steps| && |ws| == |steps| + 1 && AllUp(steps)
    ensures LostJobs(lim, ws, steps, n) == {}
  {
    if n > 0 {
      NoneLost(lim, ws, steps, n - 1);
    }
  }

  /** So while every enqueue reaches Redis, each queued request has its job waiting. */
  lemma QueuedHasJobWhileUp(lim: Limits, ws: seq<World>, steps: seq<Step>, i: nat, id: RequestId)
    requires Behaviour(lim, ws, steps) && i < |ws| && AllUp(steps)
    requires id in ws[i].requests && ws[i].requests[id].status == Queued
    ensures (if ws[i].requests[id].retryCount == 0 then SubmitJob(id) else RecheckJob(id, ws[i].requests[id].retryCount)) in ws[i].queue
  {
    QueuedHasJob(lim, ws, steps, i);
    NoneLost(lim, ws, steps, i);
  }

  /** A claim takes its job off the queue, unless that is delivered again, and touches no other. */
  lemma ClaimTakesJob(lim: Limits, w: World, e: ExecutionId, job: Job, redelivered: bool)
    requires Enabled(w, Claim(e, job, redelivered))
    ensures var w' := Next(lim, w, Claim(e, job, redelivered));
            (job in w'.queue <==> redelivered) && forall other :: other != job ==> (other in w'.queue <==> other in w.queue)
  {
  }

  /** Every end of an execution takes it, and no other, from those at work; a crash writes no row. */
  lemma EndTakesExecution(lim: Limits, w: World, e: ExecutionId, score: int, s: Step)
    requires e in w.active && s in {Finish(e, score), Fail(e), Crash(e)}
    ensures var w' := Next(lim, w, s);
            && e !in w'.active && (forall d :: d != e && d in w.active ==> d in w'.active && w'.active[d] == w.active[d])
            && w'.queue == w.queue && (s.Crash? ==> w'.requests == w.requests && w'.results == w.results)
  {
  }

  /** And a lost request is found again: a recovery that reaches Redis gives it a job. */
  lemma RecoveryRequeues(lim: Limits, w: World, id: RequestId)
    requires id in w.requests
    ensures Next(lim, w, Recover(id, true)) == w.(queue := w.queue + {SubmitJob(id)})
    ensures Claimable(w, id) ==> forall e: ExecutionId :: e !in w.active ==>
              var w' := Next(lim, Next(lim, w, Recover(id, true)), Claim(e, SubmitJob(id), false));
              w'.requests[id].status == Running && e in w'.active && w'.active[e].text == w.requests[id].text
  {
  }

  // ---------------------------------------------------------------- bounded overlap

  function ActiveOf(active: map<ExecutionId, Execution>, id: RequestId): set<ExecutionId>
  {
    set e | e in active && active[e].request == id
  }

  /** Executions of one request at work: no more than its rechecks, and one more while it is running. */
  ghost predicate Bounded(w: World, id: RequestId)
  {
    id in w.requests ==>
      |ActiveOf(w.active, id)| <= w.requests[id].retryCount + if w.requests[id].status == Running then 1 else 0
  }

  /** Rows beside the requests are of requests; a result has an origin; a done request has a result;
      every execution and result is of a text that the request held, at the version it held it. */
  ghost predicate Attributed(w: World)
  {
    ExecutionsAttributed(w) && ResultsAttributed(w) && TextsKept(w) && DoneHasResult(w)
  }

  ghost predicate ExecutionsAttributed(w: World)
  {
    forall e :: e in w.active ==> w.active[e].request in w.requests && OfText(w.texts, w.active[e])
  }

  ghost predicate ResultsAttributed(w: World)
  {
    forall r :: r in w.results ==> r in w.requests && r in w.origins && w.origins[r].request == r && OfText(w.texts, w.origins[r])
  }

  /** The last of the texts is the current one, at the version of the retry count. */
  ghost predicate TextsKept(w: World)
  {
    forall r :: r in w.requests ==>
      r in w.texts && |w.texts[r]| == w.requests[r].retryCount + 1 && w.texts[r][w.requests[r].retryCount] == w.requests[r].text
  }

  ghost predicate DoneHasResult(w: World)
  {
    forall r :: r in w.requests && w.requests[r].status == Done ==> r in w.results
  }

  ghost predicate OfText(texts: map<RequestId, seq<string>>, x: Execution)
  {
    x.request in texts && x.version < |texts[x.request]| && x.text == texts[x.request][x.version]
  }

  ghost predicate Inv(w: World)
  {
    Attributed(w) && forall id :: Bounded(w, id)
  }

  lemma ActiveAdded(active: map<ExecutionId, Execution>, e: ExecutionId, x: Execution, id: RequestId)
    requires e !in active
    ensures ActiveOf(active[e := x], id) == ActiveOf(active, id) + if x.request == id then {e} else {}
    ensures |ActiveOf(active[e := x], id)| == |ActiveOf(active, id)| + if x.request == id then 1 else 0
  {
  }

  lemma ActiveEnded(active: map<ExecutionId, Execution>, e: ExecutionId, id: RequestId)
    requires e in active
    ensures ActiveOf(active - {e}, id) == ActiveOf(active, id) - {e}
    ensures |ActiveOf(active - {e}, id)| == |ActiveOf(active, id)| - if active[e].request == id then 1 else 0
  {
  }

  lemma StepKeepsBound(lim: Limits, w: World, s: Step, id: RequestId)
    requires Inv(w) && Enabled(w, s)
    ensures Bounded(Next(lim, w, s), id)
  {
    assert Bounded(w, id);
    match s
    case Submit(i, text, up) => SubmitKeepsBound(lim, w, i, text, up, id);
    case Claim(e, job, redelivered) => ClaimKeepsBound(if redelivered then w else w.(queue := w.queue - {job}), e, job.request, id);
    case Finish(e, _) => ActiveEnded(w.active, e, id);
    case Fail(e) => ActiveEnded(w.active, e, id);
    case Crash(e) => ActiveEnded(w.active, e, id);
    case _ =>
  }

  lemma ClaimKeepsBound(w: World, e: ExecutionId, i: RequestId, id: RequestId)
    requires Bounded(w, id) && e !in w.active
    ensures Bounded(Claimed(w, e, i), id)
  {
    if Claimable(w, i) {
      ActiveAdded(w.active, e, Execution(i, w.requests[i].retryCount, w.requests[i].text), id);
    }
  }

  lemma SubmitKeepsBound(lim: Limits, w: World, i: RequestId, text: string, up: bool, id: RequestId)
    requires Inv(w)
    ensures Bounded(Submitted(lim, w, i, text, up), id)
  {
    assert Bounded(w, id);
    if id !in w.requests {
      forall e ensures e !in ActiveOf(w.active, id) {
        assert e in w.active ==> w.active[e].request in w.requests;
      }
    }
  }

  lemma SubmitKeepsAttributed(lim: Limits, w: World, id: RequestId, text: string, up: bool)
    requires Attributed(w)
    ensures Attributed(Submitted(lim, w, id, text, up))
  {
    var w' := Submitted(lim, w, id, text, up);
    forall e | e in w'.active ensures w'.active[e].request in w'.requests && OfText(w'.texts, w'.active[e]) {
      assert OfText(w.texts, w.active[e]);
    }
    forall r | r in w'.results ensures r in w'.origins && OfText(w'.texts, w'.origins[r]) {
      assert OfText(w.texts, w.origins[r]);
    }
  }

  lemma RecheckKeepsAttributed(lim: Limits, w: World, id: RequestId, text: string, up: bool)
    requires Attributed(w)
    ensures Attributed(Rechecked(lim, w, id, text, up))
  {
  }

  lemma ClaimKeepsAttributed(w: World, e: ExecutionId, id: RequestId)
    requires Attributed(w) && e !in w.active
    ensures Attributed(Claimed(w, e, id))
  {
  }

  lemma EndKeepsAttributed(w: World, e: ExecutionId, score: int)
    requires Attributed(w) && e in w.active
    ensures Attributed(Finished(w, e, score)) && Attributed(FailedWorld(w, e)) && Attributed(Crashed(w, e))
  {
    assert OfText(w.texts, w.active[e]);
  }

  lemma StepKeepsAttributed(lim: Limits, w: World, s: Step)
    requires Attributed(w) && Enabled(w, s)
    ensures Attributed(Next(lim, w, s))
  {
    match s
    case Submit(id, text, up) => SubmitKeepsAttributed(lim, w, id, text, up);
    case Claim(e, job, redelivered) => ClaimKeepsAttributed(if redelivered then w else w.(queue := w.queue - {job}), e, job.request);
    case Finish(e, score) => EndKeepsAttributed(w, e, score);
    case Fail(e) => EndKeepsAttributed(w, e, 0);
    case Crash(e) => EndKeepsAttributed(w, e, 0);
    case Recheck(id, text, up) => RecheckKeepsAttributed(lim, w, id, text, up);
    case _ =>
  }

  lemma StepKeepsInv(lim: Limits, w: World, s: Step)
    requires Inv(w) && Enabled(w, s)
    ensures Inv(Next(lim, w, s))
  {
    StepKeepsAttributed(lim, w, s);
    forall id ensures Bounded(Next(lim, w, s), id) {
      StepKeepsBound(lim, w, s, id);
    }
  }

  /** In every world of every behaviour, whatever is redelivered and wherever workers crash: the
      executions of a request at work number at most its retry count, plus one while it is running;
      and a done request has exactly one result row, computed from a text it held. */
  lemma {:induction false} AlwaysInv(lim: Limits, ws: seq<World>, steps: seq<Step>, i: nat)
    requires Behaviour(lim, ws, steps) && i < |ws|
    ensures Inv(ws[i])
  {
    if i > 0 {
      AlwaysInv(lim, ws, steps, i - 1);
      StepKeepsInv(lim, ws[i - 1], steps[i - 1]);
    } else {
      forall id ensures ActiveOf(ws[0].active, id) == {} {}
    }
  }

  /** So a request that was never rechecked is never worked on twice at once. */
  lemma NeverRecheckedNeverTwice(lim: Limits, ws: seq<World>, steps: seq<Step>, i: nat, id: RequestId, d: ExecutionId, e: ExecutionId)
    requires Behaviour(lim, ws, steps) && i < |ws|
    requires id in ws[i].requests && ws[i].requests[id].retryCount == 0
    requires d in ActiveOf(ws[i].active, id) && e in ActiveOf(ws[i].active, id)
    ensures d == e && ws[i].requests[id].status == Running
  {
    AlwaysInv(lim, ws, steps, i);
    assert Bounded(ws[i], id);
    var a := ActiveOf(ws[i].active, id);
    assert {d, e} <= a;
    SubsetSize({d, e}, a);
    assert d != e ==> |{d, e}| == 2;
  }

  // ---------------------------------------------------------------- the bound is attained

  /** After `n` rechecks, each followed by a claim before anything ended, `n + 1` executions are at work. */
  ghost predicate Overlapped(w: World, id: RequestId, n: nat)
  {
    && id in w.requests && w.requests[id].retryCount == n && w.requests[id].status == Running
    && |ActiveOf(w.active, id)| == n + 1
    && (forall e :: e in w.active ==> e <= n)
  }

  lemma ExtendBehaviour(lim: Limits, ws: seq<World>, steps: seq<Step>, s: Step)
    requires Behaviour(lim, ws, steps) && Enabled(ws[|steps|], s)
    ensures Behaviour(lim, ws + [Next(lim, ws[|steps|], s)], steps + [s])
  {
  }

  /** The bound cannot be lowered: for every number of rechecks there is a behaviour that reaches it. */
  lemma {:induction false} OverlapAttained(lim: Limits, id: RequestId, text: string, n: nat) returns (ws: seq<World>, steps: seq<Step>)
    requires Acceptable(lim, text)
    ensures Behaviour(lim, ws, steps) && Overlapped(ws[|steps|], id, n)
  {
    var job := if n == 0 then SubmitJob(id) else RecheckJob(id, n);
    var first: Step;
    if n == 0 {
      ws, steps := [EMPTY], [];
      first := Submit(id, text, true);
    } else {
      ws, steps := OverlapAttained(lim, id, text, n - 1);
      first := Recheck(id, text, true);
    }
    var w := ws[|steps|];
    ExtendBehaviour(lim, ws, steps, first);
    var w1 := Next(lim, w, first);
    ws, steps := ws + [w1], steps + [first];
    assert job in w1.queue;
    assert w1.active == w.active && n !in w1.active;
    ExtendBehaviour(lim, ws, steps, Claim(n, job, false));
    var w2 := Next(lim, w1, Claim(n, job, false));
    ActiveAdded(w1.active, n, Execution(id, n, w1.requests[id].text), id);
    if n == 0 {
      assert ActiveOf(w1.active, id) == {};
    }
    ws, steps := ws + [w2], steps + [Claim(n, job, false)];
  }

  // ---------------------------------------------------------------- whose result it is

  /** The request is done with a result computed before its last recheck. */
  ghost predicate Stale(w: World, id: RequestId)
  {
    && id in w.requests && w.requests[id].status == Done
    && id in w.results && id in w.origins && w.origins[id].version != w.requests[id].retryCount
  }

  /** Nothing at work or stored for the request is older than its last recheck. */
  ghost predicate UpToDate(w: World, id: RequestId)
  {
    && id in w.requests
    && (forall e :: e in w.active && w.active[e].request == id ==> w.active[e].version == w.requests[id].retryCount)
    && (id in w.results ==> id in w.origins && w.origins[id].version == w.requests[id].retryCount)
  }

  /** The step is a recheck of this request that takes effect. */
  predicate Rechecks(lim: Limits, w: World, s: Step, id: RequestId)
  {
    s.Recheck? && s.id == id && id in w.requests && |s.text| <= lim.maxChars
  }

  lemma StepKeepsUpToDate(lim: Limits, w: World, s: Step, id: RequestId)
    requires UpToDate(w, id) && Enabled(w, s) && !Rechecks(lim, w, s, id)
    ensures UpToDate(Next(lim, w, s), id)
  {
  }

  lemma {:induction false} StaysUpToDate(lim: Limits, ws: seq<World>, steps: seq<Step>, id: RequestId, i: nat)
    requires Continues(lim, ws, steps) && i < |ws| && UpToDate(ws[0], id)
    requires forall k :: 0 <= k < |steps| ==> !Rechecks(lim, ws[k], steps[k], id)
    ensures UpToDate(ws[i], id)
  {
    if i > 0 {
      StaysUpToDate(lim, ws, steps, id, i - 1);
      StepKeepsUpToDate(lim, ws[i - 1], steps[i - 1], id);
    }
  }

  /** Some future of `w` without another recheck ends done with a stale result. */
  ghost predicate MayGoStale(lim: Limits, w: World, id: RequestId)
  {
    exists ws, steps ::
      && Continues(lim, ws, steps) && ws[0] == w && Stale(ws[|steps|], id)
      && forall k :: 0 <= k < |steps| ==> !Rechecks(lim, ws[k], steps[k], id)
  }

  /** A recheck is lost to an older result in some future exactly when an execution of the request
      is at work at that moment. Only the workers know that: what the rows tell of it is below. */
  lemma RecheckSafeIff(lim: Limits, w: World, id: RequestId, text: string, redisUp: bool)
    requires Attributed(w) && Rechecks(lim, w, Recheck(id, text, redisUp), id)
    ensures MayGoStale(lim, Rechecked(lim, w, id, text, redisUp), id) <==> ActiveOf(w.active, id) != {}
  {
    var w1 := Rechecked(lim, w, id, text, redisUp);
    if e :| e in ActiveOf(w.active, id) {
      assert OfText(w.texts, w.active[e]);
      var w2 := Next(lim, w1, Finish(e, 0));
      assert Stale(w2, id);
      var ws, steps := [w1, w2], [Finish(e, 0)];
      assert Continues(lim, ws, steps) && ws[0] == w1 && Stale(ws[|steps|], id);
    } else {
      assert forall e :: e in w.active ==> e !in ActiveOf(w.active, id);
      assert UpToDate(w1, id);
      if MayGoStale(lim, w1, id) {
        var ws, steps :|
          && Continues(lim, ws, steps) && ws[0] == w1 && Stale(ws[|steps|], id)
          && forall k :: 0 <= k < |steps| ==> !Rechecks(lim, ws[k], steps[k], id);
        StaysUpToDate(lim, ws, steps, id, |steps|);
        assert false;
      }
    }
  }

  // ---------------------------------------------------------------- what the rows tell

  /** In a reachable world the request has this status and retry count while a recheck of it may
      be lost to an older result. */
  ghost predicate MayLoseRecheck(lim: Limits, status: Status, retries: nat)
  {
    exists ws, steps, id, text :: LosesRecheck(lim, status, retries, ws, steps, id, text)
  }

  ghost predicate LosesRecheck(lim: Limits, status: Status, retries: nat, ws: seq<World>, steps: seq<Step>, id: RequestId, text: string)
  {
    && Behaviour(lim, ws, steps)
    && var w := ws[|steps|];
    && Rechecks(lim, w, Recheck(id, text, true), id)
    && w.requests[id].status == status && w.requests[id].retryCount == retries
    && MayGoStale(lim, Rechecked(lim, w, id, text, true), id)
  }

  /** Some execution of the request is at work, and its row says no more than this. */
  ghost predicate Busy(w: World, id: RequestId, status: Status, retries: nat)
  {
    && id in w.requests && w.requests[id].status == status && w.requests[id].retryCount == retries
    && ActiveOf(w.active, id) != {}
  }

  /** A status and a positive retry count, or RUNNING, leave room for an execution at work. */
  lemma BusyAttained(lim: Limits, id: RequestId, text: string, status: Status, retries: nat) returns (ws: seq<World>, steps: seq<Step>)
    requires Acceptable(lim, text) && (retries > 0 || status == Running)
    ensures Behaviour(lim, ws, steps) && Busy(ws[|steps|], id, status, retries)
  {
    ws, steps := OverlapAttained(lim, id, text, if status == Queued then retries - 1 else retries);
    var w := ws[|steps|];
    var a := ActiveOf(w.active, id);
    assert a != {};
    if status != Running {
      var e := Member(a);
      var s := if status == Queued then Recheck(id, text, true) else if status == Done then Finish(e, 0) else Fail(e);
      ExtendBehaviour(lim, ws, steps, s);
      if status != Queued {
        ActiveEnded(w.active, e, id);
      }
      ws, steps := ws + [Next(lim, w, s)], steps + [s];
    }
  }

  /** A caller who sees the request's row, but no worker, can be sure of a recheck exactly when the
      request was never rechecked and is not running. */
  lemma RowsTellIff(lim: Limits, text: string, status: Status, retries: nat)
    requires Acceptable(lim, text)
    ensures MayLoseRecheck(lim, status, retries) <==> retries > 0 || status == Running
  {
    if retries > 0 || status == Running {
      var ws, steps := BusyAttained(lim, 0, text, status, retries);
      AlwaysInv(lim, ws, steps, |steps|);
      RecheckSafeIff(lim, ws[|steps|], 0, text, true);
      assert LosesRecheck(lim, status, retries, ws, steps, 0, text);
    }
    if MayLoseRecheck(lim, status, retries) {
      var ws, steps, id, t :| LosesRecheck(lim, status, retries, ws, steps, id, t);
      AlwaysInv(lim, ws, steps, |steps|);
      RecheckSafeIff(lim, ws[|steps|], id, t, true);
      assert Bounded(ws[|steps|], id);
    }
  }

  /** Once stale with nothing at work, the request stays so until the next recheck: the queued job
      finds it done with a result and skips it, so the edited text is never analyzed. */
  lemma {:induction false} StaleStays(lim: Limits, ws: seq<World>, steps: seq<Step>, id: RequestId, i: nat)
    requires Continues(lim, ws, steps) && i < |ws|
    requires Stale(ws[0], id) && ActiveOf(ws[0].active, id) == {}
    requires forall k :: 0 <= k < |steps| ==> !Rechecks(lim, ws[k], steps[k], id)
    ensures Stale(ws[i], id) && ActiveOf(ws[i].active, id) == {}
  {
    if i > 0 {
      StaleStays(lim, ws, steps, id, i - 1);
      StaleStep(lim, ws[i - 1], steps[i - 1], id);
    }
  }

  lemma StaleStep(lim: Limits, w: World, s: Step, id: RequestId)
    requires Stale(w, id) && ActiveOf(w.active, id) == {} && Enabled(w, s) && !Rechecks(lim, w, s, id)
    ensures Stale(Next(lim, w, s), id) && ActiveOf(Next(lim, w, s).active, id) == {}
  {
    forall e | e in w.active ensures w.active[e].request != id {
      assert e !in ActiveOf(w.active, id);
    }
  }

  // ---------------------------------------------------------------- without overlap

  /** A request whose rechecks never overlapped an execution: one result exactly when done, of the
      current text; one execution at most, while running, of the current text. */
  ghost predicate Clean(w: World, id: RequestId)
  {
    id in w.requests ==>
      && (w.requests[id].status == Done <==> id in w.results)
      && (id in w.results ==> id in w.origins && w.origins[id].text == w.requests[id].text && w.origins[id].version == w.requests[id].retryCount)
      && (forall e :: e in w.active && w.active[e].request == id ==>
            w.requests[id].status == Running && w.active[e].version == w.requests[id].retryCount && w.active[e].text == w.requests[id].text)
      && (forall d, e :: d in w.active && e in w.active && w.active[d].request == id && w.active[e].request == id ==> d == e)
  }

  /** A recheck of this request comes only when none of its executions is at work. */
  ghost predicate NoOverlap(lim: Limits, w: World, s: Step, id: RequestId)
  {
    Rechecks(lim, w, s, id) ==> ActiveOf(w.active, id) == {}
  }

  lemma EndKeepsClean(w: World, e: ExecutionId, score: int, id: RequestId)
    requires Attributed(w) && Clean(w, id) && e in w.active
    ensures Clean(Finished(w, e, score), id) && Clean(FailedWorld(w, e), id) && Clean(Crashed(w, e), id)
  {
  }

  lemma RecheckKeepsClean(lim: Limits, w: World, i: RequestId, text: string, up: bool, id: RequestId)
    requires Attributed(w) && Clean(w, id)
    requires i == id && id in w.requests && |text| <= lim.maxChars ==> ActiveOf(w.active, id) == {}
    ensures Clean(Rechecked(lim, w, i, text, up), id)
  {
    assert forall e :: e in w.active && w.active[e].request == id ==> e in ActiveOf(w.active, id);
  }

  lemma SubmitKeepsClean(lim: Limits, w: World, i: RequestId, text: string, up: bool, id: RequestId)
    requires Attributed(w) && Clean(w, id)
    ensures Clean(Submitted(lim, w, i, text, up), id)
  {
  }

  lemma StepKeepsClean(lim: Limits, w: World, s: Step, id: RequestId)
    requires Attributed(w) && Clean(w, id) && Enabled(w, s) && NoOverlap(lim, w, s, id)
    ensures Clean(Next(lim, w, s), id)
  {
    match s
    case Submit(i, text, up) => SubmitKeepsClean(lim, w, i, text, up, id);
    case Finish(e, score) => EndKeepsClean(w, e, score, id);
    case Fail(e) => EndKeepsClean(w, e, 0, id);
    case Crash(e) => EndKeepsClean(w, e, 0, id);
    case Recheck(i, text, up) => RecheckKeepsClean(lim, w, i, text, up, id);
    case _ =>
  }

  /** If no recheck of a request ever overlaps one of its executions, then at every moment a result
      row is there exactly when the request is done, and it was computed from the current text. */
  lemma {:induction false} ResultIsCurrent(lim: Limits, ws: seq<World>, steps: seq<Step>, id: RequestId, i: nat)
    requires Behaviour(lim, ws, steps) && i < |ws|
    requires forall k :: 0 <= k < |steps| ==> NoOverlap(lim, ws[k], steps[k], id)
    ensures Clean(ws[i], id)
  {
    if i > 0 {
      ResultIsCurrent(lim, ws, steps, id, i - 1);
      AlwaysInv(lim, ws, steps, i - 1);
      StepKeepsClean(lim, ws[i - 1], steps[i - 1], id);
    }
  }
}
