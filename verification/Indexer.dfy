/** app/history/indexer.py: the sync loop over the tables. */
module Indexer {
  import opened Strings
  import opened Tokenize
  import opened IndexStore
  import opened Coverage

  /** What becomes of one database transaction or gateway call. A process death (or a cancelled
      job) and a raised error both leave an open transaction rolled back. */
  datatype Tick = Proceeds | Raises | Dies

  /** The environment of one run: the fate of each of its steps, and what the gateway knows. */
  datatype World = World(
    estimate: Option<int>,
    reset: Tick, running: Tick, estimating: Tick, estimated: Tick,
    fetch: nat -> Tick, store: nat -> Tick, persist: nat -> Tick,
    finish: Tick, failed: Tick)
  {
    /** Nothing fails from outside. */
    ghost predicate Proceeds()
    {
      && reset.Proceeds? && running.Proceeds? && estimating.Proceeds? && estimated.Proceeds? && finish.Proceeds? && failed.Proceeds?
      && forall k: nat :: fetch(k).Proceeds? && store(k).Proceeds? && persist(k).Proceeds?
    }
  }

  datatype Mode = Initial | Incremental | Resync

  datatype SyncError = CoverageNote(note: Note) | ErrorCode
  datatype SyncReport = SyncReport(processed: nat, newMessages: nat, endReached: bool, error: Option<SyncError>)

  /** A run returns its report, or ends without one: killed, or failing outside its `try`. */
  datatype SyncResult = Reported(report: SyncReport) | Interrupted

  datatype StoreResult = Committed(created: nat) | RolledBack(died: bool)

  /** How the paging loop ends. */
  datatype LoopEnd = SawEmptyPage | SawCap | SawError | Died

  /** How the `try` body ends: a return, an exception, or the end of the process. */
  datatype BodyEnd = Ended | Failing | Stopped

  class HistoryIndexer {
    const az: Analyzer
    var messages: map<MessageKey, MessageRow>
    var terms: set<TermKey>
    var phrases: map<PhraseKey, nat>
    var chats: map<ChatId, ChatRow>

    constructor (az: Analyzer)
      ensures this.az == az
      ensures Snapshot() == Tables(map[], {}, map[], map[])
    {
      this.az := az;
      messages, terms, phrases, chats := map[], {}, map[], map[];
    }

    function Snapshot(): Tables
      reads this
    {
      Tables(messages, terms, phrases, chats)
    }

    /** One page in one transaction: it commits whole, or leaves every table as it was. */
    method StorePage(chat: ChatId, page: seq<Message>, tick: Tick) returns (r: StoreResult)
      requires az.lex.ValidWords() && Ascending(page)
      modifies this`messages, this`terms, this`phrases
      ensures r.Committed? <==> tick.Proceeds? && !Rejected(az, old(terms), chat, page)
      ensures r.Committed? ==> Snapshot() == PageStored(az, old(Snapshot()), chat, page)
      ensures r.Committed? ==> r.created == Created(az, old(messages), chat, page)
      ensures r.RolledBack? ==> Snapshot() == old(Snapshot()) && r.died == tick.Dies?
    {
      var accepted, session, created := StagePage(az, Snapshot(), chat, page);
      if accepted && tick.Proceeds? {
        messages, terms, phrases := session.messages, session.terms, session.phrases;
        return Committed(created);
      }
      return RolledBack(tick.Dies?);
    }

    // -------------------------------------------------------------- _persist_*

    method PersistCursor(chat: ChatId, cursor: int, tick: Tick)
      modifies this`chats
      ensures Snapshot() == if tick.Proceeds? then CursorPersisted(old(Snapshot()), chat, cursor) else old(Snapshot())
      ensures chats == if tick.Proceeds? && chat in old(chats) then old(chats)[chat := old(chats[chat]).(cursor := Some(cursor))] else old(chats)
    {
      if tick.Proceeds? && chat in chats {
        chats := chats[chat := chats[chat].(cursor := Some(cursor))];
      }
    }

    /** `_persist_running` and `_persist_failed`. */
    method PersistState(chat: ChatId, state: SyncState, tick: Tick)
      modifies this`chats
      ensures Snapshot() == if tick.Proceeds? then StatePersisted(old(Snapshot()), chat, state) else old(Snapshot())
      ensures chats == if tick.Proceeds? && chat in old(chats) then old(chats)[chat := old(chats[chat]).(state := state)] else old(chats)
    {
      if tick.Proceeds? && chat in chats {
        chats := chats[chat := chats[chat].(state := state)];
      }
    }

    method PersistEstimate(chat: ChatId, estimate: Option<int>, tick: Tick)
      modifies this`chats
      ensures Snapshot() == if tick.Proceeds? then EstimatePersisted(old(Snapshot()), chat, estimate) else old(Snapshot())
      ensures tick.Proceeds? && chat in old(chats) && estimate.Some? ==> chats == old(chats)[chat := old(chats[chat]).(estimate := estimate)]
      ensures !tick.Proceeds? || chat !in old(chats) || estimate.None? ==> chats == old(chats)
    {
      if estimate.Some? && tick.Proceeds? && chat in chats {
        chats := chats[chat := chats[chat].(estimate := estimate)];
      }
    }

    /** `_persist_done` and `_persist_partial`. */
    method PersistFinish(chat: ChatId, state: SyncState, tick: Tick)
      modifies this`chats
      ensures Snapshot() == if tick.Proceeds? then FinishPersisted(old(Snapshot()), chat, state) else old(Snapshot())
      ensures tick.Proceeds? && chat in old(chats) ==>
                chats == old(chats)[chat := old(chats[chat]).(state := state, indexedCount := |set k | k in messages && k.chat == chat|)]
      ensures !tick.Proceeds? || chat !in old(chats) ==> chats == old(chats)
    {
      if tick.Proceeds? && chat in chats {
        chats := chats[chat := chats[chat].(state := state, indexedCount := |MessageRows(messages, chat)|)];
      }
    }

    // -------------------------------------------------------------- sync_chat

    /** One turn of the loop: a page is fetched and stored, then its cursor is persisted. A step
        that fails or dies ends the loop between, never inside, two transactions. */
    method SyncPage(chat: ChatId, ghost h: Histories, history: seq<Message>, cursor: int, limit: nat, fetch: Tick, store: Tick, persist: Tick)
      returns (turn: Turn)
      requires az.lex.ValidWords() && ValidHistory(history) && history == HistoryOf(h, chat)
      requires Safe(az, Snapshot(), h) && CursorSafe(az, Snapshot(), chat, history, cursor)
      modifies this`messages, this`terms, this`phrases, this`chats
      ensures Safe(az, Snapshot(), h) && CursorSafe(az, Snapshot(), chat, history, turn.cursor)
      ensures Grows(old(Snapshot()), Snapshot()) && OthersKept(old(Snapshot()), Snapshot(), chat)
      ensures |MessageRows(messages, chat)| == old(|MessageRows(messages, chat)|) + turn.created
      ensures turn.created <= turn.served <= limit
      ensures turn.end.None? ==> FirstAfter(history, cursor) < FirstAfter(history, turn.cursor)
      ensures turn.end == Some(SawEmptyPage) && limit > 0 ==> WholeHistoryIndexed(az, Snapshot(), chat, history)
      ensures turn.end != Some(SawCap)
      ensures fetch.Proceeds? && store.Proceeds? && persist.Proceeds?
              ==> UndisturbedTurn(az, old(Snapshot()), Snapshot(), chat, history, FirstAfter(history, cursor), PageEnd(history, cursor, limit), cursor, turn)
    {
      if !fetch.Proceeds? {
        return Turn(Some(if fetch.Dies? then Died else SawError), cursor, 0, 0);
      }
      var page := ServePage(history, cursor, limit);
      PageContract(history, cursor, limit);
      if page == [] {
        return Turn(Some(SawEmptyPage), cursor, 0, 0);
      }
      ghost var t := Snapshot();
      var stored := StorePage(chat, page, store);
      if stored.RolledBack? {
        return Turn(Some(if stored.died then Died else SawError), cursor, 0, 0);
      }
      var next := MaxId(page);
      PageTurn(az, t, h, chat, history, cursor, limit);
      ghost var t' := Snapshot();
      PersistCursor(chat, next, persist);
      CursorTurn(az, t, t', h, chat, history, next);
      return Turn(if persist.Proceeds? then None else Some(if persist.Dies? then Died else SawError), next, |page|, stored.created);
    }

    /** The paging loop. */
    method SyncPages(chat: ChatId, ghost h: Histories, history: seq<Message>, start: int, limitTotal: int, batch: nat, world: World)
      returns (end: LoopEnd, report: SyncReport)
      requires az.lex.ValidWords() && ValidHistory(history) && history == HistoryOf(h, chat)
      requires Safe(az, Snapshot(), h) && CursorSafe(az, Snapshot(), chat, history, start)
      modifies this`messages, this`terms, this`phrases, this`chats
      ensures Safe(az, Snapshot(), h)
      ensures Grows(old(Snapshot()), Snapshot()) && OthersKept(old(Snapshot()), Snapshot(), chat)
      ensures |MessageRows(messages, chat)| == old(|MessageRows(messages, chat)|) + report.newMessages
      ensures report.newMessages <= report.processed && !report.endReached && report.error.None?
      ensures limitTotal > 0 ==> report.processed <= limitTotal
      ensures end.SawCap? ==> limitTotal != 0 && report.processed >= limitTotal
      ensures end.SawEmptyPage? && batch > 0 ==> WholeHistoryIndexed(az, Snapshot(), chat, history)
      ensures world.Proceeds() ==> !end.Died? && Told(az, old(Snapshot()), Snapshot(), chat, history, start, limitTotal, batch, report.processed, end.SawError?)
    {
      report := SyncReport(0, 0, false, None);
      var cursor, n := start, 0;
      ghost var t0 := Snapshot();
      ghost var calm := world.Proceeds();
      while true
        invariant Safe(az, Snapshot(), h) && CursorSafe(az, Snapshot(), chat, history, cursor)
        invariant Grows(t0, Snapshot()) && OthersKept(t0, Snapshot(), chat)
        invariant |MessageRows(messages, chat)| == |MessageRows(t0.messages, chat)| + report.newMessages
        invariant report.newMessages <= report.processed && !report.endReached && report.error.None?
        invariant limitTotal > 0 ==> report.processed <= limitTotal
        invariant calm ==> Follows(az, t0, Snapshot(), chat, history, start, cursor, limitTotal, report.processed, batch)
        decreases |history| - FirstAfter(history, cursor)
      {
        var remaining := limitTotal - report.processed;
        if limitTotal != 0 && remaining <= 0 {
          if calm {
            CapTells(az, t0, Snapshot(), chat, history, start, cursor, limitTotal, report.processed, batch);
          }
          return SawCap, report;
        }
        var pageLimit := if limitTotal != 0 && remaining < batch then remaining else batch;
        assert pageLimit == PageLimit(limitTotal, report.processed, batch);
        ghost var t := Snapshot();
        var turn := SyncPage(chat, h, history, cursor, pageLimit, world.fetch(n), world.store(n), world.persist(n));
        if calm {
          TurnFollows(az, t0, t, Snapshot(), chat, history, start, cursor, limitTotal, report.processed, batch, turn);
        }
        report := report.(processed := report.processed + turn.served, newMessages := report.newMessages + turn.created);
        if turn.end.Some? {
          return turn.end.value, report;
        }
        cursor, n := turn.cursor, n + 1;
      }
    }

    /** The end of the loop put on record: DONE after an empty page, PARTIAL with the coverage
        note of the chat object after the cap. */
    method Finish(chat: ChatId, ghost h: Histories, sawEmptyPage: bool, me: ChatRow, pages: SyncReport, tick: Tick)
      returns (report: SyncReport)
      requires Safe(az, Snapshot(), h) && pages.error.None? && !pages.endReached
      modifies this`chats
      ensures Safe(az, Snapshot(), h)
      ensures Grows(old(Snapshot()), Snapshot()) && OthersKept(old(Snapshot()), Snapshot(), chat) && messages == old(messages)
      ensures report.(error := None, endReached := false) == pages
      ensures report.endReached == sawEmptyPage
      ensures tick.Proceeds? && chat in chats ==> Verdict(report, chats[chat].state) && chats[chat].indexedCount == |MessageRows(messages, chat)|
      ensures tick.Proceeds? ==> report.error.None? == sawEmptyPage && report.error != Some(ErrorCode)
    {
      var state := if sawEmptyPage then Done else Partial;
      FinishKeepsSafe(az, Snapshot(), h, chat, state);
      PersistFinish(chat, state, tick);
      report := pages.(endReached := sawEmptyPage,
                       error := if sawEmptyPage then None else Some(CoverageNote(ComputeCoverage(me).note)));
    }

    /** The estimate is asked for, and kept when there is one. */
    method Estimate(chat: ChatId, ghost h: Histories, history: seq<Message>, ghost cursor: int, world: World) returns (fate: Tick)
      requires Safe(az, Snapshot(), h) && CursorSafe(az, Snapshot(), chat, history, cursor)
      modifies this`chats
      ensures Safe(az, Snapshot(), h) && CursorSafe(az, Snapshot(), chat, history, cursor)
      ensures Grows(old(Snapshot()), Snapshot()) && OthersKept(old(Snapshot()), Snapshot(), chat) && NothingStored(old(Snapshot()), Snapshot(), chat)
      ensures fate == if !world.estimating.Proceeds? then world.estimating else if world.estimate.Some? then world.estimated else Proceeds
    {
      ghost var t := Snapshot();
      if !world.estimating.Proceeds? {
        return world.estimating;
      }
      EstimateTurn(az, t, h, chat, history, cursor, world.estimate);
      PersistEstimate(chat, world.estimate, world.estimated);
      return if world.estimate.Some? then world.estimated else Proceeds;
    }

    /** The body of the `try`: the estimate, the pages, the end. */
    method SyncBody(chat: ChatId, ghost h: Histories, history: seq<Message>, me: ChatRow, limitTotal: int, batch: nat, world: World)
      returns (end: BodyEnd, report: SyncReport)
      requires az.lex.ValidWords() && ValidHistory(history) && history == HistoryOf(h, chat)
      requires Safe(az, Snapshot(), h) && CursorSafe(az, Snapshot(), chat, history, CursorOf(me))
      modifies this`messages, this`terms, this`phrases, this`chats
      ensures Safe(az, Snapshot(), h)
      ensures Grows(old(Snapshot()), Snapshot()) && OthersKept(old(Snapshot()), Snapshot(), chat)
      ensures |MessageRows(messages, chat)| == old(|MessageRows(messages, chat)|) + report.newMessages
      ensures report.newMessages <= report.processed && (limitTotal > 0 ==> report.processed <= limitTotal)
      ensures end.Ended? && chat in chats ==> Verdict(report, chats[chat].state) && chats[chat].indexedCount == |MessageRows(messages, chat)|
      ensures end.Ended? ==> report.error != Some(ErrorCode)
      ensures end.Ended? && report.error.None? && batch > 0 ==> WholeHistoryIndexed(az, Snapshot(), chat, history)
      ensures end.Ended? && report.error.Some? ==> limitTotal != 0 && report.processed >= limitTotal
      ensures world.Proceeds() ==> !end.Stopped? && (end.Failing? <==> Blocked(az, old(terms), chat, history, CursorOf(me), limitTotal, batch))
      ensures world.Proceeds() && StuckAt(az, old(terms), chat, history, CursorOf(me), limitTotal, batch)
              ==> NothingStored(old(Snapshot()), Snapshot(), chat) && report.processed == 0
    {
      ghost var t := Snapshot();
      var fate := Estimate(chat, h, history, CursorOf(me), world);
      if !fate.Proceeds? {
        return if fate.Dies? then Stopped else Failing, SyncReport(0, 0, false, None);
      }
      ghost var t1 := Snapshot();
      var loopEnd;
      loopEnd, report := SyncPages(chat, h, history, CursorOf(me), limitTotal, batch, world);
      ghost var t2 := Snapshot();
      if loopEnd.Died? || loopEnd.SawError? {
        return if loopEnd.Died? then Stopped else Failing, report;
      }
      report := Finish(chat, h, loopEnd.SawEmptyPage?, me, report, world.finish);
      WholeHistoryKept(az, t2, Snapshot(), chat, history);
      return if world.finish.Proceeds? then Ended else if world.finish.Dies? then Stopped else Failing, report;
    }

    /** Before the `try`: a resync forgets its cursor, then the run is marked. */
    method Begin(chat: ChatId, ghost h: Histories, history: seq<Message>, mode: Mode, loaded: ChatRow, world: World)
      returns (started: bool, me: ChatRow)
      requires ValidHistory(history) && history == HistoryOf(h, chat)
      requires Safe(az, Snapshot(), h) && CursorSafe(az, Snapshot(), chat, history, CursorOf(loaded))
      modifies this`chats
      ensures Safe(az, Snapshot(), h) && CursorSafe(az, Snapshot(), chat, history, CursorOf(me))
      ensures Grows(old(Snapshot()), Snapshot()) && OthersKept(old(Snapshot()), Snapshot(), chat) && messages == old(messages)
      ensures started <==> (mode == Resync ==> world.reset.Proceeds?) && world.running.Proceeds?
      ensures started ==> NothingStored(if mode == Resync then CursorPersisted(old(Snapshot()), chat, 0) else old(Snapshot()), Snapshot(), chat)
      ensures me == if mode == Resync then loaded.(cursor := None, indexedCount := 0) else loaded
    {
      me := loaded;
      ghost var t := Snapshot();
      if mode == Resync {
        me := me.(cursor := None, indexedCount := 0);
        ResetTurn(az, t, h, chat, history);
        PersistCursor(chat, 0, world.reset);
        if !world.reset.Proceeds? {
          return false, me;
        }
      }
      StateTurn(az, Snapshot(), h, chat, history, CursorOf(me), Running);
      PersistState(chat, Running, world.running);
      return world.running.Proceeds?, me;
    }

    /** One run of a sync job. `loaded` is the chat object the job read, perhaps long ago. */
    method SyncChat(chat: ChatId, ghost h: Histories, history: seq<Message>, mode: Mode, loaded: ChatRow,
                    maxMessages: int, batch: nat, world: World)
      returns (r: SyncResult)
      requires az.lex.ValidWords() && ValidHistory(history) && history == HistoryOf(h, chat)
      requires Safe(az, Snapshot(), h) && CursorSafe(az, Snapshot(), chat, history, CursorOf(loaded))
      modifies this`messages, this`terms, this`phrases, this`chats
      ensures Safe(az, Snapshot(), h)
      ensures Grows(old(Snapshot()), Snapshot()) && OthersKept(old(Snapshot()), Snapshot(), chat)
      ensures r.Reported? ==> Accounted(r.report, old(messages), messages, chat, mode, maxMessages)
      ensures r.Reported? && chat in chats ==> Verdict(r.report, chats[chat].state)
      ensures r.Reported? && chat in chats && r.report.error != Some(ErrorCode) ==> chats[chat].indexedCount == |MessageRows(messages, chat)|
      ensures r.Reported? && r.report.error.None? && batch > 0 ==> WholeHistoryIndexed(az, Snapshot(), chat, history)
      ensures r.Reported? && r.report.error.Some? && r.report.error.value.CoverageNote?
              ==> mode != Incremental && maxMessages != 0 && r.report.processed >= maxMessages
      ensures var start, cap := if mode == Resync then 0 else CursorOf(loaded), if mode == Incremental then 0 else maxMessages;
              world.Proceeds() ==> r.Reported? && (r.report.error == Some(ErrorCode) <==> Blocked(az, old(terms), chat, history, start, cap, batch))
      ensures var start, cap := if mode == Resync then 0 else CursorOf(loaded), if mode == Incremental then 0 else maxMessages;
              world.Proceeds() && StuckAt(az, old(terms), chat, history, start, cap, batch)
              ==> NothingStored(if mode == Resync then CursorPersisted(old(Snapshot()), chat, 0) else old(Snapshot()), Snapshot(), chat)
    {
      ghost var t := Snapshot();
      var started, me := Begin(chat, h, history, mode, loaded, world);
      if !started {
        return Interrupted;
      }
      ghost var t1 := Snapshot();
      var end, report := SyncBody(chat, h, history, me, if mode == Incremental then 0 else maxMessages, batch, world);
      ghost var t2 := Snapshot();
      r := Record(chat, h, end, report, world.failed);
      WholeHistoryKept(az, t2, Snapshot(), chat, history);
    }

    /** The ways out of the `try`: its return, the failure put on record, or none. */
    method Record(chat: ChatId, ghost h: Histories, end: BodyEnd, report: SyncReport, failed: Tick) returns (r: SyncResult)
      requires Safe(az, Snapshot(), h)
      modifies this`chats
      ensures Safe(az, Snapshot(), h) && messages == old(messages)
      ensures Grows(old(Snapshot()), Snapshot()) && OthersKept(old(Snapshot()), Snapshot(), chat) && NothingStored(old(Snapshot()), Snapshot(), chat)
      ensures r == if end.Ended? then Reported(report)
                   else if end.Failing? && failed.Proceeds? then Reported(report.(error := Some(ErrorCode))) else Interrupted
      ensures r.Reported? && !end.Ended? && chat in chats ==> chats[chat].state == Failed
      ensures end.Ended? ==> Snapshot() == old(Snapshot())
    {
      if end.Ended? {
        return Reported(report);
      }
      if end.Stopped? || !failed.Proceeds? {
        return Interrupted;
      }
      StateKeepsSafe(az, Snapshot(), h, chat, Failed);
      PersistState(chat, Failed, failed);
      return Reported(report.(error := Some(ErrorCode)));
    }
  }

  /** What one turn of the loop did: why it ended the loop, the cursor it reached, what it served
      and created. */
  datatype Turn = Turn(end: Option<LoopEnd>, cursor: int, served: nat, created: nat)

  /** One turn from outside undisturbed, with the page from place `at` to `end`: it ends the loop with
      an error exactly when the page cannot be stored, and then leaves tables and cursor as they were. */
  ghost predicate UndisturbedTurn(az: Analyzer, t: Tables, t': Tables, chat: ChatId, history: seq<Message>, at: nat, end: nat, cursor: int, turn: Turn)
    requires Ascending(history) && at <= end <= |history|
  {
    if at == end then turn == Turn(Some(SawEmptyPage), cursor, 0, 0) && t' == t
    else if Rejected(az, t.terms, chat, history[at..end]) then turn == Turn(Some(SawError), cursor, 0, 0) && t' == t
    else
      && turn.end.None? && turn.served == end - at && FirstAfter(history, turn.cursor) == end
      && t'.terms == t.terms + PageTerms(az, chat, history[at..end])
  }

  predicate Capped(limitTotal: int, processed: nat)
  {
    limitTotal != 0 && limitTotal <= processed
  }

  function PageLimit(limitTotal: int, processed: nat, batch: nat): nat
    requires !Capped(limitTotal, processed)
  {
    if limitTotal != 0 && limitTotal - processed < batch then limitTotal - processed else batch
  }

  /** A row of the message is there already, or a term of it is too long. */
  ghost predicate Refused(az: Analyzer, terms: set<TermKey>, chat: ChatId, m: Message)
  {
    exists k :: k in NewTerms(az, chat, m) && !Accepts(terms, k)
  }

  /** The places of a history whose messages cannot be stored. */
  ghost function RefusedPlaces(az: Analyzer, terms: set<TermKey>, chat: ChatId, history: seq<Message>): set<nat>
  {
    set i: nat | i < |history| && Refused(az, terms, chat, history[i])
  }

  predicate Hits(places: set<nat>, lo: nat, hi: nat)
  {
    exists i :: i in places && lo <= i < hi
  }

  /** Where the messages end that a run may be served: at its cap, or with the history. */
  function Reach(history: seq<Message>, cursor: int, limitTotal: int, batch: nat): (hi: nat)
    requires Ascending(history)
    ensures FirstAfter(history, cursor) <= hi <= |history|
  {
    var lo := FirstAfter(history, cursor);
    if batch == 0 || limitTotal < 0 then lo
    else if limitTotal == 0 || lo + limitTotal >= |history| then |history|
    else lo + limitTotal
  }

  function FirstPageEnd(history: seq<Message>, cursor: int, limitTotal: int, batch: nat): (hi: nat)
    requires Ascending(history)
    ensures hi <= |history|
  {
    var lo, hi := FirstAfter(history, cursor), Reach(history, cursor, limitTotal, batch);
    if lo + batch <= hi then lo + batch else hi
  }

  /** A run that nothing disturbs from outside comes to a page that cannot be stored: a message that
      it may be served has a term row, or an overlong term. */
  ghost predicate Blocked(az: Analyzer, terms: set<TermKey>, chat: ChatId, history: seq<Message>, cursor: int, limitTotal: int, batch: nat)
    requires Ascending(history)
  {
    Hits(RefusedPlaces(az, terms, chat, history), FirstAfter(history, cursor), Reach(history, cursor, limitTotal, batch))
  }

  /** And it does so with its first page. */
  ghost predicate StuckAt(az: Analyzer, terms: set<TermKey>, chat: ChatId, history: seq<Message>, cursor: int, limitTotal: int, batch: nat)
    requires Ascending(history)
  {
    Hits(RefusedPlaces(az, terms, chat, history), FirstAfter(history, cursor), FirstPageEnd(history, cursor, limitTotal, batch))
  }

  lemma RefusedRejects(az: Analyzer, terms: set<TermKey>, chat: ChatId, page: seq<Message>, m: Message)
    requires m in page && Refused(az, terms, chat, m)
    ensures Rejected(az, terms, chat, page)
  {
    var k :| k in NewTerms(az, chat, m) && !Accepts(terms, k);
    InPageTerms(az, chat, page, k);
  }

  lemma RejectedHasRefused(az: Analyzer, terms: set<TermKey>, chat: ChatId, page: seq<Message>) returns (j: nat)
    requires Rejected(az, terms, chat, page)
    ensures j < |page| && Refused(az, terms, chat, page[j])
  {
    var k :| k in PageTerms(az, chat, page) && !Accepts(terms, k);
    InPageTerms(az, chat, page, k);
    var m :| m in page && k in NewTerms(az, chat, m);
    j :| j < |page| && page[j] == m;
  }

  /** A page is rejected exactly when a refused message is among its places. */
  lemma PageRefusedIff(az: Analyzer, terms: set<TermKey>, chat: ChatId, history: seq<Message>, lo: nat, hi: nat)
    requires lo <= hi <= |history|
    ensures Rejected(az, terms, chat, history[lo..hi]) <==> Hits(RefusedPlaces(az, terms, chat, history), lo, hi)
  {
    if Rejected(az, terms, chat, history[lo..hi]) {
      RejectedHits(az, terms, chat, history, lo, hi);
    }
    if Hits(RefusedPlaces(az, terms, chat, history), lo, hi) {
      var i :| i in RefusedPlaces(az, terms, chat, history) && lo <= i < hi;
      SliceHas(history, lo, hi, i);
      RefusedRejects(az, terms, chat, history[lo..hi], history[i]);
    }
  }

  lemma RejectedHits(az: Analyzer, terms: set<TermKey>, chat: ChatId, history: seq<Message>, lo: nat, hi: nat)
    requires lo <= hi <= |history| && Rejected(az, terms, chat, history[lo..hi])
    ensures Hits(RefusedPlaces(az, terms, chat, history), lo, hi)
  {
    var j := RejectedHasRefused(az, terms, chat, history[lo..hi]);
    PlaceHits(az, terms, chat, history, lo, hi, j);
  }

  lemma PlaceHits(az: Analyzer, terms: set<TermKey>, chat: ChatId, history: seq<Message>, lo: nat, hi: nat, j: nat)
    requires lo <= hi <= |history| && j < hi - lo && Refused(az, terms, chat, history[lo..hi][j])
    ensures Hits(RefusedPlaces(az, terms, chat, history), lo, hi)
  {
    assert history[lo..hi][j] == history[lo + j];
    assert lo + j in RefusedPlaces(az, terms, chat, history);
  }

  /** A message that is indexed already is refused exactly when it has a term. */
  lemma IndexedRefusedIff(az: Analyzer, t: Tables, chat: ChatId, m: Message)
    requires Inked(az, m) ==> Indexed(az, t, chat, m)
    ensures Refused(az, t.terms, chat, m) <==> Inked(az, m) && TermsOf(az, m) != {}
  {
    if Inked(az, m) && TermsOf(az, m) != {} {
      var term := Member(TermsOf(az, m));
      InNewTerms(az, chat, m, TermKey(chat, term, m.id));
    }
    if Refused(az, t.terms, chat, m) {
      var k :| k in NewTerms(az, chat, m) && !Accepts(t.terms, k);
      InNewTerms(az, chat, m, k);
    }
  }

  /** So an undisturbed resync of a fully indexed chat fails exactly when one of the messages that it
      may be served has a term. */
  lemma ResyncBlockedIff(az: Analyzer, t: Tables, chat: ChatId, history: seq<Message>, limitTotal: int, batch: nat)
    requires Ascending(history) && WholeHistoryIndexed(az, t, chat, history)
    ensures Blocked(az, t.terms, chat, history, 0, limitTotal, batch)
            <==> exists i | FirstAfter(history, 0) <= i < Reach(history, 0, limitTotal, batch) :: Inked(az, history[i]) && TermsOf(az, history[i]) != {}
  {
    var places := RefusedPlaces(az, t.terms, chat, history);
    forall i: nat | i < |history| ensures i in places <==> Inked(az, history[i]) && TermsOf(az, history[i]) != {} {
      assert history[i] in history;
      IndexedRefusedIff(az, t, chat, history[i]);
    }
  }

  /** The rows of earlier messages refuse none of a later one. */
  lemma LaterUnaffected(az: Analyzer, terms: set<TermKey>, chat: ChatId, history: seq<Message>, lo: nat, hi: nat, i: nat)
    requires Ascending(history) && lo <= hi <= i < |history|
    ensures Refused(az, terms + PageTerms(az, chat, history[lo..hi]), chat, history[i]) <==> Refused(az, terms, chat, history[i])
  {
    var page := history[lo..hi];
    forall k | k in NewTerms(az, chat, history[i]) ensures k !in PageTerms(az, chat, page) {
      InPageTerms(az, chat, page, k);
      InNewTerms(az, chat, history[i], k);
      forall m | m in page ensures k !in NewTerms(az, chat, m) {
        InNewTerms(az, chat, m, k);
      }
    }
  }

  /** So the places further on are refused as before. */
  lemma LaterPlacesKept(az: Analyzer, terms: set<TermKey>, chat: ChatId, history: seq<Message>, lo: nat, hi: nat)
    requires Ascending(history) && lo <= hi <= |history|
    ensures SameFrom(RefusedPlaces(az, terms + PageTerms(az, chat, history[lo..hi]), chat, history), RefusedPlaces(az, terms, chat, history), hi)
  {
    forall i | hi <= i < |history|
      ensures Refused(az, terms + PageTerms(az, chat, history[lo..hi]), chat, history[i]) <==> Refused(az, terms, chat, history[i])
    {
      LaterUnaffected(az, terms, chat, history, lo, hi, i);
    }
  }

  predicate SameFrom(a: set<nat>, b: set<nat>, lo: nat)
  {
    (forall i :: i in a && i >= lo ==> i in b) && (forall i :: i in b && i >= lo ==> i in a)
  }

  lemma AfterPage(history: seq<Message>, cursor: int, limit: nat)
    requires Ascending(history) && ServePage(history, cursor, limit) != []
    ensures FirstAfter(history, MaxId(ServePage(history, cursor, limit))) == PageEnd(history, cursor, limit)
  {
    var hi := PageEnd(history, cursor, limit);
    SliceMax(history, FirstAfter(history, cursor), hi);
    NextPlace(history, hi);
  }

  lemma NextPlace(history: seq<Message>, hi: nat)
    requires Ascending(history) && 0 < hi <= |history|
    ensures FirstAfter(history, history[hi - 1].id) == hi
  {
    var i := FirstAfter(history, history[hi - 1].id);
    assert hi < |history| ==> history[hi - 1].id < history[hi].id;
  }

  /** Where a loop is after it has passed some places, against where it started: none of them was
      refused, and the rest are as they were. */
  predicate OnTrack(before: set<nat>, now: set<nat>, lo: nat, at: nat)
  {
    !Hits(before, lo, at) && SameFrom(now, before, at)
  }

  /** A loop that started at `start`, as seen between two turns. */
  ghost predicate Follows(az: Analyzer, t0: Tables, t: Tables, chat: ChatId, history: seq<Message>, start: int, cursor: int,
                          limitTotal: int, done: nat, batch: nat)
    requires Ascending(history)
  {
    var lo := FirstAfter(history, start);
    && FirstAfter(history, cursor) == lo + done
    && lo + done <= Reach(history, start, limitTotal, batch)
    && (if done == 0 then t == t0 else FirstPageEnd(history, start, limitTotal, batch) <= lo + done)
    && OnTrack(RefusedPlaces(az, t0.terms, chat, history), RefusedPlaces(az, t.terms, chat, history), lo, lo + done)
  }

  /** Where the next page ends, in terms of the start. */
  lemma PageWithinReach(history: seq<Message>, start: int, cursor: int, limitTotal: int, done: nat, batch: nat)
    requires Ascending(history) && !Capped(limitTotal, done) && FirstAfter(history, cursor) == FirstAfter(history, start) + done
    requires FirstAfter(history, start) + done <= Reach(history, start, limitTotal, batch)
    ensures var lo, hi, end := FirstAfter(history, start) + done, Reach(history, start, limitTotal, batch), PageEnd(history, cursor, PageLimit(limitTotal, done, batch));
            end == (if lo + batch <= hi then lo + batch else hi) && (end == lo ==> lo == hi)
  {
    var lo, limit := FirstAfter(history, start) + done, PageLimit(limitTotal, done, batch);
    assert PageEnd(history, cursor, limit) == if lo + limit <= |history| then lo + limit else |history|;
    if limitTotal == 0 {
      assert Reach(history, start, limitTotal, batch) == if batch == 0 then lo - done else |history|;
    } else {
      assert limitTotal > done;
    }
  }

  lemma StoredStaysOnTrack(az: Analyzer, before: set<nat>, terms: set<TermKey>, chat: ChatId, history: seq<Message>, lo: nat, at: nat, end: nat)
    requires Ascending(history) && lo <= at <= end <= |history|
    requires OnTrack(before, RefusedPlaces(az, terms, chat, history), lo, at) && !Rejected(az, terms, chat, history[at..end])
    ensures OnTrack(before, RefusedPlaces(az, terms + PageTerms(az, chat, history[at..end]), chat, history), lo, end)
  {
    PageRefusedIff(az, terms, chat, history, at, end);
    LaterPlacesKept(az, terms, chat, history, at, end);
  }

  /** A turn that stores its page leaves the loop on its track. */
  lemma StoredFollows(az: Analyzer, t0: Tables, t: Tables, t': Tables, chat: ChatId, history: seq<Message>, start: int, cursor: int, next: int,
                      limitTotal: int, done: nat, batch: nat)
    requires Ascending(history) && Follows(az, t0, t, chat, history, start, cursor, limitTotal, done, batch)
    requires !Capped(limitTotal, done)
    requires var at, end := FirstAfter(history, cursor), PageEnd(history, cursor, PageLimit(limitTotal, done, batch));
             && at < end && FirstAfter(history, next) == end
             && !Rejected(az, t.terms, chat, history[at..end]) && t'.terms == t.terms + PageTerms(az, chat, history[at..end])
    ensures var at, end := FirstAfter(history, cursor), PageEnd(history, cursor, PageLimit(limitTotal, done, batch));
            Follows(az, t0, t', chat, history, start, next, limitTotal, done + end - at, batch)
  {
    var at, end := FirstAfter(history, cursor), PageEnd(history, cursor, PageLimit(limitTotal, done, batch));
    PageWithinReach(history, start, cursor, limitTotal, done, batch);
    StoredStaysOnTrack(az, RefusedPlaces(az, t0.terms, chat, history), t.terms, chat, history, FirstAfter(history, start), at, end);
  }

  /** What the end of a loop says of its start. */
  ghost predicate Told(az: Analyzer, t0: Tables, t: Tables, chat: ChatId, history: seq<Message>, start: int, limitTotal: int, batch: nat,
                       done: nat, error: bool)
    requires Ascending(history)
  {
    && (error <==> Blocked(az, t0.terms, chat, history, start, limitTotal, batch))
    && (StuckAt(az, t0.terms, chat, history, start, limitTotal, batch) ==> t == t0 && done == 0)
  }

  lemma CapTells(az: Analyzer, t0: Tables, t: Tables, chat: ChatId, history: seq<Message>, start: int, cursor: int,
                 limitTotal: int, done: nat, batch: nat)
    requires Ascending(history) && Follows(az, t0, t, chat, history, start, cursor, limitTotal, done, batch) && Capped(limitTotal, done)
    ensures Told(az, t0, t, chat, history, start, limitTotal, batch, done, false)
  {
  }

  lemma EndTells(az: Analyzer, t0: Tables, t: Tables, chat: ChatId, history: seq<Message>, start: int, cursor: int,
                 limitTotal: int, done: nat, batch: nat)
    requires Ascending(history) && Follows(az, t0, t, chat, history, start, cursor, limitTotal, done, batch) && !Capped(limitTotal, done)
    requires var at, end := FirstAfter(history, cursor), PageEnd(history, cursor, PageLimit(limitTotal, done, batch));
             at == end || Rejected(az, t.terms, chat, history[at..end])
    ensures Told(az, t0, t, chat, history, start, limitTotal, batch, done,
                 FirstAfter(history, cursor) != PageEnd(history, cursor, PageLimit(limitTotal, done, batch)))
  {
    PageWithinReach(history, start, cursor, limitTotal, done, batch);
    PageRefusedIff(az, t.terms, chat, history, FirstAfter(history, start) + done, PageEnd(history, cursor, PageLimit(limitTotal, done, batch)));
  }

  lemma TurnFollows(az: Analyzer, t0: Tables, t: Tables, t': Tables, chat: ChatId, history: seq<Message>, start: int, cursor: int,
                    limitTotal: int, done: nat, batch: nat, turn: Turn)
    requires Ascending(history) && Follows(az, t0, t, chat, history, start, cursor, limitTotal, done, batch)
    requires !Capped(limitTotal, done)
    requires UndisturbedTurn(az, t, t', chat, history, FirstAfter(history, cursor), PageEnd(history, cursor, PageLimit(limitTotal, done, batch)), cursor, turn)
    ensures turn.end.None? ==> Follows(az, t0, t', chat, history, start, turn.cursor, limitTotal, done + turn.served, batch)
    ensures turn.end.Some? ==> !turn.end.value.Died?
    ensures turn.end.Some? ==> Told(az, t0, t', chat, history, start, limitTotal, batch, done + turn.served, turn.end.value.SawError?)
  {
    if turn.end.None? {
      StoredFollows(az, t0, t, t', chat, history, start, cursor, turn.cursor, limitTotal, done, batch);
    } else {
      EndTells(az, t0, t, chat, history, start, cursor, limitTotal, done, batch);
    }
  }

  /** Rows, relation and aggregates are as they were, and so is the cursor of the chat. */
  ghost predicate NothingStored(t: Tables, t': Tables, chat: ChatId)
  {
    && t'.messages == t.messages && t'.terms == t.terms && t'.phrases == t.phrases
    && (chat in t'.chats <==> chat in t.chats) && (chat in t.chats ==> t'.chats[chat].cursor == t.chats[chat].cursor)
  }

  lemma EstimateTurn(az: Analyzer, t: Tables, h: Histories, chat: ChatId, history: seq<Message>, cursor: int, estimate: Option<int>)
    requires Safe(az, t, h) && CursorSafe(az, t, chat, history, cursor)
    ensures var t1 := EstimatePersisted(t, chat, estimate);
            Safe(az, t1, h) && CursorSafe(az, t1, chat, history, cursor) && Grows(t, t1) && OthersKept(t, t1, chat)
  {
    EstimateKeepsSafe(az, t, h, chat, estimate);
    GrownIndexed(az, t, EstimatePersisted(t, chat, estimate), chat, history, cursor);
  }

  lemma StateTurn(az: Analyzer, t: Tables, h: Histories, chat: ChatId, history: seq<Message>, cursor: int, state: SyncState)
    requires Safe(az, t, h) && CursorSafe(az, t, chat, history, cursor)
    ensures var t1 := StatePersisted(t, chat, state);
            Safe(az, t1, h) && CursorSafe(az, t1, chat, history, cursor) && Grows(t, t1) && OthersKept(t, t1, chat) && NothingStored(t, t1, chat)
  {
    StateKeepsSafe(az, t, h, chat, state);
    GrownIndexed(az, t, StatePersisted(t, chat, state), chat, history, cursor);
  }

  lemma ResetTurn(az: Analyzer, t: Tables, h: Histories, chat: ChatId, history: seq<Message>)
    requires Safe(az, t, h) && ValidHistory(history) && history == HistoryOf(h, chat)
    ensures var t1 := CursorPersisted(t, chat, 0);
            Safe(az, t1, h) && CursorSafe(az, t, chat, history, 0) && CursorSafe(az, t1, chat, history, 0) && Grows(t, t1) && OthersKept(t, t1, chat)
  {
    ZeroIsSafe(az, t, chat, history);
    CursorKeepsSafe(az, t, h, chat, 0);
    GrownIndexed(az, t, CursorPersisted(t, chat, 0), chat, history, 0);
  }

  /** The page transaction of one turn. */
  lemma PageTurn(az: Analyzer, t: Tables, h: Histories, chat: ChatId, history: seq<Message>, cursor: int, limit: nat)
    requires ValidHistory(history) && history == HistoryOf(h, chat)
    requires Safe(az, t, h) && CursorSafe(az, t, chat, history, cursor)
    requires ServePage(history, cursor, limit) != [] && !Rejected(az, t.terms, chat, ServePage(history, cursor, limit))
    ensures var page := ServePage(history, cursor, limit); var t' := PageStored(az, t, chat, page);
            && Safe(az, t', h) && CursorSafe(az, t', chat, history, MaxId(page))
            && Grows(t, t') && OthersKept(t, t', chat)
            && |MessageRows(t'.messages, chat)| == |MessageRows(t.messages, chat)| + Created(az, t.messages, chat, page)
            && FirstAfter(history, cursor) < FirstAfter(history, MaxId(page)) == PageEnd(history, cursor, limit)
  {
    var page := ServePage(history, cursor, limit);
    PageContract(history, cursor, limit);
    PageKeepsSafe(az, t, h, chat, page);
    PageStoredGrows(az, t, chat, page);
    PageKeepsOthers(az, t, chat, page);
    CreatedCounts(az, t.messages, chat, page, chat);
    NextCursorSafe(az, t, chat, history, cursor, limit);
    AfterPage(history, cursor, limit);
  }

  /** The cursor transaction of one turn, committed or not. */
  lemma CursorTurn(az: Analyzer, t: Tables, t1: Tables, h: Histories, chat: ChatId, history: seq<Message>, next: int)
    requires history == HistoryOf(h, chat)
    requires Safe(az, t1, h) && CursorSafe(az, t1, chat, history, next) && Grows(t, t1) && OthersKept(t, t1, chat)
    ensures var t2 := CursorPersisted(t1, chat, next);
            && Safe(az, t2, h) && CursorSafe(az, t2, chat, history, next)
            && Grows(t, t2) && OthersKept(t, t2, chat) && t2.messages == t1.messages
  {
    CursorKeepsSafe(az, t1, h, chat, next);
    GrownIndexed(az, t1, CursorPersisted(t1, chat, next), chat, history, next);
  }

  /** The tables without a chat. */
  function Others(t: Tables, chat: ChatId): Tables
  {
    Tables(map k | k in t.messages && k.chat != chat :: t.messages[k],
           set k | k in t.terms && k.chat != chat,
           map k | k in t.phrases && k.chat != chat :: t.phrases[k],
           map c | c in t.chats && c != chat :: t.chats[c])
  }

  /** A run touches the rows of its own chat only. */
  predicate OthersKept(t: Tables, t': Tables, chat: ChatId)
  {
    Others(t', chat) == Others(t, chat) && (chat in t'.chats <==> chat in t.chats)
  }

  /** The report's numbers: rows gained are the new messages, among those processed, within the cap. */
  ghost predicate Accounted(report: SyncReport, before: map<MessageKey, MessageRow>, after: map<MessageKey, MessageRow>,
                            chat: ChatId, mode: Mode, maxMessages: int)
  {
    && |MessageRows(after, chat)| == |MessageRows(before, chat)| + report.newMessages
    && report.newMessages <= report.processed
    && (mode != Incremental && maxMessages > 0 ==> report.processed <= maxMessages)
  }

  /** The state a reported run leaves: DONE after an empty page, PARTIAL after the cap, FAILED
      after an error. */
  predicate Verdict(report: SyncReport, state: SyncState)
  {
    match report.error
    case None => report.endReached && state == Done
    case Some(CoverageNote(_)) => !report.endReached && state == Partial
    case Some(ErrorCode) => state == Failed
  }

  lemma WholeHistoryKept(az: Analyzer, t: Tables, t': Tables, chat: ChatId, history: seq<Message>)
    requires Grows(t, t')
    ensures WholeHistoryIndexed(az, t, chat, history) ==> WholeHistoryIndexed(az, t', chat, history)
  {
  }

  lemma PageKeepsOthers(az: Analyzer, t: Tables, chat: ChatId, page: seq<Message>)
    ensures OthersKept(t, PageStored(az, t, chat, page), chat)
  {
    var t' := PageStored(az, t, chat, page);
    forall k: MessageKey | k.chat != chat
      ensures k in t'.messages <==> k in t.messages
      ensures k in t.messages ==> t'.messages[k] == t.messages[k]
    {
      StoredKeys(az, t.messages, chat, page, k);
    }
    forall k: TermKey | k.chat != chat ensures k in t'.terms <==> k in t.terms {
      OwnTermsOnly(az, chat, page, k);
    }
    forall k: PhraseKey | k.chat != chat
      ensures k in t'.phrases <==> k in t.phrases
      ensures k in t.phrases ==> t'.phrases[k] == t.phrases[k]
    {
      OwnPhrasesOnly(az, t.phrases, chat, page, k);
    }
    assert Others(t', chat).messages == Others(t, chat).messages;
    assert Others(t', chat).terms == Others(t, chat).terms;
    assert Others(t', chat).phrases == Others(t, chat).phrases;
  }

  lemma OwnTermsOnly(az: Analyzer, chat: ChatId, page: seq<Message>, k: TermKey)
    requires k.chat != chat
    ensures k !in PageTerms(az, chat, page)
  {
    InPageTerms(az, chat, page, k);
    forall m ensures k !in NewTerms(az, chat, m) {
      InNewTerms(az, chat, m, k);
    }
  }

  lemma OwnPhrasesOnly(az: Analyzer, phrases: map<PhraseKey, nat>, chat: ChatId, page: seq<Message>, k: PhraseKey)
    requires k.chat != chat
    ensures var after := AddCounts(az, phrases, chat, page);
            (k in after <==> k in phrases) && (k in phrases ==> after[k] == phrases[k])
  {
    AddedCount(az, phrases, chat, page, k.chat, k.term);
    assert k == PhraseKey(k.chat, k.term);
  }

  // ---------------------------------------------------------------- _store_page, inside its session

  /** Adds the term rows of one message and counts its terms, until a row is refused. */
  method AddTermRows(rows: set<TermKey>, chat: ChatId, id: MessageId, found: set<Term>, counts: map<Term, nat>)
    returns (ok: bool, rows': set<TermKey>, counts': map<Term, nat>)
    ensures ok <==> AcceptsAll(rows, KeysFor(chat, id, found))
    ensures ok ==> rows' == rows + KeysFor(chat, id, found)
    ensures ok ==> CountedOnce(counts, counts', found)
  {
    ok, rows', counts' := true, rows, counts;
    var done: set<Term> := {};
    while done != found
      invariant done <= found
      invariant rows' == rows + KeysFor(chat, id, done)
      invariant AcceptsAll(rows, KeysFor(chat, id, done))
      invariant CountedOnce(counts, counts', done)
      decreases found - done
    {
      var term :| term in found && term !in done;
      var key := TermKey(chat, term, id);
      RowOneMore(rows, chat, id, found, done, term);
      if !Accepts(rows', key) {
        ok := false;
        return;
      }
      CountOneMore(counts, counts', done, term);
      counts' := counts'[term := CountIn(counts', term) + 1];
      rows' := rows' + {key};
      done := done + {term};
    }
  }

  /** The next row of a message is acceptable now iff it was at the start. */
  lemma RowOneMore(rows: set<TermKey>, chat: ChatId, id: MessageId, found: set<Term>, done: set<Term>, term: Term)
    requires done <= found && term in found && term !in done && AcceptsAll(rows, KeysFor(chat, id, done))
    ensures KeysFor(chat, id, done + {term}) == KeysFor(chat, id, done) + {TermKey(chat, term, id)}
    ensures Accepts(rows + KeysFor(chat, id, done), TermKey(chat, term, id)) <==> Accepts(rows, TermKey(chat, term, id))
    ensures !Accepts(rows, TermKey(chat, term, id)) ==> !AcceptsAll(rows, KeysFor(chat, id, found))
    ensures Accepts(rows, TermKey(chat, term, id)) ==> AcceptsAll(rows, KeysFor(chat, id, done + {term}))
  {
  }

  /** Adds the page's counts to the aggregates. */
  method AddAggregates(phrases: map<PhraseKey, nat>, chat: ChatId, counts: map<Term, nat>) returns (phrases': map<PhraseKey, nat>)
    ensures Aggregated(phrases, phrases', chat, counts, counts.Keys)
  {
    phrases' := phrases;
    var done: set<Term> := {};
    while done != counts.Keys
      invariant done <= counts.Keys
      invariant Aggregated(phrases, phrases', chat, counts, done)
      decreases counts.Keys - done
    {
      var term :| term in counts && term !in done;
      var key := PhraseKey(chat, term);
      AggregateOneMore(phrases, phrases', chat, counts, done, term);
      if key !in phrases' {
        phrases' := phrases'[key := counts[term]];
      } else {
        phrases' := phrases'[key := phrases'[key] + counts[term]];
      }
      done := done + {term};
    }
  }

  /** The session of one page, up to its commit: the tables as they would be, or a refusal. */
  method StagePage(az: Analyzer, t: Tables, chat: ChatId, page: seq<Message>) returns (ok: bool, t': Tables, created: nat)
    requires az.lex.ValidWords() && Ascending(page)
    ensures ok <==> !Rejected(az, t.terms, chat, page)
    ensures ok ==> t' == PageStored(az, t, chat, page) && created == Created(az, t.messages, chat, page)
  {
    ok, t', created := true, t, 0;
    var messages, rows := t.messages, t.terms;
    var counts: map<Term, nat> := map[];
    for i := 0 to |page|
      invariant messages == StoreMessages(az, t.messages, chat, page[..i])
      invariant created == Created(az, t.messages, chat, page[..i])
      invariant rows == t.terms + PageTerms(az, chat, page[..i])
      invariant AcceptsAll(t.terms, PageTerms(az, chat, page[..i]))
      invariant Tallies(az, counts, page[..i])
      invariant ok
    {
      var hit := page[i];
      PageStep(az, t.messages, chat, page, i);
      FreshTerms(az, t.terms, chat, page, i);
      if !IsBlank(az, hit) {
        var key := MessageKey(chat, hit.id);
        if key !in messages {
          created := created + 1;
        }
        messages := messages[key := StoredRow(az, messages, key, hit)];
        var found := ExtractTerms(az.lex, Normalized(az, hit));
        var counted;
        ok, rows, counted := AddTermRows(rows, chat, hit.id, found, counts);
        if !ok {
          RefusedPage(az, t.terms, chat, page, i);
          return;
        }
        TallyStep(az, counts, counted, page, i);
        counts := counted;
      }
    }
    assert page[..|page|] == page;
    var phrases := AddAggregates(t.phrases, chat, counts);
    SameCounts(az, t.phrases, chat, page, counts, phrases);
    t' := Tables(messages, rows, phrases, t.chats);
  }

  function CountIn(counts: map<Term, nat>, t: Term): nat
  {
    if t in counts then counts[t] else 0
  }

  /** The unique constraint and the width of the column let the row in. */
  predicate Accepts(terms: set<TermKey>, k: TermKey)
  {
    k !in terms && |k.term| <= TERM_MAX
  }

  predicate AcceptsAll(terms: set<TermKey>, keys: set<TermKey>)
  {
    forall k :: k in keys ==> Accepts(terms, k)
  }

  /** The terms of `done` are counted once more. */
  ghost predicate CountedOnce(before: map<Term, nat>, after: map<Term, nat>, done: set<Term>)
  {
    && after.Keys == before.Keys + done
    && forall t :: t in after ==> after[t] == CountIn(before, t) + if t in done then 1 else 0
  }

  lemma CountOneMore(before: map<Term, nat>, after: map<Term, nat>, done: set<Term>, term: Term)
    requires CountedOnce(before, after, done) && term !in done
    ensures CountedOnce(before, after[term := CountIn(after, term) + 1], done + {term})
  {
  }

  /** The counts of `done` are added to the aggregates of the chat. */
  ghost predicate Aggregated(before: map<PhraseKey, nat>, after: map<PhraseKey, nat>, chat: ChatId, counts: map<Term, nat>, done: set<Term>)
    requires done <= counts.Keys
  {
    && after.Keys == before.Keys + (set t | t in done :: PhraseKey(chat, t))
    && forall k :: k in after ==> after[k] == PhraseCount(before, k.chat, k.term)
                                              + if k.chat == chat && k.term in done then counts[k.term] else 0
  }

  lemma AggregateOneMore(before: map<PhraseKey, nat>, after: map<PhraseKey, nat>, chat: ChatId, counts: map<Term, nat>, done: set<Term>, term: Term)
    requires done <= counts.Keys && Aggregated(before, after, chat, counts, done)
    requires term in counts && term !in done
    ensures Aggregated(before, after[PhraseKey(chat, term) := PhraseCount(after, chat, term) + counts[term]], chat, counts, done + {term})
  {
  }

  /** `counts` holds the positive numbers of mentions in the page. */
  ghost predicate Tallies(az: Analyzer, counts: map<Term, nat>, page: seq<Message>)
  {
    && (forall t :: t in counts <==> Mentions(az, page, t) > 0)
    && (forall t :: t in counts ==> counts[t] == Mentions(az, page, t))
  }

  lemma TallyStep(az: Analyzer, counts: map<Term, nat>, counts': map<Term, nat>, page: seq<Message>, i: nat)
    requires i < |page| && !IsBlank(az, page[i])
    requires Tallies(az, counts, page[..i]) && CountedOnce(counts, counts', TermsOf(az, page[i]))
    ensures Tallies(az, counts', page[..i + 1])
  {
    forall t ensures Mentions(az, page[..i + 1], t) == Mentions(az, page[..i], t) + if t in TermsOf(az, page[i]) then 1 else 0
    {
      MentionStep(az, page, i, t);
    }
  }

  lemma MentionStep(az: Analyzer, page: seq<Message>, i: nat, t: Term)
    requires i < |page|
    ensures Mentions(az, page[..i + 1], t) ==
            Mentions(az, page[..i], t) + if !IsBlank(az, page[i]) && t in TermsOf(az, page[i]) then 1 else 0
  {
    var seen := page[..i + 1];
    assert seen[..|seen| - 1] == page[..i] && seen[|seen| - 1] == page[i];
  }

  // ---------------------------------------------------------------- lemmas of `StorePage`

  /** The page functions take one more message. */
  lemma PageStep(az: Analyzer, messages: map<MessageKey, MessageRow>, chat: ChatId, page: seq<Message>, i: nat)
    requires i < |page|
    ensures StoreMessages(az, messages, chat, page[..i + 1])
         == StoreMessage(az, StoreMessages(az, messages, chat, page[..i]), chat, page[i])
    ensures PageTerms(az, chat, page[..i + 1]) == PageTerms(az, chat, page[..i]) + NewTerms(az, chat, page[i])
    ensures Created(az, messages, chat, page[..i + 1]) == Created(az, messages, chat, page[..i])
            + if IsBlank(az, page[i]) || MessageKey(chat, page[i].id) in StoreMessages(az, messages, chat, page[..i]) then 0 else 1
    ensures IsBlank(az, page[i]) ==> forall t :: Mentions(az, page[..i + 1], t) == Mentions(az, page[..i], t)
  {
    var seen := page[..i + 1];
    assert seen[..|seen| - 1] == page[..i] && seen[|seen| - 1] == page[i];
  }

  /** A term row of the next message is acceptable now iff it was before the page. */
  lemma FreshTerms(az: Analyzer, saved: set<TermKey>, chat: ChatId, page: seq<Message>, i: nat)
    requires Ascending(page) && i < |page|
    ensures AcceptsAll(saved + PageTerms(az, chat, page[..i]), NewTerms(az, chat, page[i]))
            <==> AcceptsAll(saved, NewTerms(az, chat, page[i]))
    ensures saved + PageTerms(az, chat, page[..i + 1]) == saved + PageTerms(az, chat, page[..i]) + NewTerms(az, chat, page[i])
    ensures AcceptsAll(saved, PageTerms(az, chat, page[..i])) && AcceptsAll(saved, NewTerms(az, chat, page[i]))
            ==> AcceptsAll(saved, PageTerms(az, chat, page[..i + 1]))
  {
    PageStep(az, map[], chat, page, i);
    forall k | k in NewTerms(az, chat, page[i]) ensures k !in PageTerms(az, chat, page[..i]) {
      InPageTerms(az, chat, page[..i], k);
      InNewTerms(az, chat, page[i], k);
      forall m | m in page[..i] ensures k !in NewTerms(az, chat, m) {
        InNewTerms(az, chat, m, k);
      }
    }
  }

  /** A refused row rejects the page. */
  lemma RefusedPage(az: Analyzer, terms: set<TermKey>, chat: ChatId, page: seq<Message>, i: nat)
    requires i < |page| && !AcceptsAll(terms, NewTerms(az, chat, page[i]))
    ensures !AcceptsAll(terms, PageTerms(az, chat, page))
  {
    var k :| k in NewTerms(az, chat, page[i]) && !Accepts(terms, k);
    InPageTerms(az, chat, page, k);
  }

  /** The aggregates with the page's counts added are `AddCounts`. */
  lemma SameCounts(az: Analyzer, before: map<PhraseKey, nat>, chat: ChatId, page: seq<Message>, counts: map<Term, nat>, after: map<PhraseKey, nat>)
    requires Tallies(az, counts, page) && Aggregated(before, after, chat, counts, counts.Keys)
    ensures after == AddCounts(az, before, chat, page)
  {
    var spec := AddCounts(az, before, chat, page);
    forall k: PhraseKey
      ensures k in after <==> k in spec
      ensures k in after ==> after[k] == spec[k]
    {
      AddedCount(az, before, chat, page, k.chat, k.term);
      assert k == PhraseKey(k.chat, k.term);
    }
  }
}
