/** Several sync jobs, the gateway's chats and crashes, interleaved transaction by transaction. */
module IndexRuns {
  import opened Strings
  import opened IndexStore

  type RunId = int

  /** Where a run is between two of its transactions or calls. */
  datatype Phase =
    | Paging(cursor: int)
    | Fetched(cursor: int, page: seq<Message>)
    | Stored(next: int)

  datatype SyncRun = SyncRun(chat: ChatId, phase: Phase)

  /** `issued` is the largest message id a chat has used so far. */
  datatype World = World(tables: Tables, h: Histories, issued: map<ChatId, int>, runs: map<RunId, SyncRun>)

  function IssuedOf(issued: map<ChatId, int>, c: ChatId): int
  {
    if c in issued then issued[c] else 0
  }

  // ---------------------------------------------------------------- steps

  /** The chat lives: messages are deleted, and new ones get ids never used before. */
  ghost predicate Post(w: World, w': World, c: ChatId, history: seq<Message>, last: int)
  {
    && ValidHistory(history)
    && (forall m :: m in history ==> m.id <= last && (m in HistoryOf(w.h, c) || m.id > IssuedOf(w.issued, c)))
    && IssuedOf(w.issued, c) <= last
    && w' == w.(h := w.h[c := history], issued := w.issued[c := last])
  }

  /** A job reads its chat, and will page from the cursor it read, perhaps much later. */
  ghost predicate Start(w: World, w': World, r: RunId, c: ChatId)
  {
    && r !in w.runs && c in w.tables.chats
    && w' == w.(runs := w.runs[r := SyncRun(c, Paging(CursorOf(w.tables.chats[c])))])
  }

  /** A resync job persists cursor 0 and pages from there. */
  ghost predicate StartResync(w: World, w': World, r: RunId, c: ChatId)
  {
    && r !in w.runs
    && w' == w.(tables := CursorPersisted(w.tables, c, 0), runs := w.runs[r := SyncRun(c, Paging(0))])
  }

  ghost predicate Fetch(w: World, w': World, r: RunId, limit: nat)
  {
    && r in w.runs && w.runs[r].phase.Paging?
    && ValidHistory(HistoryOf(w.h, w.runs[r].chat))
    && var page := ServePage(HistoryOf(w.h, w.runs[r].chat), w.runs[r].phase.cursor, limit);
    && page != []
    && w' == w.(runs := w.runs[r := w.runs[r].(phase := Fetched(w.runs[r].phase.cursor, page))])
  }

  ghost predicate Store(az: Analyzer, w: World, w': World, r: RunId)
  {
    && r in w.runs && w.runs[r].phase.Fetched? && w.runs[r].phase.page != []
    && var c, page := w.runs[r].chat, w.runs[r].phase.page;
    && !Rejected(az, w.tables.terms, c, page)
    && w' == w.(tables := PageStored(az, w.tables, c, page), runs := w.runs[r := SyncRun(c, Stored(MaxId(page)))])
  }

  ghost predicate Persist(w: World, w': World, r: RunId)
  {
    && r in w.runs && w.runs[r].phase.Stored?
    && var c, next := w.runs[r].chat, w.runs[r].phase.next;
    && w' == w.(tables := CursorPersisted(w.tables, c, next), runs := w.runs[r := SyncRun(c, Paging(next))])
  }

  /** A run ends in any phase: done, capped, refused, failed or killed. */
  ghost predicate End(w: World, w': World, r: RunId)
  {
    r in w.runs && w' == w.(runs := w.runs - {r})
  }

  /** A run, ending or not, writes the other sync columns. */
  ghost predicate Mark(w: World, w': World, c: ChatId, state: SyncState, estimate: Option<int>)
  {
    || w' == w.(tables := StatePersisted(w.tables, c, state))
    || w' == w.(tables := EstimatePersisted(w.tables, c, estimate))
    || w' == w.(tables := FinishPersisted(w.tables, c, state))
  }

  /** A chat is added by its first owner: a new row, although its rows from an earlier life may be there. */
  ghost predicate Add(w: World, w': World, c: ChatId)
  {
    c !in w.tables.chats && w' == w.(tables := w.tables.(chats := w.tables.chats[c := NEW_CHAT]))
  }

  /** An administrator removes a chat: its row goes, its messages and terms stay. */
  ghost predicate Remove(w: World, w': World, c: ChatId)
  {
    w' == w.(tables := w.tables.(chats := w.tables.chats - {c}))
  }

  const NEW_CHAT := ChatRow(NotSynced, None, None, 0)

  datatype Step =
    | SPost(c: ChatId, history: seq<Message>, last: int)
    | SStart(r: RunId, c: ChatId)
    | SResync(r: RunId, c: ChatId)
    | SFetch(r: RunId, limit: nat)
    | SStore(r: RunId)
    | SPersist(r: RunId)
    | SEnd(r: RunId)
    | SMark(c: ChatId, state: SyncState, estimate: Option<int>)
    | SAdd(c: ChatId)
    | SRemove(c: ChatId)

  ghost predicate Takes(az: Analyzer, w: World, w': World, step: Step)
  {
    match step
    case SPost(c, history, last) => Post(w, w', c, history, last)
    case SStart(r, c) => Start(w, w', r, c)
    case SResync(r, c) => StartResync(w, w', r, c)
    case SFetch(r, limit) => Fetch(w, w', r, limit)
    case SStore(r) => Store(az, w, w', r)
    case SPersist(r) => Persist(w, w', r)
    case SEnd(r) => End(w, w', r)
    case SMark(c, state, estimate) => Mark(w, w', c, state, estimate)
    case SAdd(c) => Add(w, w', c)
    case SRemove(c) => Remove(w, w', c)
  }

  ghost predicate Initial(w: World)
  {
    && w.tables == Tables(map[], {}, map[], map[])
    && w.runs == map[] && w.h == map[] && w.issued == map[]
  }

  /** A run of the system: worlds, each from the one before by a step. */
  ghost predicate Behaviour(az: Analyzer, ws: seq<World>, steps: seq<Step>)
  {
    && |ws| == |steps| + 1 && Initial(ws[0])
    && forall i :: 0 <= i < |steps| ==> Takes(az, ws[i], ws[i + 1], steps[i])
  }

  // ---------------------------------------------------------------- invariant

  /** What a run may do next is safe: its cursor is, and a fetched page misses nothing up to its end. */
  ghost predicate RunSafe(az: Analyzer, t: Tables, run: SyncRun, history: seq<Message>, issued: int)
  {
    match run.phase
    case Paging(cursor) => cursor <= issued && CursorSafe(az, t, run.chat, history, cursor)
    case Stored(next) => next <= issued && CursorSafe(az, t, run.chat, history, next)
    case Fetched(cursor, page) =>
      && cursor <= issued && page != [] && Ascending(page) && MaxId(page) <= issued
      && CursorSafe(az, t, run.chat, history, cursor)
      && (forall m :: m in history && cursor < m.id <= MaxId(page) ==> m in page)
  }

  ghost predicate HistoriesValid(w: World)
  {
    forall c :: ValidHistory(HistoryOf(w.h, c)) && forall m :: m in HistoryOf(w.h, c) ==> m.id <= IssuedOf(w.issued, c)
  }

  ghost predicate CursorsIssued(w: World)
  {
    && (forall c :: c in w.tables.chats ==> CursorOf(w.tables.chats[c]) <= IssuedOf(w.issued, c))
    && (forall c :: 0 <= IssuedOf(w.issued, c))
  }

  ghost predicate RunsSafe(az: Analyzer, w: World)
  {
    forall r :: r in w.runs ==> RunSafe(az, w.tables, w.runs[r], HistoryOf(w.h, w.runs[r].chat), IssuedOf(w.issued, w.runs[r].chat))
  }

  ghost predicate Inv(az: Analyzer, w: World)
  {
    Safe(az, w.tables, w.h) && HistoriesValid(w) && CursorsIssued(w) && RunsSafe(az, w)
  }

  lemma InitialInv(az: Analyzer, w: World)
    requires Initial(w)
    ensures Inv(az, w)
  {
  }

  // ---------------------------------------------------------------- preservation

  /** Runs stay safe while the tables grow. */
  lemma GrownRuns(az: Analyzer, w: World, t: Tables)
    requires RunsSafe(az, w) && Grows(w.tables, t)
    ensures RunsSafe(az, w.(tables := t))
  {
  }

  /** One run changes its phase. */
  lemma RunMoves(az: Analyzer, w: World, r: RunId, run: SyncRun)
    requires RunsSafe(az, w) && RunSafe(az, w.tables, run, HistoryOf(w.h, run.chat), IssuedOf(w.issued, run.chat))
    ensures RunsSafe(az, w.(runs := w.runs[r := run]))
  {
  }

  /** A cursor stays safe when its chat lives on: ids at or below it are not used anew. */
  lemma PostKeepsCursor(az: Analyzer, w: World, w': World, c: ChatId, history: seq<Message>, last: int, d: ChatId, cursor: int)
    requires Post(w, w', c, history, last)
    requires CursorSafe(az, w.tables, d, HistoryOf(w.h, d), cursor) && cursor <= IssuedOf(w.issued, d)
    ensures CursorSafe(az, w'.tables, d, HistoryOf(w'.h, d), cursor)
  {
  }

  lemma PostKeeps(az: Analyzer, w: World, w': World, c: ChatId, history: seq<Message>, last: int)
    requires Inv(az, w) && Post(w, w', c, history, last)
    ensures Inv(az, w')
  {
    forall d
      ensures IssuedOf(w.issued, d) <= IssuedOf(w'.issued, d)
      ensures ValidHistory(HistoryOf(w'.h, d)) && forall m :: m in HistoryOf(w'.h, d) ==> m.id <= IssuedOf(w'.issued, d)
    {
      assert d != c ==> HistoryOf(w'.h, d) == HistoryOf(w.h, d) && IssuedOf(w'.issued, d) == IssuedOf(w.issued, d);
    }
    forall d | d in w.tables.chats ensures CursorSafe(az, w'.tables, d, HistoryOf(w'.h, d), CursorOf(w.tables.chats[d])) {
      PostKeepsCursor(az, w, w', c, history, last, d, CursorOf(w.tables.chats[d]));
    }
    forall r | r in w.runs
      ensures RunSafe(az, w'.tables, w.runs[r], HistoryOf(w'.h, w.runs[r].chat), IssuedOf(w'.issued, w.runs[r].chat))
    {
      PostKeepsRun(az, w, w', c, history, last, w.runs[r]);
    }
  }

  lemma PostKeepsRun(az: Analyzer, w: World, w': World, c: ChatId, history: seq<Message>, last: int, run: SyncRun)
    requires Post(w, w', c, history, last)
    requires RunSafe(az, w.tables, run, HistoryOf(w.h, run.chat), IssuedOf(w.issued, run.chat))
    ensures RunSafe(az, w'.tables, run, HistoryOf(w'.h, run.chat), IssuedOf(w'.issued, run.chat))
  {
  }

  lemma StartKeeps(az: Analyzer, w: World, w': World, r: RunId, c: ChatId)
    requires Inv(az, w) && Start(w, w', r, c)
    ensures Inv(az, w')
  {
  }

  /** Writing a safe, issued cursor keeps the invariant. */
  lemma CursorKeeps(az: Analyzer, w: World, c: ChatId, cursor: int)
    requires Inv(az, w) && CursorSafe(az, w.tables, c, HistoryOf(w.h, c), cursor) && cursor <= IssuedOf(w.issued, c)
    ensures Inv(az, w.(tables := CursorPersisted(w.tables, c, cursor)))
  {
    CursorKeepsSafe(az, w.tables, w.h, c, cursor);
    GrownRuns(az, w, CursorPersisted(w.tables, c, cursor));
  }

  lemma ResyncKeeps(az: Analyzer, w: World, w': World, r: RunId, c: ChatId)
    requires Inv(az, w) && StartResync(w, w', r, c)
    ensures Inv(az, w')
  {
    ZeroIsSafe(az, w.tables, c, HistoryOf(w.h, c));
    CursorKeeps(az, w, c, 0);
    var w1 := w.(tables := CursorPersisted(w.tables, c, 0));
    ZeroIsSafe(az, w1.tables, c, HistoryOf(w.h, c));
    RunMoves(az, w1, r, SyncRun(c, Paging(0)));
  }

  lemma FetchKeeps(az: Analyzer, w: World, w': World, r: RunId, limit: nat)
    requires Inv(az, w) && Fetch(w, w', r, limit)
    ensures Inv(az, w')
  {
    var run := w.runs[r];
    var history := HistoryOf(w.h, run.chat);
    var cursor := run.phase.cursor;
    var page := ServePage(history, cursor, limit);
    PageContract(history, cursor, limit);
    assert RunSafe(az, w.tables, run, history, IssuedOf(w.issued, run.chat));
    forall m | m in history && cursor < m.id <= MaxId(page) ensures m in page {
      PageIsGapless(history, cursor, limit, m);
    }
    RunMoves(az, w, r, run.(phase := Fetched(cursor, page)));
  }

  lemma StoreKeeps(az: Analyzer, w: World, w': World, r: RunId)
    requires Inv(az, w) && Store(az, w, w', r)
    ensures Inv(az, w')
  {
    var run := w.runs[r];
    var c, page := run.chat, run.phase.page;
    var t := PageStored(az, w.tables, c, page);
    assert RunSafe(az, w.tables, run, HistoryOf(w.h, c), IssuedOf(w.issued, c));
    PageKeepsSafe(az, w.tables, w.h, c, page);
    PageStoredGrows(az, w.tables, c, page);
    GrownRuns(az, w, t);
    GaplessPageSafe(az, w.tables, c, HistoryOf(w.h, c), run.phase.cursor, page);
    RunMoves(az, w.(tables := t), r, SyncRun(c, Stored(MaxId(page))));
  }

  lemma PersistKeeps(az: Analyzer, w: World, w': World, r: RunId)
    requires Inv(az, w) && Persist(w, w', r)
    ensures Inv(az, w')
  {
    var run := w.runs[r];
    var next := run.phase.next;
    assert RunSafe(az, w.tables, run, HistoryOf(w.h, run.chat), IssuedOf(w.issued, run.chat));
    CursorKeeps(az, w, run.chat, next);
    var t := CursorPersisted(w.tables, run.chat, next);
    GrownIndexed(az, w.tables, t, run.chat, HistoryOf(w.h, run.chat), next);
    RunMoves(az, w.(tables := t), r, SyncRun(run.chat, Paging(next)));
  }

  /** Writing other columns keeps the invariant. */
  lemma ColumnsKeep(az: Analyzer, w: World, w': World)
    requires Inv(az, w) && Safe(az, w'.tables, w.h) && SameButColumns(w, w')
    ensures Inv(az, w')
  {
    GrownRuns(az, w, w'.tables);
  }

  /** The worlds differ in other columns of the chat rows at most. */
  ghost predicate SameButColumns(w: World, w': World)
  {
    && w'.tables.messages == w.tables.messages && w'.tables.terms == w.tables.terms && w'.tables.phrases == w.tables.phrases
    && w'.h == w.h && w'.issued == w.issued && w'.runs == w.runs
    && (forall c :: c in w'.tables.chats ==> c in w.tables.chats && w'.tables.chats[c].cursor == w.tables.chats[c].cursor)
  }

  lemma MarkedColumns(w: World, w': World, c: ChatId, state: SyncState, estimate: Option<int>)
    requires Mark(w, w', c, state, estimate)
    ensures SameButColumns(w, w')
  {
  }

  lemma MarkKeeps(az: Analyzer, w: World, w': World, c: ChatId, state: SyncState, estimate: Option<int>)
    requires Inv(az, w) && Mark(w, w', c, state, estimate)
    ensures Inv(az, w')
  {
    if w'.tables == StatePersisted(w.tables, c, state) {
      StateKeepsSafe(az, w.tables, w.h, c, state);
    } else if w'.tables == EstimatePersisted(w.tables, c, estimate) {
      EstimateKeepsSafe(az, w.tables, w.h, c, estimate);
    } else {
      FinishKeepsSafe(az, w.tables, w.h, c, state);
    }
    MarkedColumns(w, w', c, state, estimate);
    ColumnsKeep(az, w, w');
  }

  lemma AddKeeps(az: Analyzer, w: World, w': World, c: ChatId)
    requires Inv(az, w) && Add(w, w', c)
    ensures Inv(az, w')
  {
    ZeroIsSafe(az, w.tables, c, HistoryOf(w.h, c));
    GrownRuns(az, w, w'.tables);
    forall d | d in w'.tables.chats ensures CursorSafe(az, w'.tables, d, HistoryOf(w.h, d), CursorOf(w'.tables.chats[d])) {
      GrownIndexed(az, w.tables, w'.tables, d, HistoryOf(w.h, d), CursorOf(w'.tables.chats[d]));
    }
  }

  lemma RemoveKeeps(az: Analyzer, w: World, w': World, c: ChatId)
    requires Inv(az, w) && Remove(w, w', c)
    ensures Inv(az, w')
  {
    GrownRuns(az, w, w'.tables);
    forall d | d in w'.tables.chats ensures CursorSafe(az, w'.tables, d, HistoryOf(w.h, d), CursorOf(w'.tables.chats[d])) {
      GrownIndexed(az, w.tables, w'.tables, d, HistoryOf(w.h, d), CursorOf(w'.tables.chats[d]));
    }
  }

  /** Every step of every job, of the chats and of their owners, keeps the invariant. */
  lemma StepKeeps(az: Analyzer, w: World, w': World, step: Step)
    requires Inv(az, w) && Takes(az, w, w', step)
    ensures Inv(az, w')
  {
    match step
    case SPost(c, history, last) => PostKeeps(az, w, w', c, history, last);
    case SStart(r, c) => StartKeeps(az, w, w', r, c);
    case SResync(r, c) => ResyncKeeps(az, w, w', r, c);
    case SFetch(r, limit) => FetchKeeps(az, w, w', r, limit);
    case SStore(r) => StoreKeeps(az, w, w', r);
    case SPersist(r) => PersistKeeps(az, w, w', r);
    case SEnd(r) => assert RunsSafe(az, w');
    case SMark(c, state, estimate) => MarkKeeps(az, w, w', c, state, estimate);
    case SAdd(c) => AddKeeps(az, w, w', c);
    case SRemove(c) => RemoveKeeps(az, w, w', c);
  }

  // ---------------------------------------------------------------- theorems over all behaviours

  /** Crash-safe cursor and index conservation: in every world of every behaviour, with any number
      of jobs, crashes between any two transactions and resyncs, the aggregates count the term
      rows, and every visible message at or below a persisted cursor is indexed. */
  lemma {:induction false} AlwaysSafe(az: Analyzer, ws: seq<World>, steps: seq<Step>, i: nat)
    requires Behaviour(az, ws, steps) && i < |ws|
    ensures Inv(az, ws[i])
  {
    if i == 0 {
      InitialInv(az, ws[0]);
    } else {
      AlwaysSafe(az, ws, steps, i - 1);
      StepKeeps(az, ws[i - 1], ws[i], steps[i - 1]);
    }
  }

  lemma StepGrows(az: Analyzer, w: World, w': World, step: Step)
    requires Takes(az, w, w', step)
    ensures Grows(w.tables, w'.tables)
  {
    if step.SStore? {
      PageStoredGrows(az, w.tables, w.runs[step.r].chat, w.runs[step.r].phase.page);
    }
  }

  /** What is indexed is never lost again, whatever runs or crashes. */
  lemma {:induction false} IndexedForever(az: Analyzer, ws: seq<World>, steps: seq<Step>, i: nat, j: nat, c: ChatId, m: Message)
    requires Behaviour(az, ws, steps) && i <= j < |ws|
    requires Indexed(az, ws[i].tables, c, m)
    ensures Indexed(az, ws[j].tables, c, m)
    decreases j - i
  {
    if i < j {
      StepGrows(az, ws[i], ws[i + 1], steps[i]);
      IndexedForever(az, ws, steps, i + 1, j, c, m);
    }
  }

  /** The rows of a chat only become more. */
  lemma {:induction false} RowsForever(az: Analyzer, ws: seq<World>, steps: seq<Step>, i: nat, j: nat, c: ChatId)
    requires Behaviour(az, ws, steps) && i <= j < |ws|
    ensures |MessageRows(ws[i].tables.messages, c)| <= |MessageRows(ws[j].tables.messages, c)|
    decreases j - i
  {
    if i < j {
      StepGrows(az, ws[i], ws[i + 1], steps[i]);
      SubsetSize(MessageRows(ws[i].tables.messages, c), MessageRows(ws[i + 1].tables.messages, c));
      RowsForever(az, ws, steps, i + 1, j, c);
    }
  }

  /** No step shows an old message that was not shown, or takes an id back. */
  lemma StepShows(az: Analyzer, w: World, w': World, step: Step, c: ChatId, m: Message)
    requires Takes(az, w, w', step)
    ensures IssuedOf(w.issued, c) <= IssuedOf(w'.issued, c)
    ensures m in HistoryOf(w'.h, c) && m.id <= IssuedOf(w.issued, c) ==> m in HistoryOf(w.h, c)
  {
    if !step.SPost? {
      assert w'.h == w.h && w'.issued == w.issued;
    }
  }

  /** A message shown now, with an id that was in use at an earlier moment, was shown then. */
  lemma {:induction false} ShownSince(az: Analyzer, ws: seq<World>, steps: seq<Step>, i: nat, j: nat, c: ChatId, m: Message)
    requires Behaviour(az, ws, steps) && i <= j < |ws|
    requires m in HistoryOf(ws[j].h, c) && m.id <= IssuedOf(ws[i].issued, c)
    ensures m in HistoryOf(ws[i].h, c)
    decreases j - i
  {
    if i < j {
      StepShows(az, ws[i], ws[i + 1], steps[i], c, m);
      ShownSince(az, ws, steps, i + 1, j, c, m);
    }
  }

  /** Whatever is shown now at or below a cursor that was ever persisted is indexed now, also when
      that cursor has been reset or its chat removed since. */
  lemma PastCursorsHold(az: Analyzer, ws: seq<World>, steps: seq<Step>, i: nat, j: nat, c: ChatId, m: Message)
    requires Behaviour(az, ws, steps) && i <= j < |ws| && c in ws[i].tables.chats
    requires m in HistoryOf(ws[j].h, c) && Inked(az, m) && m.id <= CursorOf(ws[i].tables.chats[c])
    ensures Indexed(az, ws[j].tables, c, m)
  {
    AlwaysSafe(az, ws, steps, i);
    ShownSince(az, ws, steps, i, j, c, m);
    assert CursorSafe(az, ws[i].tables, c, HistoryOf(ws[i].h, c), CursorOf(ws[i].tables.chats[c]));
    IndexedForever(az, ws, steps, i, j, c, m);
  }

  /** A run that is served an empty page has the whole history of its chat indexed at that moment,
      whatever the other jobs did meanwhile. */
  lemma EmptyPageMeansComplete(az: Analyzer, ws: seq<World>, steps: seq<Step>, i: nat, r: RunId, limit: nat)
    requires Behaviour(az, ws, steps) && i < |ws|
    requires r in ws[i].runs && ws[i].runs[r].phase.Paging? && limit > 0
    ensures var run := ws[i].runs[r]; var history := HistoryOf(ws[i].h, run.chat);
            && ValidHistory(history)
            && (ServePage(history, run.phase.cursor, limit) == [] ==> WholeHistoryIndexed(az, ws[i].tables, run.chat, history))
  {
    AlwaysSafe(az, ws, steps, i);
    var run := ws[i].runs[r];
    assert ValidHistory(HistoryOf(ws[i].h, run.chat));
    EmptyPageIff(HistoryOf(ws[i].h, run.chat), run.phase.cursor, limit);
    assert RunSafe(az, ws[i].tables, run, HistoryOf(ws[i].h, run.chat), IssuedOf(ws[i].issued, run.chat));
  }

  /** Two jobs that fetched the same message of a chat cannot both store it: once one has, the
      page of the other is refused, so no mention is ever counted twice. */
  lemma OverlappingStoreRefused(az: Analyzer, w: World, w': World, r: RunId, q: RunId, m: Message)
    requires Store(az, w, w', r) && Ascending(w.runs[r].phase.page)
    requires q in w.runs && q != r && w.runs[q].phase.Fetched? && w.runs[q].chat == w.runs[r].chat
    requires m in w.runs[r].phase.page && m in w.runs[q].phase.page
    requires Inked(az, m) && TermsOf(az, m) != {}
    ensures forall w'' :: !Store(az, w', w'', q)
  {
    var c := w.runs[r].chat;
    PageIndexes(az, w.tables, c, w.runs[r].phase.page, c, m);
    ReindexingIsRejected(az, w'.tables, c, w'.runs[q].phase.page, m);
  }

  // ---------------------------------------------------------------- what does happen

  lemma Extend(az: Analyzer, ws: seq<World>, steps: seq<Step>, w': World, step: Step)
    requires Behaviour(az, ws, steps) && Takes(az, ws[|steps|], w', step)
    ensures Behaviour(az, ws + [w'], steps + [step])
  {
    var ws', steps' := ws + [w'], steps + [step];
    forall i | 0 <= i < |steps'| ensures Takes(az, ws'[i], ws'[i + 1], steps'[i]) {
      assert i < |steps| ==> steps'[i] == steps[i] && ws'[i] == ws[i] && ws'[i + 1] == ws[i + 1];
    }
  }

  /** A chat is added and gets a message; a job reads the chat and fetches the page. */
  lemma FetchHappens(az: Analyzer, c: ChatId, m: Message, r: RunId) returns (ws: seq<World>, steps: seq<Step>)
    requires m.id > 0
    ensures Behaviour(az, ws, steps) && |steps| == 4
    ensures var t := Tables(map[], {}, map[], map[c := NEW_CHAT]);
            ws[4] == World(t, map[c := [m]], map[c := m.id], map[r := SyncRun(c, Fetched(0, [m]))])
  {
    var w0 := World(Tables(map[], {}, map[], map[]), map[], map[], map[]);
    ws, steps := [w0], [];
    var t := Tables(map[], {}, map[], map[c := NEW_CHAT]);
    var w1 := World(t, map[], map[], map[]);
    Extend(az, ws, steps, w1, SAdd(c));
    ws, steps := ws + [w1], steps + [SAdd(c)];
    var w2 := World(t, map[c := [m]], map[c := m.id], map[]);
    Extend(az, ws, steps, w2, SPost(c, [m], m.id));
    ws, steps := ws + [w2], steps + [SPost(c, [m], m.id)];
    var w3 := w2.(runs := map[r := SyncRun(c, Paging(0))]);
    Extend(az, ws, steps, w3, SStart(r, c));
    ws, steps := ws + [w3], steps + [SStart(r, c)];
    var w4 := w2.(runs := map[r := SyncRun(c, Fetched(0, [m]))]);
    OnePage(m);
    Extend(az, ws, steps, w4, SFetch(r, 1));
    ws, steps := ws + [w4], steps + [SFetch(r, 1)];
  }

  lemma OnePage(m: Message)
    requires m.id > 0
    ensures ValidHistory([m]) && ServePage([m], 0, 1) == [m] && MaxId([m]) == m.id
  {
    assert FirstAfter([m], 0) == 0;
    assert [m][0..1] == [m];
  }

  /** Its page can be stored when no term of it is too long. */
  lemma FirstPageStorable(az: Analyzer, c: ChatId, m: Message)
    requires forall term :: term in TermsOf(az, m) ==> |term| <= 128
    ensures !Rejected(az, {}, c, [m])
  {
    forall k | k in PageTerms(az, c, [m]) ensures |k.term| <= TERM_MAX {
      InPageTerms(az, c, [m], k);
      InNewTerms(az, c, m, k);
    }
  }

  lemma StoreHappens(az: Analyzer, c: ChatId, m: Message, r: RunId) returns (ws: seq<World>, steps: seq<Step>)
    requires m.id > 0 && Inked(az, m) && forall term :: term in TermsOf(az, m) ==> |term| <= 128
    ensures Behaviour(az, ws, steps) && |steps| == 5
    ensures ws[5].tables.chats == map[c := NEW_CHAT] && Indexed(az, ws[5].tables, c, m)
    ensures ws[5].h == map[c := [m]] && ws[5].runs == map[r := SyncRun(c, Stored(m.id))]
  {
    ws, steps := FetchHappens(az, c, m, r);
    var w := ws[4];
    OnePage(m);
    FirstPageStorable(az, c, m);
    PageIndexes(az, w.tables, c, [m], c, m);
    var w5 := w.(tables := PageStored(az, w.tables, c, [m]), runs := map[r := SyncRun(c, Stored(m.id))]);
    Extend(az, ws, steps, w5, SStore(r));
    ws, steps := ws + [w5], steps + [SStore(r)];
  }

  /** A message of a new chat does get indexed: the job stores it, moves the cursor to it, and ends. */
  lemma IndexingHappens(az: Analyzer, c: ChatId, m: Message, r: RunId) returns (ws: seq<World>, steps: seq<Step>)
    requires m.id > 0 && Inked(az, m) && forall term :: term in TermsOf(az, m) ==> |term| <= 128
    ensures Behaviour(az, ws, steps) && |steps| == 7
    ensures ws[7].tables.chats == map[c := NEW_CHAT.(cursor := Some(m.id))] && Indexed(az, ws[7].tables, c, m)
    ensures ws[7].h == map[c := [m]] && ws[7].runs == map[]
  {
    ws, steps := StoreHappens(az, c, m, r);
    var w := ws[5];
    var w6 := w.(tables := CursorPersisted(w.tables, c, m.id), runs := map[r := SyncRun(c, Paging(m.id))]);
    Extend(az, ws, steps, w6, SPersist(r));
    ws, steps := ws + [w6], steps + [SPersist(r)];
    Extend(az, ws, steps, w6.(runs := map[]), SEnd(r));
    ws, steps := ws + [w6.(runs := map[])], steps + [SEnd(r)];
  }

  /** A resync of that chat starts from 0 again, and a removed chat leaves its rows behind. */
  lemma StartingOverHappens(az: Analyzer, c: ChatId, m: Message, r: RunId) returns (ws: seq<World>, steps: seq<Step>)
    requires m.id > 0 && Inked(az, m) && forall term :: term in TermsOf(az, m) ==> |term| <= 128
    ensures Behaviour(az, ws, steps) && |steps| == 9
    ensures ws[8].tables.chats == map[c := NEW_CHAT.(cursor := Some(0))] && ws[8].runs == map[r := SyncRun(c, Paging(0))]
    ensures ws[9].tables.chats == map[] && Indexed(az, ws[9].tables, c, m)
  {
    ws, steps := IndexingHappens(az, c, m, r);
    var w := ws[7];
    var w8 := w.(tables := CursorPersisted(w.tables, c, 0), runs := map[r := SyncRun(c, Paging(0))]);
    Extend(az, ws, steps, w8, SResync(r, c));
    ws, steps := ws + [w8], steps + [SResync(r, c)];
    var w9 := w8.(tables := w8.tables.(chats := map[]));
    Extend(az, ws, steps, w9, SRemove(c));
    ws, steps := ws + [w9], steps + [SRemove(c)];
  }

  // ---------------------------------------------------------------- a chat that is stuck

  /** The run will not get past the message: its cursor is below it, and a fetched page that reaches
      it holds it. */
  ghost predicate RunBehind(run: SyncRun, m: Message)
  {
    match run.phase
    case Paging(cursor) => cursor < m.id
    case Stored(next) => next < m.id
    case Fetched(cursor, page) => cursor < m.id && page != [] && (MaxId(page) < m.id || m in page)
  }

  /** A message with terms is indexed, but neither the persisted cursor of its chat nor any run has
      come past it. */
  ghost predicate Behind(az: Analyzer, w: World, c: ChatId, m: Message)
  {
    && m.id > 0 && Inked(az, m) && TermsOf(az, m) != {} && Indexed(az, w.tables, c, m)
    && (c in w.tables.chats ==> CursorOf(w.tables.chats[c]) < m.id)
    && (forall r :: r in w.runs && w.runs[r].chat == c ==> RunBehind(w.runs[r], m))
  }

  /** A page that holds the message is refused. */
  lemma BehindRejects(az: Analyzer, w: World, c: ChatId, m: Message, page: seq<Message>)
    requires Behind(az, w, c, m) && m in page
    ensures Rejected(az, w.tables.terms, c, page)
  {
    ReindexingIsRejected(az, w.tables, c, page, m);
  }

  lemma FetchStaysBehind(az: Analyzer, w: World, w': World, r: RunId, limit: nat, c: ChatId, m: Message)
    requires Fetch(w, w', r, limit) && Behind(az, w, c, m) && m in HistoryOf(w.h, c)
    ensures Behind(az, w', c, m)
  {
    var run := w.runs[r];
    if run.chat == c {
      var history := HistoryOf(w.h, c);
      var page := ServePage(history, run.phase.cursor, limit);
      if MaxId(page) >= m.id {
        PageIsGapless(history, run.phase.cursor, limit, m);
      }
    }
  }

  lemma StoreStaysBehind(az: Analyzer, w: World, w': World, r: RunId, c: ChatId, m: Message)
    requires Store(az, w, w', r) && Behind(az, w, c, m)
    ensures Behind(az, w', c, m)
  {
    var run := w.runs[r];
    PageStoredGrows(az, w.tables, run.chat, run.phase.page);
    if run.chat == c && m in run.phase.page {
      BehindRejects(az, w, c, m, run.phase.page);
    }
  }

  lemma PersistStaysBehind(az: Analyzer, w: World, w': World, r: RunId, c: ChatId, m: Message)
    requires Persist(w, w', r) && Behind(az, w, c, m)
    ensures Behind(az, w', c, m)
  {
    assert w.runs[r].chat == c ==> RunBehind(w.runs[r], m);
  }

  lemma MarkStaysBehind(az: Analyzer, w: World, w': World, d: ChatId, state: SyncState, estimate: Option<int>, c: ChatId, m: Message)
    requires Mark(w, w', d, state, estimate) && Behind(az, w, c, m)
    ensures Behind(az, w', c, m)
  {
    MarkedColumns(w, w', d, state, estimate);
    ColumnsStayBehind(az, w, w', c, m);
  }

  lemma ColumnsStayBehind(az: Analyzer, w: World, w': World, c: ChatId, m: Message)
    requires SameButColumns(w, w') && Behind(az, w, c, m)
    ensures Behind(az, w', c, m)
  {
  }

  lemma StepStaysBehind(az: Analyzer, w: World, w': World, step: Step, c: ChatId, m: Message)
    requires Takes(az, w, w', step) && Behind(az, w, c, m) && m in HistoryOf(w.h, c)
    ensures Behind(az, w', c, m)
  {
    match step
    case SFetch(r, limit) => FetchStaysBehind(az, w, w', r, limit, c, m);
    case SStore(r) => StoreStaysBehind(az, w, w', r, c, m);
    case SPersist(r) => PersistStaysBehind(az, w, w', r, c, m);
    case SMark(d, state, estimate) => MarkStaysBehind(az, w, w', d, state, estimate, c, m);
    case _ =>
  }

  /** Once behind, always behind: as long as the chat still shows the message, no run of any kind,
      no crash, and neither removing nor adding the chat ever brings its cursor past the message. */
  lemma {:induction false} NeverPassed(az: Analyzer, ws: seq<World>, steps: seq<Step>, i: nat, j: nat, c: ChatId, m: Message)
    requires Behaviour(az, ws, steps) && i <= j < |ws| && Behind(az, ws[i], c, m)
    requires forall k :: i <= k < j ==> m in HistoryOf(ws[k].h, c)
    ensures Behind(az, ws[j], c, m)
  {
    if i < j {
      NeverPassed(az, ws, steps, i, j - 1, c, m);
      StepStaysBehind(az, ws[j - 1], ws[j], steps[j - 1], c, m);
    }
  }

  /** So no run of the chat is served the empty page that would end it as done. */
  lemma NeverDone(az: Analyzer, ws: seq<World>, steps: seq<Step>, i: nat, j: nat, c: ChatId, m: Message, r: RunId, limit: nat)
    requires Behaviour(az, ws, steps) && i <= j < |ws| && Behind(az, ws[i], c, m)
    requires forall k :: i <= k <= j ==> m in HistoryOf(ws[k].h, c)
    requires r in ws[j].runs && ws[j].runs[r].chat == c && ws[j].runs[r].phase.Paging? && limit > 0
    ensures ValidHistory(HistoryOf(ws[j].h, c)) && ServePage(HistoryOf(ws[j].h, c), ws[j].runs[r].phase.cursor, limit) != []
  {
    NeverPassed(az, ws, steps, i, j, c, m);
    AlwaysSafe(az, ws, steps, j);
    assert ValidHistory(HistoryOf(ws[j].h, c));
    assert RunBehind(ws[j].runs[r], m);
    EmptyPageIff(HistoryOf(ws[j].h, c), ws[j].runs[r].phase.cursor, limit);
  }

  /** No other run of the chat is past the message. */
  ghost predicate OthersBehind(w: World, r: RunId, c: ChatId, m: Message)
  {
    forall q :: q in w.runs && q != r && w.runs[q].chat == c ==> RunBehind(w.runs[q], m)
  }

  /** A run that ends between the commit of a page and the write of its cursor leaves its chat stuck
      at every message with terms of that page. */
  lemma CrashLeavesBehind(az: Analyzer, w: World, w1: World, w2: World, r: RunId, m: Message)
    requires Store(az, w, w1, r) && End(w1, w2, r) && Ascending(w.runs[r].phase.page)
    requires m in w.runs[r].phase.page && m.id > 0 && Inked(az, m) && TermsOf(az, m) != {}
    requires var c := w.runs[r].chat; OthersBehind(w, r, c, m) && (c in w.tables.chats ==> CursorOf(w.tables.chats[c]) < m.id)
    ensures Behind(az, w2, w.runs[r].chat, m)
  {
    PageIndexes(az, w.tables, w.runs[r].chat, w.runs[r].phase.page, w.runs[r].chat, m);
  }

  /** So does a resync of an indexed chat, and adding a removed one again: their cursor is 0. */
  lemma StartingOverLeavesBehind(az: Analyzer, w: World, w': World, step: Step, r: RunId, c: ChatId, m: Message)
    requires step == SResync(r, c) || step == SAdd(c)
    requires Takes(az, w, w', step) && OthersBehind(w, r, c, m)
    requires step.SAdd? ==> r !in w.runs
    requires m.id > 0 && Inked(az, m) && TermsOf(az, m) != {} && Indexed(az, w.tables, c, m)
    ensures Behind(az, w', c, m)
  {
    StepGrows(az, w, w', step);
  }
}
