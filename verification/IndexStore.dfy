/** The history index as the database holds it (app/database/models.py), and what committing a
    page of messages does to it (app/history/indexer.py, `_store_page`). */
module IndexStore {
  import opened Strings
  import opened Tokenize
  import opened Normalize

  type ChatId = int
  type MessageId = int
  type Term = string

  const INDEXED_TEXT_MAX := 1000
  const TERM_MAX := 128

  /** A message as the gateway serves it. */
  datatype Message = Message(id: MessageId, text: string, date: int, topic: Option<int>)

  datatype MessageKey = MessageKey(chat: ChatId, id: MessageId)
  datatype MessageRow = MessageRow(text: string, normalized: string, date: int, topic: Option<int>)
  datatype TermKey = TermKey(chat: ChatId, term: Term, id: MessageId)
  datatype PhraseKey = PhraseKey(chat: ChatId, term: Term)

  datatype SyncState = NotSynced | Pending | Running | Partial | Done | Failed
  datatype ChatRow = ChatRow(state: SyncState, cursor: Option<int>, estimate: Option<int>, indexedCount: nat)

  /** The tables. A map's key is the unique constraint of its table; `terms` is the relation of
      `MessageTerm`, whose rows are unique in all three columns. */
  datatype Tables = Tables(
    messages: map<MessageKey, MessageRow>,
    terms: set<TermKey>,
    phrases: map<PhraseKey, nat>,
    chats: map<ChatId, ChatRow>)

  /** How texts become terms. */
  datatype Analyzer = Analyzer(unicode: Unicode, lex: Lexicon)

  function Trimmed(text: string): string
  {
    if |text| <= INDEXED_TEXT_MAX then text else text[..INDEXED_TEXT_MAX]
  }

  /** The clean view of the trimmed text, `normalize_document(...).clean`. */
  function Normalized(az: Analyzer, m: Message): string
  {
    NormalizeText(az.unicode, az.lex, Trimmed(m.text))
  }

  function TermsOf(az: Analyzer, m: Message): set<Term>
  {
    Terms(az.lex, Normalized(az, m))
  }

  /** The message has a character that is no space. */
  predicate Inked(az: Analyzer, m: Message)
  {
    exists c :: c in m.text && !az.lex.isSpace(c)
  }

  /** `_store_page` skips messages that strip to nothing: those without such a character. */
  predicate IsBlank(az: Analyzer, m: Message): (blank: bool)
    ensures blank <==> !Inked(az, m)
  {
    StripEmptyIff(az.lex, m.text);
    Strip(az.lex, m.text) == ""
  }

  predicate Ascending(page: seq<Message>)
  {
    forall i, j :: 0 <= i < j < |page| ==> page[i].id < page[j].id
  }

  // ---------------------------------------------------------------- the tables, read

  /** The `MessageTerm` rows of a chat and term. */
  function TermRows(terms: set<TermKey>, chat: ChatId, term: Term): set<TermKey>
  {
    set k | k in terms && k.chat == chat && k.term == term
  }

  /** The aggregate of a chat and term, 0 when there is none. */
  function PhraseCount(phrases: map<PhraseKey, nat>, chat: ChatId, term: Term): nat
  {
    if PhraseKey(chat, term) in phrases then phrases[PhraseKey(chat, term)] else 0
  }

  function MessageRows(messages: map<MessageKey, MessageRow>, chat: ChatId): set<MessageKey>
  {
    set k | k in messages && k.chat == chat
  }

  /** Every aggregate counts the relation, and no aggregate is kept for nothing. */
  ghost predicate CountsAgree(terms: set<TermKey>, phrases: map<PhraseKey, nat>)
  {
    && (forall chat, term :: PhraseCount(phrases, chat, term) == |TermRows(terms, chat, term)|)
    && (forall k :: k in phrases ==> phrases[k] > 0)
  }

  /** The relation and the rows agree: every term row is of a stored message and a term of some
      text, and every term of a stored text is in the relation. */
  ghost predicate RowsAgree(az: Analyzer, messages: map<MessageKey, MessageRow>, terms: set<TermKey>)
  {
    && (forall k :: k in terms ==> MessageKey(k.chat, k.id) in messages && IsTerm(az.lex, k.term))
    && (forall k, term :: k in messages && term in Terms(az.lex, messages[k].normalized)
          ==> TermKey(k.chat, term, k.id) in terms)
  }

  /** No chat claims more indexed messages than it has rows. */
  ghost predicate CountsClaimed(messages: map<MessageKey, MessageRow>, chats: map<ChatId, ChatRow>)
  {
    forall c :: c in chats ==> chats[c].indexedCount <= |MessageRows(messages, c)|
  }

  ghost predicate Consistent(az: Analyzer, t: Tables)
  {
    CountsAgree(t.terms, t.phrases) && RowsAgree(az, t.messages, t.terms) && CountsClaimed(t.messages, t.chats)
  }

  /** A message is indexed: it has a row, and all its terms are in the relation. */
  ghost predicate Indexed(az: Analyzer, t: Tables, chat: ChatId, m: Message)
  {
    MessageKey(chat, m.id) in t.messages && forall term :: term in TermsOf(az, m) ==> TermKey(chat, term, m.id) in t.terms
  }

  // ---------------------------------------------------------------- one page, committed

  function KeysFor(chat: ChatId, id: MessageId, terms: set<Term>): set<TermKey>
  {
    set term | term in terms :: TermKey(chat, term, id)
  }

  /** The term rows one message adds. */
  function NewTerms(az: Analyzer, chat: ChatId, m: Message): set<TermKey>
  {
    if IsBlank(az, m) then {} else KeysFor(chat, m.id, TermsOf(az, m))
  }

  /** The term rows a page adds. */
  function PageTerms(az: Analyzer, chat: ChatId, page: seq<Message>): set<TermKey>
  {
    if page == [] then {}
    else PageTerms(az, chat, page[..|page| - 1]) + NewTerms(az, chat, page[|page| - 1])
  }

  /** How many messages of the page mention a term: what `seen_term_counts` ends up with. */
  function Mentions(az: Analyzer, page: seq<Message>, term: Term): nat
  {
    if page == [] then 0
    else
      var m := page[|page| - 1];
      Mentions(az, page[..|page| - 1], term) + if !IsBlank(az, m) && term in TermsOf(az, m) then 1 else 0
  }

  /** A new row, or the stored one with its text, normalized text and date refreshed. */
  function StoredRow(az: Analyzer, messages: map<MessageKey, MessageRow>, key: MessageKey, m: Message): MessageRow
  {
    var topic := if key in messages then messages[key].topic else m.topic;
    MessageRow(Trimmed(m.text), Normalized(az, m), m.date, topic)
  }

  function StoreMessage(az: Analyzer, messages: map<MessageKey, MessageRow>, chat: ChatId, m: Message): map<MessageKey, MessageRow>
  {
    var key := MessageKey(chat, m.id);
    if IsBlank(az, m) then messages else messages[key := StoredRow(az, messages, key, m)]
  }

  function StoreMessages(az: Analyzer, messages: map<MessageKey, MessageRow>, chat: ChatId, page: seq<Message>): map<MessageKey, MessageRow>
  {
    if page == [] then messages
    else StoreMessage(az, StoreMessages(az, messages, chat, page[..|page| - 1]), chat, page[|page| - 1])
  }

  function AddCounts(az: Analyzer, phrases: map<PhraseKey, nat>, chat: ChatId, page: seq<Message>): map<PhraseKey, nat>
  {
    map k: PhraseKey | k in phrases.Keys + (set t | t in PageTerms(az, chat, page) :: PhraseKey(chat, t.term))
      :: PhraseCount(phrases, k.chat, k.term) + if k.chat == chat then Mentions(az, page, k.term) else 0
  }

  /** The tables after the transaction of `_store_page` commits. */
  function PageStored(az: Analyzer, t: Tables, chat: ChatId, page: seq<Message>): Tables
  {
    Tables(StoreMessages(az, t.messages, chat, page),
           t.terms + PageTerms(az, chat, page),
           AddCounts(az, t.phrases, chat, page),
           t.chats)
  }

  /** The transaction cannot commit: a term row is already there (`uq_term_msg`), or a term is
      longer than its column. */
  ghost predicate Rejected(az: Analyzer, terms: set<TermKey>, chat: ChatId, page: seq<Message>)
  {
    exists k :: k in PageTerms(az, chat, page) && (k in terms || |k.term| > TERM_MAX)
  }

  // ---------------------------------------------------------------- lemmas: membership

  /** The page has a visible message with this id. */
  ghost predicate Shows(az: Analyzer, page: seq<Message>, id: MessageId)
  {
    exists m :: m in page && Visible(az, m, id)
  }

  predicate Visible(az: Analyzer, m: Message, id: MessageId)
  {
    m.id == id && !IsBlank(az, m)
  }

  lemma ShowsStep(az: Analyzer, init: seq<Message>, last: Message, id: MessageId)
    ensures Shows(az, init + [last], id) <==> Shows(az, init, id) || Visible(az, last, id)
  {
  }

  /** In an ascending page an id is of one message only. */
  lemma LastIsNew(page: seq<Message>, m: Message)
    requires Ascending(page) && page != [] && m in page[..|page| - 1]
    ensures m.id < page[|page| - 1].id
  {
  }

  /** Some message of the page adds this term row. */
  ghost predicate Adds(az: Analyzer, chat: ChatId, page: seq<Message>, k: TermKey)
  {
    exists m :: m in page && k in NewTerms(az, chat, m)
  }

  lemma AddsStep(az: Analyzer, chat: ChatId, init: seq<Message>, last: Message, k: TermKey)
    ensures Adds(az, chat, init + [last], k) <==> Adds(az, chat, init, k) || k in NewTerms(az, chat, last)
  {
  }

  lemma {:induction false} InPageTerms(az: Analyzer, chat: ChatId, page: seq<Message>, k: TermKey)
    ensures k in PageTerms(az, chat, page) <==> Adds(az, chat, page, k)
  {
    if page != [] {
      var init, last := page[..|page| - 1], page[|page| - 1];
      assert page == init + [last];
      InPageTerms(az, chat, init, k);
      AddsStep(az, chat, init, last, k);
      assert k in PageTerms(az, chat, page) <==> k in PageTerms(az, chat, init) || k in NewTerms(az, chat, last);
    }
  }

  lemma InNewTerms(az: Analyzer, chat: ChatId, m: Message, k: TermKey)
    ensures k in NewTerms(az, chat, m) <==> k.chat == chat && Visible(az, m, k.id) && k.term in TermsOf(az, m)
  {
  }

  lemma {:induction false} StoredKeys(az: Analyzer, messages: map<MessageKey, MessageRow>, chat: ChatId, page: seq<Message>, k: MessageKey)
    ensures k in StoreMessages(az, messages, chat, page) <==> k in messages || (k.chat == chat && Shows(az, page, k.id))
    ensures k in messages && !(k.chat == chat && Shows(az, page, k.id)) ==>
              StoreMessages(az, messages, chat, page)[k] == messages[k]
  {
    if page != [] {
      var init, last := page[..|page| - 1], page[|page| - 1];
      StoredKeys(az, messages, chat, init, k);
      assert page == init + [last];
      ShowsStep(az, init, last, k.id);
    }
  }

  lemma {:induction false} StoredValue(az: Analyzer, messages: map<MessageKey, MessageRow>, chat: ChatId, page: seq<Message>, m: Message)
    requires Ascending(page) && m in page && Inked(az, m)
    ensures var k := MessageKey(chat, m.id);
            k in StoreMessages(az, messages, chat, page) && StoreMessages(az, messages, chat, page)[k] == StoredRow(az, messages, k, m)
  {
    var k := MessageKey(chat, m.id);
    var init, last := page[..|page| - 1], page[|page| - 1];
    assert page == init + [last];
    assert Ascending(init);
    if m in init {
      LastIsNew(page, m);
      StoredValue(az, messages, chat, init, m);
    } else {
      forall m' | m' in init ensures m'.id < m.id {
        LastIsNew(page, m');
      }
      StoredKeys(az, messages, chat, init, k);
    }
  }

  // ---------------------------------------------------------------- lemmas: conservation

  lemma {:induction false} MentionsPositive(az: Analyzer, chat: ChatId, page: seq<Message>, term: Term)
    ensures Mentions(az, page, term) > 0 <==> exists k :: k in PageTerms(az, chat, page) && k.term == term
  {
    if page != [] {
      var init, last := page[..|page| - 1], page[|page| - 1];
      MentionsPositive(az, chat, init, term);
      if !IsBlank(az, last) && term in TermsOf(az, last) {
        assert TermKey(chat, term, last.id) in NewTerms(az, chat, last);
      }
    }
  }

  /** The rows of a term grow by the number of messages of the page that mention it. */
  lemma {:induction false} RowsGrowByMentions(az: Analyzer, terms: set<TermKey>, chat: ChatId, page: seq<Message>, c: ChatId, term: Term)
    requires Ascending(page) && PageTerms(az, chat, page) !! terms
    ensures |TermRows(terms + PageTerms(az, chat, page), c, term)|
         == |TermRows(terms, c, term)| + if c == chat then Mentions(az, page, term) else 0
  {
    if page == [] {
      assert terms + PageTerms(az, chat, page) == terms;
    } else {
      var init, last := page[..|page| - 1], page[|page| - 1];
      RowsGrowByMentions(az, terms, chat, init, c, term);
      var before := terms + PageTerms(az, chat, init);
      assert terms + PageTerms(az, chat, page) == before + NewTerms(az, chat, last);
      forall k | k in NewTerms(az, chat, last) ensures k !in before {
        InPageTerms(az, chat, init, k);
        forall m | m in init ensures k !in NewTerms(az, chat, m) {
          LastIsNew(page, m);
        }
      }
      RowsGrowByOne(az, before, chat, last, c, term);
    }
  }

  lemma RowsGrowByOne(az: Analyzer, terms: set<TermKey>, chat: ChatId, m: Message, c: ChatId, term: Term)
    requires NewTerms(az, chat, m) !! terms
    ensures |TermRows(terms + NewTerms(az, chat, m), c, term)|
         == |TermRows(terms, c, term)| + if c == chat && !IsBlank(az, m) && term in TermsOf(az, m) then 1 else 0
  {
    var key := TermKey(chat, term, m.id);
    var after := TermRows(terms + NewTerms(az, chat, m), c, term);
    InNewTerms(az, chat, m, key);
    forall k | k in NewTerms(az, chat, m) && k.term == term ensures k == key {
      InNewTerms(az, chat, m, k);
    }
    if c == chat && key in NewTerms(az, chat, m) {
      assert after == TermRows(terms, c, term) + {key};
    } else {
      assert after == TermRows(terms, c, term);
    }
  }

  /** Index conservation: a committed page keeps every aggregate equal to the number of its rows. */
  lemma PageKeepsCounts(az: Analyzer, t: Tables, chat: ChatId, page: seq<Message>)
    requires CountsAgree(t.terms, t.phrases)
    requires Ascending(page) && !Rejected(az, t.terms, chat, page)
    ensures CountsAgree(PageStored(az, t, chat, page).terms, PageStored(az, t, chat, page).phrases)
  {
    var after := PageStored(az, t, chat, page);
    assert PageTerms(az, chat, page) !! t.terms;
    forall c, term ensures PhraseCount(after.phrases, c, term) == |TermRows(after.terms, c, term)|
    {
      RowsGrowByMentions(az, t.terms, chat, page, c, term);
      MentionsPositive(az, chat, page, term);
      AddedCount(az, t.phrases, chat, page, c, term);
    }
    forall k | k in after.phrases ensures after.phrases[k] > 0
    {
      MentionsPositive(az, chat, page, k.term);
      AddedCount(az, t.phrases, chat, page, k.chat, k.term);
    }
  }

  lemma AddedCount(az: Analyzer, phrases: map<PhraseKey, nat>, chat: ChatId, page: seq<Message>, c: ChatId, term: Term)
    ensures PhraseCount(AddCounts(az, phrases, chat, page), c, term)
         == PhraseCount(phrases, c, term) + if c == chat then Mentions(az, page, term) else 0
    ensures PhraseKey(c, term) in AddCounts(az, phrases, chat, page) <==>
            PhraseKey(c, term) in phrases || (c == chat && Mentions(az, page, term) > 0)
  {
    MentionsPositive(az, chat, page, term);
    var k := PhraseKey(c, term);
    var added := set t | t in PageTerms(az, chat, page) :: PhraseKey(chat, t.term);
    if c == chat && Mentions(az, page, term) > 0 {
      var row :| row in PageTerms(az, chat, page) && row.term == term;
      assert PhraseKey(chat, row.term) in added;
    }
    if k in added {
      var row :| row in PageTerms(az, chat, page) && k == PhraseKey(chat, row.term);
    }
  }

  lemma PageKeepsRows(az: Analyzer, t: Tables, chat: ChatId, page: seq<Message>)
    requires RowsAgree(az, t.messages, t.terms) && Ascending(page)
    ensures RowsAgree(az, PageStored(az, t, chat, page).messages, PageStored(az, t, chat, page).terms)
  {
    var after := PageStored(az, t, chat, page);
    forall k | k in after.terms ensures MessageKey(k.chat, k.id) in after.messages && IsTerm(az.lex, k.term)
    {
      InPageTerms(az, chat, page, k);
      StoredKeys(az, t.messages, chat, page, MessageKey(k.chat, k.id));
      if k !in t.terms {
        var m :| m in page && k in NewTerms(az, chat, m);
        InNewTerms(az, chat, m, k);
      }
    }
    forall k, term | k in after.messages && term in Terms(az.lex, after.messages[k].normalized)
      ensures TermKey(k.chat, term, k.id) in after.terms
    {
      StoredKeys(az, t.messages, chat, page, k);
      if k.chat == chat && Shows(az, page, k.id) {
        var m :| m in page && Visible(az, m, k.id);
        StoredValue(az, t.messages, chat, page, m);
        InPageTerms(az, chat, page, TermKey(chat, term, m.id));
        InNewTerms(az, chat, m, TermKey(chat, term, m.id));
      }
    }
  }

  /** Rows of one chat, with the visible messages of the page that were not there before. */
  lemma PageGrows(az: Analyzer, t: Tables, chat: ChatId, page: seq<Message>, c: ChatId)
    requires Ascending(page)
    ensures MessageRows(t.messages, c) <= MessageRows(PageStored(az, t, chat, page).messages, c)
    ensures |MessageRows(t.messages, c)| <= |MessageRows(PageStored(az, t, chat, page).messages, c)|
    ensures c != chat ==> MessageRows(t.messages, c) == MessageRows(PageStored(az, t, chat, page).messages, c)
  {
    var before, after := MessageRows(t.messages, c), MessageRows(PageStored(az, t, chat, page).messages, c);
    forall k ensures k in before ==> k in after
      ensures c != chat && k in after ==> k in before
    {
      StoredKeys(az, t.messages, chat, page, k);
    }
    SubsetSize(before, after);
  }

  /** A committed page leaves the index consistent. */
  lemma PageKeepsConsistent(az: Analyzer, t: Tables, chat: ChatId, page: seq<Message>)
    requires Consistent(az, t) && Ascending(page) && !Rejected(az, t.terms, chat, page)
    ensures Consistent(az, PageStored(az, t, chat, page))
  {
    PageKeepsCounts(az, t, chat, page);
    PageKeepsRows(az, t, chat, page);
    forall c ensures |MessageRows(t.messages, c)| <= |MessageRows(PageStored(az, t, chat, page).messages, c)| {
      PageGrows(az, t, chat, page, c);
    }
  }

  /** What was indexed stays indexed, and every visible message of the page is indexed. */
  lemma PageIndexes(az: Analyzer, t: Tables, chat: ChatId, page: seq<Message>, c: ChatId, m: Message)
    requires Ascending(page)
    requires Indexed(az, t, c, m) || (c == chat && m in page && Inked(az, m))
    ensures Indexed(az, PageStored(az, t, chat, page), c, m)
  {
    StoredKeys(az, t.messages, chat, page, MessageKey(c, m.id));
    if !Indexed(az, t, c, m) {
      assert Visible(az, m, m.id);
      forall term | term in TermsOf(az, m)
        ensures TermKey(c, term, m.id) in PageStored(az, t, chat, page).terms
      {
        InNewTerms(az, chat, m, TermKey(c, term, m.id));
        InPageTerms(az, chat, page, TermKey(c, term, m.id));
      }
    }
  }

  /** What the commit of a page stores of one of its messages. With a character that is no space: its
      row, with the text (the first 1000 characters of a longer one), the clean view of that and the
      date, and a term row for every term of that view. Of spaces only: nothing. */
  lemma CommittedPageStores(az: Analyzer, t: Tables, chat: ChatId, page: seq<Message>, m: Message)
    requires Ascending(page) && m in page
    ensures var t', k := PageStored(az, t, chat, page), MessageKey(chat, m.id);
            var text := if |m.text| <= 1000 then m.text else m.text[..1000];
            (exists c :: c in m.text && !az.lex.isSpace(c)) ==>
              && k in t'.messages && t'.messages[k].text == text && t'.messages[k].date == m.date
              && t'.messages[k].topic == (if k in t.messages then t.messages[k].topic else m.topic)
              && t'.messages[k].normalized == NormalizeText(az.unicode, az.lex, text)
              && forall term :: term in Terms(az.lex, NormalizeText(az.unicode, az.lex, text)) ==> TermKey(chat, term, m.id) in t'.terms
    ensures var t', k := PageStored(az, t, chat, page), MessageKey(chat, m.id);
            (forall c :: c in m.text ==> az.lex.isSpace(c)) ==>
              && (k in t'.messages <==> k in t.messages) && (k in t.messages ==> t'.messages[k] == t.messages[k])
              && forall term :: TermKey(chat, term, m.id) in t'.terms <==> TermKey(chat, term, m.id) in t.terms
  {
    if Inked(az, m) {
      StoredValue(az, t.messages, chat, page, m);
      PageIndexes(az, t, chat, page, chat, m);
    } else {
      OnlyOfItsId(az, page, m);
      StoredKeys(az, t.messages, chat, page, MessageKey(chat, m.id));
      forall term ensures TermKey(chat, term, m.id) !in PageTerms(az, chat, page) {
        InPageTerms(az, chat, page, TermKey(chat, term, m.id));
        forall x | x in page ensures TermKey(chat, term, m.id) !in NewTerms(az, chat, x) {
          InNewTerms(az, chat, x, TermKey(chat, term, m.id));
        }
      }
    }
  }

  /** A blank message of a page is the only one with its id, so the page does not show that id. */
  lemma OnlyOfItsId(az: Analyzer, page: seq<Message>, m: Message)
    requires Ascending(page) && m in page && IsBlank(az, m)
    ensures forall x :: x in page ==> !Visible(az, x, m.id)
  {
    forall x | x in page ensures !Visible(az, x, m.id) {
      var i :| 0 <= i < |page| && page[i] == m;
      var j :| 0 <= j < |page| && page[j] == x;
      assert i == j || page[i].id != page[j].id;
    }
  }

  /** Serving an indexed message with a term again aborts its page. */
  lemma ReindexingIsRejected(az: Analyzer, t: Tables, chat: ChatId, page: seq<Message>, m: Message)
    requires m in page && Inked(az, m) && TermsOf(az, m) != {}
    requires Indexed(az, t, chat, m)
    ensures Rejected(az, t.terms, chat, page)
  {
    var term :| term in TermsOf(az, m);
    InNewTerms(az, chat, m, TermKey(chat, term, m.id));
    InPageTerms(az, chat, page, TermKey(chat, term, m.id));
  }

  // ---------------------------------------------------------------- lemmas: accounting

  /** How many rows a page creates: `created` of `_store_page`. */
  function Created(az: Analyzer, messages: map<MessageKey, MessageRow>, chat: ChatId, page: seq<Message>): (n: nat)
    ensures n <= |page|
  {
    if page == [] then 0
    else
      var init, last := page[..|page| - 1], page[|page| - 1];
      Created(az, messages, chat, init)
      + if IsBlank(az, last) || MessageKey(chat, last.id) in StoreMessages(az, messages, chat, init) then 0 else 1
  }

  /** The chat gains exactly the rows that were counted as created; no other chat gains any. */
  lemma {:induction false} CreatedCounts(az: Analyzer, messages: map<MessageKey, MessageRow>, chat: ChatId, page: seq<Message>, c: ChatId)
    ensures |MessageRows(StoreMessages(az, messages, chat, page), c)|
         == |MessageRows(messages, c)| + if c == chat then Created(az, messages, chat, page) else 0
  {
    if page != [] {
      var init, last := page[..|page| - 1], page[|page| - 1];
      CreatedCounts(az, messages, chat, init, c);
      CreatedOne(az, StoreMessages(az, messages, chat, init), chat, last, c);
    }
  }

  lemma CreatedOne(az: Analyzer, messages: map<MessageKey, MessageRow>, chat: ChatId, m: Message, c: ChatId)
    ensures |MessageRows(StoreMessage(az, messages, chat, m), c)| == |MessageRows(messages, c)|
            + if c == chat && !IsBlank(az, m) && MessageKey(chat, m.id) !in messages then 1 else 0
  {
    var key := MessageKey(chat, m.id);
    var after := StoreMessage(az, messages, chat, m);
    if c == chat && !IsBlank(az, m) && key !in messages {
      assert MessageRows(after, c) == MessageRows(messages, c) + {key};
    } else {
      assert MessageRows(after, c) == MessageRows(messages, c);
    }
  }

  // ---------------------------------------------------------------- what the gateway serves

  /** A history: visible and blank messages in ascending, positive ids. */
  predicate ValidHistory(history: seq<Message>)
  {
    Ascending(history) && forall i :: 0 <= i < |history| ==> history[i].id > 0
  }

  /** The first message after `minId`, searching from position `k`. */
  function FirstAfter(history: seq<Message>, minId: int, k: nat := 0): (i: nat)
    requires Ascending(history) && k <= |history|
    ensures k <= i <= |history|
    ensures forall j :: k <= j < i ==> history[j].id <= minId
    ensures forall j :: i <= j < |history| ==> history[j].id > minId
    decreases |history| - k
  {
    if k == |history| || history[k].id > minId then k else FirstAfter(history, minId, k + 1)
  }

  /** Where the page after `minId` ends. */
  function PageEnd(history: seq<Message>, minId: int, limit: nat): (i: nat)
    requires Ascending(history)
    ensures FirstAfter(history, minId) <= i <= |history|
  {
    var lo := FirstAfter(history, minId);
    if lo + limit <= |history| then lo + limit else |history|
  }

  /** One page: ascending ids after `minId`, the first `limit` of them. */
  function ServePage(history: seq<Message>, minId: int, limit: nat): (page: seq<Message>)
    requires Ascending(history)
  {
    history[FirstAfter(history, minId)..PageEnd(history, minId, limit)]
  }

  /** What the gateway promises of a page: ascending, after `minId`, at most `limit`, of this
      history, and empty only when nothing is left. */
  lemma PageContract(history: seq<Message>, minId: int, limit: nat)
    requires Ascending(history)
    ensures var page := ServePage(history, minId, limit);
            && Ascending(page) && |page| <= limit
            && (forall m :: m in page ==> m in history && m.id > minId)
            && (page == [] && limit > 0 ==> forall m :: m in history ==> m.id <= minId)
  {
  }

  /** `max(h.message_id for h in page)`. */
  function MaxId(page: seq<Message>): (id: int)
    requires page != []
    ensures forall m :: m in page ==> m.id <= id
    ensures exists m :: m in page && m.id == id
  {
    var init, last := page[..|page| - 1], page[|page| - 1];
    assert page == init + [last];
    if init == [] || MaxId(init) < last.id then last.id else MaxId(init)
  }

  /** In ascending order a smaller id is not further on. */
  lemma OrderOfIds(history: seq<Message>, j: nat, k: nat)
    requires Ascending(history) && j < |history| && k < |history| && history[j].id <= history[k].id
    ensures j <= k
  {
  }

  /** Nothing of the history lies between a page and the cursor taken from it. */
  lemma PageIsGapless(history: seq<Message>, minId: int, limit: nat, m: Message)
    requires Ascending(history) && ServePage(history, minId, limit) != []
    requires m in history && minId < m.id <= MaxId(ServePage(history, minId, limit))
    ensures m in ServePage(history, minId, limit)
  {
    var lo, hi := FirstAfter(history, minId), PageEnd(history, minId, limit);
    assert lo < hi;
    SliceMax(history, lo, hi);
    var j :| 0 <= j < |history| && history[j] == m;
    PlaceInPage(history, lo, hi, j, minId);
  }

  /** A message after the place before a slice, with an id up to its last one, is in the slice. */
  lemma PlaceInPage(history: seq<Message>, lo: nat, hi: nat, j: nat, minId: int)
    requires Ascending(history) && lo < hi <= |history| && j < |history| && history[j].id <= history[hi - 1].id
    requires forall k :: 0 <= k < lo ==> history[k].id <= minId
    requires minId < history[j].id
    ensures history[j] in history[lo..hi]
  {
    OrderOfIds(history, j, hi - 1);
    SliceHas(history, lo, hi, j);
  }

  lemma SliceMax(history: seq<Message>, lo: nat, hi: nat)
    requires Ascending(history) && lo < hi <= |history|
    ensures MaxId(history[lo..hi]) == history[hi - 1].id
  {
  }

  lemma SliceHas(history: seq<Message>, lo: nat, hi: nat, j: nat)
    requires lo <= j < hi <= |history|
    ensures history[j] in history[lo..hi]
  {
  }

  /** Every visible message of the history up to the cursor is indexed. */
  ghost predicate CursorSafe(az: Analyzer, t: Tables, chat: ChatId, history: seq<Message>, cursor: int)
  {
    forall m :: m in history && Inked(az, m) && m.id <= cursor ==> Indexed(az, t, chat, m)
  }

  function CursorOf(row: ChatRow): int
  {
    if row.cursor.Some? then row.cursor.value else 0
  }

  type Histories = map<ChatId, seq<Message>>

  function HistoryOf(h: Histories, chat: ChatId): seq<Message>
  {
    if chat in h then h[chat] else []
  }

  /** The invariant of the index against the chats it is taken from. */
  ghost predicate Safe(az: Analyzer, t: Tables, h: Histories)
  {
    && Consistent(az, t)
    && (forall c :: c in t.chats ==> CursorSafe(az, t, c, HistoryOf(h, c), CursorOf(t.chats[c])))
  }

  /** The tables only ever gain rows and term rows. */
  ghost predicate Grows(t: Tables, t': Tables)
  {
    t.messages.Keys <= t'.messages.Keys && t.terms <= t'.terms
  }

  lemma GrownIndexed(az: Analyzer, t: Tables, t': Tables, chat: ChatId, history: seq<Message>, cursor: int)
    requires Grows(t, t') && CursorSafe(az, t, chat, history, cursor)
    ensures CursorSafe(az, t', chat, history, cursor)
  {
  }

  lemma PageStoredGrows(az: Analyzer, t: Tables, chat: ChatId, page: seq<Message>)
    ensures Grows(t, PageStored(az, t, chat, page))
  {
    forall k | k in t.messages ensures k in StoreMessages(az, t.messages, chat, page) {
      StoredKeys(az, t.messages, chat, page, k);
    }
  }

  /** Once its page is stored, the next cursor is safe. */
  lemma NextCursorSafe(az: Analyzer, t: Tables, chat: ChatId, history: seq<Message>, cursor: int, limit: nat)
    requires Ascending(history) && CursorSafe(az, t, chat, history, cursor)
    requires ServePage(history, cursor, limit) != []
    ensures var page := ServePage(history, cursor, limit);
            CursorSafe(az, PageStored(az, t, chat, page), chat, history, MaxId(page))
  {
    var page := ServePage(history, cursor, limit);
    PageContract(history, cursor, limit);
    forall m | m in history && Inked(az, m) && m.id <= MaxId(page) && m.id > cursor ensures m in page {
      PageIsGapless(history, cursor, limit, m);
    }
    GaplessPageSafe(az, t, chat, history, cursor, page);
  }

  /** A stored page that holds every visible message between two cursors makes the second one safe. */
  lemma GaplessPageSafe(az: Analyzer, t: Tables, chat: ChatId, history: seq<Message>, cursor: int, page: seq<Message>)
    requires CursorSafe(az, t, chat, history, cursor) && Ascending(page) && page != []
    requires forall m :: m in history && Inked(az, m) && cursor < m.id <= MaxId(page) ==> m in page
    ensures CursorSafe(az, PageStored(az, t, chat, page), chat, history, MaxId(page))
  {
    forall m | m in history && Inked(az, m) && m.id <= MaxId(page)
      ensures Indexed(az, PageStored(az, t, chat, page), chat, m)
    {
      assert m.id <= cursor || m in page;
      PageIndexes(az, t, chat, page, chat, m);
    }
  }

  lemma PageKeepsSafe(az: Analyzer, t: Tables, h: Histories, chat: ChatId, page: seq<Message>)
    requires Safe(az, t, h) && Ascending(page) && !Rejected(az, t.terms, chat, page)
    ensures Safe(az, PageStored(az, t, chat, page), h)
  {
    PageKeepsConsistent(az, t, chat, page);
    PageStoredGrows(az, t, chat, page);
    var after := PageStored(az, t, chat, page);
    forall c | c in after.chats ensures CursorSafe(az, after, c, HistoryOf(h, c), CursorOf(after.chats[c])) {
      GrownIndexed(az, t, after, c, HistoryOf(h, c), CursorOf(t.chats[c]));
    }
  }

  // ---------------------------------------------------------------- the `_persist_*` transactions

  /** One chat's row rewritten, when the chat is still configured. */
  function RowWritten(t: Tables, chat: ChatId, write: ChatRow -> ChatRow): Tables
  {
    if chat in t.chats then t.(chats := t.chats[chat := write(t.chats[chat])]) else t
  }

  function CursorPersisted(t: Tables, chat: ChatId, cursor: int): Tables
  {
    RowWritten(t, chat, (row: ChatRow) => row.(cursor := Some(cursor)))
  }

  function StatePersisted(t: Tables, chat: ChatId, state: SyncState): Tables
  {
    RowWritten(t, chat, (row: ChatRow) => row.(state := state))
  }

  /** A failed estimate never wipes the previous one. */
  function EstimatePersisted(t: Tables, chat: ChatId, estimate: Option<int>): Tables
  {
    if estimate.None? then t else RowWritten(t, chat, (row: ChatRow) => row.(estimate := estimate))
  }

  /** The end of a run: its state, and the rows counted afresh. */
  function FinishPersisted(t: Tables, chat: ChatId, state: SyncState): Tables
  {
    RowWritten(t, chat, (row: ChatRow) => row.(state := state, indexedCount := |MessageRows(t.messages, chat)|))
  }

  lemma CursorKeepsSafe(az: Analyzer, t: Tables, h: Histories, chat: ChatId, cursor: int)
    requires Safe(az, t, h) && CursorSafe(az, t, chat, HistoryOf(h, chat), cursor)
    ensures Safe(az, CursorPersisted(t, chat, cursor), h)
  {
  }

  lemma StateKeepsSafe(az: Analyzer, t: Tables, h: Histories, chat: ChatId, state: SyncState)
    requires Safe(az, t, h)
    ensures Safe(az, StatePersisted(t, chat, state), h)
  {
  }

  lemma EstimateKeepsSafe(az: Analyzer, t: Tables, h: Histories, chat: ChatId, estimate: Option<int>)
    requires Safe(az, t, h)
    ensures Safe(az, EstimatePersisted(t, chat, estimate), h)
  {
  }

  lemma FinishKeepsSafe(az: Analyzer, t: Tables, h: Histories, chat: ChatId, state: SyncState)
    requires Safe(az, t, h)
    ensures Safe(az, FinishPersisted(t, chat, state), h)
  {
  }

  /** Before anything is indexed, cursor 0 is safe: ids are positive. */
  lemma ZeroIsSafe(az: Analyzer, t: Tables, chat: ChatId, history: seq<Message>)
    requires ValidHistory(history)
    ensures CursorSafe(az, t, chat, history, 0)
  {
  }

  // ---------------------------------------------------------------- what DONE and resync mean

  /** A page is empty exactly when nothing is left, or nothing was asked for. So the empty page
      that ends a run stands for the end of the history exactly when the batch is positive. */
  lemma EmptyPageIff(history: seq<Message>, minId: int, limit: nat)
    requires Ascending(history)
    ensures ServePage(history, minId, limit) == [] <==> limit == 0 || forall m :: m in history ==> m.id <= minId
  {
    var lo, hi := FirstAfter(history, minId), PageEnd(history, minId, limit);
    assert |ServePage(history, minId, limit)| == hi - lo;
    if lo < |history| {
      assert history[lo] in history;
    }
  }

  /** A page of already indexed messages is stored again exactly when none of its visible
      messages has a term: a resync of an indexed chat stops at its first page with words. */
  lemma ResyncRejectedIff(az: Analyzer, t: Tables, chat: ChatId, page: seq<Message>)
    requires forall m :: m in page && Inked(az, m) ==> Indexed(az, t, chat, m)
    ensures Rejected(az, t.terms, chat, page) <==> exists m :: m in page && Inked(az, m) && TermsOf(az, m) != {}
  {
    if m :| m in page && Inked(az, m) && TermsOf(az, m) != {} {
      ReindexingIsRejected(az, t, chat, page, m);
    }
    if Rejected(az, t.terms, chat, page) {
      var k :| k in PageTerms(az, chat, page) && (k in t.terms || |k.term| > TERM_MAX);
      InPageTerms(az, chat, page, k);
      var m :| m in page && k in NewTerms(az, chat, m);
      InNewTerms(az, chat, m, k);
    }
  }

  /** Every visible message the gateway has is indexed. */
  ghost predicate WholeHistoryIndexed(az: Analyzer, t: Tables, chat: ChatId, history: seq<Message>)
  {
    forall m :: m in history && Inked(az, m) ==> Indexed(az, t, chat, m)
  }
}
