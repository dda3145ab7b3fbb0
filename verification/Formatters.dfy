/** app/bot/formatters.py, `format_evidence`: all evidence lines cut into messages. */
module Formatters {
  import opened Strings

  const EVIDENCE_CHUNK := 3900
  const MESSAGE_LIMIT := 4096

  function Total(lines: seq<string>): nat
  {
    if lines == [] then 0 else Total(lines[..|lines| - 1]) + |lines[|lines| - 1]|
  }

  /** The lines every report starts with. */
  function Header(requestId: string, text: string): seq<string>
  {
    ["\U{1F4C4} Full analysis evidence", "",
     "Request: " + requestId,
     "Message: " + Cut(text, 500),
     ""]
  }

  /** The texts of one finding; an absent text is the empty one. */
  datatype FindingText = FindingText(
    term: string, category: string, evidence: string, history: string, count: string, example: string,
    level: string, risk: string, components: seq<string>, reason: string, suggestion: string)

  /** The texts of one chat; a chat that was not analyzed has no score. */
  datatype ChatText = ChatText(
    name: string, status: string, coverage: string, score: Option<(string, string)>, findings: seq<FindingText>)

  const MAX_EVIDENCE_FINDINGS := 8
  const DASH := " \U{2014} "

  function Cut(s: string, n: nat): string
  {
    if |s| <= n then s else s[..n]
  }

  function Bulleted(components: seq<string>): seq<string>
  {
    seq(|components|, i requires 0 <= i < |components| => "  \U{2022} " + components[i])
  }

  function TermLine(f: FindingText): string
  {
    "\U{2022} \"" + f.term + "\" [" + f.category + "]"
  }

  function FindingFacts(f: FindingText): seq<string>
  {
    ["", TermLine(f)]
    + ["  Evidence: " + f.evidence, "  History: " + f.history + " (count: " + f.count + ")"]
    + (if f.example != "" then ["  Example: " + Cut(f.example, 300)] else [])
    + ["  Risk: " + f.level + DASH + f.risk + "/100"]
  }

  function FindingAdvice(f: FindingText): seq<string>
  {
    ["  Reason: " + if f.reason != "" then f.reason else "-"]
    + if f.suggestion != "" then ["  Suggestion: " + f.suggestion] else []
  }

  function FindingLines(f: FindingText): seq<string>
  {
    FindingFacts(f) + Bulleted(f.components) + FindingAdvice(f)
  }

  /** The lines of a chat before its findings. */
  function ChatHead(c: ChatText): seq<string>
  {
    ["Chat: " + c.name, "Status: " + c.status]
    + (if c.coverage != "" then ["Coverage: " + c.coverage] else [])
    + if c.score.Some? then ["Chat risk: " + c.score.value.0 + DASH + c.score.value.1 + "/100"] else []
  }

  function FindingBlocks(fs: seq<FindingText>): seq<seq<string>>
  {
    seq(|fs|, i requires 0 <= i < |fs| => FindingLines(fs[i]))
  }

  function Shown(fs: seq<FindingText>): seq<FindingText>
  {
    if |fs| <= MAX_EVIDENCE_FINDINGS then fs else fs[..MAX_EVIDENCE_FINDINGS]
  }

  function ChatLines(c: ChatText): seq<string>
  {
    ChatHead(c) + Flatten(FindingBlocks(Shown(c.findings))) + [""]
  }

  function ReportLines(chats: seq<ChatText>): seq<string>
  {
    Flatten(seq(|chats|, i requires 0 <= i < |chats| => ChatLines(chats[i])))
  }

  /** Chunks finished so far, as their lines, and the lines of the chunk being filled. */
  datatype Pages = Pages(chunks: seq<seq<string>>, current: seq<string>)

  /** A line is added; a chunk that now is over the limit is finished. */
  function AddLine(p: Pages, line: string): Pages
  {
    var current := p.current + [line];
    if Total(current) > EVIDENCE_CHUNK then Pages(p.chunks + [current], [""]) else Pages(p.chunks, current)
  }

  function AddLines(p: Pages, lines: seq<string>): Pages
  {
    if lines == [] then p else AddLine(AddLines(p, lines[..|lines| - 1]), lines[|lines| - 1])
  }

  predicate IsBlankLine(isSpace: char -> bool, line: string)
  {
    forall i | 0 <= i < |line| :: isSpace(line[i])
  }

  /** What is left is a last chunk, unless it is blank altogether. */
  function Closed(isSpace: char -> bool, p: Pages): seq<seq<string>>
  {
    if exists l :: l in p.current && !IsBlankLine(isSpace, l) then p.chunks + [p.current] else p.chunks
  }

  function Flatten<T>(xss: seq<seq<T>>): seq<T>
  {
    if xss == [] then [] else Flatten(xss[..|xss| - 1]) + xss[|xss| - 1]
  }

  /** The chunks of a report, as lines. */
  function Chunks(isSpace: char -> bool, header: seq<string>, lines: seq<string>): seq<seq<string>>
  {
    Closed(isSpace, AddLines(Pages([], header), lines))
  }

  function Rendered(chunks: seq<seq<string>>): seq<string>
  {
    seq(|chunks|, i requires 0 <= i < |chunks| => Join("\n", chunks[i]))
  }

  /** What `format_evidence` returns. */
  function Messages(isSpace: char -> bool, requestId: string, text: string, chats: seq<ChatText>): seq<string>
  {
    var chunks := Chunks(isSpace, Header(requestId, text), ReportLines(chats));
    if chunks == [] then ["No evidence recorded."] else Rendered(chunks)
  }

  /** The lines of one finding, appended one by one. */
  method AppendFinding(block: seq<string>, f: FindingText) returns (r: seq<string>)
    ensures r == block + FindingLines(f)
  {
    r := AppendFacts(block, f);
    r := AppendBullets(r, f.components);
    r := r + ["  Reason: " + if f.reason != "" then f.reason else "-"];
    if f.suggestion != "" {
      r := r + ["  Suggestion: " + f.suggestion];
    }
    assert r == block + FindingFacts(f) + Bulleted(f.components) + FindingAdvice(f);
  }

  method AppendFacts(block: seq<string>, f: FindingText) returns (r: seq<string>)
    ensures r == block + FindingFacts(f)
  {
    var facts := ["", TermLine(f)];
    facts := facts + ["  Evidence: " + f.evidence, "  History: " + f.history + " (count: " + f.count + ")"];
    if f.example != "" {
      facts := facts + ["  Example: " + Cut(f.example, 300)];
    }
    facts := facts + ["  Risk: " + f.level + DASH + f.risk + "/100"];
    assert facts == FindingFacts(f);
    r := block + facts;
  }

  method AppendBullets(block: seq<string>, components: seq<string>) returns (r: seq<string>)
    ensures r == block + Bulleted(components)
  {
    r := block;
    for i := 0 to |components|
      invariant r == block + Bulleted(components[..i])
    {
      assert Bulleted(components[..i + 1]) == Bulleted(components[..i]) + ["  \U{2022} " + components[i]];
      r := r + ["  \U{2022} " + components[i]];
    }
    assert components[..|components|] == components;
  }

  /** The block of one chat, with at most eight findings. */
  method BuildBlock(c: ChatText) returns (block: seq<string>)
    ensures block == ChatLines(c)
  {
    block := ["Chat: " + c.name, "Status: " + c.status];
    if c.coverage != "" {
      block := block + ["Coverage: " + c.coverage];
    }
    if c.score.Some? {
      block := block + ["Chat risk: " + c.score.value.0 + DASH + c.score.value.1 + "/100"];
    }
    assert block == ChatHead(c);
    var findings := AllFindings(Shown(c.findings));
    block := block + findings + [""];
  }

  method AllFindings(shown: seq<FindingText>) returns (r: seq<string>)
    ensures r == Flatten(FindingBlocks(shown))
  {
    r := [];
    for i := 0 to |shown|
      invariant r == Flatten(FindingBlocks(shown[..i]))
    {
      FindingStep(shown, i);
      r := AppendFinding(r, shown[i]);
    }
    assert shown[..|shown|] == shown;
  }

  lemma FindingStep(shown: seq<FindingText>, i: nat)
    requires i < |shown|
    ensures Flatten(FindingBlocks(shown[..i + 1])) == Flatten(FindingBlocks(shown[..i])) + FindingLines(shown[i])
  {
    var blocks := FindingBlocks(shown[..i + 1]);
    assert blocks[..i] == FindingBlocks(shown[..i]) && blocks[i] == FindingLines(shown[i]);
  }

  /** The loop over the lines of one chat, with the reset of `current` on a flush. */
  method AppendBlock(ghost before: Pages, messages: seq<string>, current: seq<string>, block: seq<string>)
      returns (all: seq<string>, left: seq<string>, ghost pages: Pages)
    requires messages == Rendered(before.chunks) && current == before.current
    ensures all == Rendered(AddLines(before, block).chunks) && left == AddLines(before, block).current
    ensures pages == AddLines(before, block)
  {
    all, left, pages := messages, current, before;
    for i := 0 to |block|
      invariant pages == AddLines(before, block[..i])
      invariant all == Rendered(pages.chunks) && left == pages.current
    {
      assert block[..i + 1][..i] == block[..i] && block[..i + 1][i] == block[i];
      left := left + [block[i]];
      if Total(left) > EVIDENCE_CHUNK {
        RenderedStep(pages.chunks, left);
        all := all + [Join("\n", left)];
        left := [""];
      }
      pages := AddLine(pages, block[i]);
    }
    assert block[..|block|] == block;
  }

  /** The loop over the chats and the last, incomplete chunk. */
  method FormatEvidence(isSpace: char -> bool, requestId: string, text: string, chats: seq<ChatText>)
      returns (messages: seq<string>)
    ensures messages == Messages(isSpace, requestId, text, chats)
  {
    var current := Header(requestId, text);
    messages := [];
    ghost var start := Pages([], current);
    ghost var pages := start;
    for b := 0 to |chats|
      invariant pages == AddLines(start, ReportLines(chats[..b]))
      invariant messages == Rendered(pages.chunks) && current == pages.current
    {
      ReportStep(chats, b);
      AddLinesAppend(start, ReportLines(chats[..b]), ChatLines(chats[b]));
      var block := BuildBlock(chats[b]);
      messages, current, pages := AppendBlock(pages, messages, current, block);
    }
    assert chats[..|chats|] == chats;
    if exists l :: l in current && !IsBlankLine(isSpace, l) {
      RenderedStep(pages.chunks, current);
      messages := messages + [Join("\n", current)];
    }
    if messages == [] {
      messages := ["No evidence recorded."];
    }
  }

  lemma ReportStep(chats: seq<ChatText>, b: nat)
    requires b < |chats|
    ensures ReportLines(chats[..b + 1]) == ReportLines(chats[..b]) + ChatLines(chats[b])
  {
    var blocks := seq(b + 1, i requires 0 <= i < b + 1 => ChatLines(chats[..b + 1][i]));
    assert blocks[..b] == seq(b, i requires 0 <= i < b => ChatLines(chats[..b][i]));
    assert blocks[b] == ChatLines(chats[b]);
  }

  lemma RenderedStep(chunks: seq<seq<string>>, chunk: seq<string>)
    ensures Rendered(chunks + [chunk]) == Rendered(chunks) + [Join("\n", chunk)]
  {
  }

  lemma {:induction false} AddLinesAppend(p: Pages, a: seq<string>, b: seq<string>)
    ensures AddLines(p, a + b) == AddLines(AddLines(p, a), b)
  {
    if b == [] {
      assert a + b == a;
    } else {
      assert (a + b)[..|a + b| - 1] == a + b[..|b| - 1];
      AddLinesAppend(p, a, b[..|b| - 1]);
    }
  }

  // ---------------------------------------------------------------- conservation

  /** The lines with a visible character, in order. */
  function VisibleLines(isSpace: char -> bool, lines: seq<string>): seq<string>
  {
    if lines == [] then []
    else
      var last := lines[|lines| - 1];
      VisibleLines(isSpace, lines[..|lines| - 1]) + if IsBlankLine(isSpace, last) then [] else [last]
  }

  lemma {:induction false} VisibleAppend(isSpace: char -> bool, a: seq<string>, b: seq<string>)
    ensures VisibleLines(isSpace, a + b) == VisibleLines(isSpace, a) + VisibleLines(isSpace, b)
  {
    if b == [] {
      assert a + b == a;
    } else {
      assert (a + b)[..|a + b| - 1] == a + b[..|b| - 1];
      VisibleAppend(isSpace, a, b[..|b| - 1]);
    }
  }

  lemma {:induction false} NoVisible(isSpace: char -> bool, lines: seq<string>)
    requires forall l :: l in lines ==> IsBlankLine(isSpace, l)
    ensures VisibleLines(isSpace, lines) == []
  {
    if lines != [] {
      NoVisible(isSpace, lines[..|lines| - 1]);
      assert lines[|lines| - 1] in lines;
    }
  }

  /** All lines so far, in order: those of the chunks, then those of the current one. */
  function AllLines(p: Pages): seq<string>
  {
    Flatten(p.chunks) + p.current
  }

  lemma AddLineKeeps(isSpace: char -> bool, p: Pages, line: string)
    ensures VisibleLines(isSpace, AllLines(AddLine(p, line))) == VisibleLines(isSpace, AllLines(p)) + VisibleLines(isSpace, [line])
  {
    var q := AddLine(p, line);
    var current := p.current + [line];
    assert AllLines(p) + [line] == Flatten(p.chunks) + current;
    VisibleAppend(isSpace, AllLines(p), [line]);
    if Total(current) > EVIDENCE_CHUNK {
      assert q.chunks[..|p.chunks|] == p.chunks;
      assert Flatten(q.chunks) == Flatten(p.chunks) + current;
      VisibleAppend(isSpace, Flatten(q.chunks), [""]);
      NoVisible(isSpace, [""]);
    }
  }

  lemma {:induction false} AddLinesKeep(isSpace: char -> bool, p: Pages, lines: seq<string>)
    ensures VisibleLines(isSpace, AllLines(AddLines(p, lines))) == VisibleLines(isSpace, AllLines(p)) + VisibleLines(isSpace, lines)
  {
    if lines != [] {
      var init, last := lines[..|lines| - 1], lines[|lines| - 1];
      AddLinesKeep(isSpace, p, init);
      AddLineKeeps(isSpace, AddLines(p, init), last);
      assert lines == init + [last];
      VisibleAppend(isSpace, init, [last]);
    }
  }

  /** Every line with a visible character, of the header and of every chat, appears in the chunks
      exactly once and in order. */
  lemma EvidenceConserved(isSpace: char -> bool, header: seq<string>, lines: seq<string>)
    ensures VisibleLines(isSpace, Flatten(Chunks(isSpace, header, lines)))
         == VisibleLines(isSpace, header) + VisibleLines(isSpace, lines)
  {
    var p := AddLines(Pages([], header), lines);
    AddLinesKeep(isSpace, Pages([], header), lines);
    assert AllLines(Pages([], header)) == header;
    var closed := Closed(isSpace, p);
    if closed == p.chunks {
      VisibleAppend(isSpace, Flatten(p.chunks), p.current);
      NoVisible(isSpace, p.current);
    } else {
      assert closed[..|p.chunks|] == p.chunks;
      assert Flatten(closed) == AllLines(p);
    }
  }

  // ---------------------------------------------------------------- sizes

  /** A finished chunk went over the limit with its last line, not before. */
  predicate Overflowed(chunk: seq<string>)
  {
    chunk != [] && Total(chunk) > EVIDENCE_CHUNK && Total(chunk[..|chunk| - 1]) <= EVIDENCE_CHUNK
  }

  lemma {:induction false} PagesSized(header: seq<string>, lines: seq<string>)
    requires Total(header) <= EVIDENCE_CHUNK
    ensures var p := AddLines(Pages([], header), lines);
            Total(p.current) <= EVIDENCE_CHUNK && forall c :: c in p.chunks ==> Overflowed(c)
  {
    if lines != [] {
      var init, last := lines[..|lines| - 1], lines[|lines| - 1];
      PagesSized(header, init);
      var p := AddLines(Pages([], header), init);
      var current := p.current + [last];
      assert current[..|current| - 1] == p.current;
      assert Total([""]) == Total([""][..0]) + 0;
    }
  }

  lemma HeaderFits(requestId: string, text: string)
    ensures Total(Header(requestId, text)) == 42 + |requestId| + |Cut(text, 500)|
  {
    var h := Header(requestId, text);
    assert |h[0]| == 24 && |h[1]| == 0 && |h[2]| == 9 + |requestId| && |h[3]| == 9 + |Cut(text, 500)| && |h[4]| == 0;
    TotalCons(h[4], []);
    TotalCons(h[3], [h[4]]);
    TotalCons(h[2], [h[3], h[4]]);
    TotalCons(h[1], [h[2], h[3], h[4]]);
    TotalCons(h[0], [h[1], h[2], h[3], h[4]]);
    assert h == [h[0]] + [h[1], h[2], h[3], h[4]];
    assert [h[1]] + [h[2], h[3], h[4]] == [h[1], h[2], h[3], h[4]];
    assert [h[2]] + [h[3], h[4]] == [h[2], h[3], h[4]];
    assert [h[3]] + [h[4]] == [h[3], h[4]];
    assert [h[4]] + [] == [h[4]];
  }

  /** In every chunk of a report all lines but the last total at most 3900 characters, and every
      chunk but the last one totals more. */
  lemma ChunksSized(isSpace: char -> bool, requestId: string, text: string, lines: seq<string>, i: nat)
    requires |requestId| <= 32
    requires i < |Chunks(isSpace, Header(requestId, text), lines)|
    ensures var chunks := Chunks(isSpace, Header(requestId, text), lines);
            Overflowed(chunks[i]) || (i == |chunks| - 1 && Total(chunks[i]) <= EVIDENCE_CHUNK)
  {
    HeaderFits(requestId, text);
    PagesSized(Header(requestId, text), lines);
    var p := AddLines(Pages([], Header(requestId, text)), lines);
    if i < |p.chunks| {
      assert p.chunks[i] in p.chunks;
    }
  }

  /** The lines of a finding, read off one by one. */
  lemma FindingReads(f: FindingText)
    ensures var r, bullets := FindingLines(f), |f.components|;
            var e := if f.example != "" then 1 else 0;
            && |r| == 6 + e + bullets + (if f.suggestion != "" then 1 else 0)
            && r[0] == "" && r[1] == "\U{2022} \"" + f.term + "\" [" + f.category + "]"
            && r[2] == "  Evidence: " + f.evidence && r[3] == "  History: " + f.history + " (count: " + f.count + ")"
            && (f.example != "" ==> r[4] == "  Example: " + if |f.example| <= 300 then f.example else f.example[..300])
            && r[4 + e] == "  Risk: " + f.level + " \U{2014} " + f.risk + "/100"
            && (forall i | 0 <= i < bullets :: r[5 + e + i] == "  \U{2022} " + f.components[i])
            && r[5 + e + bullets] == "  Reason: " + (if f.reason == "" then "-" else f.reason)
            && (f.suggestion != "" ==> r[6 + e + bullets] == "  Suggestion: " + f.suggestion)
  {
  }

  /** And those of a chat before its findings. */
  lemma ChatHeadReads(c: ChatText)
    ensures var r := ChatHead(c); var n := if c.coverage != "" then 1 else 0;
            && |r| == 2 + n + (if c.score.Some? then 1 else 0)
            && r[0] == "Chat: " + c.name && r[1] == "Status: " + c.status
            && (c.coverage != "" ==> r[2] == "Coverage: " + c.coverage)
            && (c.score.Some? ==> r[2 + n] == "Chat risk: " + c.score.value.0 + " \U{2014} " + c.score.value.1 + "/100")
  {
  }

  lemma {:induction false} FlattenHas<T>(xss: seq<seq<T>>, i: nat) returns (before: seq<T>, after: seq<T>)
    requires i < |xss|
    ensures Flatten(xss) == before + xss[i] + after
  {
    var init := xss[..|xss| - 1];
    if i == |xss| - 1 {
      before, after := Flatten(init), [];
    } else {
      before, after := FlattenHas(init, i);
      after := after + xss[|xss| - 1];
    }
  }

  lemma ChatHasFinding(c: ChatText, k: nat) returns (before: seq<string>, after: seq<string>)
    requires k < |c.findings| && k < 8
    ensures ChatLines(c) == before + FindingLines(c.findings[k]) + after
  {
    var blocks := FindingBlocks(Shown(c.findings));
    before, after := FlattenHas(blocks, k);
    assert blocks[k] == FindingLines(c.findings[k]);
    before, after := ChatHead(c) + before, after + [""];
  }

  /** The report has the lines of each of the first eight findings of every chat, in one piece. */
  lemma FindingReported(chats: seq<ChatText>, c: nat, k: nat) returns (before: seq<string>, after: seq<string>)
    requires c < |chats| && k < |chats[c].findings| && k < 8
    ensures ReportLines(chats) == before + FindingLines(chats[c].findings[k]) + after
  {
    var blocks := seq(|chats|, i requires 0 <= i < |chats| => ChatLines(chats[i]));
    var b0, a0 := FlattenHas(blocks, c);
    var b1, a1 := ChatHasFinding(chats[c], k);
    Regroup(b0, b1, FindingLines(chats[c].findings[k]), a1, a0);
    before, after := b0 + b1, a1 + a0;
  }

  lemma Regroup<T>(a: seq<T>, b: seq<T>, c: seq<T>, d: seq<T>, e: seq<T>)
    ensures a + (b + c + d) + e == a + b + c + (d + e)
  {
  }

  /** And of no more than eight: the number of blank lines before a finding's term. */
  lemma AtMostEightShown(c: ChatText)
    ensures |FindingBlocks(Shown(c.findings))| == if |c.findings| <= 8 then |c.findings| else 8
    ensures ChatLines(c) == ChatHead(c) + Flatten(FindingBlocks(Shown(c.findings))) + [""]
  {
  }

  // ---------------------------------------------------------------- the platform's limit

  lemma {:induction false} JoinedLength(lines: seq<string>)
    requires lines != []
    ensures |Join("\n", lines)| == Total(lines) + |lines| - 1
  {
    if |lines| == 1 {
      assert lines[..0] == [];
    } else {
      JoinedLength(lines[1..]);
      TotalCons(lines[0], lines[1..]);
      assert lines == [lines[0]] + lines[1..];
    }
  }

  lemma {:induction false} TotalCons(head: string, tail: seq<string>)
    ensures Total([head] + tail) == |head| + Total(tail)
  {
    var all := [head] + tail;
    if tail == [] {
      assert all[..0] == [];
    } else {
      assert all[..|all| - 1] == [head] + tail[..|tail| - 1];
      TotalCons(head, tail[..|tail| - 1]);
    }
  }

  /** The running totals of the chunk being filled: characters, lines, and whether any is visible. */
  datatype Fill = Fill(total: nat, count: nat, visible: bool)

  function FillOf(isSpace: char -> bool, current: seq<string>): Fill
  {
    Fill(Total(current), |current|, exists l :: l in current && !IsBlankLine(isSpace, l))
  }

  function FillLine(isSpace: char -> bool, f: Fill, line: string): Fill
  {
    if f.total + |line| > EVIDENCE_CHUNK then Fill(0, 1, false)
    else Fill(f.total + |line|, f.count + 1, f.visible || !IsBlankLine(isSpace, line))
  }

  function FillLines(isSpace: char -> bool, f: Fill, lines: seq<string>): Fill
  {
    if lines == [] then f else FillLine(isSpace, FillLines(isSpace, f, lines[..|lines| - 1]), lines[|lines| - 1])
  }

  /** If the line finishes a chunk, that chunk with its line breaks is within the limit. */
  predicate FlushFits(f: Fill, line: string)
  {
    f.total + |line| > EVIDENCE_CHUNK ==> f.total + |line| + f.count <= MESSAGE_LIMIT
  }

  /** Every flush on the way fits. */
  predicate FlushesFit(isSpace: char -> bool, start: Fill, lines: seq<string>)
  {
    forall i | 0 <= i < |lines| :: FlushFits(FillLines(isSpace, start, lines[..i]), lines[i])
  }

  /** And what is left at the end fits. */
  predicate LastFits(f: Fill)
  {
    f.visible ==> f.total + f.count - 1 <= MESSAGE_LIMIT
  }

  predicate AllFit(chunks: seq<seq<string>>)
  {
    forall c :: c in chunks ==> |Join("\n", c)| <= MESSAGE_LIMIT
  }

  lemma FillLineIs(isSpace: char -> bool, p: Pages, line: string)
    ensures FillLine(isSpace, FillOf(isSpace, p.current), line) == FillOf(isSpace, AddLine(p, line).current)
  {
    var current := p.current + [line];
    assert current[..|current| - 1] == p.current;
    assert Total([""]) == Total([""][..0]) + 0;
    assert line in current;
  }

  lemma {:induction false} FillLinesAre(isSpace: char -> bool, p: Pages, lines: seq<string>)
    ensures FillLines(isSpace, FillOf(isSpace, p.current), lines) == FillOf(isSpace, AddLines(p, lines).current)
  {
    if lines != [] {
      var init := lines[..|lines| - 1];
      FillLinesAre(isSpace, p, init);
      FillLineIs(isSpace, AddLines(p, init), lines[|lines| - 1]);
    }
  }

  lemma AllFitAppend(chunks: seq<seq<string>>, chunk: seq<string>)
    requires chunk != []
    ensures AllFit(chunks + [chunk]) <==> AllFit(chunks) && Total(chunk) + |chunk| - 1 <= MESSAGE_LIMIT
  {
    JoinedLength(chunk);
    assert chunk in chunks + [chunk];
  }

  lemma FlushesFitAppend(isSpace: char -> bool, start: Fill, init: seq<string>, line: string)
    ensures FlushesFit(isSpace, start, init + [line])
            <==> FlushesFit(isSpace, start, init) && FlushFits(FillLines(isSpace, start, init), line)
  {
    var lines := init + [line];
    assert forall i | 0 <= i < |init| :: lines[..i] == init[..i] && lines[i] == init[i];
    assert lines[..|init|] == init && lines[|init|] == line;
  }

  lemma {:induction false} FinishedFitIff(isSpace: char -> bool, p: Pages, lines: seq<string>)
    requires p.chunks == []
    ensures AllFit(AddLines(p, lines).chunks) <==> FlushesFit(isSpace, FillOf(isSpace, p.current), lines)
  {
    if lines != [] {
      var init, line := lines[..|lines| - 1], lines[|lines| - 1];
      var before := AddLines(p, init);
      var current := before.current + [line];
      FinishedFitIff(isSpace, p, init);
      FillLinesAre(isSpace, p, init);
      FlushesFitAppend(isSpace, FillOf(isSpace, p.current), init, line);
      assert lines == init + [line];
      assert current[..|current| - 1] == before.current;
      AllFitAppend(before.chunks, current);
    }
  }

  /** The messages of a report all keep the platform's limit exactly when, with running totals over
      its lines, every flush and the rest do: the cut at 3900 counts neither the line breaks nor
      the line that goes over it. */
  lemma ReportFitsIff(isSpace: char -> bool, requestId: string, text: string, chats: seq<ChatText>)
    ensures (forall m :: m in Messages(isSpace, requestId, text, chats) ==> |m| <= MESSAGE_LIMIT)
        <==> var start := FillOf(isSpace, Header(requestId, text));
             && FlushesFit(isSpace, start, ReportLines(chats))
             && LastFits(FillLines(isSpace, start, ReportLines(chats)))
  {
    var h, lines := Header(requestId, text), ReportLines(chats);
    var p := AddLines(Pages([], h), lines);
    FinishedFitIff(isSpace, Pages([], h), lines);
    FillLinesAre(isSpace, Pages([], h), lines);
    CurrentNotEmpty(h, lines);
    AllFitAppend(p.chunks, p.current);
    RenderedFit(Chunks(isSpace, h, lines));
  }

  lemma {:induction false} CurrentNotEmpty(header: seq<string>, lines: seq<string>)
    requires header != []
    ensures AddLines(Pages([], header), lines).current != []
  {
    if lines != [] {
      CurrentNotEmpty(header, lines[..|lines| - 1]);
    }
  }

  lemma RenderedFit(chunks: seq<seq<string>>)
    ensures (forall m :: m in Rendered(chunks) ==> |m| <= MESSAGE_LIMIT) <==> AllFit(chunks)
  {
    forall c | c in chunks ensures Join("\n", c) in Rendered(chunks) {
      var i :| 0 <= i < |chunks| && chunks[i] == c;
      assert Rendered(chunks)[i] == Join("\n", c);
    }
  }

  /** What a caller can keep to: no line has, with the lines before it in its chunk, more than 196
      characters and line breaks. Up to 196 any cut fits; one more, added at 3900, does not. */
  lemma ShortLinesFit(isSpace: char -> bool, requestId: string, text: string, chats: seq<ChatText>)
    requires |requestId| <= 32
    requires var start := FillOf(isSpace, Header(requestId, text)); var lines := ReportLines(chats);
             forall i | 0 <= i < |lines| :: |lines[i]| + FillLines(isSpace, start, lines[..i]).count <= MESSAGE_LIMIT - EVIDENCE_CHUNK
    ensures forall m :: m in Messages(isSpace, requestId, text, chats) ==> |m| <= MESSAGE_LIMIT
  {
    var h, lines := Header(requestId, text), ReportLines(chats);
    var start := FillOf(isSpace, h);
    HeaderFits(requestId, text);
    forall i | 0 <= i <= |lines| ensures FillLines(isSpace, start, lines[..i]).total <= EVIDENCE_CHUNK {
      PagesSized(h, lines[..i]);
      FillLinesAre(isSpace, Pages([], h), lines[..i]);
    }
    assert lines[..|lines|] == lines;
    if lines != [] {
      var n := |lines| - 1;
      assert FillLines(isSpace, start, lines) == FillLine(isSpace, FillLines(isSpace, start, lines[..n]), lines[n]);
    }
    ReportFitsIff(isSpace, requestId, text, chats);
  }

  // ---------------------------------------------------------------- a report that does not fit

  lemma {:induction false} FlattenHead<T>(xss: seq<seq<T>>)
    requires xss != []
    ensures xss[0] <= Flatten(xss)
  {
    if |xss| == 1 {
      assert Flatten(xss[..0]) == [];
    } else {
      FlattenHead(xss[..|xss| - 1]);
    }
  }

  /** The report starts with its first chat's head and the term of that chat's first finding. */
  lemma FirstFinding(chats: seq<ChatText>)
    requires chats != [] && chats[0].findings != []
    ensures ChatHead(chats[0]) + ["", TermLine(chats[0].findings[0])] <= ReportLines(chats)
  {
    var c := chats[0];
    var shown := Shown(c.findings);
    FlattenHead(FindingBlocks(shown));
    assert FindingBlocks(shown)[0] == FindingLines(c.findings[0]);
    var blocks := seq(|chats|, i requires 0 <= i < |chats| => ChatLines(chats[i]));
    FlattenHead(blocks);
    assert blocks[0] == ChatLines(c);
    assert ["", TermLine(c.findings[0])] <= FindingLines(c.findings[0]);
    assert ChatHead(c) + ["", TermLine(c.findings[0])] <= ChatLines(c);
  }

  /** Lines that stay within the cut are collected in one chunk. */
  lemma {:induction false} OneChunk(p: Pages, lines: seq<string>)
    requires Total(p.current + lines) <= EVIDENCE_CHUNK
    ensures AddLines(p, lines) == Pages(p.chunks, p.current + lines)
  {
    if lines == [] {
      assert p.current + lines == p.current;
    } else {
      var all := p.current + lines;
      assert all[..|all| - 1] == p.current + lines[..|lines| - 1];
      OneChunk(p, lines[..|lines| - 1]);
      assert p.current + lines[..|lines| - 1] + [lines[|lines| - 1]] == all;
    }
  }

  lemma {:induction false} TotalAppend(a: seq<string>, b: seq<string>)
    ensures Total(a + b) == Total(a) + Total(b)
  {
    if b == [] {
      assert a + b == a;
    } else {
      assert (a + b)[..|a + b| - 1] == a + b[..|b| - 1];
      TotalAppend(a, b[..|b| - 1]);
    }
  }

  function HeadTexts(c: ChatText): nat
  {
    |c.name| + |c.status| + |c.coverage| + if c.score.Some? then |c.score.value.0| + |c.score.value.1| else 0
  }

  lemma HeadTotal(c: ChatText)
    ensures 14 <= Total(ChatHead(c)) <= HeadTexts(c) + 42
  {
    var a, b := "Chat: " + c.name, "Status: " + c.status;
    TotalCons(b, []);
    TotalCons(a, [b]);
    assert [a] + [b] == [a, b] && [b] + [] == [b];
    var coverage := if c.coverage != "" then ["Coverage: " + c.coverage] else [];
    var score := if c.score.Some? then ["Chat risk: " + c.score.value.0 + DASH + c.score.value.1 + "/100"] else [];
    if coverage != [] {
      TotalCons(coverage[0], []);
      assert coverage == [coverage[0]] + [];
    }
    if score != [] {
      TotalCons(score[0], []);
      assert score == [score[0]] + [];
    }
    TotalAppend([a, b], coverage);
    TotalAppend([a, b] + coverage, score);
    assert ChatHead(c) == [a, b] + coverage + score;
  }

  /** A long term line that comes while the first chunk is open goes over the limit. */
  lemma LongLineOverflows(isSpace: char -> bool, h: seq<string>, head: seq<string>, lines: seq<string>)
    requires head < lines && Total(h) + Total(head) <= EVIDENCE_CHUNK
    requires Total(h) + Total(head) + |lines[|head|]| > MESSAGE_LIMIT
    ensures !FlushesFit(isSpace, FillOf(isSpace, h), lines)
  {
    var n := |head|;
    assert lines[..n] == head;
    TotalAppend(h, head);
    OneChunk(Pages([], h), head);
    FillLinesAre(isSpace, Pages([], h), head);
    assert !FlushFits(FillLines(isSpace, FillOf(isSpace, h), lines[..n]), lines[n]);
  }

  /** So the report on a message of 3600 characters, which a regex rule matched as a whole, has a
      message over the limit: an accepted request may have 4000. */
  lemma WholeMessageOverflows(isSpace: char -> bool, requestId: string, text: string, chats: seq<ChatText>)
    requires |requestId| <= 32 && |text| >= 3600
    requires chats != [] && chats[0].findings != [] && chats[0].findings[0].term == text && HeadTexts(chats[0]) <= 3200
    ensures exists m :: m in Messages(isSpace, requestId, text, chats) && |m| > MESSAGE_LIMIT
  {
    var head := ChatHead(chats[0]) + [""];
    var line := TermLine(chats[0].findings[0]);
    FirstFinding(chats);
    assert ChatHead(chats[0]) + ["", line] == head + [line];
    HeaderFits(requestId, text);
    HeadTotal(chats[0]);
    TotalAppend(ChatHead(chats[0]), [""]);
    assert Total([""]) == Total([""][..0]) + 0;
    assert |line| >= |text| + 7;
    LongLineOverflows(isSpace, Header(requestId, text), head, ReportLines(chats));
    ReportFitsIff(isSpace, requestId, text, chats);
  }
}
