/** app/history/coverage.py: is a chat's history indexed well enough to speak of absence? */
module Coverage {
  import opened Strings
  import opened IndexStore

  datatype CoverageState = Complete | Incomplete | Unknown
  datatype Note = FullyIndexed | OnlySomeIndexed | SizeUnknown | SyncFailed | NotIndexedYet
  datatype ChatCoverage = ChatCoverage(state: CoverageState, indexed: nat, estimate: Option<int>, note: Note)

  function ComputeCoverage(row: ChatRow): ChatCoverage
  {
    var indexed := row.indexedCount;
    if row.state in {Done, Partial, Running} && row.estimate.Some? && row.estimate.value > 0 then
      var ratio := (indexed as real) / (row.estimate.value as real);
      if ratio >= 0.9 then ChatCoverage(Complete, indexed, row.estimate, FullyIndexed)
      else ChatCoverage(Incomplete, indexed, row.estimate, OnlySomeIndexed)
    else if row.state in {Done, Partial, Running} && indexed > 0 then
      ChatCoverage(Incomplete, indexed, None, SizeUnknown)
    else if row.state == Failed then ChatCoverage(Unknown, indexed, row.estimate, SyncFailed)
    else ChatCoverage(Unknown, indexed, row.estimate, NotIndexedYet)
  }

  /** An incomplete index is never taken for a complete one: nine tenths of a known, positive
      estimate are indexed, in a state that says a sync got somewhere. */
  lemma CompleteIff(row: ChatRow)
    ensures ComputeCoverage(row).state == Complete <==>
            row.state in {Done, Partial, Running} && row.estimate.Some? && 10 * row.indexedCount >= 9 * row.estimate.value > 0
  {
    if row.estimate.Some? && row.estimate.value > 0 {
      var i, e := row.indexedCount as real, row.estimate.value as real;
      var ratio := i / e;
      assert ratio * e == i;
      assert ratio >= 0.9 <==> 10.0 * i >= 9.0 * e by {
        if ratio >= 0.9 {
          assert (ratio - 0.9) * e >= 0.0;
        } else {
          assert (0.9 - ratio) * e > 0.0;
        }
      }
    }
  }

  /** The verdicts other than complete, each with its note. */
  lemma CoverageIff(row: ChatRow)
    ensures var c, synced, known := ComputeCoverage(row), row.state in {Done, Partial, Running}, row.estimate.Some? && row.estimate.value > 0;
            && c.indexed == row.indexedCount
            && (c.state == Incomplete <==> synced && c.state != Complete && (known || row.indexedCount > 0))
            && (c.state == Unknown <==> !synced || (!known && row.indexedCount == 0))
            && (c.note == FullyIndexed <==> c.state == Complete)
            && (c.note == OnlySomeIndexed <==> c.state == Incomplete && known)
            && (c.note == SizeUnknown <==> c.state == Incomplete && !known)
            && (c.note == SyncFailed <==> row.state == Failed)
            && (c.note == NotIndexedYet <==> c.state == Unknown && row.state != Failed)
            && c.estimate == (if c.note == SizeUnknown then None else row.estimate)
  {
    CompleteIff(row);
  }

  /** A complete verdict is backed by stored rows, whenever the chat's row was read: it never counts
      more rows than there are, and rows only become more. */
  lemma CompleteIsBacked(t: Tables, chat: ChatId, row: ChatRow)
    requires row.indexedCount <= |MessageRows(t.messages, chat)| && ComputeCoverage(row).state == Complete
    ensures row.estimate.Some? && 10 * |MessageRows(t.messages, chat)| >= 9 * row.estimate.value > 0
  {
    CompleteIff(row);
  }
}
