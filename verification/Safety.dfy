/** Blocking and unmatching. */
module Safety {
  import opened Rows
  import opened ChatLog

  function Block(p: Pair, row: PairRow, user: UserId, order: seq<Origin>): Outcome {
    Done(PairRow(row.likes - {p.lo, p.hi}, row.blocks + {user}, None, CloseAll(row.convs, order)), CloseNotes(order))
  }

  function Unblock(row: PairRow, user: UserId): Outcome {
    Done(row.(blocks := row.blocks - {user}), [])
  }

  /** `matchId` was read before the pair lock, so it may no longer be the pair's match. */
  function Unmatch(p: Pair, row: PairRow, matchId: Id, order: seq<Origin>): Outcome {
    Done(PairRow(
      row.likes - {p.lo, p.hi},
      row.blocks,
      if row.matched == Some(matchId) then None else row.matched,
      CloseAll(row.convs, order)), CloseNotes(order))
  }
}
