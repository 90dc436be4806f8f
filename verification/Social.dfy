/** Likes and the matches they make. */
module Social {
  import opened Rows
  import opened ChatLog

  /** The like `from` commits. `seen` is what its read of the reciprocal like
      returned: RemoveLike takes no pair lock, so the row may be gone again by commit. */
  function Like(p: Pair, row: PairRow, from: UserId, seen: bool, matchId: Id, now: int): Outcome {
    if row.blocks != {} then Refused(Blocked)
    else if !seen then Done(row.(likes := row.likes + {from}), [])
    else
      var id := if row.matched.Some? then row.matched.value else matchId;
      var (made, notes) := EnsureMatch(p, row.(matched := Some(id)), now);
      Done(made.(likes := made.likes - {p.lo, p.hi}), notes)
  }

  function RemoveLike(row: PairRow, sender: UserId): Outcome {
    if sender !in row.likes then Refused(NoSuchLike)
    else Done(row.(likes := row.likes - {sender}), [])
  }
}
