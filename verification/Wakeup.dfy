/** The coalescing wake-up: signals into a channel of capacity one, and the loop that drains the log. */
module Wakeup {
  import opened Rows
  import opened Replay

  // ----- the hub --------------------------------------------------------------

  class Client {
    const user: UserId
    /** Whether the one-place wake channel holds its token. */
    var wake: bool

    constructor (user: UserId)
      ensures this.user == user && !wake
    {
      this.user := user;
      wake := false;
    }
  }

  class Hub {
    var clients: set<Client>

    constructor ()
      ensures clients == {}
    {
      clients := {};
    }

    /** Leave a token with every client of these users, or with everyone when none is
        named; a client that already has one keeps it and the signal is dropped. */
    method Signal(ids: seq<UserId>)
      modifies clients
      ensures forall c :: c in clients ==> c.wake == (old(c.wake) || |ids| == 0 || c.user in ids)
    {
      var rest := clients;
      while rest != {}
        invariant rest <= clients
        invariant forall c :: c in clients && c !in rest ==> c.wake == (old(c.wake) || |ids| == 0 || c.user in ids)
        invariant forall c :: c in rest ==> c.wake == old(c.wake)
        decreases rest
      {
        var c :| c in rest;
        if |ids| == 0 || c.user in ids {
          if !c.wake { c.wake := true; }
        }
        rest := rest - {c};
      }
    }
  }

  // ----- one socket's loop ----------------------------------------------------

  datatype Phase = Idle | Fetching | Fetched(page: Page) | Disconnected

  /** `history` is every event committed for the account; `signalled` the highest event
      whose signal has fired; `sent` what the socket has written since cursor `start`. */
  datatype Socket = Socket(
    row: UserRow, history: seq<Event>, signalled: int,
    token: bool, phase: Phase, after: int, start: int, sent: seq<Event>)

  datatype Action =
    | Log(row: UserRow, more: seq<Event>)
    | Fire(upTo: int)
    | Take
    | Fetch
    | Send

  function Step(s: Socket, a: Action): Option<Socket> {
    match a
    case Log(row, more) =>
      if !Shows(row, s.history + more) || row.eventSeq != |s.history + more| then None
      else Some(s.(row := row, history := s.history + more))
    case Fire(upTo) =>
      if upTo > s.row.eventSeq then None
      else Some(s.(signalled := if s.signalled < upTo then upTo else s.signalled, token := true))
    case Take =>
      if s.phase != Idle || !s.token then None else Some(s.(token := false, phase := Fetching))
    case Fetch =>
      if s.phase != Fetching then None
      else
        var answer := Events(s.row, s.after);
        Some(s.(phase := if answer.Delivered? then Fetched(answer.page) else Disconnected))
    case Send =>
      if !s.phase.Fetched? then None
      else Some(s.(after := s.phase.page.cursor, sent := s.sent + s.phase.page.events,
                   phase := if s.phase.page.hasMore then Fetching else Idle))
  }

  predicate Inv(s: Socket) {
    && Shows(s.row, s.history) && s.row.eventSeq == |s.history|
    && 0 <= s.start <= s.after <= |s.history| && s.signalled <= |s.history|
    && s.sent == s.history[s.start..s.after]
    && (s.phase.Fetched? ==>
         && s.after <= s.phase.page.cursor <= |s.history|
         && s.phase.page.events == s.history[s.after..s.phase.page.cursor])
    && (!s.token && s.phase == Idle ==> s.signalled <= s.after)
    && (!s.token && s.phase.Fetched? && !s.phase.page.hasMore ==> s.signalled <= s.phase.page.cursor)
  }

  lemma Grown(history: seq<Event>, more: seq<Event>, from: int, to: int)
    requires 0 <= from <= to <= |history|
    ensures (history + more)[from..to] == history[from..to]
  {
  }

  lemma Joined(history: seq<Event>, from: int, mid: int, to: int)
    requires 0 <= from <= mid <= to <= |history|
    ensures history[from..mid] + history[mid..to] == history[from..to]
  {
  }

  lemma StepKeepsInv(s: Socket, a: Action)
    requires Inv(s) && Step(s, a).Some?
    ensures Inv(Step(s, a).value)
  {
    match a
    case Log(row, more) =>
      Grown(s.history, more, s.start, s.after);
      if s.phase.Fetched? { Grown(s.history, more, s.after, s.phase.page.cursor); }
    case Fetch =>
      if s.row.active { EventsAnswer(s.row, s.history, s.after); }
    case Send =>
      Joined(s.history, s.start, s.after, s.phase.page.cursor);
    case _ =>
  }

  function Run(s: Socket, actions: seq<Action>): Option<Socket>
    decreases |actions|
  {
    if |actions| == 0 then Some(s)
    else
      var before := Run(s, actions[..|actions| - 1]);
      if before.None? then None else Step(before.value, actions[|actions| - 1])
  }

  lemma {:induction false} RunKeepsInv(s: Socket, actions: seq<Action>)
    requires Inv(s) && Run(s, actions).Some?
    ensures Inv(Run(s, actions).value)
    decreases |actions|
  {
    if |actions| > 0 {
      RunKeepsInv(s, actions[..|actions| - 1]);
      StepKeepsInv(Run(s, actions[..|actions| - 1]).value, actions[|actions| - 1]);
    }
  }

  /** Wherever commits, prunes and signals fall between the loop's own steps: the frames
      written are the account's events from the first cursor on, each once and in order,
      and when the loop is idle with no token left they include every signalled event. */
  lemma NoWakeUpIsLost(s: Socket, actions: seq<Action>)
    requires s.token && s.phase == Idle && s.sent == [] && s.signalled <= |s.history|
    requires Shows(s.row, s.history) && s.row.eventSeq == |s.history| && 0 <= s.start == s.after <= |s.history|
    requires Run(s, actions).Some?
    ensures var t := Run(s, actions).value;
            && 0 <= t.start <= t.after <= |t.history| && t.sent == t.history[t.start..t.after]
            && (t.phase == Idle && !t.token ==> t.signalled <= t.after)
  {
    RunKeepsInv(s, actions);
  }
}
