/** The receipt automaton of a command, as a replay of its history. */
module ActionHistory {
  import opened Ids
  import opened Time

  datatype Status =
    | Pending | Submitted | Accepted | Rejected | Executing | Succeeded | Failed | Canceling | Canceled

  /** The transition table; a reservation that is only pending has no receipt transitions. */
  function Transitions(status: Status): set<Status> {
    match status
    case Submitted => {Accepted, Rejected}
    case Accepted => {Executing, Failed, Canceling}
    case Executing => {Succeeded, Failed, Canceling}
    case Canceling => {Canceled, Failed}
    case _ => {}
  }

  predicate Terminal(status: Status) {
    status in {Rejected, Succeeded, Failed, Canceled}
  }

  datatype Entry =
    | ReceiptEntry(status: Status, ref: ItemRef, result: Option<string>)
    | FeedbackEntry(status: Status, ref: ItemRef, payload: string)
    | DecisionEntry(cancelId: string, accepted: bool, status: Status, ref: ItemRef)

  /** What a history amounts to: the status, the receipt head, and the accepted cancel's reference. */
  datatype Summary = Summary(status: Status, head: Option<ItemRef>, cancelHead: Option<ItemRef>)

  const RESERVED := Summary(Pending, None, None)

  /** One entry; absent when the automaton forbids it. */
  function Step(s: Summary, entry: Entry): Option<Summary> {
    match entry
    case ReceiptEntry(status, ref, _) =>
      if (s.status == Pending && status == Submitted) || (status in Transitions(s.status) && status != Canceling)
      then Some(s.(status := status, head := Some(ref))) else None
    case FeedbackEntry(status, _, _) =>
      if s.status in {Executing, Canceling} && status == s.status then Some(s) else None
    case DecisionEntry(_, accepted, status, ref) =>
      if accepted then
        if s.status in {Accepted, Executing} && status == Canceling
        then Some(Summary(Canceling, Some(ref), Some(ref))) else None
      else if s.status != Pending && status == s.status then Some(s) else None
  }

  function Replay(history: seq<Entry>): Option<Summary> {
    if history == [] then Some(RESERVED)
    else
      match Replay(history[..|history| - 1])
      case None => None
      case Some(s) => Step(s, history[|history| - 1])
  }

  lemma ReplayAppend(history: seq<Entry>, entry: Entry)
    ensures Replay(history + [entry]) ==
      match Replay(history) { case None => None case Some(s) => Step(s, entry) }
  {
    assert (history + [entry])[..|history|] == history;
  }

  /** Prefixes of a lawful history are lawful. */
  lemma {:induction false} ReplayPrefix(history: seq<Entry>, n: nat)
    requires n <= |history| && Replay(history).Some?
    ensures Replay(history[..n]).Some?
    decreases |history|
  {
    if n < |history| {
      var init := history[..|history| - 1];
      ReplayPrefix(init, n);
      assert init[..n] == history[..n];
    } else {
      assert history[..n] == history;
    }
  }

  /** The statuses a history passes through, from the reservation on. */
  ghost function StatusAt(history: seq<Entry>, n: nat): Status
    requires n <= |history| && Replay(history).Some?
  {
    ReplayPrefix(history, n);
    Replay(history[..n]).value.status
  }

  /** Status n + 1 comes from status n by one entry. */
  lemma StatusStep(history: seq<Entry>, n: nat)
    requires Replay(history).Some? && n < |history|
    ensures Replay(history[..n]).Some?
    ensures Step(Replay(history[..n]).value, history[n]).Some?
    ensures StatusAt(history, n) == Replay(history[..n]).value.status
    ensures StatusAt(history, n + 1) == Step(Replay(history[..n]).value, history[n]).value.status
  {
    ReplayPrefix(history, n);
    ReplayPrefix(history, n + 1);
    assert history[..n + 1] == history[..n] + [history[n]];
    LastStep(history[..n], history[n]);
  }

  lemma LastStep(history: seq<Entry>, entry: Entry)
    requires Replay(history + [entry]).Some?
    ensures Replay(history).Some? && Step(Replay(history).value, entry) == Replay(history + [entry])
  {
    ReplayAppend(history, entry);
  }

  /** Every history is a path of the transition table that starts at submitted. */
  lemma HistoryIsPath(history: seq<Entry>, n: nat)
    requires Replay(history).Some? && n < |history|
    ensures var a, b := StatusAt(history, n), StatusAt(history, n + 1);
      if n == 0 then a == Pending && b == Submitted && history[0].ReceiptEntry?
      else a != Pending && (a == b || b in Transitions(a))
    ensures StatusAt(history, n + 1) == history[n].status
  {
    StatusStep(history, n);
    if n == 0 {
      assert history[..0] == [];
    } else {
      OnlyFirstPending(history, n);
    }
  }

  lemma {:induction false} OnlyFirstPending(history: seq<Entry>, n: nat)
    requires Replay(history).Some? && 0 < n <= |history|
    ensures StatusAt(history, n) != Pending
  {
    StatusStep(history, n - 1);
    if n > 1 {
      OnlyFirstPending(history, n - 1);
    }
  }

  /** The terminal statuses are those nothing follows. */
  lemma TerminalExactly(status: Status)
    ensures Terminal(status) <==> status != Pending && Transitions(status) == {}
  {
  }

  /** Once terminal, later entries change neither the status nor the head. */
  lemma {:induction false} TerminalIsFinal(history: seq<Entry>, n: nat)
    requires Replay(history).Some? && n <= |history| && Terminal(StatusAt(history, n))
    ensures Replay(history[..n]).Some? && Replay(history).value.status == StatusAt(history, n)
    ensures Replay(history).value.head == Replay(history[..n]).value.head
    decreases |history|
  {
    ReplayPrefix(history, n);
    if n < |history| {
      var init := history[..|history| - 1];
      ReplayPrefix(history, |history| - 1);
      assert init[..n] == history[..n];
      TerminalIsFinal(init, n);
    } else {
      assert history[..n] == history;
    }
  }

  /** Success is only ever reached through executing. */
  lemma {:induction false} SucceededExecuted(history: seq<Entry>)
    requires Replay(history).Some? && Replay(history).value.status == Succeeded
    ensures exists n :: 0 <= n < |history| && StatusAt(history, n) == Executing
    decreases |history|
  {
    var last := |history| - 1;
    ReplayPrefix(history, last);
    if Replay(history[..last]).value.status == Succeeded {
      SucceededExecuted(history[..last]);
      var n :| 0 <= n < last && StatusAt(history[..last], n) == Executing;
      assert history[..last][..n] == history[..n];
      assert StatusAt(history, n) == Executing;
    } else {
      assert StatusAt(history, last) == Executing;
    }
  }

  function AcceptedDecisions(history: seq<Entry>): nat {
    if history == [] then 0
    else
      var last := history[|history| - 1];
      AcceptedDecisions(history[..|history| - 1]) + (if last.DecisionEntry? && last.accepted then 1 else 0)
  }

  /** A cancel is accepted at most once; canceling and canceled histories hold exactly one acceptance, and
      while canceling the head is that acceptance. */
  lemma {:induction false} CancellationAccepted(history: seq<Entry>)
    requires Replay(history).Some?
    ensures var s := Replay(history).value;
      && AcceptedDecisions(history) == (if s.cancelHead.Some? then 1 else 0)
      && (s.status in {Canceling, Canceled} ==> s.cancelHead.Some?)
      && (s.status == Canceling ==> s.head == s.cancelHead)
      && (s.cancelHead.Some? ==> s.status in {Canceling, Canceled, Failed})
    decreases |history|
  {
    if history != [] {
      ReplayPrefix(history, |history| - 1);
      CancellationAccepted(history[..|history| - 1]);
    }
  }

  // ---- the course of a command ----

  /** A history has passed through a status. */
  ghost predicate Passed(history: seq<Entry>, status: Status) {
    || (Replay(history).Some? && Replay(history).value.status == status)
    || (history != [] && Passed(history[..|history| - 1], status))
  }

  /** Whatever becomes of a command, it was submitted first; everything but a rejection follows its acceptance, which a
      rejected command never had; it succeeds only after executing, and is canceled only after canceling. */
  lemma {:induction false} CourseOf(history: seq<Entry>)
    requires Replay(history).Some?
    ensures var status := Replay(history).value.status;
      && (status != Pending ==> Passed(history, Submitted))
      && (status in {Accepted, Executing, Succeeded, Failed, Canceling, Canceled} <==> Passed(history, Accepted))
      && (status == Succeeded ==> Passed(history, Executing))
      && (status == Canceled ==> Passed(history, Canceling))
    decreases |history|
  {
    if history != [] {
      ReplayPrefix(history, |history| - 1);
      CourseOf(history[..|history| - 1]);
    }
  }

  /** No move of the table is missing: from each status a command that is not done may take every step of its course. */
  lemma EveryMove(s: Summary, ref: ItemRef, result: Option<string>, id: string)
    ensures s.status == Pending ==> Step(s, ReceiptEntry(Submitted, ref, result)).Some?
    ensures s.status == Submitted ==> forall next :: next in {Accepted, Rejected} ==>
      Step(s, ReceiptEntry(next, ref, result)).Some?
    ensures s.status == Accepted ==> forall next :: next in {Executing, Failed} ==>
      Step(s, ReceiptEntry(next, ref, result)).Some?
    ensures s.status == Executing ==> forall next :: next in {Succeeded, Failed} ==>
      Step(s, ReceiptEntry(next, ref, result)).Some?
    ensures s.status == Canceling ==> forall next :: next in {Canceled, Failed} ==>
      Step(s, ReceiptEntry(next, ref, result)).Some?
    ensures s.status in {Accepted, Executing} ==> Step(s, DecisionEntry(id, true, Canceling, ref)).Some?
  {
  }
}
