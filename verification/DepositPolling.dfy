/** The loop that polls a deposit until it settles, and how its stopping relates to the deposit machine's. */
module DepositPolling {
  import opened DepositMachine
  import opened Wrappers

  /** Terminal for polling: the anchor has nothing more to do. */
  predicate IsTerminalDepositStatus(s: DepositStatus) {
    || s.code == StatusCompleted
    || s.code == StatusError
    || s.code == StatusRefunded
    || s.code == StatusExpired
    || s.code == PendingTrust
  }

  /** What one attempt meets: the user's abort signal, a failed request, or a status. */
  datatype Attempt = Aborted | RequestFailed(reason: string) | Answered(status: DepositStatus)

  datatype PollOutcome = PollOutcome(updates: seq<DepositStatus>, result: Result<DepositStatus, string>)

  predicate Settled(updates: seq<DepositStatus>) {
    updates != [] && IsTerminalDepositStatus(updates[|updates| - 1])
  }

  /** The statuses were answered one after the other, and none before the last was terminal. */
  predicate ReadInOrder(attempts: seq<Attempt>, updates: seq<DepositStatus>) {
    && |updates| <= |attempts|
    && (forall i :: 0 <= i < |updates| ==> attempts[i] == Answered(updates[i]))
    && (forall i :: 0 <= i < |updates| - 1 ==> !IsTerminalDepositStatus(updates[i]))
  }

  /**
   Polls at most once per attempt and shows the caller every status read. The first terminal status ends the loop and
   is returned; so does a failed request, whose error is passed on; otherwise the last status read is returned once the
   attempts are used up or the user aborts.
   */
  method PollDepositUntilSettled(attempts: seq<Attempt>) returns (o: PollOutcome)
    ensures ReadInOrder(attempts, o.updates)
    ensures Settled(o.updates) ==> o.result == Ok(o.updates[|o.updates| - 1])
    ensures !Settled(o.updates) ==>
      var n := |o.updates|;
      && (n < |attempts| ==> !attempts[n].Answered?)
      && o.result == if n < |attempts| && attempts[n].RequestFailed? then Err(attempts[n].reason)
                     else if n == 0 then Err("The deposit was never read.")
                     else Ok(o.updates[n - 1])
  {
    var latest: Option<DepositStatus> := None;
    var updates: seq<DepositStatus> := [];
    for attempt := 0 to |attempts|
      invariant |updates| == attempt
      invariant forall i :: 0 <= i < attempt ==> attempts[i] == Answered(updates[i])
      invariant forall i :: 0 <= i < attempt ==> !IsTerminalDepositStatus(updates[i])
      invariant latest == if updates == [] then None else Some(updates[|updates| - 1])
    {
      if attempts[attempt].Aborted? {
        break;
      }
      if attempts[attempt].RequestFailed? {
        return PollOutcome(updates, Err(attempts[attempt].reason));
      }
      latest := Some(attempts[attempt].status);
      updates := updates + [latest.value];
      if IsTerminalDepositStatus(latest.value) {
        return PollOutcome(updates, Ok(latest.value));
      }
    }
    if latest.None? {
      return PollOutcome(updates, Err("The deposit was never read."));
    }
    return PollOutcome(updates, Ok(latest.value));
  }

  // ----- The loop and the machine -----

  /** The machine fed with every status the loop reports. */
  function Fed(d: Deposit, updates: seq<DepositStatus>): Deposit
    decreases |updates|
  {
    if updates == [] then d else Fed(Reduce(d, StatusPolled(updates[0])), updates[1..])
  }

  /** A status that ends the loop while the machine goes on waiting for the treasury. */
  predicate Stalls(s: DepositStatus) {
    s.treasuryLow && (s.code == StatusCompleted || s.code == PendingTrust)
  }

  /** One accepted poll: loop and machine agree on whether to go on, exactly unless the status stalls. */
  lemma StopsTogether(d: Deposit, s: DepositStatus)
    requires AcceptsPoll(d, s)
    ensures (IsTerminalDepositStatus(s) <==> !ShouldPoll(Reduce(d, StatusPolled(s)))) <==> !Stalls(s)
  {}

  /** A machine that waits for polls of this deposit. */
  predicate Polling(d: Deposit, id: string) {
    ShouldPoll(d) && TakesPolls(d.name) && d.context.depositId == Some(id) && id != ""
  }

  /** A status that others follow is not terminal and leaves the machine polling. */
  lemma FirstOfMore(d: Deposit, id: string, updates: seq<DepositStatus>)
    requires Polling(d, id) && |updates| > 1
    requires forall s :: s in updates ==> s.id == id
    requires forall i :: 0 <= i < |updates| - 1 ==> !IsTerminalDepositStatus(updates[i])
    ensures var rest := updates[1..];
      && Polling(Reduce(d, StatusPolled(updates[0])), id)
      && (forall s :: s in rest ==> s.id == id)
      && (forall i :: 0 <= i < |rest| - 1 ==> !IsTerminalDepositStatus(rest[i]))
      && rest[|rest| - 1] == updates[|updates| - 1]
  {
    assert updates[0] in updates && !IsTerminalDepositStatus(updates[0]);
    StopsTogether(d, updates[0]);
  }

  /**
   Over a whole loop about one deposit: the machine stops polling exactly when the loop has read a terminal status, if
   and only if the last status read does not stall. Until then it is ready for the next poll.
   */
  lemma {:induction false} LoopAndMachineAgree(d: Deposit, id: string, updates: seq<DepositStatus>)
    requires Polling(d, id)
    requires forall s :: s in updates ==> s.id == id
    requires forall i :: 0 <= i < |updates| - 1 ==> !IsTerminalDepositStatus(updates[i])
    ensures (Settled(updates) <==> !ShouldPoll(Fed(d, updates))) <==>
            (updates == [] || !Stalls(updates[|updates| - 1]))
    ensures !Settled(updates) ==> Polling(Fed(d, updates), id)
    ensures updates != [] ==> Tells(Fed(d, updates).name, updates[|updates| - 1])
    decreases |updates|
  {
    if |updates| == 1 {
      StopsTogether(d, updates[0]);
      assert updates[1..] == [];
    } else if |updates| > 1 {
      var rest := updates[1..];
      FirstOfMore(d, id, updates);
      LoopAndMachineAgree(Reduce(d, StatusPolled(updates[0])), id, rest);
    }
  }

  /** A stalling status ends the loop and leaves the machine waiting for a poll that nobody sends any more. */
  lemma StallingStatusStrandsTheMachine(d: Deposit, id: string, s: DepositStatus)
    requires Polling(d, id) && s.id == id && Stalls(s)
    ensures Settled([s]) && Fed(d, [s]).name == TREASURY_LOW && ShouldPoll(Fed(d, [s]))
  {
    assert [s][1..] == [];
    assert Fed(d, [s]) == Fed(Reduce(d, StatusPolled(s)), []);
  }
}
