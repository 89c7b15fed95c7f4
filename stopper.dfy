/** The graceful-then-forced stop shared by `/stop_userbot` and the stop
    button: terminate every matching process, poll every two seconds while
    fewer than fifteen seconds have passed, keeping only the processes still
    alive, and kill whatever is left when time runs out.

    Time is whole seconds counted from the end of the terminate phase. A poll
    sleeps two seconds and may take longer: `lag(k)` is the extra delay of
    poll number `k`. `live(k, p)` is what `p.is_running()` answers at poll `k`. */
module StopProtocol {
  import opened Wrappers
  import opened Seqs
  import opened Access
  import opened ProcessMatcher

  const Timeout: nat := 15
  const PollInterval: nat := 2

  /** The answer of one liveness check; a check that raises counts as gone. */
  datatype Liveness = Alive | Exited | Raises

  datatype StopOutcome = WasNotRunning | StoppedGracefully | StoppedForcibly

  /** The liveness test of poll `round`, as a predicate on pids. */
  function StillAlive(live: (nat, Pid) -> Liveness, round: nat): Pid -> bool
  {
    (p: Pid) => live(round, p) == Alive
  }

  /** `still_running` after poll `round`. */
  function Survivors(procs: seq<Pid>, live: (nat, Pid) -> Liveness, round: nat): (r: seq<Pid>)
    ensures IsSubsequence(r, procs)
    ensures forall p :: p in r <==> p in procs && live(round, p) == Alive
  {
    FilterIsSubsequence(procs, StillAlive(live, round));
    FilterMembers(procs, StillAlive(live, round));
    Filter(procs, StillAlive(live, round))
  }

  /** Where the polling loop ends: the last list it polled, whether that
      poll found everything gone, the number of polls and the elapsed time. */
  datatype PollResult = PollResult(remaining: seq<Pid>, graceful: bool, rounds: nat, elapsed: nat)

  /** The polling loop, from `procs` at time `elapsed` before poll `round`. */
  function Poll(procs: seq<Pid>, elapsed: nat, round: nat, live: (nat, Pid) -> Liveness, lag: nat -> nat): PollResult
    decreases Timeout - elapsed
  {
    if elapsed >= Timeout then PollResult(procs, false, round, elapsed)
    else
      var still := Survivors(procs, live, round);
      var next := elapsed + PollInterval + lag(round);
      if still == [] then PollResult(procs, true, round + 1, next)
      else Poll(still, next, round + 1, live, lag)
  }

  /** One poll before the timeout: the survivors become the next list. */
  lemma PollStep(procs: seq<Pid>, elapsed: nat, round: nat, live: (nat, Pid) -> Liveness, lag: nat -> nat)
    requires elapsed < Timeout
    ensures var still := Survivors(procs, live, round);
            var next := elapsed + PollInterval + lag(round);
            Poll(procs, elapsed, round, live, lag)
            == if still == [] then PollResult(procs, true, round + 1, next)
               else Poll(still, next, round + 1, live, lag)
  {
  }

  /** The kill targets are an order-preserving sub-list of what was terminated. */
  lemma {:induction false} PollKeepsSubsequence(procs: seq<Pid>, elapsed: nat, round: nat, live: (nat, Pid) -> Liveness, lag: nat -> nat)
    ensures IsSubsequence(Poll(procs, elapsed, round, live, lag).remaining, procs)
    decreases Timeout - elapsed
  {
    if elapsed >= Timeout {
      SubsequenceReflexive(procs);
    } else {
      var still := Survivors(procs, live, round);
      var next := elapsed + PollInterval + lag(round);
      if still == [] {
        SubsequenceReflexive(procs);
      } else {
        PollKeepsSubsequence(still, next, round + 1, live, lag);
        SubsequenceTransitive(Poll(still, next, round + 1, live, lag).remaining, still, procs);
      }
    }
  }

  /** How the loop ends, starting before the deadline with a non-empty list:
      at least one poll happens; a graceful end means the last poll found
      every process in its list gone; otherwise the deadline has passed and
      the list left over is non-empty and was entirely alive at the last poll. */
  lemma {:induction false} PollEnds(procs: seq<Pid>, elapsed: nat, round: nat, live: (nat, Pid) -> Liveness, lag: nat -> nat)
    requires procs != [] && elapsed < Timeout
    ensures var r := Poll(procs, elapsed, round, live, lag);
      && r.rounds > round
      && (r.graceful ==> forall p :: p in r.remaining ==> live(r.rounds - 1, p) != Alive)
      && (!r.graceful ==> r.elapsed >= Timeout && r.remaining != []
                          && forall p :: p in r.remaining ==> live(r.rounds - 1, p) == Alive)
    decreases Timeout - elapsed
  {
    var still := Survivors(procs, live, round);
    var next := elapsed + PollInterval + lag(round);
    if still == [] {
    } else if next < Timeout {
      PollEnds(still, next, round + 1, live, lag);
    }
  }

  /** At most one poll per two seconds of budget: with the fifteen-second
      budget, at most eight polls happen before the kill. */
  lemma {:induction false} PollRoundsBounded(procs: seq<Pid>, elapsed: nat, round: nat, live: (nat, Pid) -> Liveness, lag: nat -> nat)
    ensures var r := Poll(procs, elapsed, round, live, lag);
      && r.rounds >= round
      && PollInterval * (r.rounds - round) <= (if elapsed < Timeout then Timeout - elapsed + 1 else 0)
    decreases Timeout - elapsed
  {
    if elapsed < Timeout {
      var still := Survivors(procs, live, round);
      if still != [] {
        PollRoundsBounded(still, elapsed + PollInterval + lag(round), round + 1, live, lag);
      }
    }
  }

  /** One stop run: the list being polled, the signals sent, the clock. */
  class StopRun {
    var processes: seq<Pid>
    var terminateSent: seq<Pid>
    var killSent: seq<Pid>
    var elapsed: nat
    var round: nat

    constructor ()
      ensures processes == [] && terminateSent == [] && killSent == []
      ensures elapsed == 0 && round == 0
    {
      processes, terminateSent, killSent := [], [], [];
      elapsed, round := 0, 0;
    }

    /** The stop handler from the process scan on. A signal that raises is
        ignored, so every attempt is recorded as sent. */
    method Run(table: seq<ProcEntry>, live: (nat, Pid) -> Liveness, lag: nat -> nat) returns (outcome: StopOutcome)
      modifies this
      ensures var initial := Pids(Filter(table, IsManaged));
              var r := Poll(initial, 0, 0, live, lag);
        && (outcome == WasNotRunning <==> initial == [])
        && (initial == [] ==> processes == [] && terminateSent == [] && killSent == []
                              && elapsed == 0 && round == 0)
        && (initial != [] ==>
              && terminateSent == initial
              && processes == r.remaining && round == r.rounds && elapsed == r.elapsed
              && (outcome == StoppedGracefully <==> r.graceful)
              && killSent == (if r.graceful then [] else r.remaining))
    {
      var found := FindManaged(table);
      processes := Pids(found);
      terminateSent, killSent := [], [];
      elapsed, round := 0, 0;
      if processes == [] {
        return WasNotRunning;
      }
      ghost var initial := processes;
      TerminateAll();
      var r := WaitLoop(processes, elapsed, round, live, lag);
      processes, elapsed, round := r.remaining, r.elapsed, r.rounds;
      if r.graceful {
        return StoppedGracefully;
      }
      KillAll();
      outcome := StoppedForcibly;
    }

    /** `for proc in processes: proc.terminate()`, errors ignored. */
    method TerminateAll()
      modifies this`terminateSent
      ensures terminateSent == old(terminateSent) + processes
    {
      var i := 0;
      while i < |processes|
        invariant 0 <= i <= |processes|
        invariant terminateSent == old(terminateSent) + processes[..i]
      {
        terminateSent := terminateSent + [processes[i]];
        i := i + 1;
      }
      assert processes[..i] == processes;
    }

    /** `for proc in processes: proc.kill()`, errors ignored. */
    method KillAll()
      modifies this`killSent
      ensures killSent == old(killSent) + processes
    {
      var k := 0;
      while k < |processes|
        invariant 0 <= k <= |processes|
        invariant killSent == old(killSent) + processes[..k]
      {
        killSent := killSent + [processes[k]];
        k := k + 1;
      }
      assert processes[..k] == processes;
    }
  }

  /** The waiting loop: poll every interval until nothing survives or the
      timeout has passed, each poll narrowing the list to the survivors. */
  method WaitLoop(procs: seq<Pid>, elapsed: nat, round: nat, live: (nat, Pid) -> Liveness, lag: nat -> nat)
    returns (r: PollResult)
    requires procs != []
    ensures r == Poll(procs, elapsed, round, live, lag)
  {
    var current, t, n := procs, elapsed, round;
    while t < Timeout
      invariant current != []
      invariant Poll(current, t, n, live, lag) == Poll(procs, elapsed, round, live, lag)
      decreases Timeout - t
    {
      var still := SurvivorsOf(current, live, n);
      PollStep(current, t, n, live, lag);
      var next := t + PollInterval + lag(n);
      if still == [] {
        return PollResult(current, true, n + 1, next);
      }
      current, t, n := still, next, n + 1;
    }
    r := PollResult(current, false, n, t);
  }

  /** One poll: the loop that builds `still_running`. */
  method SurvivorsOf(procs: seq<Pid>, live: (nat, Pid) -> Liveness, round: nat) returns (still: seq<Pid>)
    ensures still == Survivors(procs, live, round)
  {
    still := [];
    var j := 0;
    while j < |procs|
      invariant 0 <= j <= |procs|
      invariant still == Filter(procs[..j], StillAlive(live, round))
    {
      assert procs[..j + 1] == procs[..j] + [procs[j]];
      FilterAppend(procs[..j], [procs[j]], StillAlive(live, round));
      if live(round, procs[j]) == Alive {
        still := still + [procs[j]];
      }
      j := j + 1;
    }
    assert procs[..j] == procs;
  }

  /** Every matched process is sent exactly one terminate; a graceful stop
      kills nothing; a forced stop kills a non-empty, order-preserving
      sub-list of the terminated processes, each of them still alive at the
      last poll; and at most eight polls happen. */
  lemma StopGuarantees(initial: seq<Pid>, live: (nat, Pid) -> Liveness, lag: nat -> nat)
    requires initial != []
    ensures var r := Poll(initial, 0, 0, live, lag);
      && 1 <= r.rounds <= 8
      && (!r.graceful ==> r.remaining != [] && IsSubsequence(r.remaining, initial)
                          && forall p :: p in r.remaining ==> live(r.rounds - 1, p) == Alive)
  {
    PollEnds(initial, 0, 0, live, lag);
    PollKeepsSubsequence(initial, 0, 0, live, lag);
    PollRoundsBounded(initial, 0, 0, live, lag);
  }

  /** Two processes; at four seconds the first is gone and the second still
      alive; at six seconds both are gone: a graceful stop after three polls,
      with no kill. */
  lemma GracefulScenario()
    ensures var live := (k: nat, p: Pid) => if k == 0 then Alive else if k == 1 && p == 101 then Alive else Exited;
            var r := Poll([100, 101], 0, 0, live, (k: nat) => 0);
            r.graceful && r.rounds == 3 && r.elapsed == 6
  {
    var live := (k: nat, p: Pid) => if k == 0 then Alive else if k == 1 && p == 101 then Alive else Exited;
    var both: seq<Pid> := [100, 101];
    var second: seq<Pid> := [101];
    assert both[1..] == second && second[1..] == [];
    assert Survivors(both, live, 0) == both;
    assert Survivors(both, live, 1) == second;
    assert Survivors(second, live, 2) == [];
  }

  // ------------------------------------------------- command and button

  /** `/stop_userbot` or the stop button. */
  datatype StopVia = StopCommand | StopButton

  /** The command is the owner's alone (the two checks of `OwnerGuard`);
      the button has no check of its own beyond `button_handler`'s. */
  function StopRefusal(via: StopVia, isPrivateChat: bool, isOwner: bool): (r: Option<Refusal>)
    ensures via == StopButton ==> r == None
    ensures via == StopCommand ==> (r == None <==> isOwner)
    ensures r.Some? ==> via == StopCommand && r == OwnerGuard(isPrivateChat, isOwner)
  {
    if via == StopCommand then OwnerGuard(isPrivateChat, isOwner) else None
  }

  const StoppingNotice: string := "\U{1F6D1} Останавливаю юзербота..."
  const GracefulNotice: string := "✅ Юзербот корректно остановлен"
  const ForcedNotice: string := "✅ Юзербот остановлен (принудительно)"

  /** The messages a stop hands to the debug broadcast: only the command
      sends any, and only once it has found something to stop. */
  function StopNotices(via: StopVia, outcome: StopOutcome): (r: seq<string>)
    ensures via == StopButton || outcome == WasNotRunning <==> r == []
    ensures r != [] ==> |r| == 2 && r[0] == StoppingNotice
    ensures outcome == StoppedGracefully && r != [] ==> r[1] == GracefulNotice
    ensures outcome == StoppedForcibly && r != [] ==> r[1] == ForcedNotice
  {
    if via == StopButton then []
    else match outcome
      case WasNotRunning => []
      case StoppedGracefully => [StoppingNotice, GracefulNotice]
      case StoppedForcibly => [StoppingNotice, ForcedNotice]
  }
}
