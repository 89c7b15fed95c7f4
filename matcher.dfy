/** Recognising the userbot in the OS process table (`get_userbot_status`
    and the scans that open both stop handlers). The process table is a
    sequence of entries in psutil's iteration order. */
module ProcessMatcher {
  import opened Wrappers
  import opened Seqs
  import opened Text

  type Pid = nat

  /** Whether reading an entry raises one of the exceptions the scans catch
      and skip: `psutil.NoSuchProcess`, `psutil.AccessDenied`, `KeyError`. */
  datatype Fault = Readable | NoSuchProcess | AccessDenied | KeyMissing

  /** One process as psutil reports it; `cmdline` is `None` when the OS
      gives no command line. `createTime` is in whole seconds. */
  datatype ProcEntry = ProcEntry(pid: Pid, cmdline: Option<seq<string>>, createTime: int, fault: Fault)

  /** The arguments joined by spaces, lower-cased. */
  function JoinLower(parts: seq<string>): string
  {
    Lower(Join(parts, " "))
  }

  /** The text the scans inspect: `' '.join(cmdline or []).lower()`. */
  function CmdlineText(cmdline: Option<seq<string>>): string
  {
    JoinLower(cmdline.GetOr([]))
  }

  /** The userbot test: the interpreter, the module and the launch flag. */
  predicate CmdlineMatches(cmdline: Option<seq<string>>)
  {
    var t := CmdlineText(cmdline);
    Contains(t, "python") && Contains(t, "heroku") && Contains(t, "--no-web")
  }

  /** An entry the scans count: readable and matching. */
  predicate IsManaged(e: ProcEntry)
  {
    e.fault == Readable && CmdlineMatches(e.cmdline)
  }

  /** The result of `get_userbot_status`: `(True, create_time)` or `(False, None)`. */
  datatype Status = Status(running: bool, startTime: Option<int>)

  /** `get_userbot_status`: the first matching entry in iteration order. */
  function UserbotStatus(table: seq<ProcEntry>): (r: Status)
    ensures r.running <==> exists i :: 0 <= i < |table| && IsManaged(table[i])
    ensures !r.running ==> r.startTime == None
    ensures r.running ==> exists i :: 0 <= i < |table| && IsManaged(table[i])
                                      && (forall j :: 0 <= j < i ==> !IsManaged(table[j]))
                                      && r.startTime == Some(table[i].createTime)
  {
    if table == [] then Status(false, None)
    else if IsManaged(table[0]) then Status(true, Some(table[0].createTime))
    else
      var r := UserbotStatus(table[1..]);
      assert forall i :: 1 <= i < |table| ==> table[i] == table[1..][i - 1];
      r
  }

  /** The process list both stop handlers build. */
  method FindManaged(table: seq<ProcEntry>) returns (procs: seq<ProcEntry>)
    ensures procs == Filter(table, IsManaged)
  {
    procs := [];
    var i := 0;
    while i < |table|
      invariant 0 <= i <= |table|
      invariant procs == Filter(table[..i], IsManaged)
    {
      assert table[..i + 1] == table[..i] + [table[i]];
      FilterAppend(table[..i], [table[i]], IsManaged);
      if IsManaged(table[i]) {
        procs := procs + [table[i]];
      }
      i := i + 1;
    }
    assert table[..i] == table;
  }

  /** The pids of a list of entries, in order. */
  function Pids(entries: seq<ProcEntry>): (r: seq<Pid>)
    ensures |r| == |entries|
    ensures forall i :: 0 <= i < |entries| ==> r[i] == entries[i].pid
  {
    seq(|entries|, i requires 0 <= i < |entries| => entries[i].pid)
  }

  /** The status query and the stop scan agree: the userbot is reported
      running exactly when the stop scan finds something, and the reported
      start time is that of the first process the stop scan finds. */
  lemma {:induction false} StatusAgreesWithScan(table: seq<ProcEntry>)
    ensures UserbotStatus(table).running <==> Filter(table, IsManaged) != []
    ensures UserbotStatus(table).running ==>
              UserbotStatus(table).startTime == Some(Filter(table, IsManaged)[0].createTime)
  {
    if table != [] {
      if IsManaged(table[0]) {
        assert Filter(table, IsManaged)[0] == table[0];
      } else {
        assert Filter(table, IsManaged) == Filter(table[1..], IsManaged);
        assert UserbotStatus(table) == UserbotStatus(table[1..]);
        StatusAgreesWithScan(table[1..]);
      }
    }
  }

  /** The scan keeps exactly the readable matching entries, in table order. */
  lemma ScanKeepsExactlyMatches(table: seq<ProcEntry>)
    ensures forall e :: e in Filter(table, IsManaged) <==> e in table && IsManaged(e)
    ensures IsSubsequence(Filter(table, IsManaged), table)
  {
    FilterMembers(table, IsManaged);
    FilterIsSubsequence(table, IsManaged);
  }

  /** An entry whose reading raises is skipped whatever its command line. */
  lemma FaultyEntriesSkipped(table: seq<ProcEntry>, e: ProcEntry)
    requires e.fault != Readable
    ensures e !in Filter(table, IsManaged)
  {
    FilterMembers(table, IsManaged);
  }

  lemma {:induction false} JoinLowerPointwise(a: seq<string>, b: seq<string>)
    requires |a| == |b|
    requires forall k :: 0 <= k < |a| ==> Lower(a[k]) == Lower(b[k])
    ensures JoinLower(a) == JoinLower(b)
  {
    if |a| >= 2 {
      JoinLowerPointwise(a[1..], b[1..]);
      LowerAppend(a[0] + " ", Join(a[1..], " "));
      LowerAppend(b[0] + " ", Join(b[1..], " "));
      LowerAppend(a[0], " ");
      LowerAppend(b[0], " ");
    }
  }

  /** Matching ignores case: command lines that agree once lower-cased
      match alike. */
  lemma MatchIgnoresCase(a: seq<string>, b: seq<string>)
    requires |a| == |b|
    requires forall k :: 0 <= k < |a| ==> Lower(a[k]) == Lower(b[k])
    ensures CmdlineMatches(Some(a)) <==> CmdlineMatches(Some(b))
  {
    JoinLowerPointwise(a, b);
  }

  /** An entry without a command line is treated as an empty one and never matches. */
  lemma MissingCmdlineNeverMatches()
    ensures CmdlineText(None) == CmdlineText(Some([]))
    ensures !CmdlineMatches(None)
  {
  }

  /** Uptime as the status replies print it: whole hours and the minutes left over. */
  datatype Duration = Duration(hours: nat, minutes: nat)

  function UptimeHM(seconds: nat): (d: Duration)
    ensures d.minutes < 60
    ensures d.hours * 3600 + d.minutes * 60 <= seconds < d.hours * 3600 + d.minutes * 60 + 60
  {
    Duration(seconds / 3600, (seconds % 3600) / 60)
  }
}
