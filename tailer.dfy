/** `monitor_userbot_logs`: waits for the userbot's output log to appear,
    then repeatedly reads what was appended since the last pass and hands
    each stripped non-empty line to the debug broadcast, until the file is
    deleted or the userbot is no longer running. The file is observed once
    per pass; offsets are character offsets into its text. */
module LogTailer {
  import opened Text

  /** Probes of the wait phase, one second apart, before the final check. */
  const WaitProbes: nat := 30

  const NotCreatedNotice: string := "❌ Файл логов не создался"
  const DeletedNotice: string := "⚠️ Файл логов удален"
  const FinishedNotice: string := "\U{1F534} Юзербот завершил работу"

  /** The wait phase: the file is looked for at seconds 0..29 and checked
      once more at second 30 when it never appeared. */
  method WaitForFile(existsAt: nat -> bool) returns (found: bool, waited: nat)
    ensures found <==> exists t :: 0 <= t <= WaitProbes && existsAt(t)
    ensures waited <= WaitProbes
    ensures found ==> existsAt(waited) && forall t :: 0 <= t < waited ==> !existsAt(t)
    ensures !found ==> waited == WaitProbes
  {
    waited := 0;
    while waited < WaitProbes
      invariant waited <= WaitProbes
      invariant forall t :: 0 <= t < waited ==> !existsAt(t)
    {
      if existsAt(waited) {
        return true, waited;
      }
      waited := waited + 1;
    }
    found := existsAt(waited);
  }

  /** The file as one pass finds it: gone, failing to open or read (the
      pass is abandoned and retried), or its whole text. */
  datatype Snapshot = Deleted | Unreadable | Present(content: string)

  /** One pass: the file as found, and whether the userbot scan then reports
      it running. */
  datatype PassObs = PassObs(file: Snapshot, running: bool)

  /** What `seek(position)` then `readlines()` and `tell()` give: the text
      from the cursor to the end and the new cursor. A cursor past the end
      reads nothing and stays where it is. */
  function ReadFrom(content: string, position: nat): (r: (string, nat))
    ensures r.1 >= position
    ensures r.1 == if position <= |content| then |content| else position
    ensures position <= |content| ==> content == content[..position] + r.0
    ensures position > |content| ==> r.0 == ""
  {
    if position <= |content| then (content[position..], |content|) else ("", position)
  }

  /** The messages forwarded for a batch of lines: each line stripped, the
      empty ones dropped, in file order. */
  function Forwarded(lines: seq<string>): (r: seq<string>)
    ensures |r| <= |lines|
    ensures forall k :: 0 <= k < |r| ==> r[k] != ""
  {
    if lines == [] then [] else ForwardedLine(lines[0]) + Forwarded(lines[1..])
  }

  /** What one line contributes: its stripped text, unless that is empty. */
  function ForwardedLine(line: string): (r: seq<string>)
    ensures |r| <= 1
    ensures forall k :: 0 <= k < |r| ==> r[k] != ""
  {
    if Strip(line) != "" then [Strip(line)] else []
  }

  lemma {:induction false} ForwardedAppend(a: seq<string>, b: seq<string>)
    ensures Forwarded(a + b) == Forwarded(a) + Forwarded(b)
  {
    if a == [] {
      assert a + b == b;
    } else {
      assert (a + b)[1..] == a[1..] + b;
      ForwardedAppend(a[1..], b);
    }
  }

  /** One more line forwards its stripped text when that is not empty. */
  lemma ForwardedSnoc(lines: seq<string>, i: nat)
    requires i < |lines|
    ensures Forwarded(lines[..i + 1])
            == Forwarded(lines[..i]) + ForwardedLine(lines[i])
  {
    assert lines[..i + 1] == lines[..i] + [lines[i]];
    ForwardedAppend(lines[..i], [lines[i]]);
    assert [lines[i]][1..] == [];
  }

  /** `for line in new_lines`: strip each line and forward it when not
      empty; `out` lists what is handed to the broadcast, in order. */
  method ForwardLines(lines: seq<string>) returns (out: seq<string>)
    ensures out == Forwarded(lines)
  {
    out := [];
    var i := 0;
    while i < |lines|
      invariant 0 <= i <= |lines|
      invariant out == Forwarded(lines[..i])
    {
      var line := Strip(lines[i]);
      ForwardedSnoc(lines, i);
      if line != "" {
        out := out + [line];
      }
      i := i + 1;
    }
    assert lines[..i] == lines;
  }

  datatype TailState = TailState(position: nat, sent: seq<string>, stopped: bool)

  /** The effect of one pass of the loop. */
  function Step(st: TailState, obs: PassObs): (r: TailState)
    ensures r.position >= st.position
    ensures |r.sent| >= |st.sent| && r.sent[..|st.sent|] == st.sent
    ensures st.stopped ==> r == st
    ensures r.stopped && !st.stopped ==>
              r.sent != [] && r.sent[|r.sent| - 1] == (if obs.file.Deleted? then DeletedNotice else FinishedNotice)
    ensures r.stopped <==> st.stopped || obs.file.Deleted? || (obs.file.Present? && !obs.running)
    ensures !obs.file.Present? ==> r.position == st.position
    ensures obs.file.Unreadable? ==> r == st
    ensures !st.stopped && obs.file.Deleted? ==> r == TailState(st.position, st.sent + [DeletedNotice], true)
    ensures !st.stopped && obs.file.Present? ==>
              && r.position == ReadFrom(obs.file.content, st.position).1
              && r.sent == st.sent + Forwarded(Lines(ReadFrom(obs.file.content, st.position).0))
                           + (if obs.running then [] else [FinishedNotice])
  {
    if st.stopped then st
    else match obs.file
      case Deleted => TailState(st.position, st.sent + [DeletedNotice], true)
      case Unreadable => st
      case Present(content) =>
        var (text, next) := ReadFrom(content, st.position);
        var sent := st.sent + Forwarded(Lines(text));
        if obs.running then TailState(next, sent, false)
        else TailState(next, sent + [FinishedNotice], true)
  }

  /** The last message sent. */
  function Last(sent: seq<string>): string
    requires sent != []
  {
    sent[|sent| - 1]
  }

  /** Passes until the loop stops or the observations run out. */
  function Passes(st: TailState, obs: seq<PassObs>): (r: TailState)
    ensures r.position >= st.position
    ensures |r.sent| >= |st.sent| && r.sent[..|st.sent|] == st.sent
    ensures r.stopped && !st.stopped ==>
              r.sent != [] && (Last(r.sent) == DeletedNotice || Last(r.sent) == FinishedNotice)
    decreases |obs|
  {
    if obs == [] || st.stopped then st
    else
      var next := Step(st, obs[0]);
      var r := Passes(next, obs[1..]);
      assert r.sent[..|st.sent|] == r.sent[..|next.sent|][..|st.sent|];
      r
  }

  class Tailer {
    /** `last_position` */
    var position: nat
    /** The messages handed to `send_debug_message`, in order. */
    var sent: seq<string>
    var stopped: bool

    function State(): TailState
      reads this
    {
      TailState(position, sent, stopped)
    }

    constructor ()
      ensures position == 0 && sent == [] && !stopped
    {
      position, sent, stopped := 0, [], false;
    }

    /** The wait phase; a file that never appears ends the monitor with a notice. */
    method Wait(existsAt: nat -> bool) returns (found: bool)
      modifies this
      ensures found <==> exists t :: 0 <= t <= WaitProbes && existsAt(t)
      ensures position == old(position)
      ensures found ==> sent == old(sent) && stopped == old(stopped)
      ensures !found ==> sent == old(sent) + [NotCreatedNotice] && stopped
    {
      var waited;
      found, waited := WaitForFile(existsAt);
      if !found {
        sent := sent + [NotCreatedNotice];
        stopped := true;
      }
    }

    /** One pass of the `while True` loop. */
    method Pass(obs: PassObs)
      modifies this
      ensures State() == Step(old(State()), obs)
    {
      if stopped {
        return;
      }
      match obs.file {
        case Deleted =>
          sent := sent + [DeletedNotice];
          stopped := true;
        case Unreadable =>
        case Present(content) =>
          var (text, next) := ReadFrom(content, position);
          var out := ForwardLines(Lines(text));
          sent := sent + out;
          position := next;
          if !obs.running {
            sent := sent + [FinishedNotice];
            stopped := true;
          }
      }
    }

    /** `monitor_userbot_logs` as a whole: the cursor starts at 0, the wait
        phase runs, then the loop (which a file that never appeared has
        already stopped). */
    method RunMonitor(existsAt: nat -> bool, obs: seq<PassObs>)
      modifies this
      ensures State() == Monitor(existsAt, obs)
    {
      position, sent, stopped := 0, [], false;
      var found := Wait(existsAt);
      Run(obs);
    }

    /** The monitor loop over a finite run of passes. */
    method Run(obs: seq<PassObs>)
      modifies this
      ensures State() == Passes(old(State()), obs)
    {
      var i := 0;
      while i < |obs| && !stopped
        invariant 0 <= i <= |obs|
        invariant Passes(State(), obs[i..]) == Passes(old(State()), obs)
      {
        assert obs[i..][1..] == obs[i + 1..];
        Pass(obs[i]);
        i := i + 1;
      }
    }
  }

  /** The whole monitor: the wait phase, then the passes. */
  function Monitor(existsAt: nat -> bool, obs: seq<PassObs>): (r: TailState)
    ensures r.stopped ==>
              r.sent != [] && (Last(r.sent) == NotCreatedNotice || Last(r.sent) == DeletedNotice
                               || Last(r.sent) == FinishedNotice)
    ensures (forall t :: 0 <= t <= WaitProbes ==> !existsAt(t)) ==>
              r == TailState(0, [NotCreatedNotice], true)
    ensures (exists t :: 0 <= t <= WaitProbes && existsAt(t)) ==>
              r == Passes(TailState(0, [], false), obs)
  {
    if exists t :: 0 <= t <= WaitProbes && existsAt(t) then Passes(TailState(0, [], false), obs)
    else TailState(0, [NotCreatedNotice], true)
  }

  // ------------------------------------------------------------ properties

  /** Once stopped, the monitor sends nothing more. */
  lemma StoppedStaysSilent(st: TailState, obs: seq<PassObs>)
    requires st.stopped
    ensures Passes(st, obs) == st
  {
  }

  /** When every pass finds the file grown by appending, the text read over
      the passes is exactly the file's final text beyond the starting cursor:
      nothing is read twice and nothing is skipped. */
  lemma {:induction false} AppendOnlyReadsTile(position: nat, contents: seq<string>)
    requires contents != []
    requires position <= |contents[0]|
    requires forall k :: 0 < k < |contents| ==> contents[k - 1] <= contents[k]
    ensures position <= |contents[|contents| - 1]|
    ensures ReadAll(position, contents) == contents[|contents| - 1][position..]
    decreases |contents|
  {
    if |contents| > 1 {
      var c := contents[0];
      var rest := contents[1..];
      var last := contents[|contents| - 1];
      assert forall k :: 0 < k < |rest| ==> rest[k - 1] == contents[k] && rest[k] == contents[k + 1];
      assert rest[|rest| - 1] == last;
      AppendOnlyReadsTile(|c|, rest);
      PrefixChain(contents);
      assert |c| <= |last| && c == last[..|c|];
      assert c[position..] == last[position..|c|];
      assert ReadAll(position, contents) == c[position..] + ReadAll(|c|, rest);
      assert last[position..] == last[position..|c|] + last[|c|..];
    }
  }

  /** The concatenated text the passes read, starting from `position`. */
  function ReadAll(position: nat, contents: seq<string>): string
    decreases |contents|
  {
    if contents == [] then ""
    else
      var (text, next) := ReadFrom(contents[0], position);
      text + ReadAll(next, contents[1..])
  }

  lemma {:induction false} PrefixChain(contents: seq<string>)
    requires contents != []
    requires forall k :: 0 < k < |contents| ==> contents[k - 1] <= contents[k]
    ensures contents[0] <= contents[|contents| - 1]
    decreases |contents|
  {
    if |contents| > 1 {
      var rest := contents[1..];
      assert forall k :: 0 < k < |rest| ==> rest[k - 1] == contents[k] && rest[k] == contents[k + 1];
      PrefixChain(rest);
      assert rest[|rest| - 1] == contents[|contents| - 1];
    }
  }

  /** A file that shrinks below the cursor (truncated or replaced) yields
      nothing until it grows past the old cursor again: the cursor is never
      reset. */
  lemma ShrunkFileIsSilent(st: TailState, content: string)
    requires !st.stopped && |content| < st.position
    ensures Step(st, PassObs(Present(content), true)) == st
  {
  }

  /** A pass that finds the userbot running forwards the new lines and
      nothing else. */
  lemma PassForwardsNewLines(st: TailState, content: string)
    requires !st.stopped && st.position <= |content|
    ensures Step(st, PassObs(Present(content), true)) ==
            TailState(|content|, st.sent + Forwarded(Lines(content[st.position..])), false)
  {
  }
}
