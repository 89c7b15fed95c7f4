/** The bot's process-wide state and the handlers that change it: starting
    the userbot (with the log monitor it may launch), the debug-chat
    registry, and the broadcast to debug chats (`send_debug_message`).
    Spawning, sleeping and Telegram sends are not performed: a spawn is
    recorded in `launched`, a settle period is replaced by the process table
    observed after it, and a send is recorded in `outbox`. */
module Controller {
  import opened Wrappers
  import opened Text
  import opened Access
  import opened ProcessMatcher

  type ChatId = int

  const VenvPython: string := "/home/alina/.venv/bin/python"
  const ProxychainsPath: string := "/usr/bin/proxychains"
  const ModuleArgs: string := " -m heroku --no-web"
  /** `USERBOT_CMD` */
  const UserbotCmd: string := VenvPython + ModuleArgs
  /** `PROXY_CMD` */
  const ProxyCmd: string := ProxychainsPath + " " + VenvPython + ModuleArgs

  /** Messages to debug chats are cut to this many characters. */
  const DebugLimit: nat := 4000

  // ------------------------------------------------------------- start

  /** `/start_userbot [--proxy]`, the start button, the start-with-proxy button. */
  datatype StartVia = StartCommand | StartButton | StartProxyButton

  datatype StartRefusal = NotOwner(why: Refusal) | ProxychainsMissing | AlreadyRunning | VenvMissing

  datatype StartDecision = Decline(reason: StartRefusal) | Launch(command: string)

  /** What the start handlers look up on the host before spawning:
      `os.path.exists` on the proxychains and interpreter paths, and the
      process table `get_userbot_status` scans. */
  datatype Host = Host(proxychainsExists: bool, venvExists: bool, table: seq<ProcEntry>)

  /** Whether this start goes through proxychains. */
  predicate WantsProxy(via: StartVia, args: seq<string>)
  {
    match via
    case StartCommand => "--proxy" in args
    case StartButton => false
    case StartProxyButton => true
  }

  /** `f"cd {USERBOT_DIR} && {PROXY_CMD if use_proxy else USERBOT_CMD}"`. */
  function LaunchCommand(userbotDir: string, proxy: bool): string
  {
    "cd " + userbotDir + " && " + (if proxy then ProxyCmd else UserbotCmd)
  }

  /** The guard chain in front of the spawn. The command checks the owner,
      then proxychains when `--proxy` is given, then that the userbot is not
      running, then the interpreter; the start button checks only that the
      userbot is not running; the proxy button checks proxychains, then that
      the userbot is not running. */
  function DecideStart(via: StartVia, isPrivateChat: bool, isOwner: bool, args: seq<string>,
                       host: Host, userbotDir: string): (d: StartDecision)
    ensures d.Launch? <==>
              && (via == StartCommand ==> isOwner)
              && (WantsProxy(via, args) ==> host.proxychainsExists)
              && !UserbotStatus(host.table).running
              && (via == StartCommand ==> host.venvExists)
    ensures d.Launch? ==> d.command == LaunchCommand(userbotDir, WantsProxy(via, args))
    ensures d == Decline(ProxychainsMissing) ==>
              (via == StartCommand ==> isOwner) && WantsProxy(via, args) && !host.proxychainsExists
    ensures d == Decline(AlreadyRunning) ==>
              (via == StartCommand ==> isOwner) && (WantsProxy(via, args) ==> host.proxychainsExists)
              && UserbotStatus(host.table).running
    ensures d == Decline(VenvMissing) ==>
              via == StartCommand && isOwner && (WantsProxy(via, args) ==> host.proxychainsExists)
              && !UserbotStatus(host.table).running && !host.venvExists
    ensures d.Decline? && d.reason.NotOwner? ==>
              via == StartCommand && OwnerGuard(isPrivateChat, isOwner) == Some(d.reason.why)
  {
    var proxy := WantsProxy(via, args);
    var guard := OwnerGuard(isPrivateChat, isOwner);
    if via == StartCommand && guard.Some? then Decline(NotOwner(guard.value))
    else if proxy && !host.proxychainsExists then Decline(ProxychainsMissing)
    else if UserbotStatus(host.table).running then Decline(AlreadyRunning)
    else if via == StartCommand && !host.venvExists then Decline(VenvMissing)
    else Launch(LaunchCommand(userbotDir, proxy))
  }

  /** A command that names the interpreter, the module and the flag... */
  lemma ArgvMatches(cmd: string)
    requires Contains(cmd, "python") && Contains(cmd, "heroku") && Contains(cmd, "--no-web")
    ensures CmdlineMatches(Some(Split(cmd, ' ')))
  {
    JoinSplit(cmd, ' ');
    assert " " == [' '];
    assert Lower("python") == "python";
    assert Lower("heroku") == "heroku";
    assert Lower("--no-web") == "--no-web";
    ContainsLowered(cmd, "python");
    ContainsLowered(cmd, "heroku");
    ContainsLowered(cmd, "--no-web");
  }

  /** ...so the interpreter the start handlers launch, with or without
      proxychains in front of it, is recognised by the scan that confirms
      the start and by the scan that stops it. */
  lemma LaunchedProcessRecognised()
    ensures CmdlineMatches(Some(Split(UserbotCmd, ' ')))
    ensures CmdlineMatches(Some(Split(ProxyCmd, ' ')))
  {
    assert OccursAt(VenvPython, "python", 22);
    assert OccursAt(ModuleArgs, "heroku", 4);
    assert OccursAt(ModuleArgs, "--no-web", 11);
    ContainsInConcat(VenvPython, ModuleArgs, "python");
    ContainsInConcat(VenvPython, ModuleArgs, "heroku");
    ContainsInConcat(VenvPython, ModuleArgs, "--no-web");
    ArgvMatches(UserbotCmd);
    var prefix := ProxychainsPath + " ";
    assert ProxyCmd == prefix + UserbotCmd;
    ContainsInConcat(prefix, UserbotCmd, "python");
    ContainsInConcat(prefix, UserbotCmd, "heroku");
    ContainsInConcat(prefix, UserbotCmd, "--no-web");
    ArgvMatches(ProxyCmd);
  }

  /** What the spawn produced: an exception, or the process table seen after
      the settle period (3 s for the command, 5 s for the buttons). */
  datatype Settle = SpawnRaised | Settled(table: seq<ProcEntry>)

  /** `userbot_output.log` as the command's failure branch finds it. */
  datatype OutputLog = LogMissing | LogUnreadable | LogText(content: string)

  datatype FailureDetail = NoDetail | UnknownError | LogNotReadable | ErrorTail(text: string)

  datatype StartReply = Declined(reason: StartRefusal) | Started | NotStarted(detail: FailureDetail) | StartError

  /** The last `n` characters of `s` (`s[-n:]`). */
  function Tail(s: string, n: nat): (r: string)
    ensures |r| == if |s| <= n then |s| else n
    ensures s == s[..|s| - |r|] + r
  {
    if |s| <= n then s else s[|s| - n..]
  }

  /** What a failed start reports. Only the command reads the output log:
      the last 500 characters of its stripped text, a generic message when
      that is empty, another when the log is missing or unreadable. */
  function FailureDetailOf(via: StartVia, log: OutputLog): (r: FailureDetail)
    ensures via != StartCommand <==> r == NoDetail
    ensures r.ErrorTail? ==>
              && log.LogText? && r.text != "" && |r.text| <= 500 && |r.text| <= |Strip(log.content)|
              && r.text == Strip(log.content)[|Strip(log.content)| - |r.text|..]
              && (|Strip(log.content)| <= 500 ==> r.text == Strip(log.content))
              && (|Strip(log.content)| > 500 ==> |r.text| == 500)
    ensures r == UnknownError <==> via == StartCommand && log.LogText? && Strip(log.content) == ""
    ensures r == LogNotReadable <==> via == StartCommand && !log.LogText?
  {
    if via != StartCommand then NoDetail
    else match log
      case LogText(content) =>
        var t := Strip(content);
        if t == "" then UnknownError else ErrorTail(Tail(t, 500))
      case _ => LogNotReadable
  }

  /** The start was confirmed: spawned, and the userbot seen after settling. */
  predicate Confirmed(d: StartDecision, settle: Settle)
  {
    d.Launch? && settle.Settled? && UserbotStatus(settle.table).running
  }

  // ----------------------------------------------------------- debug chats

  /** The registry after the settings button: remove if present, else add. */
  function Toggled(chats: set<ChatId>, chat: ChatId): (r: set<ChatId>)
    ensures chat in r <==> chat !in chats
    ensures forall c :: c != chat ==> (c in r <==> c in chats)
  {
    if chat in chats then chats - {chat} else chats + {chat}
  }

  /** Toggling twice restores the registry. */
  lemma ToggleTwice(chats: set<ChatId>, chat: ChatId)
    ensures Toggled(Toggled(chats, chat), chat) == chats
  {
  }

  /** `/debug_on` twice is `/debug_on` once, `/debug_off` of a chat that is
      not registered changes nothing, and neither touches another chat. */
  lemma RegistryEdits(chats: set<ChatId>, chat: ChatId)
    ensures (chats + {chat}) + {chat} == chats + {chat}
    ensures chat !in chats ==> chats - {chat} == chats
    ensures forall c :: c != chat ==> (c in chats + {chat} <==> c in chats) && (c in chats - {chat} <==> c in chats)
  {
  }

  /** The text each debug chat receives for `message`. */
  function DebugText(message: string): (r: string)
    ensures |r| <= 2 + DebugLimit + 3
    ensures |message| <= DebugLimit ==> r == "\U{1F50D} " + message
    ensures |message| > DebugLimit ==> r == "\U{1F50D} " + message[..DebugLimit] + "..."
  {
    "\U{1F50D} " + Clip(message, DebugLimit, "...")
  }

  /** One attempted send to a debug chat, and whether it went through. */
  datatype Delivery = Delivery(chat: ChatId, text: string, delivered: bool)

  // ------------------------------------------------------------------ state

  class Bot {
    /** `DEBUG_CHATS` */
    var debugChats: set<ChatId>
    /** `monitor_task`: the id of the current log-monitor task, if any. */
    var monitorTask: Option<nat>
    /** How many monitor tasks have been created; the next one gets this id. */
    var tasksCreated: nat
    /** Monitor tasks cancelled, in order. */
    var cancelled: seq<nat>
    /** Shell commands spawned, in order. */
    var launched: seq<string>
    /** Sends attempted to debug chats, in order. */
    var outbox: seq<Delivery>

    constructor ()
      ensures debugChats == {} && monitorTask == None && tasksCreated == 0
      ensures cancelled == [] && launched == [] && outbox == []
    {
      debugChats, monitorTask, tasksCreated := {}, None, 0;
      cancelled, launched, outbox := [], [], [];
    }

    /** `start_userbot`, `start_userbot_callback`, `start_userbot_proxy_callback`. */
    method StartUserbot(via: StartVia, isPrivateChat: bool, isOwner: bool, args: seq<string>,
                        host: Host, userbotDir: string, settle: Settle, log: OutputLog)
      returns (reply: StartReply)
      modifies this
      ensures debugChats == old(debugChats) && outbox == old(outbox)
      ensures var d := DecideStart(via, isPrivateChat, isOwner, args, host, userbotDir);
        && (d.Decline? ==> reply == Declined(d.reason) && launched == old(launched))
        && (d.Launch? ==> launched == old(launched) + (if settle.SpawnRaised? then [] else [d.command]))
        && (reply == Started <==> Confirmed(d, settle))
        && (d.Launch? && settle.SpawnRaised? ==> reply == StartError)
        && (d.Launch? && settle.Settled? && !UserbotStatus(settle.table).running ==>
              reply == NotStarted(FailureDetailOf(via, log)))
        && (Confirmed(d, settle) && old(debugChats) != {} ==>
              && monitorTask == Some(old(tasksCreated)) && tasksCreated == old(tasksCreated) + 1
              && cancelled == old(cancelled) + (if old(monitorTask).Some? then [old(monitorTask).value] else []))
        && (!(Confirmed(d, settle) && old(debugChats) != {}) ==>
              monitorTask == old(monitorTask) && tasksCreated == old(tasksCreated) && cancelled == old(cancelled))
    {
      var d := DecideStart(via, isPrivateChat, isOwner, args, host, userbotDir);
      if d.Decline? {
        return Declined(d.reason);
      }
      if settle.SpawnRaised? {
        return StartError;
      }
      launched := launched + [d.command];
      if UserbotStatus(settle.table).running {
        reply := Started;
        if debugChats != {} {
          ReplaceMonitor();
        }
      } else {
        reply := NotStarted(FailureDetailOf(via, log));
      }
    }

    /** `if monitor_task: monitor_task.cancel()` then a new monitor task. */
    method ReplaceMonitor()
      modifies this`monitorTask, this`tasksCreated, this`cancelled
      ensures monitorTask == Some(old(tasksCreated)) && tasksCreated == old(tasksCreated) + 1
      ensures cancelled == old(cancelled) + (if old(monitorTask).Some? then [old(monitorTask).value] else [])
    {
      if monitorTask.Some? {
        cancelled := cancelled + [monitorTask.value];
      }
      monitorTask := Some(tasksCreated);
      tasksCreated := tasksCreated + 1;
    }

    /** The debug toggle in the settings menu, for the chat it was pressed in. */
    method ToggleDebug(chat: ChatId) returns (enabled: bool)
      modifies this`debugChats
      ensures debugChats == Toggled(old(debugChats), chat)
      ensures enabled <==> chat !in old(debugChats)
    {
      if chat in debugChats {
        debugChats := debugChats - {chat};
        enabled := false;
      } else {
        debugChats := debugChats + {chat};
        enabled := true;
      }
    }

    /** `/debug_on`: owner only; adding a chat already present changes nothing. */
    method DebugOn(isOwner: bool, chat: ChatId) returns (accepted: bool)
      modifies this`debugChats
      ensures accepted == isOwner
      ensures debugChats == if isOwner then old(debugChats) + {chat} else old(debugChats)
    {
      accepted := isOwner;
      if isOwner {
        debugChats := debugChats + {chat};
      }
    }

    /** `/debug_off`: owner only; discarding an absent chat changes nothing. */
    method DebugOff(isOwner: bool, chat: ChatId) returns (accepted: bool)
      modifies this`debugChats
      ensures accepted == isOwner
      ensures debugChats == if isOwner then old(debugChats) - {chat} else old(debugChats)
    {
      accepted := isOwner;
      if isOwner {
        debugChats := debugChats - {chat};
      }
    }

    /** `send_debug_message`: one attempt per chat of a copy of the
        registry, taken in `order` (the order in which the runtime enumerates
        the set); a chat in `failing` raises and is skipped without affecting
        the others. Without a bot nothing is sent. */
    method SendDebugMessage(message: string, hasBot: bool, failing: set<ChatId>, order: seq<ChatId>)
      requires forall c :: c in order <==> c in debugChats
      requires forall i, j :: 0 <= i < j < |order| ==> order[i] != order[j]
      modifies this`outbox
      ensures outbox == old(outbox) + (if hasBot then Broadcast(message, order, failing) else [])
    {
      // An empty registry has an empty enumeration, so the early return in
      // `send_debug_message` is the loop below running zero times.
      var text := DebugText(message);
      var i := 0;
      while i < |order|
        invariant 0 <= i <= |order|
        invariant outbox == old(outbox) + (if hasBot then Broadcast(message, order[..i], failing) else [])
      {
        if hasBot {
          outbox := outbox + [Delivery(order[i], text, order[i] !in failing)];
        }
        assert order[..i + 1] == order[..i] + [order[i]];
        BroadcastAppend(message, order[..i], order[i], failing);
        i := i + 1;
      }
      assert order[..i] == order;
    }
  }

  /** The deliveries a broadcast of `message` to `chats` in that order makes. */
  function Broadcast(message: string, chats: seq<ChatId>, failing: set<ChatId>): (r: seq<Delivery>)
    ensures |r| == |chats|
    ensures forall k :: 0 <= k < |r| ==>
              r[k].chat == chats[k] && r[k].text == DebugText(message)
              && (r[k].delivered <==> chats[k] !in failing)
  {
    seq(|chats|, k requires 0 <= k < |chats| => Delivery(chats[k], DebugText(message), chats[k] !in failing))
  }

  lemma BroadcastAppend(message: string, chats: seq<ChatId>, c: ChatId, failing: set<ChatId>)
    ensures Broadcast(message, chats + [c], failing) == Broadcast(message, chats, failing) + [Delivery(c, DebugText(message), c !in failing)]
  {
  }

  /** Every chat of the registry is attempted exactly once, each attempt
      carries the clipped message, and one failing chat does not keep the
      message from the others. */
  lemma BroadcastReachesEachChatOnce(message: string, chats: set<ChatId>, order: seq<ChatId>, failing: set<ChatId>)
    requires forall c :: c in order <==> c in chats
    requires forall i, j :: 0 <= i < j < |order| ==> order[i] != order[j]
    ensures var r := Broadcast(message, order, failing);
      && (forall c :: c in chats ==> exists k :: 0 <= k < |r| && r[k].chat == c)
      && (forall k, l :: 0 <= k < l < |r| ==> r[k].chat != r[l].chat)
      && (forall k :: 0 <= k < |r| ==> r[k].chat in chats && |r[k].text| <= 2 + DebugLimit + 3)
      && (forall k :: 0 <= k < |r| ==> (r[k].delivered <==> r[k].chat !in failing))
  {
    var r := Broadcast(message, order, failing);
    forall c | c in chats
      ensures exists k :: 0 <= k < |r| && r[k].chat == c
    {
      var k :| 0 <= k < |order| && order[k] == c;
      assert r[k].chat == c;
    }
  }
}
