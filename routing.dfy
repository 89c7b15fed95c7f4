/** Dispatch of callback buttons (`button_handler`), of inline queries
    (`inline_query`), and the shaping of quick terminal commands
    (`execute_terminal_command`). Menu rendering, the handlers' own I/O and
    the host metrics are not modelled; the result of a dispatch names the
    handler reached and its argument. */
module Routing {
  import opened Wrappers
  import opened Text

  predicate StartsWith(s: string, prefix: string)
  {
    |prefix| <= |s| && s[..|prefix|] == prefix
  }

  /** `data.split("_")[1]`, the argument after the first underscore. */
  function Argument(data: string): string
  {
    var parts := Split(data, '_');
    if |parts| >= 2 then parts[1] else ""
  }

  /** For data `p_rest` with no underscore in `p`, the argument is the part
      of `rest` up to its own first underscore, and all of `rest` when it has
      none. */
  lemma ArgumentAfterPrefix(p: string, rest: string)
    requires '_' !in p
    ensures Argument(p + "_" + rest) == Split(rest, '_')[0]
    ensures '_' !in rest ==> Argument(p + "_" + rest) == rest
  {
    assert p + "_" + rest == p + ['_'] + rest;
    SplitAfterSeparator(p, '_', rest);
    if '_' !in rest {
      SplitWithoutSeparator(rest, '_');
    }
  }

  // ---------------------------------------------------------------- buttons

  datatype ButtonAction =
    | Denied
    | MainMenu | ShowStatus | SystemInfo
    | StartUserbot | StartProxy | StopUserbot | Management
    | InstallRequirements | UpdateHeroku | DebugUserbot
    | LogsMenu | SendLogs(level: string) | OpenLogsDir
    | Settings | ToggleDebug
    | TerminalMenu | Terminal(command: string)
    | PingMenu | Ping(host: string)
    | UsersMenu | AddMe | ListUsers | Help
    | Ignored

  /** The callback data that select a handler by exact comparison. */
  const ExactData: set<string> := {
    "main_menu", "status", "system_info", "start_userbot", "start_proxy", "stop_userbot",
    "management", "install_requirements", "update_heroku", "debug_userbot", "logs_menu",
    "open_logs_dir", "settings", "toggle_debug", "terminal_menu", "ping_menu",
    "users_menu", "add_me", "list_users", "help"}

  /** `button_handler`: callers that are not users are refused; otherwise
      the first matching comparison in source order wins. */
  function RouteButton(isUser: bool, data: string): (r: ButtonAction)
    ensures !isUser <==> r == Denied
    ensures r.SendLogs? <==> isUser && StartsWith(data, "logs_") && data != "logs_menu"
    ensures r.Terminal? <==> isUser && StartsWith(data, "terminal_") && data != "terminal_menu"
    ensures r.Ping? <==> isUser && StartsWith(data, "ping_") && data != "ping_menu"
    ensures r.SendLogs? ==> r.level == Argument(data)
    ensures r.Terminal? ==> r.command == Argument(data)
    ensures r.Ping? ==> r.host == Argument(data)
    ensures r == Ignored <==>
              isUser && data !in ExactData
              && !StartsWith(data, "logs_") && !StartsWith(data, "terminal_") && !StartsWith(data, "ping_")
  {
    PrefixedNotExact(data);
    if !isUser then Denied
    else if data == "main_menu" then MainMenu
    else if data == "status" then ShowStatus
    else if data == "system_info" then SystemInfo
    else if data == "start_userbot" then StartUserbot
    else if data == "start_proxy" then StartProxy
    else if data == "stop_userbot" then StopUserbot
    else if data == "management" then Management
    else if data == "install_requirements" then InstallRequirements
    else if data == "update_heroku" then UpdateHeroku
    else if data == "debug_userbot" then DebugUserbot
    else if data == "logs_menu" then LogsMenu
    else if StartsWith(data, "logs_") then SendLogs(Argument(data))
    else if data == "open_logs_dir" then OpenLogsDir
    else if data == "settings" then Settings
    else if data == "toggle_debug" then ToggleDebug
    else if data == "terminal_menu" then TerminalMenu
    else if StartsWith(data, "terminal_") then Terminal(Argument(data))
    else if data == "ping_menu" then PingMenu
    else if StartsWith(data, "ping_") then Ping(Argument(data))
    else if data == "users_menu" then UsersMenu
    else if data == "add_me" then AddMe
    else if data == "list_users" then ListUsers
    else if data == "help" then Help
    else Ignored
  }

  /** The main menu's exact entries reach their handlers. */
  lemma MenuRoutes()
    ensures RouteButton(true, "main_menu") == MainMenu
    ensures RouteButton(true, "status") == ShowStatus
    ensures RouteButton(true, "system_info") == SystemInfo
    ensures RouteButton(true, "start_userbot") == StartUserbot
    ensures RouteButton(true, "start_proxy") == StartProxy
    ensures RouteButton(true, "stop_userbot") == StopUserbot
  {
  }

  /** The management entries reach their handlers. */
  lemma ManagementRoutes()
    ensures RouteButton(true, "management") == Management
    ensures RouteButton(true, "install_requirements") == InstallRequirements
    ensures RouteButton(true, "update_heroku") == UpdateHeroku
    ensures RouteButton(true, "debug_userbot") == DebugUserbot
  {
  }

  /** The log-directory and settings entries reach their handlers. */
  lemma SettingsRoutes()
    ensures RouteButton(true, "open_logs_dir") == OpenLogsDir
    ensures RouteButton(true, "settings") == Settings
    ensures RouteButton(true, "toggle_debug") == ToggleDebug
  {
    NotPrefixed("open_logs_dir");
    NotPrefixed("settings");
    NotPrefixed("toggle_debug");
  }

  /** The user-management and help entries reach their handlers. */
  lemma UserRoutes()
    ensures RouteButton(true, "users_menu") == UsersMenu
    ensures RouteButton(true, "add_me") == AddMe
    ensures RouteButton(true, "list_users") == ListUsers
    ensures RouteButton(true, "help") == Help
  {
    NotPrefixed("users_menu");
    NotPrefixed("add_me");
    NotPrefixed("list_users");
    NotPrefixed("help");
  }

  /** Data whose first two characters differ from those of every prefix
      carries none of the prefixes. */
  lemma NotPrefixed(data: string)
    requires |data| >= 2
    requires data[0] != 'l' || data[1] != 'o'
    requires data[0] != 't' || data[1] != 'e'
    requires data[0] != 'p' || data[1] != 'i'
    ensures !StartsWith(data, "logs_") && !StartsWith(data, "terminal_") && !StartsWith(data, "ping_")
  {
    PrefixedNotExact(data);
  }

  /** The three prefixes exclude each other, and the only exact data that
      carry one of them are the menus' own entries. */
  lemma PrefixedNotExact(data: string)
    ensures StartsWith(data, "logs_") ==> data == "logs_menu" || data !in ExactData
    ensures StartsWith(data, "terminal_") ==> data == "terminal_menu" || data !in ExactData
    ensures StartsWith(data, "ping_") ==> data == "ping_menu" || data !in ExactData
    ensures StartsWith(data, "terminal_") ==> !StartsWith(data, "logs_")
    ensures StartsWith(data, "ping_") ==> !StartsWith(data, "logs_") && !StartsWith(data, "terminal_")
  {
    if StartsWith(data, "logs_") {
      assert data[..5] == "logs_";
      assert data[0] == 'l' && data[1] == 'o' && data[4] == '_';
    }
    if StartsWith(data, "terminal_") {
      assert data[..9] == "terminal_";
      assert data[0] == 't' && data[1] == 'e' && data[8] == '_';
    }
    if StartsWith(data, "ping_") {
      assert data[..5] == "ping_";
      assert data[0] == 'p' && data[4] == '_';
    }
  }

  /** The menus' own exact entries reach their menus, not the prefixed
      handlers that share their prefix. */
  lemma MenusBeforePrefixes()
    ensures RouteButton(true, "logs_menu") == LogsMenu
    ensures RouteButton(true, "terminal_menu") == TerminalMenu
    ensures RouteButton(true, "ping_menu") == PingMenu
  {
    var logs, terminal, ping := "logs_menu", "terminal_menu", "ping_menu";
    assert logs[0] == 'l' && logs[1] == 'o';
    assert terminal[0] == 't' && terminal[1] == 'e';
    assert ping[0] == 'p' && ping[1] == 'i';
  }

  /** A prefixed button `prefix_word`, other than the prefix's menu entry,
      reaches the prefix's handler with `word`. */
  lemma LogsButtonArgument(arg: string)
    requires '_' !in arg && arg != "menu"
    ensures RouteButton(true, "logs_" + arg) == SendLogs(arg)
  {
    var data := "logs_" + arg;
    ArgumentAfterPrefix("logs", arg);
    assert "logs" + "_" + arg == data;
    assert data[..5] == "logs_";
    assert data[5..] == arg;
    assert "logs_menu"[5..] == "menu";
  }

  lemma TerminalButtonArgument(arg: string)
    requires '_' !in arg && arg != "menu"
    ensures RouteButton(true, "terminal_" + arg) == Terminal(arg)
  {
    var data := "terminal_" + arg;
    ArgumentAfterPrefix("terminal", arg);
    assert "terminal" + "_" + arg == data;
    assert data[..9] == "terminal_";
    assert data[9..] == arg;
    assert "terminal_menu"[9..] == "menu";
  }

  lemma PingButtonArgument(arg: string)
    requires '_' !in arg && arg != "menu"
    ensures RouteButton(true, "ping_" + arg) == Ping(arg)
  {
    var data := "ping_" + arg;
    ArgumentAfterPrefix("ping", arg);
    assert "ping" + "_" + arg == data;
    assert data[..5] == "ping_";
    assert data[5..] == arg;
    assert "ping_menu"[5..] == "menu";
  }

  // ------------------------------------------------------------- terminal

  /** `commands_map` of the quick terminal buttons. */
  function TerminalCommand(key: string, userbotDir: string, venvPython: string): (r: Option<string>)
    ensures r.Some? <==> key in {"free", "top", "ls", "ps", "update", "clean"}
  {
    if key == "free" then Some("free -h")
    else if key == "top" then Some("top -bn1")
    else if key == "ls" then Some("cd " + userbotDir + " && ls -la")
    else if key == "ps" then Some("ps aux | grep python")
    else if key == "update" then Some(venvPython + " -m pip list --outdated")
    else if key == "clean" then Some(venvPython + " -m pip cache purge")
    else None
  }

  const OutputLimit: nat := 4000
  const NoOutput: string := "Команда выполнена (нет вывода)"
  const OutputCut: string := "\n... (вывод обрезан)"

  /** What the shell run produced: its decoded output streams, a timeout
      after 30 seconds, or an exception. */
  datatype CommandRun = Completed(stdout: string, stderr: string) | TimedOut | Raised

  datatype TerminalReply = UnknownCommand | Output(text: string) | Timeout | Error

  /** The text shown for a finished command: stdout then stderr, a
      placeholder when both are empty, cut to 4000 characters with a marker. */
  function ShapeOutput(stdout: string, stderr: string): (r: string)
    ensures r != ""
    ensures |r| <= OutputLimit + |OutputCut|
    ensures stdout + stderr == "" ==> r == NoOutput
    ensures stdout + stderr != "" && |stdout + stderr| <= OutputLimit ==> r == stdout + stderr
    ensures |stdout + stderr| > OutputLimit ==>
              r == (stdout + stderr)[..OutputLimit] + OutputCut
  {
    var output := stdout + stderr;
    Clip(if output == "" then NoOutput else output, OutputLimit, OutputCut)
  }

  function ExecuteTerminal(key: string, userbotDir: string, venvPython: string, run: CommandRun): (r: TerminalReply)
    ensures TerminalCommand(key, userbotDir, venvPython).None? <==> r == UnknownCommand
    ensures r.Output? <==> TerminalCommand(key, userbotDir, venvPython).Some? && run.Completed?
    ensures r.Output? ==> r.text == ShapeOutput(run.stdout, run.stderr)
    ensures r == Timeout <==> TerminalCommand(key, userbotDir, venvPython).Some? && run.TimedOut?
  {
    if TerminalCommand(key, userbotDir, venvPython).None? then UnknownCommand
    else match run
      case Completed(out, err) => Output(ShapeOutput(out, err))
      case TimedOut => Timeout
      case Raised => Error
  }

  /** Every button of the terminal menu reaches a known command. */
  lemma TerminalMenuCommandsKnown(key: string, userbotDir: string, venvPython: string)
    requires key in {"free", "top", "ls", "ps", "update", "clean"}
    ensures RouteButton(true, "terminal_" + key) == Terminal(key)
    ensures TerminalCommand(key, userbotDir, venvPython).Some?
  {
    TerminalButtonArgument(key);
  }

  // ---------------------------------------------------------------- inline

  const DefaultPingHost: string := "open.spotify.com"

  datatype InlineItem = PingItem(host: string) | InfoItem | UptimeItem | RamItem | CpuItem
                      | StartUserbotItem | PingPrompt

  datatype InlineAnswer = NoAnswer | Results(items: seq<InlineItem>)

  /** The host of an inline `ping` query: the rest of the query, stripped,
      or the default host when nothing is left. */
  function PingHost(query: string): (h: string)
    requires StartsWith(query, "ping")
    ensures h != ""
    ensures Strip(query[4..]) != "" ==> h == Strip(query[4..])
    ensures Strip(query[4..]) == "" ==> h == DefaultPingHost
  {
    var rest := Strip(query[4..]);
    if rest == "" then DefaultPingHost else rest
  }

  /** `inline_query` on the lower-cased, stripped query text. The keyword
      tests run in source order and the first one that holds decides. */
  function InlineQuery(isUser: bool, isOwner: bool, raw: string): (r: InlineAnswer)
    ensures !isUser <==> r == NoAnswer
    ensures var q := Strip(Lower(raw));
      && (isUser && StartsWith(q, "ping") ==> r == Results([PingItem(PingHost(q))]))
      && (isUser && !StartsWith(q, "ping") && Contains(q, "info") ==> r == Results([InfoItem]))
      && ((isUser && !StartsWith(q, "ping") && !Contains(q, "info") && Contains(q, "uptime"))
            ==> r == Results([UptimeItem]))
      && ((isUser && !StartsWith(q, "ping") && !Contains(q, "info") && !Contains(q, "uptime")
           && Contains(q, "ram"))
            ==> r == Results([RamItem]))
      && ((isUser && !StartsWith(q, "ping") && !Contains(q, "info") && !Contains(q, "uptime")
           && !Contains(q, "ram") && Contains(q, "cpu"))
            ==> r == Results([CpuItem]))
      && (r == Results([StartUserbotItem]) <==>
            isUser && isOwner && Contains(q, "start-userbot") && !StartsWith(q, "ping")
            && !Contains(q, "info") && !Contains(q, "uptime") && !Contains(q, "ram") && !Contains(q, "cpu"))
      && (r == Results([]) <==>
            isUser && q != "" && !StartsWith(q, "ping") && !Contains(q, "info") && !Contains(q, "uptime")
            && !Contains(q, "ram") && !Contains(q, "cpu") && !(isOwner && Contains(q, "start-userbot")))
      && (r == Results([InfoItem, PingPrompt, UptimeItem]) <==> isUser && q == "")
  {
    var q := Strip(Lower(raw));
    if !isUser then NoAnswer
    else if StartsWith(q, "ping") then Results([PingItem(PingHost(q))])
    else if Contains(q, "info") then Results([InfoItem])
    else if Contains(q, "uptime") then Results([UptimeItem])
    else if Contains(q, "ram") then Results([RamItem])
    else if Contains(q, "cpu") then Results([CpuItem])
    else if Contains(q, "start-userbot") && isOwner then Results([StartUserbotItem])
    else if q == "" then Results([InfoItem, PingPrompt, UptimeItem])
    else Results([])
  }

  /** The inline answer does not depend on the letter case of the query. */
  lemma InlineQueryIgnoresCase(isUser: bool, isOwner: bool, raw: string)
    ensures InlineQuery(isUser, isOwner, Upper(raw)) == InlineQuery(isUser, isOwner, raw)
  {
    LowerOfUpper(raw);
  }
}
