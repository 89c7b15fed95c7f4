# A verified model of the status bot's userbot controller

`status-heroku-bot.py` is a Telegram bot that supervises one background
process, the "userbot" (`python -m heroku --no-web`, optionally behind
proxychains). This project models in Dafny the parts of the bot that make
decisions, and proves what they guarantee:

- **Access** (`access.dfy`): `is_owner`/`is_user`, the owner guard in
  front of owner-only commands, and the user registration, which does not
  work as written (see Findings).
- **Process matching** (`matcher.dfy`): the scan of the OS process table
  that `get_userbot_status` and both stop handlers run. The table is a
  sequence of entries. An entry may fail to read, and then it is skipped.
- **Stop protocol** (`stopper.dfy`): terminate every match, poll every two
  seconds while fewer than fifteen have passed, keep the survivors, and
  kill whatever is left. `live(k, p)` stands for `is_running()` at poll
  `k`. `lag(k)` is the extra delay of poll `k` beyond its two seconds.
- **Start, debug registry and broadcast** (`controller.dfy`): the guard
  chains of `/start_userbot` and the two start buttons, and the launch
  command. It also covers what a failed start reports and the replacement
  of the log-monitor task. The class `Bot` holds `DEBUG_CHATS`,
  `monitor_task`, the spawned commands and an outbox of sends.
- **Log export** (`logexport.dfy`): `/logs <level>` and the log buttons.
  `ALL` passes the file through. Any other level keeps the lines that
  mention it as a whole word, ignoring case.
- **Log tailer** (`tailer.dfy`): `monitor_userbot_logs` as a class that
  holds the cursor and the messages handed to the broadcast.
- **Routing** (`routing.dfy`): `button_handler`'s dispatch and
  `inline_query`'s keyword dispatch. It also covers the quick terminal
  commands and how their output is shaped.
- `wrappers.dfy`, `seqs.dfy` and `text.dfy` define `Option`, order-keeping
  filtering and the Python string operations the bot uses (`lower`,
  `upper`, `in`, `join`, `split`, `strip`, line iteration, slicing with a
  suffix). Each comes with its own lemmas, for example the round trip
  `Join(Split(s, c), [c]) == s`.

Inputs the bot reads from the host become parameters. These are
`os.path.exists` results, the process table, the liveness answers, the
text of the log files and the iteration order of `DEBUG_CHATS`. Effects
become recorded state: spawned commands, signals sent, monitor tasks
created and cancelled, and messages sent.

Behaviour the script does not have, or has in a particular way:

- There is no restart operation, no connection watchdog, no reconnect
  backoff and no batching buffer. Each forwarded log line is a separate
  call to `send_debug_message`, and that call clips its own message to
  4000 characters.
- The log tailer never resets its cursor when the file shrinks or is
  replaced. A file shorter than the cursor is read as empty, and the
  cursor stays where it was (`LogTailer.ShrunkFileIsSilent`). The cursor
  is the text-mode offset `tell()` returns, modelled as a character count
  rather than a byte offset.
- `/start_userbot` settles for 3 seconds and the buttons for 5. In the
  model the settle period is the process table observed after it.
- Nothing prevents concurrent starts and stops.

## Model

| member | source | states |
|---|---|---|
| Access.IsUser | status-heroku-bot.py:32-36 | the owner and every registered user pass, and nobody else does |
| Access.OwnerGuard | status-heroku-bot.py:939-945 | no refusal exactly for the owner; a non-owner gets the groups message outside private chats and "access denied" inside them |
| Access.AddUserAsWritten | status-heroku-bot.py:1343-1347 | registration into the dictionary `USER_IDS` never yields a new table (the call raises) |
| Access.AddUser | status-heroku-bot.py:1343-1347 | the intended registration: the new id is in the table, nobody is lost, nobody else is added |
| Access.RegistrationIgnoredAsWritten | status-heroku-bot.py:19 | as written, a registered non-owner still fails `is_user` |
| Access.RegisteredUserIsUser | status-heroku-bot.py:35-36 | as intended, a registered user passes `is_user`, and registration takes access from nobody |
| ProcessMatcher.UserbotStatus | status-heroku-bot.py:52-63 | running iff some readable entry matches; the start time is that of the first match in table order; not running gives no start time |
| ProcessMatcher.FindManaged | status-heroku-bot.py:1022-1030 | the scan loop returns exactly the readable matching entries, in table order |
| ProcessMatcher.StatusAgreesWithScan | status-heroku-bot.py:52-63 | the status query reports running iff the stop scan finds something, with the start time of the scan's first process |
| ProcessMatcher.ScanKeepsExactlyMatches | status-heroku-bot.py:1022-1030 | an entry is in the scan result iff it is in the table, readable and matching, and the result is an ordered sub-list of the table |
| ProcessMatcher.FaultyEntriesSkipped | status-heroku-bot.py:1029-1030 | an entry whose reading raises is never in the scan result |
| ProcessMatcher.MatchIgnoresCase | status-heroku-bot.py:57-58 | command lines equal up to letter case match alike |
| ProcessMatcher.MissingCmdlineNeverMatches | status-heroku-bot.py:56-58 | a missing command line is treated as empty and never matches |
| ProcessMatcher.UptimeHM | status-heroku-bot.py:1114-1116 | hours and minutes with minutes below 60, covering the uptime to within the minute |
| StopProtocol.Survivors | status-heroku-bot.py:1052-1058 | `still_running` is an ordered sub-list of the polled processes holding exactly those reported alive |
| StopProtocol.SurvivorsOf | status-heroku-bot.py:1052-1058 | the loop that builds `still_running` computes `Survivors` |
| StopProtocol.PollKeepsSubsequence | status-heroku-bot.py:1050-1066 | the list left when polling ends is an ordered sub-list of the list it started from |
| StopProtocol.PollEnds | status-heroku-bot.py:1050-1066 | polling ends either gracefully, with everything last polled gone, or at the timeout with a non-empty list all alive at the last poll |
| StopProtocol.PollRoundsBounded | status-heroku-bot.py:1050-1051 | the number of polls is bounded by the remaining time divided by the poll interval, plus one |
| StopProtocol.StopRun.Run | status-heroku-bot.py:1022-1076 | nothing found means not running and no signals; otherwise every match is terminated once, and a graceful stop kills nothing while a forced one kills exactly the list left by polling |
| StopProtocol.WaitLoop | status-heroku-bot.py:1047-1066 | the waiting loop ends where `Poll` ends: same survivors, same poll count and elapsed time, graceful exactly when a poll found nothing alive |
| StopProtocol.StopRun.TerminateAll | status-heroku-bot.py:1039-1043 | one terminate per process, in order |
| StopProtocol.StopRun.KillAll | status-heroku-bot.py:1068-1072 | one kill per remaining process, in order |
| StopProtocol.StopGuarantees | status-heroku-bot.py:1047-1072 | between one and eight polls; a forced stop kills a non-empty ordered sub-list of the terminated processes, all alive at the last poll |
| StopProtocol.GracefulScenario | status-heroku-bot.py:1050-1064 | two processes that are gone by the third poll stop gracefully at six seconds |
| StopProtocol.StopRefusal | status-heroku-bot.py:1014-1020 | the command refuses exactly non-owners, as `OwnerGuard` does; the button never refuses |
| StopProtocol.StopNotices | status-heroku-bot.py:1036-1075 | only the command, and only when something was found, broadcasts "stopping" followed by the graceful or forced notice |
| Controller.DecideStart | status-heroku-bot.py:939-962 | a launch happens iff every guard of the entry point passes (owner, proxychains when proxied, not running, interpreter present); each refusal names the first failing guard; the launch command uses `PROXY_CMD` iff the proxy was asked for |
| Controller.LaunchedProcessRecognised | status-heroku-bot.py:21-24 | the argument vectors of both launch commands match the scan, so a started userbot is seen as running and can be stopped |
| Controller.Tail | status-heroku-bot.py:998 | `s[-n:]`: the last `min(n, len(s))` characters, a suffix of `s` |
| Controller.FailureDetailOf | status-heroku-bot.py:992-1005 | only the command reports detail: the last 500 characters of the stripped log, "unknown error" when that is empty, "could not read" when the log is missing or unreadable |
| Controller.Toggled | status-heroku-bot.py:738-743 | the toggled chat flips its membership; every other chat keeps it |
| Controller.ToggleTwice | status-heroku-bot.py:738-743 | two toggles restore the registry |
| Controller.RegistryEdits | status-heroku-bot.py:1264-1275 | adding twice is adding once; discarding an absent chat changes nothing; no other chat changes |
| Controller.DebugText | status-heroku-bot.py:71-77 | messages up to 4000 characters are sent whole, longer ones as their first 4000 characters and "...", behind the magnifier prefix |
| Controller.Broadcast | status-heroku-bot.py:74-79 | one delivery per enumerated chat, in that order, each carrying the clipped text and failing only for a failing chat |
| Controller.BroadcastReachesEachChatOnce | status-heroku-bot.py:74-79 | every registered chat is attempted exactly once, with a bounded text, and one failure does not prevent the others |
| Controller.Bot.StartUserbot | status-heroku-bot.py:964-1005 | a refused start spawns nothing; the reply is "started" iff the spawned userbot is seen after settling; the monitor task is cancelled and replaced only then and only with debug chats |
| Controller.Bot.ReplaceMonitor | status-heroku-bot.py:987-991 | the old monitor task, if any, is cancelled and a fresh one becomes current |
| Controller.Bot.ToggleDebug | status-heroku-bot.py:733-743 | the registry becomes `Toggled` of the old one; the reply says "enabled" iff the chat was absent |
| Controller.Bot.DebugOn | status-heroku-bot.py:1256-1265 | the owner's chat is added; anyone else changes nothing |
| Controller.Bot.DebugOff | status-heroku-bot.py:1267-1276 | the owner's chat is discarded; anyone else changes nothing |
| Controller.Bot.SendDebugMessage | status-heroku-bot.py:66-79 | the outbox grows by exactly the broadcast of the message over the registry's enumeration, and by nothing without a bot |
| LogExport.ParseLevel | status-heroku-bot.py:1209-1214 | accepted iff the upper-cased argument is one of the five level names, and then that level |
| LogExport.ParseLevelName | status-heroku-bot.py:1209-1212 | every level is accepted under its name in any letter case |
| LogExport.MentionsWordIgnoresCase | status-heroku-bot.py:1230 | the whole-word test ignores the case of the level and of the line |
| LogExport.ExportLog | status-heroku-bot.py:1224-1231 | the copy loop writes exactly `Export` of the file |
| LogExport.ExportKeepsMatchingLines | status-heroku-bot.py:1228-1231 | a level other than `ALL` exports an ordered sub-list of the file's lines, unmodified, holding exactly the lines that mention it, each as many times as the file repeats it |
| LogExport.ExportAllVerbatim | status-heroku-bot.py:1224-1226 | `ALL` exports the file unchanged |
| LogExport.ExportEmptyIffNoMatch | status-heroku-bot.py:1233-1237 | the export is empty iff no line mentions the level (for `ALL`, iff the file is empty) |
| LogExport.ExportIdempotent | status-heroku-bot.py:1228-1231 | exporting an export with the same level changes nothing |
| LogExport.ExportReply | status-heroku-bot.py:1216-1249 | missing file, read error, empty export and document are exclusive outcomes; a document carries the export and is named `logs-<level>.txt` |
| LogExport.LogsCommand | status-heroku-bot.py:1198-1254 | refusals in order (non-owner, no argument, invalid level); a document only for a valid level and a present file, carrying the export of the upper-cased level |
| LogExport.LogsButton | status-heroku-bot.py:656-706 | the button exports the token as given, with none of the command's refusals |
| LogExport.CommandMatchesButton | status-heroku-bot.py:670-677 | for every menu level, the owner's command and the button give the same reply |
| LogTailer.WaitForFile | status-heroku-bot.py:1358-1365 | the file is found iff it exists at one of the 31 probes; the wait ends at the first probe that finds it |
| LogTailer.ReadFrom | status-heroku-bot.py:1375-1378 | the text after the cursor and the new cursor; the cursor never decreases, and a cursor past the end reads nothing |
| LogTailer.Forwarded | status-heroku-bot.py:1380-1383 | at most one message per line, none of them empty |
| LogTailer.Step | status-heroku-bot.py:1369-1394 | one pass: an unreadable file changes nothing; a deleted file adds its notice and stops; a present file moves the cursor to what the read returns and forwards the new lines, followed by the finished notice and a stop when the userbot is no longer running; the cursor never decreases and messages are only appended |
| LogTailer.Passes | status-heroku-bot.py:1369-1394 | over many passes the cursor never decreases, messages are only appended, and a stop leaves a stop notice last |
| LogTailer.Tailer.Wait | status-heroku-bot.py:1358-1365 | a file that never appears ends the monitor with the "not created" notice; otherwise nothing changes |
| LogTailer.Tailer.Pass | status-heroku-bot.py:1369-1394 | the pass method performs `Step` on the tailer's state |
| LogTailer.ForwardLines | status-heroku-bot.py:1380-1383 | the line loop hands exactly `Forwarded` of the lines read to the broadcast |
| LogTailer.ForwardedLine | status-heroku-bot.py:1381-1383 | one line yields at most one message, and never an empty one |
| LogTailer.Tailer.Run | status-heroku-bot.py:1369-1394 | the loop performs `Passes` on the tailer's state |
| LogTailer.Monitor | status-heroku-bot.py:1354-1394 | a file that never appears gives only "not created"; once it appears the monitor starts at cursor 0 with nothing sent and performs `Passes` over the observed passes; a stopped monitor's last message is one of the three notices |
| LogTailer.Tailer.RunMonitor | status-heroku-bot.py:1354-1394 | the wait phase then the read loop, from cursor 0, leave the tailer in the state `Monitor` describes |
| LogTailer.StoppedStaysSilent | status-heroku-bot.py:1372-1388 | after a stop nothing more is read or sent |
| LogTailer.AppendOnlyReadsTile | status-heroku-bot.py:1375-1378 | while the file only grows, the chunks read over the passes concatenate to the file's text from the starting cursor, with nothing read twice or skipped |
| LogTailer.ShrunkFileIsSilent | status-heroku-bot.py:1375-1378 | a file shorter than the cursor yields nothing and keeps the cursor |
| LogTailer.PassForwardsNewLines | status-heroku-bot.py:1375-1383 | a pass forwards the stripped non-empty lines after the cursor and moves the cursor to the end |
| Routing.ArgumentAfterPrefix | status-heroku-bot.py:360 | `data.split("_")[1]` is the text after the first underscore, up to the next one |
| Routing.RouteButton | status-heroku-bot.py:303-398 | non-users are refused; each prefixed handler is reached iff the data carry its prefix and are not its menu entry, with the word after the underscore; data matching nothing are ignored |
| Routing.MenuRoutes | status-heroku-bot.py:315-342 | `main_menu`, `status`, `system_info`, `start_userbot`, `start_proxy` and `stop_userbot` reach their own handlers |
| Routing.ManagementRoutes | status-heroku-bot.py:343-354 | `management`, `install_requirements`, `update_heroku` and `debug_userbot` reach their own handlers |
| Routing.SettingsRoutes | status-heroku-bot.py:363-372 | `open_logs_dir`, `settings` and `toggle_debug` reach their own handlers, not the `logs_`/`terminal_` prefixed ones |
| Routing.UserRoutes | status-heroku-bot.py:387-398 | `users_menu`, `add_me`, `list_users` and `help` reach their own handlers |
| Routing.MenusBeforePrefixes | status-heroku-bot.py:352-386 | `logs_menu`, `terminal_menu` and `ping_menu` open their menus, not the prefixed handlers |
| Routing.LogsButtonArgument | status-heroku-bot.py:356-361 | `logs_word` (other than the menu entry, no further underscore) reaches the log export with level `word` |
| Routing.TerminalButtonArgument | status-heroku-bot.py:373-378 | `terminal_word` reaches the terminal handler with `word` |
| Routing.PingButtonArgument | status-heroku-bot.py:380-385 | `ping_word` reaches the ping handler with host `word` |
| Routing.TerminalCommand | status-heroku-bot.py:753-764 | a command exists exactly for the six menu keys |
| Routing.ShapeOutput | status-heroku-bot.py:776-783 | never empty; the placeholder for no output; output up to 4000 characters unchanged; longer output cut to 4000 characters plus the marker |
| Routing.ExecuteTerminal | status-heroku-bot.py:762-791 | unknown key, shaped output, timeout and error are exclusive, each in its own case |
| Routing.TerminalMenuCommandsKnown | status-heroku-bot.py:195-215 | every terminal-menu button reaches a known command |
| Routing.PingHost | status-heroku-bot.py:1405-1406 | the rest of the query after `ping`, stripped, or the default host; never empty |
| Routing.InlineQuery | status-heroku-bot.py:1397-1498 | non-users get no answer; `ping` wins over the keywords; `info`, `uptime`, `ram` and `cpu` are tested in that order, each giving its item when it holds and no earlier test does; "start userbot" only for the owner; the three defaults exactly for an empty query; no result for anything else |
| Routing.InlineQueryIgnoresCase | status-heroku-bot.py:1401 | the answer does not depend on the letter case of the query |
| Text.JoinSplit | status-heroku-bot.py:360 | splitting on a character and joining with it gives the text back |
| Text.Strip | status-heroku-bot.py:1381 | the text with its leading and trailing whitespace removed: a slice of it with only whitespace before and after, starting and ending with non-whitespace, empty iff the text was all whitespace |
| Text.Lines | status-heroku-bot.py:1229 | the lines concatenate to the text; each is non-empty, ends in a newline except possibly the last, and has no other newline |
| Text.Clip | status-heroku-bot.py:782-783 | short texts unchanged; long ones keep the first `limit` characters followed by the suffix |

## Left out

- Telegram itself is not modelled: editing and sending messages, keyboards, menu text, documents and inline result objects. Handlers are modelled up to the reply or action they choose.
- psutil host metrics (CPU, RAM, disk, boot time) and ping results are not modelled, because they are floating point and OS facts. Uptime is modelled over whole seconds.
- Spawning, `pip` runs, shell execution, temporary files and sleeping are not performed. Their results are parameters, as are `os.path.exists` results, process tables and file contents.
- asyncio scheduling and real task cancellation are not modelled. The monitor task is an id that is cancelled and replaced.
- Case folding and `\b` word characters are ASCII only. Python applies Unicode rules to both, and the bot's level names and keywords are ASCII.
- Newline translation by text-mode files is not modelled, and offsets are counted in characters rather than bytes.
- LogExport.MentionsWord: treats the level as literal text. A button token containing regular-expression metacharacters is not interpreted as a pattern.
- Controller.Bot.SendDebugMessage: takes the enumeration order of `DEBUG_CHATS.copy()` as a parameter, because the runtime's set order is unspecified. Its precondition states that this order lists each registered chat once.
- LogTailer.WaitForFile: the re-check right after the wait loop is taken at the same instant as the probe that found the file.
- LogTailer.Tailer.Run: runs over a finite sequence of observed passes instead of `while True`.
- StopProtocol.StopRun.Run: the process scan and the polls are separate observations, so a process that exits between them is simply not alive at the next poll.
- The unread stdout pipe of the spawned process is not modelled. Nothing in the script writes `userbot_output.log` itself, which the tailer and the failure report read.
- Installing requirements, updating the package, `/terminal` with free text, `debug_userbot`, the users list and the startup notification are not part of this model. They are I/O glue with no decision beyond the owner checks modelled in `Access`.

## Findings

| source | as written | input that shows it | evidently intended | confidence | as-written member | corrected member |
|---|---|---|---|---|---|---|
| status-heroku-bot.py:19 | `USER_IDS = {}` creates a dictionary, and `USER_IDS.add(...)` (lines 833, 1331, 1346) raises `AttributeError` on a dictionary, so no registration takes effect | the owner sends `/get_user 42`, and then user 42 calls any user command | `USER_IDS = set()`, so that `add` registers the user | high, not executed | Access.RegistrationIgnoredAsWritten | Access.RegisteredUserIsUser |
