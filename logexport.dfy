/** The log-level export of `heroku.log` behind `/logs <level>` and the
    log-menu buttons: `ALL` passes the file through, any other level keeps
    the lines that mention it as a whole word, ignoring case. */
module LogExport {
  import opened Wrappers
  import opened Seqs
  import opened Text

  datatype Level = All | Warning | Info | Error | Debug

  /** The level tokens `/logs` accepts, in the order its error message lists them. */
  const ValidLevels: seq<string> := ["ALL", "WARNING", "INFO", "ERROR", "DEBUG"]

  function LevelName(l: Level): string
  {
    match l
    case All => "ALL"
    case Warning => "WARNING"
    case Info => "INFO"
    case Error => "ERROR"
    case Debug => "DEBUG"
  }

  /** `/logs` upper-cases its argument and accepts it only when it is one of
      the five level names. */
  function ParseLevel(arg: string): (r: Option<Level>)
    ensures r.Some? <==> Upper(arg) in ValidLevels
    ensures r.Some? ==> LevelName(r.value) == Upper(arg)
  {
    var u := Upper(arg);
    if u == "ALL" then Some(All)
    else if u == "WARNING" then Some(Warning)
    else if u == "INFO" then Some(Info)
    else if u == "ERROR" then Some(Error)
    else if u == "DEBUG" then Some(Debug)
    else None
  }

  /** Each level is accepted under its own name, in any letter case. */
  lemma ParseLevelName(l: Level, arg: string)
    requires Upper(arg) == LevelName(l)
    ensures ParseLevel(arg) == Some(l)
  {
  }

  // ------------------------------------------------------- whole words

  /** A word character of `\b`: ASCII letters, digits and underscore. */
  predicate IsWordChar(c: char)
  {
    ('a' <= c <= 'z') || ('A' <= c <= 'Z') || ('0' <= c <= '9') || c == '_'
  }

  predicate WordCharAt(s: string, j: int)
  {
    0 <= j < |s| && IsWordChar(s[j])
  }

  /** `\b` holds at position `p` (between `s[p-1]` and `s[p]`). */
  predicate BoundaryAt(s: string, p: int)
  {
    WordCharAt(s, p - 1) != WordCharAt(s, p)
  }

  /** `re.search(rf'\b{word}\b', line, re.IGNORECASE)` for a word without
      regular-expression metacharacters. */
  predicate MentionsWord(line: string, word: string)
  {
    exists i | 0 <= i <= |line| - |word| ::
      OccursAt(Lower(line), Lower(word), i) && BoundaryAt(line, i) && BoundaryAt(line, i + |word|)
  }

  lemma WordCharOfUpper(c: char)
    ensures IsWordChar(UpperChar(c)) == IsWordChar(c)
  {
  }

  /** The match ignores the case of the level token and of the line. */
  lemma MentionsWordIgnoresCase(line: string, word: string)
    ensures MentionsWord(line, Upper(word)) <==> MentionsWord(line, word)
    ensures MentionsWord(Upper(line), word) <==> MentionsWord(line, word)
  {
    LowerOfUpper(word);
    LowerOfUpper(line);
    forall p ensures BoundaryAt(Upper(line), p) == BoundaryAt(line, p) {
      if 0 <= p - 1 < |line| { WordCharOfUpper(line[p - 1]); }
      if 0 <= p < |line| { WordCharOfUpper(line[p]); }
    }
  }

  // ------------------------------------------------------------ export

  function Mentions(word: string): string -> bool
  {
    (line: string) => MentionsWord(line, word)
  }

  /** The text written to the exported file for `level` (the token as it
      appears in the pattern). */
  function Export(content: string, level: string): string
  {
    if level == "ALL" then content else Concat(Filter(Lines(content), Mentions(level)))
  }

  /** One more line adds itself to the export exactly when it mentions the level. */
  lemma ExportedSnoc(lines: seq<string>, i: nat, level: string)
    requires i < |lines|
    ensures Concat(Filter(lines[..i + 1], Mentions(level)))
            == Concat(Filter(lines[..i], Mentions(level))) + (if MentionsWord(lines[i], level) then lines[i] else "")
  {
    assert lines[..i + 1] == lines[..i] + [lines[i]];
    FilterAppend(lines[..i], [lines[i]], Mentions(level));
    ConcatAppend(Filter(lines[..i], Mentions(level)), Filter([lines[i]], Mentions(level)));
    assert [lines[i]][1..] == [];
  }

  /** The loop that copies the matching lines one by one. */
  method ExportLog(content: string, level: string) returns (out: string)
    ensures out == Export(content, level)
  {
    if level == "ALL" {
      return content;
    }
    var lines := Lines(content);
    out := "";
    var i := 0;
    while i < |lines|
      invariant 0 <= i <= |lines|
      invariant out == Concat(Filter(lines[..i], Mentions(level)))
    {
      ExportedSnoc(lines, i, level);
      if MentionsWord(lines[i], level) {
        out := out + lines[i];
      }
      i := i + 1;
    }
    assert lines[..i] == lines;
  }

  /** Any level other than `ALL` exports, unmodified and in their original
      order, exactly the lines of the file that mention it. */
  lemma {:induction false} ExportKeepsMatchingLines(content: string, level: string)
    requires level != "ALL"
    ensures exists kept: seq<string> ::
      && Export(content, level) == Concat(kept)
      && IsSubsequence(kept, Lines(content))
      && (forall line :: line in kept <==> line in Lines(content) && MentionsWord(line, level))
      && (forall line :: multiset(kept)[line]
                         == if MentionsWord(line, level) then multiset(Lines(content))[line] else 0)
  {
    var kept := Filter(Lines(content), Mentions(level));
    FilterIsSubsequence(Lines(content), Mentions(level));
    FilterMembers(Lines(content), Mentions(level));
    FilterCounts(Lines(content), Mentions(level));
    assert Export(content, level) == Concat(kept);
  }

  /** `ALL` exports the file as it is. */
  lemma ExportAllVerbatim(content: string)
    ensures Export(content, "ALL") == content
  {
  }

  lemma {:induction false} ConcatEmpty(parts: seq<string>)
    requires forall k :: 0 <= k < |parts| ==> parts[k] != ""
    ensures Concat(parts) == "" <==> parts == []
  {
    if parts != [] {
      assert |Concat(parts)| >= |parts[0]| > 0;
    }
  }

  /** The export is empty, and the handlers answer "not found", exactly when
      no line mentions the level (or, for `ALL`, when the file is empty). */
  lemma {:induction false} ExportEmptyIffNoMatch(content: string, level: string)
    ensures Export(content, level) == "" <==>
      if level == "ALL" then content == ""
      else forall line :: line in Lines(content) ==> !MentionsWord(line, level)
  {
    if level != "ALL" {
      var lines := Lines(content);
      var kept := Filter(lines, Mentions(level));
      FilterMembers(lines, Mentions(level));
      forall k | 0 <= k < |kept| ensures kept[k] != "" {
        assert kept[k] in lines;
      }
      ConcatEmpty(kept);
      if kept != [] {
        assert kept[0] in lines && MentionsWord(kept[0], level);
      }
    }
  }

  /** Exporting an export again with the same level changes nothing. */
  lemma {:induction false} ExportIdempotent(content: string, level: string)
    ensures Export(Export(content, level), level) == Export(content, level)
  {
    if level != "ALL" {
      var kept := Filter(Lines(content), Mentions(level));
      FilterWellFormed(Lines(content), Mentions(level));
      LinesOfConcat(kept);
      FilterIdempotent(Lines(content), Mentions(level));
    }
  }

  /** What `Lines` produces: non-empty lines, a newline only at the end of
      a line, and on every line but the last. */
  predicate WellFormedLines(parts: seq<string>)
  {
    && (forall k :: 0 <= k < |parts| ==> parts[k] != "")
    && (forall k :: 0 <= k < |parts| - 1 ==> parts[k][|parts[k]| - 1] == '\n')
    && (forall k, j :: 0 <= k < |parts| && 0 <= j < |parts[k]| - 1 ==> parts[k][j] != '\n')
  }

  /** Keeping some of the lines of a file keeps them well formed. */
  lemma {:induction false} FilterWellFormed(parts: seq<string>, keep: string -> bool)
    requires WellFormedLines(parts)
    ensures WellFormedLines(Filter(parts, keep))
  {
    if parts != [] {
      FilterWellFormed(parts[1..], keep);
      var tail := Filter(parts[1..], keep);
      var head: seq<string> := if keep(parts[0]) then [parts[0]] else [];
      assert Filter(parts, keep) == head + tail;
      if head != [] && tail != [] {
        assert |parts| > 1;
      }
    }
  }

  /** Splitting a concatenation of well-formed lines gives those lines back. */
  lemma {:induction false} LinesOfConcat(parts: seq<string>)
    requires WellFormedLines(parts)
    ensures Lines(Concat(parts)) == parts
  {
    if parts != [] {
      var head, tail := parts[0], parts[1..];
      WellFormedTail(parts);
      LinesOfConcat(tail);
      if tail != [] {
        assert |Concat(tail)| >= |tail[0]| > 0;
      }
      LinesPrefix(head, Concat(tail));
      assert Concat(parts) == head + Concat(tail);
      assert [head] + tail == parts;
    }
  }

  lemma WellFormedTail(parts: seq<string>)
    requires WellFormedLines(parts) && parts != []
    ensures WellFormedLines(parts[1..])
    ensures parts[0] != "" && forall j :: 0 <= j < |parts[0]| - 1 ==> parts[0][j] != '\n'
    ensures |parts| > 1 ==> parts[0][|parts[0]| - 1] == '\n'
  {
    var tail := parts[1..];
    forall k | 0 <= k < |tail| ensures tail[k] == parts[k + 1] { }
  }

  lemma {:induction false} LinesPrefix(line: string, rest: string)
    requires line != ""
    requires forall j :: 0 <= j < |line| - 1 ==> line[j] != '\n'
    requires line[|line| - 1] == '\n' || rest == ""
    ensures Lines(line + rest) == [line] + Lines(rest)
    decreases |line|
  {
    if |line| == 1 {
      assert (line + rest)[1..] == rest;
    } else {
      assert (line + rest)[1..] == line[1..] + rest;
      LinesPrefix(line[1..], rest);
      assert [line[0]] + line[1..] == line;
    }
  }

  // ----------------------------------------------------------- replies

  /** `heroku.log` as the handlers find it: absent, or present and then
      either read or failing to read. */
  datatype LogFile = Missing | Unreadable | Present(content: string)

  datatype LogsReply =
    | AccessDenied
    | Usage
    | InvalidLevel
    | FileNotFound
    | NoLinesFound(level: string)
    | Document(filename: string, caption: string, body: string)
    | ProcessingError

  /** Shared tail of both handlers once the level token is fixed. */
  function ExportReply(level: string, file: LogFile): (r: LogsReply)
    ensures file.Missing? <==> r == FileNotFound
    ensures file.Unreadable? <==> r == ProcessingError
    ensures r.NoLinesFound? <==> file.Present? && Export(file.content, level) == ""
    ensures r.Document? <==> file.Present? && Export(file.content, level) != ""
    ensures r.Document? ==> r.body == Export(file.content, level) && r.filename == "logs-" + level + ".txt"
  {
    match file
    case Missing => FileNotFound
    case Unreadable => ProcessingError
    case Present(content) =>
      var body := Export(content, level);
      if body == "" then NoLinesFound(level)
      else Document("logs-" + level + ".txt", "Логи уровня: " + level, body)
  }

  /** `/logs <level>`: owner only, a level argument required and validated
      (in any letter case), then the export of the upper-cased level. */
  function LogsCommand(isOwner: bool, args: seq<string>, file: LogFile): (r: LogsReply)
    ensures !isOwner <==> r == AccessDenied
    ensures r == Usage <==> isOwner && args == []
    ensures r == InvalidLevel <==> isOwner && args != [] && ParseLevel(args[0]).None?
    ensures r.Document? ==> isOwner && args != [] && ParseLevel(args[0]).Some?
                            && file.Present? && r.body == Export(file.content, Upper(args[0]))
    ensures isOwner && args != [] && ParseLevel(args[0]).Some? ==> r == ExportReply(Upper(args[0]), file)
  {
    if !isOwner then AccessDenied
    else if args == [] then Usage
    else if ParseLevel(args[0]).None? then InvalidLevel
    else ExportReply(Upper(args[0]), file)
  }

  /** The `logs_<level>` buttons: the token from the button data is used as
      it is, without the owner check or the validation of the command. */
  function LogsButton(level: string, file: LogFile): (r: LogsReply)
    ensures r == ExportReply(level, file)
    ensures r != AccessDenied && r != Usage && r != InvalidLevel
  {
    ExportReply(level, file)
  }

  /** The command and the button agree for every menu level. */
  lemma CommandMatchesButton(l: Level, arg: string, file: LogFile)
    requires Upper(arg) == LevelName(l)
    ensures LogsCommand(true, [arg], file) == LogsButton(LevelName(l), file)
  {
    ParseLevelName(l, arg);
  }
}
