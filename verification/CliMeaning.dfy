/** What each well-formed command line runs, read off its words: where the program comes from, what becomes `$0`,
    what is left for `$1` and on, and what every option word says. */
module CliMeaning {
  import opened Chars
  import opened Cli
  import opened CliProofs
  import opened Wrappers
  import Seqs

  // ------------------------------------------------------------------ what the words ask for

  predicate AnyLetter(words: seq<Word>, c: char) {
    words != [] && ((words[0].Minus? && c in words[0].letters) || AnyLetter(words[1..], c))
  }

  predicate AnyLong(words: seq<Word>, name: string) {
    words != [] && (words[0] == Long(name) || AnyLong(words[1..], name))
  }

  predicate AnyBare(words: seq<Word>) {
    exists k :: 0 <= k < |words| && IsBare(words[k])
  }

  /** The program text joined to a `-c`; it can only end the last word. */
  function Attached(words: seq<Word>): Option<string> {
    if words != [] && EndsOptions(words[|words| - 1]) then Some(words[|words| - 1].last.text) else None
  }

  /** The options turned off by name, each time it is asked. */
  function Unset(words: seq<Word>, table: Table): seq<ShellOption>
    requires forall k :: 0 <= k < |words| ==> WordOk(words[k], table)
  {
    if words == [] then [] else UnsetOf(words[0], table) + Unset(words[1..], table)
  }

  function UnsetOf(word: Word, table: Table): seq<ShellOption>
    requires WordOk(word, table)
  {
    if word.Plus? && word.unset.Some? then [table.names[Trim(word.unset.value.name)]] else []
  }

  /** What one word changes besides the options of `set` it turns on. */
  ghost predicate Flags(word: Word, said: Said, now: Said, table: Table)
    requires WordOk(word, table)
  {
    && now.readStdin == (said.readStdin || (word.Minus? && 's' in word.letters))
    && now.interactive == (said.interactive || (word.Minus? && 'i' in word.letters))
    && now.login == (said.login || (word.Minus? && 'l' in word.letters) || word == Long("login"))
    && now.noRc == (said.noRc || word == Long("norc"))
    && now.noProfile == (said.noProfile || word == Long("noprofile"))
    && now.ended == said.ended
    && now.command == (if EndsOptions(word) then Some(word.last.text) else said.command)
    && now.options.unsetLong == said.options.unsetLong + UnsetOf(word, table)
  }

  lemma OneFlags(word: Word, said: Said, table: Table)
    requires WordOk(word, table)
    ensures Flags(word, said, Say(word, said, table), table)
  {
    hide Flags, Say, WordOk;
    match word
    case Minus(_, _) => MinusFlags(word, said, table);
    case Plus(_, _) => PlusFlags(word, said, table);
    case Long(_) => LongFlags(word, said, table);
  }

  lemma MinusFlags(word: Word, said: Said, table: Table)
    requires WordOk(word, table) && word.Minus?
    ensures Flags(word, said, Say(word, said, table), table)
  {
    LastFlags(word.letters, word.last, said, table);
    hide Union, SetLetters, Trim, Added, SayLetters, SayLast;
    assert said.options.unsetLong + [] == said.options.unsetLong;
  }

  lemma PlusFlags(word: Word, said: Said, table: Table)
    requires WordOk(word, table) && word.Plus?
    ensures Flags(word, said, Say(word, said, table), table)
  {
    PlusIs(word, said, table);
    hide Say, WordOk, UnsetOf;
  }

  lemma PlusIs(word: Word, said: Said, table: Table)
    requires WordOk(word, table) && word.Plus?
    ensures var now := Say(word, said, table);
            now == said.(options := said.options.(unsetLetters := now.options.unsetLetters,
                                                  unsetLong := said.options.unsetLong + UnsetOf(word, table)))
  {
    hide Union, Trim;
    assert said.options.unsetLong + [] == said.options.unsetLong;
  }

  lemma LongFlags(word: Word, said: Said, table: Table)
    requires WordOk(word, table) && word.Long?
    ensures Flags(word, said, Say(word, said, table), table)
  {
    FlagIs(word.long, said);
    assert LongOption(word.long, table).Some? ==> word.long == "posix";
    hide Added, LongOption, FlagOf, SayFlag, WordOk;
    assert said.options.unsetLong + [] == said.options.unsetLong;
  }

  lemma FlagIs(long: string, said: Said)
    ensures SayFlag(FlagOf(long), said)
         == said.(login := said.login || long == "login",
                  noRc := said.noRc || long == "norc",
                  noProfile := said.noProfile || long == "noprofile")
  {
  }

  lemma LastFlags(letters: string, last: Last, said: Said, table: Table)
    requires last.WithName? ==> NamedOk(last.named, table)
    ensures var now := SayLast(last, SayLetters(letters, said), table);
            now == said.(readStdin := said.readStdin || 's' in letters,
                         interactive := said.interactive || 'i' in letters,
                         login := said.login || 'l' in letters,
                         wantCommand := now.wantCommand,
                         operandsOnly := now.operandsOnly,
                         command := if last.AttachedCommand? then Some(last.text) else said.command,
                         options := said.options.(setOptions := now.options.setOptions,
                                                  longOptions := now.options.longOptions))
  {
    hide Union, SetLetters, Trim, Added;
  }

  ghost predicate AllFlags(words: seq<Word>, said: Said, now: Said, table: Table)
    requires forall k :: 0 <= k < |words| ==> WordOk(words[k], table)
  {
    && now.readStdin == (said.readStdin || AnyLetter(words, 's'))
    && now.interactive == (said.interactive || AnyLetter(words, 'i'))
    && now.login == (said.login || AnyLetter(words, 'l') || AnyLong(words, "login"))
    && now.noRc == (said.noRc || AnyLong(words, "norc"))
    && now.noProfile == (said.noProfile || AnyLong(words, "noprofile"))
    && now.ended == said.ended
    && now.command == (if Attached(words).Some? then Attached(words) else said.command)
    && now.options.unsetLong == said.options.unsetLong + Unset(words, table)
  }

  lemma {:induction false} WordsFlag(words: seq<Word>, said: Said, table: Table)
    requires WordsOk(words, table)
    ensures AllFlags(words, said, SayAll(words, said, table), table)
  {
    hide UnsetOf, WordOk, Say, EndsOptions;
    if words == [] {
      assert said.options.unsetLong + [] == said.options.unsetLong;
    } else {
      var (word, rest) := (words[0], words[1..]);
      OneFlags(word, said, table);
      var next := Say(word, said, table);
      WordsFlag(rest, next, table);
      assert rest != [] ==> rest[|rest| - 1] == words[|words| - 1] && !EndsOptions(word);
      Seqs.Assoc(said.options.unsetLong, UnsetOf(word, table), Unset(rest, table));
    }
  }

  // ------------------------------------------------------------------ where the program comes from

  /** Called as `argv0`, and answered. */
  ghost predicate Runs(argv0: string, line: Line, table: Table, tools: set<string>,
                       action: Action, name: string, positional: seq<string>) {
    var r := Parsing([argv0] + PrintLine(line), table, tools);
    r.Ok? && r.value.action == action && r.value.name == name && r.value.positional == positional
  }

  /** What the line has said when its operands are reached. */
  lemma Reached(argv0: string, line: Line, table: Table, tools: set<string>) returns (said: Said)
    requires TableOk(table) && LineOk(line, table)
    ensures Parsing([argv0] + PrintLine(line), table, tools) == Chosen(said, line.operands, argv0, tools)
    ensures said.wantCommand == AnyBare(line.words)
    ensures said.readStdin == AnyLetter(line.words, 's')
    ensures said.command == Attached(line.words)
    ensures said.ended == line.dash.Some?
    ensures said.interactive == AnyLetter(line.words, 'i')
    ensures said.login == (AnyLetter(line.words, 'l') || AnyLong(line.words, "login") || (|argv0| > 1 && argv0[0] == '-'))
    ensures said.noRc == AnyLong(line.words, "norc") && said.noProfile == AnyLong(line.words, "noprofile")
    ensures said.options.setOptions == Union("", LettersOf(line.words))
    ensures said.options.unsetLetters == Union("", OffLettersOf(line.words))
    ensures said.options.unsetLong == Unset(line.words, table)
    ensures said.options.longOptions == Union(if NamedSh(argv0) then [table.posix] else [], NamesOf(line.words, table))
  {
    var argv := [argv0] + PrintLine(line);
    var start := Initial(argv, table);
    InitialIs(argv0, PrintLine(line), table);
    hide *;
    PrintedLinesAreAccepted(argv0, line, table, tools);
    LineSays(line, start, table);
    said := SayLine(line, start, table);
  }

  lemma InitialIs(argv0: string, rest: seq<string>, table: Table)
    ensures Initial([argv0] + rest, table)
         == Said(None, false, false, false, false, false, |argv0| > 1 && argv0[0] == '-', false, false,
                 Options("", "", [], if NamedSh(argv0) then [table.posix] else []))
  {
    hide NamedSh;
    Seqs.HeadTail(argv0, rest);
  }

  lemma LineSays(line: Line, start: Said, table: Table)
    requires LineOk(line, table)
    requires !start.readStdin && !start.interactive && !start.noRc && !start.noProfile && !start.ended && !start.wantCommand
    requires start.command.None? && start.options.unsetLong == []
    ensures var said := SayLine(line, start, table);
            && said.wantCommand == AnyBare(line.words)
            && said.readStdin == AnyLetter(line.words, 's')
            && said.command == Attached(line.words)
            && said.ended == line.dash.Some?
            && said.interactive == AnyLetter(line.words, 'i')
            && said.login == (start.login || AnyLetter(line.words, 'l') || AnyLong(line.words, "login"))
            && said.noRc == AnyLong(line.words, "norc")
            && said.noProfile == AnyLong(line.words, "noprofile")
            && said.options.setOptions == Union(start.options.setOptions, LettersOf(line.words))
            && said.options.unsetLetters == Union(start.options.unsetLetters, OffLettersOf(line.words))
            && said.options.unsetLong == Unset(line.words, table)
            && said.options.longOptions == Union(start.options.longOptions, NamesOf(line.words, table))
  {
    hide *;
    LineParts(line, start, table);
    var now := SayAll(line.words, start, table);
    SaysInAll(line.words, start, table);
    WordsFlag(line.words, start, table);
    FlagsAre(line.words, start, now, table);
    BareIs(line.words);
    assert [] + Unset(line.words, table) == Unset(line.words, table);
  }

  lemma BareIs(words: seq<Word>)
    ensures AnyBare(words) <==> exists k :: 0 <= k < |words| && IsBare(words[k])
  {
  }

  lemma LineParts(line: Line, start: Said, table: Table)
    requires LineOk(line, table)
    ensures WordsOk(line.words, table) && forall k :: 0 <= k < |line.words| ==> WordOk(line.words[k], table)
    ensures var now := SayAll(line.words, start, table);
            SayLine(line, start, table) == if line.dash.Some? then now.(ended := true) else now
  {
    hide WordOk, SayAll, EndsOptions, IsOperand, IsDash;
  }

  lemma FlagsAre(words: seq<Word>, said: Said, now: Said, table: Table)
    requires WordsOk(words, table) && AllFlags(words, said, now, table)
    ensures && now.readStdin == (said.readStdin || AnyLetter(words, 's'))
            && now.interactive == (said.interactive || AnyLetter(words, 'i'))
            && now.login == (said.login || AnyLetter(words, 'l') || AnyLong(words, "login"))
            && now.noRc == (said.noRc || AnyLong(words, "norc"))
            && now.noProfile == (said.noProfile || AnyLong(words, "noprofile"))
            && now.ended == said.ended
            && now.command == (if Attached(words).Some? then Attached(words) else said.command)
            && now.options.unsetLong == said.options.unsetLong + Unset(words, table)
  {
    hide WordOk, EndsOptions, AnyLetter, AnyLong, Attached, Unset;
  }

  /** With no `-c` and no `-s` the first operand is a script, and is `$0`; what follows it is `$1` and on. */
  lemma ScriptRuns(argv0: string, line: Line, path: string, more: seq<string>, table: Table, tools: set<string>)
    requires TableOk(table) && LineOk(line, table) && line.operands == [path] + more
    requires !AnyBare(line.words) && Attached(line.words).None? && !AnyLetter(line.words, 's')
    requires line.dash.Some? || path !in tools
    ensures Runs(argv0, line, table, tools, Script(path), path, more)
  {
    hide Parsing, PrintLine, LineOk, AnyBare, Attached, AnyLetter, AnyLong, NamedSh, Union, LettersOf, OffLettersOf, Unset,
      NamesOf;
    var said := Reached(argv0, line, table, tools);
    assert line.operands[0] == path && line.operands[1..] == more;
  }

  /** A first operand that names a tool is the tool, unless a dash said that a path comes next. It is `$0`, what
      follows it is the tool's, and nothing is positional. */
  lemma ToolRuns(argv0: string, line: Line, tool: string, more: seq<string>, table: Table, tools: set<string>)
    requires TableOk(table) && LineOk(line, table) && line.operands == [tool] + more
    requires !AnyBare(line.words) && Attached(line.words).None? && !AnyLetter(line.words, 's')
    requires line.dash.None? && tool in tools
    ensures Runs(argv0, line, table, tools, Tool(tool, more), tool, [])
  {
    hide Parsing, PrintLine, LineOk, AnyBare, Attached, AnyLetter, AnyLong, NamedSh, Union, LettersOf, OffLettersOf, Unset,
      NamesOf;
    var said := Reached(argv0, line, table, tools);
    assert line.operands[0] == tool && line.operands[1..] == more;
  }

  /** With no `-c`, standard input is read when `-s` asks for it or no operand names a script; the shell keeps its
      own name, and every operand is positional. */
  lemma StdinRuns(argv0: string, line: Line, table: Table, tools: set<string>)
    requires TableOk(table) && LineOk(line, table)
    requires !AnyBare(line.words) && Attached(line.words).None?
    requires AnyLetter(line.words, 's') || line.operands == []
    ensures Runs(argv0, line, table, tools, Stdin, argv0, line.operands)
  {
    hide Parsing, PrintLine, LineOk, AnyBare, Attached, AnyLetter, AnyLong, NamedSh, Union, LettersOf, OffLettersOf, Unset,
      NamesOf;
    var said := Reached(argv0, line, table, tools);
  }

  /** Text joined to a `-c` is the program; the first operand is `$0`, or the shell's own name when there is none. */
  lemma AttachedRuns(argv0: string, line: Line, table: Table, tools: set<string>)
    requires TableOk(table) && LineOk(line, table)
    requires !AnyBare(line.words) && Attached(line.words).Some?
    ensures Runs(argv0, line, table, tools, Command(Attached(line.words).value),
                 if line.operands == [] then argv0 else line.operands[0],
                 if line.operands == [] then [] else line.operands[1..])
  {
    hide Parsing, PrintLine, LineOk, AnyBare, Attached, AnyLetter, AnyLong, NamedSh, Union, LettersOf, OffLettersOf, Unset,
      NamesOf;
    var said := Reached(argv0, line, table, tools);
  }

  lemma BareNeedsText(argv0: string, line: Line, table: Table, tools: set<string>)
    requires TableOk(table) && LineOk(line, table) && AnyBare(line.words) && line.operands == []
    ensures Parsing([argv0] + PrintLine(line), table, tools) == Err(Usage("-c: option requires an argument"))
  {
    hide Parsing, PrintLine, LineOk, AnyBare, Attached, AnyLetter, AnyLong, NamedSh, Union, LettersOf, OffLettersOf, Unset,
      NamesOf;
    var said := Reached(argv0, line, table, tools);
  }

  /** No name at all is the shell's own. */
  lemma NothingRuns(table: Table, tools: set<string>)
    ensures Parsing([], table, tools).Ok?
    ensures Parsing([], table, tools).value.action == Stdin && Parsing([], table, tools).value.name == "oslo"
  {
  }

  // ------------------------------------------------------------------ what the options say

  /** Whatever runs, each flag is set exactly when a word asks for it, and a name with a dash in front is a login
      shell's; the letters of `set` are kept as first asked, a name of `sh` asks for POSIX first, and every `+o` is
      kept. */
  lemma OptionsAre(argv0: string, line: Line, table: Table, tools: set<string>)
    requires TableOk(table) && LineOk(line, table)
    requires Parsing([argv0] + PrintLine(line), table, tools).Ok?
    ensures var r := Parsing([argv0] + PrintLine(line), table, tools).value;
            && r.interactive == AnyLetter(line.words, 'i')
            && r.login == (AnyLetter(line.words, 'l') || AnyLong(line.words, "login") || (|argv0| > 1 && argv0[0] == '-'))
            && r.noRc == AnyLong(line.words, "norc")
            && r.noProfile == AnyLong(line.words, "noprofile")
            && r.options.setOptions == Union("", LettersOf(line.words))
            && r.options.unsetLetters == Union("", OffLettersOf(line.words))
            && r.options.longOptions == Union(if NamedSh(argv0) then [table.posix] else [], NamesOf(line.words, table))
            && r.options.unsetLong == Unset(line.words, table)
  {
    hide Parsing, PrintLine, LineOk, AnyBare, Attached, AnyLetter, AnyLong, NamedSh, Union, LettersOf, OffLettersOf, Unset,
      NamesOf;
    var said := Reached(argv0, line, table, tools);
  }

  /** A `-c` that ends its word, anywhere among the options, takes the first operand as the program, even over text
      joined to another `-c`, with the next as `$0` and the rest as they are, whatever they look like; and the
      options are those given anywhere before it. */
  lemma BareCommandRuns(argv0: string, line: Line, text: string, more: seq<string>, table: Table, tools: set<string>)
    requires TableOk(table) && LineOk(line, table) && line.operands == [text] + more
    requires AnyBare(line.words)
    ensures Runs(argv0, line, table, tools, Command(text),
                 if more == [] then argv0 else more[0],
                 if more == [] then [] else more[1..])
    ensures var options := Parsing([argv0] + PrintLine(line), table, tools).value.options;
            && options.setOptions == Union("", LettersOf(line.words))
            && options.unsetLetters == Union("", OffLettersOf(line.words))
            && options.longOptions == Union(if NamedSh(argv0) then [table.posix] else [], NamesOf(line.words, table))
  {
    hide Parsing, PrintLine, LineOk, AnyBare, Attached, AnyLetter, AnyLong, NamedSh, Union, LettersOf, OffLettersOf, Unset,
      NamesOf;
    var said := Reached(argv0, line, table, tools);
    assert line.operands[0] == text && line.operands[1..] == more;
  }

  /** The letters kept are those of the `-` words, but for the three that are no options of `set`. */
  lemma {:induction false} LettersAre(words: seq<Word>, c: char)
    ensures c in LettersOf(words) <==> AnyLetter(words, c) && c != 's' && c != 'i' && c != 'l'
    ensures c in OffLettersOf(words) <==> exists k :: 0 <= k < |words| && words[k].Plus? && c in words[k].off
  {
    if words != [] {
      LettersAre(words[1..], c);
      if words[0].Minus? {
        SetLettersAre(words[0].letters, c);
      }
      assert (exists k :: 0 <= k < |words| && words[k].Plus? && c in words[k].off)
        <==> (words[0].Plus? && c in words[0].off)
             || (exists k :: 0 <= k < |words[1..]| && words[1..][k].Plus? && c in words[1..][k].off) by {
        if k :| 0 <= k < |words[1..]| && words[1..][k].Plus? && c in words[1..][k].off {
          assert words[k + 1] == words[1..][k];
        }
        if k :| 0 < k < |words| && words[k].Plus? && c in words[k].off {
          assert words[1..][k - 1] == words[k];
        }
      }
    }
  }

  lemma {:induction false} SetLettersAre(letters: string, c: char)
    ensures c in SetLetters(letters) <==> c in letters && c != 's' && c != 'i' && c != 'l'
  {
    if letters != "" {
      SetLettersAre(letters[1..], c);
    }
  }

  predicate AllBlank(s: string) {
    forall k :: 0 <= k < |s| ==> IsWhitespace(s[k])
  }

  /** The name looked up is the word's without the blanks around it. */
  lemma {:induction false} TrimIs(before: string, name: string, after: string)
    requires AllBlank(before) && AllBlank(after)
    requires name != "" ==> !IsWhitespace(name[0]) && !IsWhitespace(name[|name| - 1])
    ensures Trim(before + name + after) == name
    decreases |before| + |after|
  {
    hide IsWhitespace;
    var s := before + name + after;
    if before != "" {
      assert s[0] == before[0] && s[1..] == before[1..] + name + after;
      TrimIs(before[1..], name, after);
    } else if after != "" {
      assert s == name + after;
      assert s[|s| - 1] == after[|after| - 1] && s[..|s| - 1] == before + name + after[..|after| - 1];
      if name == "" {
        assert s[0] == after[0] && s[1..] == before + name + after[1..];
        TrimIs(before, name, after[1..]);
      } else {
        assert s[0] == name[0];
        TrimIs(before, name, after[..|after| - 1]);
      }
    } else {
      assert s == name;
    }
  }

  // ------------------------------------------------------------------ words that end the parsing

  /** A word that is no option of the grammar; `joined` is the name in the same word, or nothing. */
  datatype Bad =
    | ForVersion
    | ForHelp
    | ForDetails
    | NoSuchLong(long: string)
    | NoSuchLetter(letters: string, c: char, tail: string)
    | NoSuchName(letters: string, joined: string)
    | NoSuchOff(off: string, c: char, tail: string)
    | NoSuchOffName(off: string, joined: string)

  function PrintBad(bad: Bad): string {
    match bad
    case ForVersion => "--version"
    case ForHelp => "--help"
    case ForDetails => "--details"
    case NoSuchLong(long) => "--" + long
    case NoSuchLetter(letters, c, tail) => "-" + (letters + ([c] + tail))
    case NoSuchName(letters, joined) => "-" + (letters + ("o" + joined))
    case NoSuchOff(off, c, tail) => "+" + (off + ([c] + tail))
    case NoSuchOffName(off, joined) => "+" + (off + ("o" + joined))
  }

  /** The name an `o` asks for: joined to it, or the next word. */
  function AskedName(joined: string, rest: seq<string>): string {
    if joined != "" then joined else if rest == [] then "" else rest[0]
  }

  predicate AllLetters(letters: string, table: Table) {
    forall k :: 0 <= k < |letters| ==> IsLetter(letters[k], table)
  }

  predicate AllOff(off: string, table: Table) {
    forall k :: 0 <= k < |off| ==> off[k] != 'o' && off[k] in table.letters
  }

  predicate BadOk(bad: Bad, rest: seq<string>, table: Table) {
    match bad
    case ForVersion => true
    case ForHelp => true
    case ForDetails => true
    case NoSuchLong(long) =>
      && long !in {"", "version", "help", "details", "login", "norc", "noprofile", "noplugin"}
      && !(long == "posix" && "posix" in table.names)
    case NoSuchLetter(letters, c, tail) =>
      AllLetters(letters, table) && !IsLetter(c, table) && c != 'c' && c != 'o' && (letters == "" ==> c != '-')
    case NoSuchName(letters, joined) => AllLetters(letters, table) && Trim(AskedName(joined, rest)) !in table.names
    case NoSuchOff(off, c, tail) => AllOff(off, table) && c != 'o' && c !in table.letters
    case NoSuchOffName(off, joined) => AllOff(off, table) && Trim(AskedName(joined, rest)) !in table.names
  }

  /** `--details` among the words, before any `--`. */
  predicate DetailsAsked(rest: seq<string>) {
    exists k :: 0 <= k < |rest| && rest[k] == "--details" && forall j :: 0 <= j < k ==> rest[j] != "--"
  }

  function ExitOf(bad: Bad, rest: seq<string>): Exit {
    match bad
    case ForVersion => Version
    case ForHelp => Help(DetailsAsked(rest))
    case ForDetails => Help(true)
    case NoSuchLong(long) => Usage("--" + long + ": invalid option")
    case NoSuchLetter(_, c, _) => Usage("-" + [c] + ": invalid option")
    case NoSuchName(_, joined) => Usage("-o: " + AskedName(joined, rest) + ": invalid option")
    case NoSuchOff(_, c, _) => Usage("+" + [c] + ": invalid option")
    case NoSuchOffName(_, joined) => Usage("+o: " + AskedName(joined, rest) + ": invalid option")
  }

  lemma {:induction false} DetailsAre(rest: seq<string>)
    ensures AsksDetails(rest) <==> DetailsAsked(rest)
  {
    if rest != [] {
      DetailsAre(rest[1..]);
      if AsksDetails(rest) {
        if rest[0] == "--details" {
          assert DetailsAsked(rest);
        } else {
          var k :| 0 <= k < |rest[1..]| && rest[1..][k] == "--details" && forall j :: 0 <= j < k ==> rest[1..][j] != "--";
          assert rest[k + 1] == "--details";
          forall j | 0 <= j < k + 1
            ensures rest[j] != "--"
          {
            if j > 0 {
              assert rest[j] == rest[1..][j - 1];
            }
          }
        }
      }
      if DetailsAsked(rest) {
        var k :| 0 <= k < |rest| && rest[k] == "--details" && forall j :: 0 <= j < k ==> rest[j] != "--";
        if k > 0 {
          assert rest[0] != "--";
          assert rest[1..][k - 1] == "--details";
          assert forall j :: 0 <= j < k - 1 ==> rest[1..][j] == rest[j + 1];
          assert DetailsAsked(rest[1..]);
        }
      }
    }
  }

  /** The word alone: parsing ends there, whatever follows. */
  lemma BadEnds(bad: Bad, rest: seq<string>, said: Said, table: Table)
    requires TableOk(table) && BadOk(bad, rest, table)
    ensures OptionsFrom([PrintBad(bad)] + rest, said, table) == Err(ExitOf(bad, rest))
  {
    Seqs.HeadTail(PrintBad(bad), rest);
    DetailsAre(rest);
    hide Trim, DetailsAsked, AsksDetails;
    if bad.NoSuchLetter? || bad.NoSuchName? {
      BadMinus(bad, rest, said, table);
    } else if bad.NoSuchOff? || bad.NoSuchOffName? {
      BadPlus(bad, rest, said, table);
    } else {
      BadLong(bad, rest, said, table);
    }
  }

  /** A bad word after any good ones ends the parsing with its own message. */
  lemma RefusedWith(argv0: string, words: seq<Word>, bad: Bad, rest: seq<string>, table: Table, tools: set<string>)
    requires TableOk(table) && WordsOk(words, table) && Attached(words).None? && BadOk(bad, rest, table)
    ensures Parsing([argv0] + (PrintAll(words) + ([PrintBad(bad)] + rest)), table, tools) == Err(ExitOf(bad, rest))
  {
    hide OptionsFrom, PrintAll, PrintBad, ExitOf, BadOk, WordsOk, Attached, Initial;
    var args := PrintAll(words) + ([PrintBad(bad)] + rest);
    Seqs.HeadTail(argv0, args);
    InitialIsFresh([argv0] + args, table);
    BadAfter(words, bad, rest, Initial([argv0] + args, table), table);
  }

  lemma {:induction false} BadAfter(words: seq<Word>, bad: Bad, rest: seq<string>, said: Said, table: Table)
    requires TableOk(table) && WordsOk(words, table) && Attached(words).None? && BadOk(bad, rest, table)
    requires !said.operandsOnly
    ensures OptionsFrom(PrintAll(words) + ([PrintBad(bad)] + rest), said, table) == Err(ExitOf(bad, rest))
  {
    hide OptionsFrom, Print, PrintBad, ExitOf, BadOk, WordOk, Say, EndsOptions;
    var end := [PrintBad(bad)] + rest;
    if words == [] {
      BadEnds(bad, rest, said, table);
      assert [] + end == end;
    } else {
      var more := words[1..];
      assert more != [] ==> more[|more| - 1] == words[|words| - 1];
      assert !EndsOptions(words[0]);
      Seqs.Assoc(Print(words[0]), PrintAll(more), end);
      WordParses(words[0], PrintAll(more) + end, said, table);
      SaysNoOperandsOnly(words[0], said, table);
      BadAfter(more, bad, rest, Say(words[0], said, table), table);
    }
  }

  lemma BadLong(bad: Bad, rest: seq<string>, said: Said, table: Table)
    requires BadOk(bad, rest, table) && (bad.ForVersion? || bad.ForHelp? || bad.ForDetails? || bad.NoSuchLong?)
    ensures OptionsFrom([PrintBad(bad)] + rest, said, table) == Err(ExitOf(bad, rest))
  {
    var word := PrintBad(bad);
    Seqs.HeadTail(word, rest);
    DetailsAre(rest);
    hide DetailsAsked, AsksDetails;
    assert StartsWith(word, "--") && |word| > 2;
    assert bad.ForVersion? ==> word[2..] == "version";
    assert bad.ForHelp? ==> word[2..] == "help";
    assert bad.ForDetails? ==> word[2..] == "details";
    assert bad.NoSuchLong? ==> word[2..] == bad.long;
    assert LongFrom(word[2..], rest, said, table) == Err(ExitOf(bad, rest));
    hide LongFrom, ExitOf, PrintBad;
  }

  lemma BadMinus(bad: Bad, rest: seq<string>, said: Said, table: Table)
    requires TableOk(table) && BadOk(bad, rest, table) && (bad.NoSuchLetter? || bad.NoSuchName?)
    ensures OptionsFrom([PrintBad(bad)] + rest, said, table) == Err(ExitOf(bad, rest))
  {
    var word := PrintBad(bad);
    var tail := if bad.NoSuchLetter? then [bad.c] + bad.tail else "o" + bad.joined;
    Seqs.HeadTail(word, rest);
    assert word[0] == '-' && |word| > 1 && word[1..] == bad.letters + tail;
    assert word[1] != '-' by {
      if bad.letters != "" {
        assert word[1] == bad.letters[0] && IsLetter(bad.letters[0], table);
      } else {
        assert bad.letters + tail == tail;
      }
    }
    assert StartsWith(word, "-") && !StartsWith(word, "--") && !StartsWith(word, "+") && !IsDash(word);
    MinusLetters(bad.letters, tail, rest, said, table);
    BadTail(bad, tail, rest, SayLetters(bad.letters, said), table);
    hide MinusFrom, ExitOf, PrintBad, StartsWith, IsDash, SayLetters;
  }

  lemma BadTail(bad: Bad, tail: string, rest: seq<string>, said: Said, table: Table)
    requires BadOk(bad, rest, table) && (bad.NoSuchLetter? || bad.NoSuchName?)
    requires tail == if bad.NoSuchLetter? then [bad.c] + bad.tail else "o" + bad.joined
    ensures MinusFrom(tail, rest, said, table) == Err(ExitOf(bad, rest))
  {
    hide Trim;
    assert tail[0] == if bad.NoSuchLetter? then bad.c else 'o';
    assert tail[1..] == if bad.NoSuchLetter? then bad.tail else bad.joined;
  }

  lemma BadPlus(bad: Bad, rest: seq<string>, said: Said, table: Table)
    requires BadOk(bad, rest, table) && (bad.NoSuchOff? || bad.NoSuchOffName?)
    ensures OptionsFrom([PrintBad(bad)] + rest, said, table) == Err(ExitOf(bad, rest))
  {
    var word := PrintBad(bad);
    var tail := if bad.NoSuchOff? then [bad.c] + bad.tail else "o" + bad.joined;
    Seqs.HeadTail(word, rest);
    assert word[0] == '+' && |word| > 1 && word[1..] == bad.off + tail;
    PlusShape(word);
    PlusLetters(bad.off, tail, rest, said, table);
    BadOffTail(bad, tail, rest, said.(options := said.options.(unsetLetters := Union(said.options.unsetLetters, bad.off))), table);
    hide PlusFrom, ExitOf, PrintBad, StartsWith, IsDash, Union;
  }

  lemma BadOffTail(bad: Bad, tail: string, rest: seq<string>, said: Said, table: Table)
    requires BadOk(bad, rest, table) && (bad.NoSuchOff? || bad.NoSuchOffName?)
    requires tail == if bad.NoSuchOff? then [bad.c] + bad.tail else "o" + bad.joined
    ensures PlusFrom(tail, rest, said, table) == Err(ExitOf(bad, rest))
  {
    hide Trim;
    assert tail[0] == if bad.NoSuchOff? then bad.c else 'o';
    assert tail[1..] == if bad.NoSuchOff? then bad.tail else bad.joined;
  }
}
