/** The invocation parser: which words of a command line are options, where the program comes from, and what
    becomes `$0`. */
module Cli {
  import opened Wrappers
  import opened Chars
  import Seqs

  /** An option of `set`, by its place in the shell's table. */
  type ShellOption = nat

  /** The option table: single letters, and names. */
  datatype Table = Table(letters: map<char, ShellOption>, names: map<string, ShellOption>, posix: ShellOption)

  /** What is asked of `set`: letters and names to turn on, letters and names to turn off. */
  datatype Options = Options(
    setOptions: string,
    unsetLetters: string,
    unsetLong: seq<ShellOption>,
    longOptions: seq<ShellOption>)

  datatype Action =
    | Command(text: string)
    | Script(path: string)
    | Tool(tool: string, arguments: seq<string>)
    | Stdin

  datatype Invocation = Invocation(
    action: Action,
    name: string,
    positional: seq<string>,
    interactive: bool,
    login: bool,
    noRc: bool,
    noProfile: bool,
    options: Options)

  /** Parsing that ends without an invocation. */
  datatype Exit = Version | Help(detailed: bool) | Usage(problem: string)

  /** What the option words have said so far. */
  datatype Said = Said(
    command: Option<string>,
    wantCommand: bool,
    operandsOnly: bool,
    readStdin: bool,
    ended: bool,
    interactive: bool,
    login: bool,
    noRc: bool,
    noProfile: bool,
    options: Options)

  // ------------------------------------------------------------------ words, as functions

  function Trim(s: string): string {
    if s == "" then s
    else if IsWhitespace(s[0]) then Trim(s[1..])
    else if IsWhitespace(s[|s| - 1]) then Trim(s[..|s| - 1])
    else s
  }

  predicate StartsWith(s: string, prefix: string) {
    |prefix| <= |s| && s[..|prefix|] == prefix
  }

  function Added<T(==)>(s: seq<T>, x: T): seq<T> {
    if x in s then s else s + [x]
  }

  /** What follows the last `/`. */
  function Base(path: string): string {
    if path == "" || path[|path| - 1] == '/' then "" else Base(path[..|path| - 1]) + [path[|path| - 1]]
  }

  predicate NamedSh(argv0: string) {
    var base := Base(argv0);
    (if StartsWith(base, "-") then base[1..] else base) == "sh"
  }

  function Initial(argv: seq<string>, table: Table): Said {
    Said(None, false, false, false, false, false,
         argv != [] && StartsWith(argv[0], "-") && |argv[0]| > 1,
         false, false,
         Options("", "", [], if argv != [] && NamedSh(argv[0]) then [table.posix] else []))
  }

  function FirstOr(words: seq<string>, other: string): string {
    if words == [] then other else words[0]
  }

  /** A cluster of letters after `-`: what it says, and whether it took the next word. */
  function MinusFrom(letters: string, next: seq<string>, said: Said, table: Table): Result<(Said, bool), Exit> {
    if letters == "" then Ok((said, false))
    else
      var rest := letters[1..];
      match letters[0]
      case 'c' =>
        if rest == "" then Ok((said.(wantCommand := true), false))
        else Ok((said.(command := Some(rest), operandsOnly := true), false))
      case 'o' =>
        var name := if rest == "" then FirstOr(next, "") else rest;
        if Trim(name) in table.names
        then Ok((said.(options := said.options.(longOptions := Added(said.options.longOptions, table.names[Trim(name)]))), rest == ""))
        else Err(Usage("-o: " + name + ": invalid option"))
      case 's' => MinusFrom(rest, next, said.(readStdin := true), table)
      case 'i' => MinusFrom(rest, next, said.(interactive := true), table)
      case 'l' => MinusFrom(rest, next, said.(login := true), table)
      case c =>
        if c in table.letters then MinusFrom(rest, next, said.(options := said.options.(setOptions := Added(said.options.setOptions, c))), table)
        else Err(Usage("-" + [c] + ": invalid option"))
  }

  /** A cluster of letters after `+`. */
  function PlusFrom(letters: string, next: seq<string>, said: Said, table: Table): Result<(Said, bool), Exit> {
    if letters == "" then Ok((said, false))
    else
      var rest := letters[1..];
      var c := letters[0];
      if c == 'o' then
        var name := if rest == "" then FirstOr(next, "") else rest;
        if Trim(name) in table.names
        then Ok((said.(options := said.options.(unsetLong := said.options.unsetLong + [table.names[Trim(name)]])), rest == ""))
        else Err(Usage("+o: " + name + ": invalid option"))
      else if c in table.letters then PlusFrom(rest, next, said.(options := said.options.(unsetLetters := Added(said.options.unsetLetters, c))), table)
      else Err(Usage("+" + [c] + ": invalid option"))
  }

  function LongOption(name: string, table: Table): Option<ShellOption> {
    if name == "posix" && name in table.names then Some(table.names[name]) else None
  }

  predicate AsksDetails(args: seq<string>) {
    args != [] && args[0] != "--" && (args[0] == "--details" || AsksDetails(args[1..]))
  }

  function LongFrom(name: string, next: seq<string>, said: Said, table: Table): Result<Said, Exit> {
    match name
    case "version" => Err(Version)
    case "help" => Err(Help(AsksDetails(next)))
    case "details" => Err(Help(true))
    case "login" => Ok(said.(login := true))
    case "norc" => Ok(said.(noRc := true))
    case "noprofile" => Ok(said.(noProfile := true))
    case "noplugin" => Ok(said)
    case other =>
      match LongOption(other, table)
      case Some(option) => Ok(said.(options := said.options.(longOptions := Added(said.options.longOptions, option))))
      case None => Err(Usage("--" + other + ": invalid option"))
  }

  predicate IsDash(word: string) {
    word == "--" || word == "-"
  }

  /** What is left after one word, or two when the first took the second. */
  function Beyond(args: seq<string>, took: bool): seq<string>
    requires args != []
  {
    if took && |args| > 1 then args[2..] else args[1..]
  }

  /** The options, and the operands after them. */
  function OptionsFrom(args: seq<string>, said: Said, table: Table): Result<(Said, seq<string>), Exit>
    decreases |args|
  {
    if args == [] then Ok((said, []))
    else
      var word := args[0];
      if IsDash(word) then Ok((said.(ended := true), args[1..]))
      else if StartsWith(word, "--") then
        match LongFrom(word[2..], args[1..], said, table)
        case Err(e) => Err(e)
        case Ok(now) => OptionsFrom(args[1..], now, table)
      else if StartsWith(word, "+") && |word| > 1 then
        match PlusFrom(word[1..], args[1..], said, table)
        case Err(e) => Err(e)
        case Ok((now, took)) => OptionsFrom(Beyond(args, took), now, table)
      else if !StartsWith(word, "-") then Ok((said, args))
      else
        match MinusFrom(word[1..], args[1..], said, table)
        case Err(e) => Err(e)
        case Ok((now, took)) =>
          if now.operandsOnly then Ok((now, Beyond(args, took))) else OptionsFrom(Beyond(args, took), now, table)
  }

  function Rest(words: seq<string>): seq<string> {
    if words == [] then [] else words[1..]
  }

  /** Where the program comes from, once the options are known: `-c` first, then `-s`, then an operand. */
  function Chosen(said: Said, operands: seq<string>, argv0: string, tools: set<string>): Result<Invocation, Exit> {
    if said.wantCommand && operands == [] then Err(Usage("-c: option requires an argument"))
    else
      var command := if said.wantCommand then Some(operands[0]) else said.command;
      var left := if said.wantCommand then operands[1..] else operands;
      Ok(match command
         case Some(text) => Built(said, Command(text), FirstOr(left, argv0), Rest(left))
         case None =>
           if said.readStdin then Built(said, Stdin, argv0, left)
           else if left == [] then Built(said, Stdin, argv0, [])
           else if !said.ended && left[0] in tools then Built(said, Tool(left[0], left[1..]), left[0], [])
           else Built(said, Script(left[0]), left[0], left[1..]))
  }

  function Built(said: Said, action: Action, name: string, positional: seq<string>): Invocation {
    Invocation(action, name, positional, said.interactive, said.login, said.noRc, said.noProfile, said.options)
  }

  function Parsing(argv: seq<string>, table: Table, tools: set<string>): Result<Invocation, Exit> {
    match OptionsFrom(Rest(argv), Initial(argv, table), table)
    case Err(e) => Err(e)
    case Ok((said, operands)) => Chosen(said, operands, FirstOr(argv, "oslo"), tools)
  }

  // ------------------------------------------------------------------ the code

  method MinusCluster(argv: seq<string>, at: nat, before: Said, table: Table) returns (r: Result<Said, Exit>, i: nat)
    requires at < |argv| && |argv[at]| > 1
    ensures i == at || i == at + 1
    ensures MinusFrom(argv[at][1..], argv[at + 1..], before, table)
         == match r case Err(e) => Err(e) case Ok(now) => Ok((now, i == at + 1))
  {
    var letters := argv[at][1..];
    var said := before;
    i := at;
    var pos := 0;
    while pos < |letters|
      invariant pos <= |letters| && i == at
      invariant MinusFrom(letters[pos..], argv[at + 1..], said, table) == MinusFrom(letters, argv[at + 1..], before, table)
    {
      Seqs.DropHead(letters, pos);
      var rest := letters[pos + 1..];
      var c := letters[pos];
      if c == 'c' {
        return Ok(if rest == "" then said.(wantCommand := true) else said.(command := Some(rest), operandsOnly := true)), i;
      }
      if c == 'o' {
        var name := rest;
        if rest == "" {
          i := i + 1;
          name := if i < |argv| then argv[i] else "";
        }
        if Trim(name) !in table.names {
          return Err(Usage("-o: " + name + ": invalid option")), i;
        }
        said := said.(options := said.options.(longOptions := Added(said.options.longOptions, table.names[Trim(name)])));
        return Ok(said), i;
      }
      if c == 's' {
        said := said.(readStdin := true);
      } else if c == 'i' {
        said := said.(interactive := true);
      } else if c == 'l' {
        said := said.(login := true);
      } else if c in table.letters {
        said := said.(options := said.options.(setOptions := Added(said.options.setOptions, c)));
      } else {
        return Err(Usage("-" + [c] + ": invalid option")), i;
      }
      pos := pos + 1;
    }
    return Ok(said), i;
  }

  method PlusCluster(argv: seq<string>, at: nat, before: Said, table: Table) returns (r: Result<Said, Exit>, i: nat)
    requires at < |argv| && |argv[at]| > 1
    ensures i == at || i == at + 1
    ensures PlusFrom(argv[at][1..], argv[at + 1..], before, table)
         == match r case Err(e) => Err(e) case Ok(now) => Ok((now, i == at + 1))
  {
    var letters := argv[at][1..];
    var said := before;
    i := at;
    var pos := 0;
    while pos < |letters|
      invariant pos <= |letters| && i == at
      invariant PlusFrom(letters[pos..], argv[at + 1..], said, table) == PlusFrom(letters, argv[at + 1..], before, table)
    {
      Seqs.DropHead(letters, pos);
      var rest := letters[pos + 1..];
      var c := letters[pos];
      if c == 'o' {
        var name := rest;
        if rest == "" {
          i := i + 1;
          name := if i < |argv| then argv[i] else "";
        }
        if Trim(name) !in table.names {
          return Err(Usage("+o: " + name + ": invalid option")), i;
        }
        said := said.(options := said.options.(unsetLong := said.options.unsetLong + [table.names[Trim(name)]]));
        return Ok(said), i;
      }
      if c !in table.letters {
        return Err(Usage("+" + [c] + ": invalid option")), i;
      }
      said := said.(options := said.options.(unsetLetters := Added(said.options.unsetLetters, c)));
      pos := pos + 1;
    }
    return Ok(said), i;
  }

  method Parse(argv: seq<string>, table: Table, tools: set<string>) returns (r: Result<Invocation, Exit>)
    ensures r == Parsing(argv, table, tools)
  {
    hide OptionsFrom, MinusFrom, PlusFrom, LongFrom, Chosen, Initial, IsDash, StartsWith, From;
    var name := if |argv| > 0 then argv[0] else "oslo";
    var said := Initial(argv, table);
    ghost var all := OptionsFrom(Rest(argv), said, table);
    var i := 1;
    FromStart(argv);
    while i < |argv|
      invariant i >= 1
      invariant OptionsFrom(From(argv, i), said, table) == all
      decreases |argv| + 2 - i
    {
      var arg := argv[i];
      OptionsStep(argv, i, arg, argv[i + 1..], said, table);
      if IsDash(arg) {
        said := said.(ended := true);
        i := i + 1;
        break;
      }
      if StartsWith(arg, "--") {
        PrefixLength(arg, "--");
        var long := LongFrom(arg[2..], argv[i + 1..], said, table);
        if long.Err? {
          return Err(long.error);
        }
        said := long.value;
        i := i + 1;
        continue;
      }
      var cluster;
      if StartsWith(arg, "+") && |arg| > 1 {
        cluster, i := PlusCluster(argv, i, said, table);
        if cluster.Err? {
          return Err(cluster.error);
        }
        said := cluster.value;
        i := i + 1;
        continue;
      }
      if !StartsWith(arg, "-") {
        break;
      }
      NotDash(arg);
      cluster, i := MinusCluster(argv, i, said, table);
      if cluster.Err? {
        return Err(cluster.error);
      }
      said := cluster.value;
      i := i + 1;
      if said.operandsOnly {
        break;
      }
    }
    NoneLeft(argv, i, said, table);
    return Chosen(said, From(argv, i), name, tools);
  }

  lemma FromStart(argv: seq<string>)
    ensures From(argv, 1) == Rest(argv)
  {
  }

  lemma NoneLeft(argv: seq<string>, i: nat, said: Said, table: Table)
    ensures i >= |argv| ==> OptionsFrom(From(argv, i), said, table) == Ok((said, From(argv, i)))
  {
  }

  lemma PrefixLength(word: string, prefix: string)
    requires StartsWith(word, prefix)
    ensures |prefix| <= |word|
  {
  }

  lemma NotDash(word: string)
    requires StartsWith(word, "-") && !IsDash(word)
    ensures |word| > 1
  {
  }

  /** One turn of the loop over the words. */
  lemma OptionsStep(argv: seq<string>, i: nat, word: string, next: seq<string>, said: Said, table: Table)
    requires i < |argv| && word == argv[i] && next == argv[i + 1..]
    ensures OptionsFrom(From(argv, i), said, table)
         == if IsDash(word) then Ok((said.(ended := true), From(argv, i + 1)))
            else if StartsWith(word, "--") then
              assert |word| >= 2 by { PrefixLength(word, "--"); }
              match LongFrom(word[2..], next, said, table)
              case Err(e) => Err(e)
              case Ok(now) => OptionsFrom(From(argv, i + 1), now, table)
            else if StartsWith(word, "+") && |word| > 1 then
              match PlusFrom(word[1..], next, said, table)
              case Err(e) => Err(e)
              case Ok((now, took)) => OptionsFrom(From(argv, if took then i + 2 else i + 1), now, table)
            else if !StartsWith(word, "-") then Ok((said, From(argv, i)))
            else
              match MinusFrom(word[1..], next, said, table)
              case Err(e) => Err(e)
              case Ok((now, took)) =>
                if now.operandsOnly then Ok((now, From(argv, if took then i + 2 else i + 1)))
                else OptionsFrom(From(argv, if took then i + 2 else i + 1), now, table)
  {
    FromStep(argv, i);
    hide MinusFrom, PlusFrom, LongFrom, From, Beyond;
  }

  /** The words from `i` on, none of them when `i` is past the end. */
  function From(argv: seq<string>, i: nat): seq<string> {
    if i <= |argv| then argv[i..] else []
  }

  lemma FromStep(argv: seq<string>, i: nat)
    requires i < |argv|
    ensures From(argv, i) == [argv[i]] + argv[i + 1..] && From(argv, i)[1..] == argv[i + 1..] == From(argv, i + 1)
    ensures Beyond(From(argv, i), false) == From(argv, i + 1)
    ensures Beyond(From(argv, i), true) == From(argv, i + 2)
  {
  }
}
