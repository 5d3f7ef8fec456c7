/** What the invocation parser promises: it accepts exactly the command lines its grammar prints, and means by
    each what its structure says. */
module CliProofs {
  import opened Wrappers
  import opened Cli
  import Seqs

  // ------------------------------------------------------------------ command lines by their structure

  /** An option by name, in the next word or in the same. */
  datatype Named = Next(name: string) | Joined(name: string)

  /** How a cluster of letters ends. */
  datatype Last = Nothing | WithName(named: Named) | BareCommand | AttachedCommand(text: string)

  datatype Word =
    | Minus(letters: string, last: Last)
    | Plus(off: string, unset: Option<Named>)
    | Long(long: string)

  /** `dash` is the `--` or `-` that ends the options, when one does. */
  datatype Line = Line(words: seq<Word>, dash: Option<string>, operands: seq<string>)

  function NameText(named: Named): string {
    "o" + (if named.Joined? then named.name else "")
  }

  function NameWord(named: Named): seq<string> {
    if named.Next? then [named.name] else []
  }

  function LastText(last: Last): string {
    match last
    case Nothing => ""
    case WithName(named) => NameText(named)
    case BareCommand => "c"
    case AttachedCommand(text) => "c" + text
  }

  function Print(word: Word): seq<string> {
    match word
    case Minus(letters, last) =>
      ["-" + (letters + LastText(last))] + (if last.WithName? then NameWord(last.named) else [])
    case Plus(off, unset) =>
      ["+" + (off + (if unset.Some? then NameText(unset.value) else ""))]
      + (if unset.Some? then NameWord(unset.value) else [])
    case Long(long) => ["--" + long]
  }

  function PrintAll(words: seq<Word>): seq<string> {
    if words == [] then [] else Print(words[0]) + PrintAll(words[1..])
  }

  function PrintLine(line: Line): seq<string> {
    PrintAll(line.words) + ((if line.dash.Some? then [line.dash.value] else []) + line.operands)
  }

  // Which of them are well-formed.

  predicate IsLetter(c: char, table: Table) {
    c != 'c' && c != 'o' && (c == 's' || c == 'i' || c == 'l' || c in table.letters)
  }

  predicate NamedOk(named: Named, table: Table) {
    Trim(named.name) in table.names && (named.Joined? ==> named.name != "")
  }

  predicate WordOk(word: Word, table: Table) {
    match word
    case Minus(letters, last) =>
      && (forall k :: 0 <= k < |letters| ==> IsLetter(letters[k], table))
      && (last.Nothing? ==> letters != "")
      && (last.WithName? ==> NamedOk(last.named, table))
      && (last.AttachedCommand? ==> last.text != "")
    case Plus(off, unset) =>
      && (forall k :: 0 <= k < |off| ==> off[k] != 'o' && off[k] in table.letters)
      && (unset.None? ==> off != "")
      && (unset.Some? ==> NamedOk(unset.value, table))
    case Long(long) =>
      long == "login" || long == "norc" || long == "noprofile" || long == "noplugin" || LongOption(long, table).Some?
  }

  /** The word's own program text ends the options. */
  predicate EndsOptions(word: Word) {
    word.Minus? && word.last.AttachedCommand?
  }

  /** A word the parser does not read as an option. */
  predicate IsOperand(word: string) {
    !StartsWith(word, "-") && !(StartsWith(word, "+") && |word| > 1)
  }

  predicate WordsOk(words: seq<Word>, table: Table) {
    && (forall k :: 0 <= k < |words| ==> WordOk(words[k], table))
    && (forall k :: 0 <= k < |words| - 1 ==> !EndsOptions(words[k]))
  }

  /** Nothing but an operand, a dash or the end may follow the options, unless a word ended them itself. */
  predicate LineOk(line: Line, table: Table) {
    && WordsOk(line.words, table)
    && (line.dash.Some? ==> IsDash(line.dash.value))
    && (if line.words != [] && EndsOptions(line.words[|line.words| - 1]) then line.dash.None?
        else line.dash.None? && line.operands != [] ==> IsOperand(line.operands[0]))
  }

  /** No option is spelled `-`, and none has an empty name. */
  predicate TableOk(table: Table) {
    '-' !in table.letters && "" !in table.names
  }

  // What they say.

  /** `more` added in order of first occurrence. */
  function Union<T(==)>(s: seq<T>, more: seq<T>): (r: seq<T>)
    decreases |more|
  {
    if more == [] then s else Union(Added(s, more[0]), more[1..])
  }

  lemma UnionNothing<T>(s: seq<T>)
    ensures Union(s, []) == s
  {
  }

  lemma UnionOne<T>(s: seq<T>, x: T)
    ensures Union(s, [x]) == Added(s, x)
  {
    assert [x][1..] == [];
    UnionNothing(Added(s, x));
  }

  /** The letters that are options of `set`. */
  function SetLetters(letters: string): string {
    if letters == "" then ""
    else if letters[0] == 's' || letters[0] == 'i' || letters[0] == 'l' then SetLetters(letters[1..])
    else [letters[0]] + SetLetters(letters[1..])
  }

  function SayLetters(letters: string, said: Said): Said {
    said.(readStdin := said.readStdin || 's' in letters,
          interactive := said.interactive || 'i' in letters,
          login := said.login || 'l' in letters,
          options := said.options.(setOptions := Union(said.options.setOptions, SetLetters(letters))))
  }

  function SayLast(last: Last, said: Said, table: Table): Said
    requires last.WithName? ==> NamedOk(last.named, table)
  {
    match last
    case Nothing => said
    case WithName(named) => said.(options := said.options.(longOptions := Added(said.options.longOptions, table.names[Trim(named.name)])))
    case BareCommand => said.(wantCommand := true)
    case AttachedCommand(text) => said.(command := Some(text), operandsOnly := true)
  }

  function Say(word: Word, said: Said, table: Table): Said
    requires WordOk(word, table)
  {
    match word
    case Minus(letters, last) => SayLast(last, SayLetters(letters, said), table)
    case Plus(off, unset) =>
      var now := said.(options := said.options.(unsetLetters := Union(said.options.unsetLetters, off)));
      if unset.None? then now
      else now.(options := now.options.(unsetLong := now.options.unsetLong + [table.names[Trim(unset.value.name)]]))
    case Long(long) =>
      if LongOption(long, table).Some?
      then said.(options := said.options.(longOptions := Added(said.options.longOptions, LongOption(long, table).value)))
      else SayFlag(FlagOf(long), said)
  }

  datatype Flag = LoginFlag | NoRcFlag | NoProfileFlag | NoFlag

  function FlagOf(long: string): Flag {
    if long == "login" then LoginFlag
    else if long == "norc" then NoRcFlag
    else if long == "noprofile" then NoProfileFlag
    else NoFlag
  }

  function SayFlag(flag: Flag, said: Said): Said {
    match flag
    case LoginFlag => said.(login := true)
    case NoRcFlag => said.(noRc := true)
    case NoProfileFlag => said.(noProfile := true)
    case NoFlag => said
  }

  function SayAll(words: seq<Word>, said: Said, table: Table): Said
    requires forall k :: 0 <= k < |words| ==> WordOk(words[k], table)
  {
    if words == [] then said else SayAll(words[1..], Say(words[0], said, table), table)
  }

  /** What the whole line says. */
  function SayLine(line: Line, said: Said, table: Table): Said
    requires LineOk(line, table)
  {
    var now := SayAll(line.words, said, table);
    if line.dash.Some? then now.(ended := true) else now
  }

  // ------------------------------------------------------------------ a printed line parses to what it says

  lemma {:induction false} MinusLetters(letters: string, tail: string, next: seq<string>, said: Said, table: Table)
    requires forall k :: 0 <= k < |letters| ==> IsLetter(letters[k], table)
    ensures MinusFrom(letters + tail, next, said, table) == MinusFrom(tail, next, SayLetters(letters, said), table)
  {
    if letters == "" {
      assert letters + tail == tail;
      assert SayLetters(letters, said) == said;
    } else {
      var c := letters[0];
      assert IsLetter(c, table);
      Seqs.ConcatHead(letters, tail);
      var now := SayLetters([c], said);
      SayHead(letters, said);
      MinusLetters(letters[1..], tail, next, now, table);
      hide SayLetters;
      MinusOne(c, letters[1..] + tail, next, said, table);
      assert letters + tail == [c] + (letters[1..] + tail);
    }
  }

  lemma MinusOne(c: char, rest: string, next: seq<string>, said: Said, table: Table)
    requires IsLetter(c, table)
    ensures MinusFrom([c] + rest, next, said, table) == MinusFrom(rest, next, SayLetters([c], said), table)
  {
    Seqs.HeadTail(c, rest);
    assert [c][1..] == "" && [c][0] == c;
    assert Union(said.options.setOptions, "") == said.options.setOptions;
    assert SetLetters([c]) == if c == 's' || c == 'i' || c == 'l' then "" else [c];
    assert Union(said.options.setOptions, [c]) == Added(said.options.setOptions, c);
    assert forall d: char :: d in [c] <==> d == c;
    hide Union, SetLetters;
  }

  lemma AddLetters(s: string, letters: string)
    requires letters != ""
    ensures Union(s, SetLetters(letters)) == Union(Union(s, SetLetters([letters[0]])), SetLetters(letters[1..]))
  {
    var c := letters[0];
    assert [c][1..] == "" && [c][0] == c;
    if c == 's' || c == 'i' || c == 'l' {
      assert SetLetters([c]) == "";
    } else {
      assert SetLetters([c]) == [c];
      Seqs.HeadTail(c, SetLetters(letters[1..]));
    }
  }

  lemma SayHead(letters: string, said: Said)
    requires letters != ""
    ensures SayLetters(letters, said) == SayLetters(letters[1..], SayLetters([letters[0]], said))
  {
    hide Union, SetLetters;
    AddLetters(said.options.setOptions, letters);
    InHead(letters, 's');
    InHead(letters, 'i');
    InHead(letters, 'l');
  }

  lemma InHead(letters: string, c: char)
    requires letters != ""
    ensures c in letters <==> c in [letters[0]] || c in letters[1..]
  {
    assert letters == [letters[0]] + letters[1..];
  }

  lemma LastParses(last: Last, next: seq<string>, said: Said, table: Table)
    requires (last.WithName? ==> NamedOk(last.named, table)) && (last.AttachedCommand? ==> last.text != "")
    requires last.WithName? && last.named.Next? ==> next != [] && next[0] == last.named.name
    ensures MinusFrom(LastText(last), next, said, table)
         == Ok((SayLast(last, said, table), last.WithName? && last.named.Next?))
  {
    hide Trim;
    match last
    case Nothing =>
    case BareCommand =>
    case AttachedCommand(text) => Seqs.HeadTail('c', text);
    case WithName(named) => Seqs.HeadTail('o', if named.Joined? then named.name else "");
  }

  lemma {:induction false} PlusLetters(off: string, tail: string, next: seq<string>, said: Said, table: Table)
    requires forall k :: 0 <= k < |off| ==> off[k] != 'o' && off[k] in table.letters
    ensures PlusFrom(off + tail, next, said, table)
         == PlusFrom(tail, next, said.(options := said.options.(unsetLetters := Union(said.options.unsetLetters, off))), table)
  {
    if off == "" {
      assert off + tail == tail;
    } else {
      Seqs.ConcatHead(off, tail);
      PlusLetters(off[1..], tail, next, said.(options := said.options.(unsetLetters := Added(said.options.unsetLetters, off[0]))), table);
    }
  }

  lemma UnsetParses(unset: Option<Named>, next: seq<string>, said: Said, table: Table)
    requires unset.Some? ==> NamedOk(unset.value, table)
    requires unset.Some? && unset.value.Next? ==> next != [] && next[0] == unset.value.name
    ensures PlusFrom(if unset.Some? then NameText(unset.value) else "", next, said, table)
         == Ok((if unset.None? then said
                else said.(options := said.options.(unsetLong := said.options.unsetLong + [table.names[Trim(unset.value.name)]])),
                unset.Some? && unset.value.Next?))
  {
    hide Trim;
    if unset.Some? {
      Seqs.HeadTail('o', if unset.value.Joined? then unset.value.name else "");
    }
  }

  /** A printed word is read back, whatever follows it. */
  lemma WordParses(word: Word, rest: seq<string>, said: Said, table: Table)
    requires TableOk(table) && WordOk(word, table)
    ensures OptionsFrom(Print(word) + rest, said, table)
         == if EndsOptions(word) && !said.operandsOnly then Ok((Say(word, said, table), rest))
            else OptionsFrom(rest, Say(word, said, table), table)
    requires !said.operandsOnly
  {
    match word
    case Minus(_, _) => MinusParses(word, rest, said, table);
    case Plus(_, _) => PlusParses(word, rest, said, table);
    case Long(_) => LongParses(word, rest, said, table);
  }

  lemma LongParses(word: Word, rest: seq<string>, said: Said, table: Table)
    requires WordOk(word, table) && word.Long?
    ensures OptionsFrom(Print(word) + rest, said, table) == OptionsFrom(rest, Say(word, said, table), table)
  {
    var arg := "--" + word.long;
    assert Print(word) == [arg];
    Seqs.HeadTail(arg, rest);
    assert StartsWith(arg, "--") && arg[2..] == word.long;
    assert !IsDash(arg) by {
      assert word.long != "";
    }
    assert LongFrom(word.long, rest, said, table) == Ok(Say(word, said, table));
    hide LongFrom, Say;
  }

  /** The words taken: the cluster, and the name after it. */
  lemma Taken(first: string, name: seq<string>, rest: seq<string>)
    requires |name| <= 1
    ensures ([first] + name + rest)[0] == first && ([first] + name + rest)[1..] == name + rest
    ensures Beyond([first] + name + rest, name != []) == rest
  {
  }

  lemma PlusParses(word: Word, rest: seq<string>, said: Said, table: Table)
    requires WordOk(word, table) && word.Plus?
    ensures OptionsFrom(Print(word) + rest, said, table) == OptionsFrom(rest, Say(word, said, table), table)
  {
    var tail := if word.unset.Some? then NameText(word.unset.value) else "";
    var name := if word.unset.Some? then NameWord(word.unset.value) else [];
    var arg := "+" + (word.off + tail);
    assert Print(word) == [arg] + name;
    Taken(arg, name, rest);
    assert arg[0] == '+' && arg[1..] == word.off + tail && |arg| > 1;
    PlusShape(arg);
    PlusReads(word, tail, name + rest, said, table);
    hide PlusFrom, Union, NameText, Trim, StartsWith, IsDash, Say, WordOk, Added;
  }

  lemma PlusShape(arg: string)
    requires |arg| > 1 && arg[0] == '+'
    ensures StartsWith(arg, "+") && !StartsWith(arg, "--") && !IsDash(arg)
  {
  }

  lemma PlusReads(word: Word, tail: string, next: seq<string>, said: Said, table: Table)
    requires WordOk(word, table) && word.Plus? && tail == (if word.unset.Some? then NameText(word.unset.value) else "")
    requires word.unset.Some? && word.unset.value.Next? ==> next != [] && next[0] == word.unset.value.name
    ensures PlusFrom(word.off + tail, next, said, table)
         == Ok((Say(word, said, table), word.unset.Some? && word.unset.value.Next?))
  {
    PlusLetters(word.off, tail, next, said, table);
    UnsetParses(word.unset, next, said.(options := said.options.(unsetLetters := Union(said.options.unsetLetters, word.off))), table);
    hide PlusFrom, Union, NameText, Trim, Added;
  }

  lemma MinusParses(word: Word, rest: seq<string>, said: Said, table: Table)
    requires TableOk(table) && WordOk(word, table) && word.Minus? && !said.operandsOnly
    ensures OptionsFrom(Print(word) + rest, said, table)
         == if EndsOptions(word) then Ok((Say(word, said, table), rest))
            else OptionsFrom(rest, Say(word, said, table), table)
  {
    var tail := LastText(word.last);
    var name := if word.last.WithName? then NameWord(word.last.named) else [];
    var arg := "-" + (word.letters + tail);
    assert Print(word) == [arg] + name;
    Taken(arg, name, rest);
    MinusShape(word, arg, table);
    MinusLetters(word.letters, tail, name + rest, said, table);
    LastParses(word.last, name + rest, SayLetters(word.letters, said), table);
    assert SayLetters(word.letters, said).operandsOnly == said.operandsOnly;
    hide MinusFrom, SayLetters, LastText, Trim, StartsWith, IsDash;
  }

  lemma MinusShape(word: Word, arg: string, table: Table)
    requires TableOk(table) && WordOk(word, table) && word.Minus? && arg == "-" + (word.letters + LastText(word.last))
    ensures |arg| > 1 && arg[1..] == word.letters + LastText(word.last)
    ensures StartsWith(arg, "-") && !StartsWith(arg, "--") && !StartsWith(arg, "+") && !IsDash(arg)
  {
    assert arg[0] == '-';
    assert arg[1] != '-' by {
      if word.letters != "" {
        assert IsLetter(word.letters[0], table);
        assert arg[1] == word.letters[0];
      }
    }
  }

  lemma {:induction false} LineParses(line: Line, said: Said, table: Table)
    requires TableOk(table) && LineOk(line, table) && !said.operandsOnly
    ensures OptionsFrom(PrintLine(line), said, table) == Ok((SayLine(line, said, table), line.operands))
    decreases |line.words|
  {
    hide OptionsFrom, Print, WordOk, Say, TableOk, IsOperand, IsDash, EndsOptions;
    if line.words == [] {
      EndParses(line, said, table);
    } else {
      var word, rest := line.words[0], line.(words := line.words[1..]);
      LineHead(line, table);
      WordParses(word, PrintLine(rest), said, table);
      if EndsOptions(word) {
        LineEnds(line, said, table);
      } else {
        SayLineHead(line, said, table);
        SaysNoOperandsOnly(word, said, table);
        LineParses(rest, Say(word, said, table), table);
      }
    }
  }

  lemma LineHead(line: Line, table: Table)
    requires LineOk(line, table) && line.words != []
    ensures var rest := line.(words := line.words[1..]);
            && PrintLine(line) == Print(line.words[0]) + PrintLine(rest)
            && WordOk(line.words[0], table)
            && (!EndsOptions(line.words[0]) ==> LineOk(rest, table))
            && (EndsOptions(line.words[0]) ==> line.words == [line.words[0]] && line.dash.None?)
  {
    hide Print, WordOk, EndsOptions, IsOperand, IsDash;
    Seqs.Assoc(Print(line.words[0]), PrintAll(line.words[1..]), (if line.dash.Some? then [line.dash.value] else []) + line.operands);
    var rest := line.words[1..];
    assert rest == [] || rest[|rest| - 1] == line.words[|line.words| - 1];
  }

  lemma SayLineHead(line: Line, said: Said, table: Table)
    requires LineOk(line, table) && line.words != [] && LineOk(line.(words := line.words[1..]), table)
    ensures SayLine(line, said, table)
         == SayLine(line.(words := line.words[1..]), Say(line.words[0], said, table), table)
  {
    hide Say, EndsOptions, IsOperand, IsDash;
    assert SayAll(line.words, said, table) == SayAll(line.words[1..], Say(line.words[0], said, table), table);
  }

  lemma LineEnds(line: Line, said: Said, table: Table)
    requires LineOk(line, table) && line.words != [] && line.words == [line.words[0]] && line.dash.None?
    ensures PrintLine(line.(words := line.words[1..])) == line.operands
    ensures SayLine(line, said, table) == Say(line.words[0], said, table)
  {
    hide Say, EndsOptions, IsOperand, IsDash, Print;
    assert line.words[1..] == [];
    assert SayAll(line.words, said, table) == SayAll(line.words[1..], Say(line.words[0], said, table), table);
    assert [] + line.operands == line.operands;
  }

  lemma SaysNoOperandsOnly(word: Word, said: Said, table: Table)
    requires WordOk(word, table) && !EndsOptions(word)
    ensures Say(word, said, table).operandsOnly == said.operandsOnly
  {
    hide Union, SetLetters, Trim, Added, LongOption, SayFlag, FlagOf, SayLast, SayLetters;
    match word
    case Minus(letters, last) => LastSaysNone(letters, last, said, table);
    case Plus(_, _) =>
    case Long(long) => FlagSays(FlagOf(long), said);
  }

  lemma LastSaysNone(letters: string, last: Last, said: Said, table: Table)
    requires (last.WithName? ==> NamedOk(last.named, table)) && !last.AttachedCommand?
    ensures SayLast(last, SayLetters(letters, said), table).operandsOnly == said.operandsOnly
  {
    hide Union, SetLetters, Trim, Added;
  }

  lemma EndParses(line: Line, said: Said, table: Table)
    requires LineOk(line, table) && line.words == []
    ensures OptionsFrom(PrintLine(line), said, table) == Ok((SayLine(line, said, table), line.operands))
  {
    if line.dash.Some? {
      assert PrintLine(line) == [line.dash.value] + line.operands;
      Seqs.HeadTail(line.dash.value, line.operands);
    } else {
      assert PrintLine(line) == line.operands;
      if line.operands != [] {
        NoOption(line.operands[0]);
      }
    }
    hide MinusFrom, PlusFrom, LongFrom, StartsWith;
  }

  lemma NoOption(word: string)
    requires IsOperand(word)
    ensures !IsDash(word) && !StartsWith(word, "--") && !StartsWith(word, "-") && !(StartsWith(word, "+") && |word| > 1)
  {
    DashDash(word);
  }

  lemma DashDash(word: string)
    ensures StartsWith(word, "--") ==> StartsWith(word, "-")
  {
    if StartsWith(word, "--") {
      assert word[..1] == word[..2][..1];
    }
  }

  // ------------------------------------------------------------------ whatever parses was a printed line

  /** The letters a successful cluster read, and how it ended. */
  lemma {:induction false} MinusWasPrinted(letters: string, next: seq<string>, said: Said, table: Table)
    returns (read: string, last: Last)
    requires TableOk(table) && MinusFrom(letters, next, said, table).Ok?
    ensures letters == read + LastText(last)
    ensures forall k :: 0 <= k < |read| ==> IsLetter(read[k], table)
    ensures last.WithName? ==> NamedOk(last.named, table)
    ensures last.AttachedCommand? ==> last.text != ""
    ensures last.WithName? && last.named.Next? ==> next != [] && next[0] == last.named.name
    ensures MinusFrom(letters, next, said, table).value.1 == (last.WithName? && last.named.Next?)
  {
    hide Trim;
    TrimNothing();
    if letters == "" {
      read, last := "", Nothing;
    } else {
      var c, rest := letters[0], letters[1..];
      assert letters == [c] + rest;
      if c == 'c' {
        read, last := "", if rest == "" then BareCommand else AttachedCommand(rest);
        assert [] + LastText(last) == LastText(last);
      } else if c == 'o' {
        read, last := "", WithName(if rest == "" then Next(FirstOr(next, "")) else Joined(rest));
        assert [] + LastText(last) == LastText(last);
      } else {
        read, last := MinusWasPrinted(rest, next, OneLetter(c, said), table);
        hide LastText;
        read := [c] + read;
        assert letters == read + LastText(last);
      }
    }
  }

  function OneLetter(c: char, said: Said): Said {
    if c == 's' then said.(readStdin := true)
    else if c == 'i' then said.(interactive := true)
    else if c == 'l' then said.(login := true)
    else said.(options := said.options.(setOptions := Added(said.options.setOptions, c)))
  }

  lemma TrimNothing()
    ensures Trim("") == ""
  {
  }

  lemma {:induction false} PlusWasPrinted(letters: string, next: seq<string>, said: Said, table: Table)
    returns (off: string, unset: Option<Named>)
    requires TableOk(table) && PlusFrom(letters, next, said, table).Ok?
    ensures letters == off + (if unset.Some? then NameText(unset.value) else "")
    ensures forall k :: 0 <= k < |off| ==> off[k] != 'o' && off[k] in table.letters
    ensures unset.Some? ==> NamedOk(unset.value, table)
    ensures unset.Some? && unset.value.Next? ==> next != [] && next[0] == unset.value.name
    ensures PlusFrom(letters, next, said, table).value.1 == (unset.Some? && unset.value.Next?)
  {
    hide Trim;
    TrimNothing();
    if letters == "" {
      off, unset := "", None;
    } else {
      var c, rest := letters[0], letters[1..];
      assert letters == [c] + rest;
      if c == 'o' {
        off, unset := "", Some(if rest == "" then Next(FirstOr(next, "")) else Joined(rest));
        assert [] + NameText(unset.value) == NameText(unset.value);
      } else {
        off, unset := PlusWasPrinted(rest, next, said.(options := said.options.(unsetLetters := Added(said.options.unsetLetters, c))), table);
        hide NameText;
        off := [c] + off;
        assert letters == off + (if unset.Some? then NameText(unset.value) else "");
      }
    }
  }

  /** The option word a successful parse began with. */
  lemma FirstWasPrinted(args: seq<string>, said: Said, table: Table) returns (word: Word, rest: seq<string>)
    requires TableOk(table) && OptionsFrom(args, said, table).Ok? && args != []
    requires !IsDash(args[0]) && !IsOperand(args[0])
    ensures WordOk(word, table) && args == Print(word) + rest && |rest| < |args|
  {
    var arg, next := args[0], args[1..];
    assert args == [arg] + next;
    DashDash(arg);
    if StartsWith(arg, "--") {
      word, rest := Long(arg[2..]), next;
      assert arg == "--" + arg[2..];
      hide Print, OptionsFrom;
      LongWasPrinted(args, said, table);
    } else if StartsWith(arg, "+") && |arg| > 1 {
      word, rest := PlusWordWasPrinted(arg, next, said, table);
      hide Print, OptionsFrom;
    } else {
      NotDash(arg);
      word, rest := MinusWordWasPrinted(arg, next, said, table);
      hide Print, OptionsFrom;
    }
  }

  lemma PlusWordWasPrinted(arg: string, next: seq<string>, said: Said, table: Table) returns (word: Word, rest: seq<string>)
    requires TableOk(table) && StartsWith(arg, "+") && |arg| > 1 && PlusFrom(arg[1..], next, said, table).Ok?
    ensures WordOk(word, table) && [arg] + next == Print(word) + rest && |rest| <= |next|
  {
    hide PlusFrom, NameText;
    var off, unset := PlusWasPrinted(arg[1..], next, said, table);
    word := Plus(off, unset);
    var name := if unset.Some? then NameWord(unset.value) else [];
    assert arg == "+" + (off + (if unset.Some? then NameText(unset.value) else ""));
    rest := next[|name|..];
    assert next == name + rest;
    Seqs.Assoc([arg], name, rest);
    assert off != "" || unset.Some?;
  }

  lemma MinusWordWasPrinted(arg: string, next: seq<string>, said: Said, table: Table) returns (word: Word, rest: seq<string>)
    requires TableOk(table) && StartsWith(arg, "-") && |arg| > 1 && MinusFrom(arg[1..], next, said, table).Ok?
    ensures WordOk(word, table) && [arg] + next == Print(word) + rest && |rest| <= |next|
  {
    hide MinusFrom;
    var letters, last := MinusWasPrinted(arg[1..], next, said, table);
    word := Minus(letters, last);
    var name := if last.WithName? then NameWord(last.named) else [];
    assert arg == "-" + (letters + LastText(last));
    rest := next[|name|..];
    assert next == name + rest;
    Seqs.Assoc([arg], name, rest);
  }

  lemma LongWasPrinted(args: seq<string>, said: Said, table: Table)
    requires OptionsFrom(args, said, table).Ok? && args != [] && !IsDash(args[0]) && StartsWith(args[0], "--")
    ensures WordOk(Long(args[0][2..]), table) && Print(Long(args[0][2..])) == [args[0]]
  {
    assert args[0] == "--" + args[0][2..];
    assert LongFrom(args[0][2..], args[1..], said, table).Ok?;
  }

  /** An argument the parser does not understand is an error: every command line it does accept is one its
      grammar prints. */
  lemma {:induction false} LineWasPrinted(args: seq<string>, said: Said, table: Table) returns (line: Line)
    requires TableOk(table) && OptionsFrom(args, said, table).Ok? && !said.operandsOnly
    ensures LineOk(line, table) && PrintLine(line) == args
    decreases |args|
  {
    if args == [] {
      line := Line([], None, []);
    } else if IsDash(args[0]) {
      line := Line([], Some(args[0]), args[1..]);
      assert PrintLine(line) == [args[0]] + args[1..];
    } else if IsOperand(args[0]) {
      line := Line([], None, args);
      assert PrintLine(line) == args;
    } else {
      var word, rest := FirstWasPrinted(args, said, table);
      WordParses(word, rest, said, table);
      hide OptionsFrom, Print, WordOk, IsOperand, IsDash, EndsOptions, Say, StartsWith;
      if EndsOptions(word) {
        line := Line([word], None, rest);
        OneWord(word, rest, table);
      } else {
        SaysNoOperandsOnly(word, said, table);
        var after := LineWasPrinted(rest, Say(word, said, table), table);
        line := after.(words := [word] + after.words);
        MoreWords(word, after, table);
      }
    }
  }

  lemma OneWord(word: Word, rest: seq<string>, table: Table)
    requires WordOk(word, table) && EndsOptions(word)
    ensures LineOk(Line([word], None, rest), table) && PrintLine(Line([word], None, rest)) == Print(word) + rest
  {
    hide Print, WordOk, EndsOptions;
    assert [word][1..] == [];
    assert Print(word) + [] == Print(word) && [] + rest == rest;
    assert PrintAll([word]) == Print(word);
  }

  lemma MoreWords(word: Word, after: Line, table: Table)
    requires WordOk(word, table) && !EndsOptions(word) && LineOk(after, table)
    ensures LineOk(after.(words := [word] + after.words), table)
    ensures PrintLine(after.(words := [word] + after.words)) == Print(word) + PrintLine(after)
  {
    hide Print, WordOk, EndsOptions, IsOperand, IsDash;
    Seqs.HeadTail(word, after.words);
    Seqs.Assoc(Print(word), PrintAll(after.words), (if after.dash.Some? then [after.dash.value] else []) + after.operands);
  }

  // ------------------------------------------------------------------ whole invocations

  /** `-c` has the program text it asks for. */
  predicate HasText(line: Line, said: Said) {
    said.wantCommand ==> line.operands != []
  }

  /** The parser accepts exactly the printed lines, and answers what their structure says. */
  lemma AcceptsExactlyItsGrammar(argv: seq<string>, table: Table, tools: set<string>) returns (line: Line)
    requires TableOk(table)
    ensures Parsing(argv, table, tools).Ok?
        ==> && LineOk(line, table) && PrintLine(line) == Rest(argv)
            && HasText(line, SayLine(line, Initial(argv, table), table))
            && Parsing(argv, table, tools)
               == Chosen(SayLine(line, Initial(argv, table), table), line.operands, FirstOr(argv, "oslo"), tools)
  {
    hide OptionsFrom, Initial, LineOk, PrintLine, SayLine;
    InitialIsFresh(argv, table);
    if Parsing(argv, table, tools).Ok? {
      line := LineWasPrinted(Rest(argv), Initial(argv, table), table);
      LineParses(line, Initial(argv, table), table);
    } else {
      line := Line([], None, []);
    }
  }

  lemma PrintedLinesAreAccepted(argv0: string, line: Line, table: Table, tools: set<string>)
    requires TableOk(table) && LineOk(line, table)
    ensures var argv := [argv0] + PrintLine(line);
            var said := SayLine(line, Initial(argv, table), table);
            && Parsing(argv, table, tools) == Chosen(said, line.operands, argv0, tools)
            && (Parsing(argv, table, tools).Ok? <==> HasText(line, said))
  {
    hide OptionsFrom, Initial, LineOk, PrintLine, SayLine;
    var argv := [argv0] + PrintLine(line);
    InitialIsFresh(argv, table);
    Seqs.HeadTail(argv0, PrintLine(line));
    LineParses(line, Initial(argv, table), table);
  }

  lemma InitialIsFresh(argv: seq<string>, table: Table)
    ensures !Initial(argv, table).operandsOnly && Initial(argv, table).command.None? && !Initial(argv, table).wantCommand
  {
  }

  // ------------------------------------------------------------------ `-c`

  predicate IsBare(word: Word) {
    word.Minus? && word.last.BareCommand?
  }

  function LettersOf(words: seq<Word>): string {
    if words == [] then ""
    else (if words[0].Minus? then SetLetters(words[0].letters) else "") + LettersOf(words[1..])
  }

  function OffLettersOf(words: seq<Word>): string {
    if words == [] then "" else (if words[0].Plus? then words[0].off else "") + OffLettersOf(words[1..])
  }

  function NameOf(word: Word, table: Table): seq<ShellOption>
    requires WordOk(word, table)
  {
    if word.Minus? && word.last.WithName? then [table.names[Trim(word.last.named.name)]]
    else if word.Long? && LongOption(word.long, table).Some? then [LongOption(word.long, table).value]
    else []
  }

  /** The options given by name, in the order given. */
  function NamesOf(words: seq<Word>, table: Table): seq<ShellOption>
    requires forall k :: 0 <= k < |words| ==> WordOk(words[k], table)
  {
    if words == [] then [] else NameOf(words[0], table) + NamesOf(words[1..], table)
  }

  predicate NoRepeats<T(==)>(s: seq<T>) {
    forall i, j :: 0 <= i < j < |s| ==> s[i] != s[j]
  }

  /** A union in order of first occurrence: nothing lost, nothing twice, and what was there first stays first. */
  lemma {:induction false} UnionKeepsFirsts<T>(s: seq<T>, more: seq<T>)
    requires NoRepeats(s)
    ensures var r := Union(s, more);
            && NoRepeats(r) && s <= r
            && (forall x :: x in r <==> x in s || x in more)
    decreases |more|
  {
    if more != [] {
      UnionKeepsFirsts(Added(s, more[0]), more[1..]);
      assert forall x :: x in more <==> x == more[0] || x in more[1..] by {
        assert more == [more[0]] + more[1..];
      }
      assert s <= Added(s, more[0]);
    }
  }

  lemma {:induction false} UnionConcat<T>(s: seq<T>, a: seq<T>, b: seq<T>)
    ensures Union(s, a + b) == Union(Union(s, a), b)
    decreases |a|
  {
    if a == [] {
      assert a + b == b;
    } else {
      Seqs.ConcatHead(a, b);
      UnionConcat(Added(s, a[0]), a[1..], b);
    }
  }

  /** What all the words say: each kind of option gathered over the whole line. */
  lemma {:induction false} SaysInAll(words: seq<Word>, said: Said, table: Table)
    requires forall k :: 0 <= k < |words| ==> WordOk(words[k], table)
    ensures var now := SayAll(words, said, table);
            && now.options.setOptions == Union(said.options.setOptions, LettersOf(words))
            && now.options.unsetLetters == Union(said.options.unsetLetters, OffLettersOf(words))
            && now.options.longOptions == Union(said.options.longOptions, NamesOf(words, table))
            && (now.wantCommand <==> said.wantCommand || exists k :: 0 <= k < |words| && IsBare(words[k]))
    decreases |words|
  {
    hide Union, SetLetters, Trim;
    if words == [] {
      UnionNothing(said.options.setOptions);
      UnionNothing(said.options.unsetLetters);
      UnionNothing(said.options.longOptions);
    } else {
      var next := Say(words[0], said, table);
      OneSays(words[0], said, table);
      SaysInAll(words[1..], next, table);
      hide Say, WordOk;
      UnionConcat(said.options.setOptions, if words[0].Minus? then SetLetters(words[0].letters) else "", LettersOf(words[1..]));
      UnionConcat(said.options.unsetLetters, if words[0].Plus? then words[0].off else "", OffLettersOf(words[1..]));
      UnionConcat(said.options.longOptions, NameOf(words[0], table), NamesOf(words[1..], table));
      hide NameOf;
      assert (exists k :: 0 <= k < |words| && IsBare(words[k]))
        <==> IsBare(words[0]) || (exists k :: 0 <= k < |words[1..]| && IsBare(words[1..][k])) by {
        if k :| 0 <= k < |words[1..]| && IsBare(words[1..][k]) {
          assert IsBare(words[k + 1]);
        }
        if k :| 0 < k < |words| && IsBare(words[k]) {
          assert IsBare(words[1..][k - 1]);
        }
      }
    }
  }

  /** What one word adds. */
  predicate Adds(word: Word, said: Said, now: Said, table: Table)
    requires WordOk(word, table)
  {
    && now.options.setOptions == Union(said.options.setOptions, if word.Minus? then SetLetters(word.letters) else "")
    && now.options.unsetLetters == Union(said.options.unsetLetters, if word.Plus? then word.off else "")
    && now.options.longOptions == Union(said.options.longOptions, NameOf(word, table))
    && (now.wantCommand <==> said.wantCommand || IsBare(word))
  }

  lemma OneSays(word: Word, said: Said, table: Table)
    requires WordOk(word, table)
    ensures Adds(word, said, Say(word, said, table), table)
  {
    hide Adds, WordOk, Say;
    match word
    case Minus(_, _) => MinusSays(word, said, table);
    case Plus(_, _) => PlusSays(word, said, table);
    case Long(_) => LongSays(word, said, table);
  }

  lemma MinusSays(word: Word, said: Said, table: Table)
    requires WordOk(word, table) && word.Minus?
    ensures Adds(word, said, Say(word, said, table), table)
  {
    LastSays(word.letters, word.last, said, table);
    hide Union, SetLetters, Trim, Added, SayLetters, SayLast;
    UnionNothing(said.options.unsetLetters);
    UnionNothing(said.options.longOptions);
    if word.last.WithName? {
      UnionOne(said.options.longOptions, table.names[Trim(word.last.named.name)]);
    }
  }

  lemma PlusSays(word: Word, said: Said, table: Table)
    requires WordOk(word, table) && word.Plus?
    ensures Adds(word, said, Say(word, said, table), table)
  {
    hide Union, Trim;
    UnionNothing(said.options.setOptions);
    UnionNothing(said.options.longOptions);
    if word.unset.None? {
    }
  }

  lemma LongSays(word: Word, said: Said, table: Table)
    requires WordOk(word, table) && word.Long?
    ensures Adds(word, said, Say(word, said, table), table)
  {
    hide Union, Added, LongOption, SayFlag, FlagOf;
    UnionNothing(said.options.setOptions);
    UnionNothing(said.options.unsetLetters);
    UnionNothing(said.options.longOptions);
    FlagSays(FlagOf(word.long), said);
    if LongOption(word.long, table).Some? {
      UnionOne(said.options.longOptions, LongOption(word.long, table).value);
    }
  }

  lemma FlagSays(flag: Flag, said: Said)
    ensures SayFlag(flag, said).options == said.options && SayFlag(flag, said).wantCommand == said.wantCommand
    ensures SayFlag(flag, said).operandsOnly == said.operandsOnly
  {
    match flag
    case LoginFlag =>
    case NoRcFlag =>
    case NoProfileFlag =>
    case NoFlag =>
  }

  lemma LastSays(letters: string, last: Last, said: Said, table: Table)
    requires last.WithName? ==> NamedOk(last.named, table)
    ensures var now := SayLast(last, SayLetters(letters, said), table);
            && now.options.setOptions == Union(said.options.setOptions, SetLetters(letters))
            && now.options.unsetLetters == said.options.unsetLetters
            && now.options.longOptions == (if last.WithName? then Added(said.options.longOptions, table.names[Trim(last.named.name)]) else said.options.longOptions)
            && (now.wantCommand <==> said.wantCommand || last.BareCommand?)
  {
    hide Union, SetLetters, Trim, Added;
  }

  /** The options the letters stand for. */
  function Lettered(letters: string, table: Table): seq<ShellOption> {
    if letters == "" then []
    else (if letters[0] in table.letters then [table.letters[letters[0]]] else []) + Lettered(letters[1..], table)
  }

  /** Every option to turn on, however it was spelled. */
  function OptionsOn(options: Options, table: Table): seq<ShellOption> {
    Lettered(options.setOptions, table) + options.longOptions
  }

  /** Every option to turn off. */
  function OptionsOff(options: Options, table: Table): seq<ShellOption> {
    Lettered(options.unsetLetters, table) + options.unsetLong
  }

  predicate Known(letters: string, table: Table) {
    forall k :: 0 <= k < |letters| ==> letters[k] in table.letters
  }

  lemma {:induction false} KnownLosesNone(letters: string, table: Table)
    requires Known(letters, table)
    ensures |Lettered(letters, table)| == |letters|
    ensures forall k :: 0 <= k < |letters| ==> Lettered(letters, table)[k] == table.letters[letters[k]]
  {
    if letters != "" {
      KnownLosesNone(letters[1..], table);
    }
  }

  lemma {:induction false} SetLettersKnown(letters: string, table: Table)
    requires forall k :: 0 <= k < |letters| ==> IsLetter(letters[k], table)
    ensures Known(SetLetters(letters), table)
  {
    if letters != "" {
      SetLettersKnown(letters[1..], table);
    }
  }

  lemma {:induction false} LettersOfKnown(words: seq<Word>, table: Table)
    requires forall k :: 0 <= k < |words| ==> WordOk(words[k], table)
    ensures Known(LettersOf(words), table) && Known(OffLettersOf(words), table)
  {
    hide SetLetters;
    if words != [] {
      LettersOfKnown(words[1..], table);
      if words[0].Minus? {
        SetLettersKnown(words[0].letters, table);
      }
    }
  }

  lemma {:induction false} UnionKnown(s: string, more: string, table: Table)
    requires Known(s, table) && Known(more, table)
    ensures Known(Union(s, more), table)
    decreases |more|
  {
    if more != "" {
      UnionKnown(Added(s, more[0]), more[1..], table);
    }
  }

  /** Every letter kept names an option, so reading them back one by one loses none of what was asked. */
  lemma NoOptionIsLost(argv: seq<string>, table: Table, tools: set<string>)
    requires TableOk(table) && Parsing(argv, table, tools).Ok?
    ensures var options := Parsing(argv, table, tools).value.options;
            && |OptionsOn(options, table)| == |options.setOptions| + |options.longOptions|
            && |OptionsOff(options, table)| == |options.unsetLetters| + |options.unsetLong|
  {
    var line := AcceptsExactlyItsGrammar(argv, table, tools);
    var start := Initial(argv, table);
    assert start.options.setOptions == "" && start.options.unsetLetters == "";
    SaysInAll(line.words, start, table);
    LettersOfKnown(line.words, table);
    UnionKnown("", LettersOf(line.words), table);
    UnionKnown("", OffLettersOf(line.words), table);
    ChosenKeepsOptions(SayLine(line, start, table), line.operands, FirstOr(argv, "oslo"), tools);
    hide Parsing, Initial, LineOk, PrintLine, SayAll, Union, LettersOf, OffLettersOf, NamesOf, IsBare, Known;
    var options := Parsing(argv, table, tools).value.options;
    KnownLosesNone(options.setOptions, table);
    KnownLosesNone(options.unsetLetters, table);
  }

  lemma ChosenKeepsOptions(said: Said, operands: seq<string>, argv0: string, tools: set<string>)
    ensures Chosen(said, operands, argv0, tools).Ok? ==> Chosen(said, operands, argv0, tools).value.options == said.options
  {
  }

  // ------------------------------------------------------------------ operands

  predicate IsSuffix(s: seq<string>, whole: seq<string>) {
    |s| <= |whole| && whole[|whole| - |s|..] == s
  }

  /** What becomes `$1`, `$2` and so on is always the tail of the command line itself, word for word; and so are
      a tool's arguments. */
  lemma PositionalIsATail(argv: seq<string>, table: Table, tools: set<string>)
    requires TableOk(table) && Parsing(argv, table, tools).Ok?
    ensures var r := Parsing(argv, table, tools).value;
            && IsSuffix(r.positional, argv)
            && (r.action.Tool? ==> IsSuffix(r.action.arguments, argv))
  {
    var line := AcceptsExactlyItsGrammar(argv, table, tools);
    hide *;
    TailOf(argv, line);
    ChosenTail(SayLine(line, Initial(argv, table), table), line.operands, FirstOr(argv, "oslo"), tools);
    if IsSuffix(Parsing(argv, table, tools).value.positional, line.operands) {
      SuffixOfSuffix(Parsing(argv, table, tools).value.positional, line.operands, argv);
    }
    if Parsing(argv, table, tools).value.action.Tool? {
      SuffixOfSuffix(Parsing(argv, table, tools).value.action.arguments, line.operands, argv);
    }
  }

  lemma ChosenTail(said: Said, operands: seq<string>, argv0: string, tools: set<string>)
    ensures var r := Chosen(said, operands, argv0, tools);
            r.Ok? ==>
              && IsSuffix(r.value.positional, operands)
              && (r.value.action.Tool? ==> IsSuffix(r.value.action.arguments, operands))
  {
    hide Chosen, IsSuffix;
    ChosenFrom(said, operands, argv0, tools);
    Suffixes(operands);
  }

  lemma ChosenFrom(said: Said, operands: seq<string>, argv0: string, tools: set<string>)
    ensures var r := Chosen(said, operands, argv0, tools);
            var left := if said.wantCommand then Rest(operands) else operands;
            r.Ok? ==>
              && (r.value.positional == left || r.value.positional == Rest(left) || r.value.positional == [])
              && (r.value.action.Tool? ==> r.value.action.arguments == Rest(left))
  {
  }

  lemma Suffixes(s: seq<string>)
    ensures IsSuffix(s, s) && IsSuffix([], s) && IsSuffix(Rest(s), s) && IsSuffix(Rest(Rest(s)), s)
    ensures |s| >= 1 ==> Rest(s) == s[1..]
  {
  }

  lemma SuffixOfSuffix(a: seq<string>, b: seq<string>, c: seq<string>)
    requires IsSuffix(a, b) && IsSuffix(b, c)
    ensures IsSuffix(a, c)
  {
    assert c[|c| - |a|..] == b[|b| - |a|..];
  }

  lemma TailOf(argv: seq<string>, line: Line)
    requires PrintLine(line) == Rest(argv)
    ensures IsSuffix(line.operands, argv)
  {
    hide PrintAll;
    var front := PrintAll(line.words);
    var dash := if line.dash.Some? then [line.dash.value] else [];
    assert front + (dash + line.operands) == (front + dash) + line.operands;
    assert argv != [] ==> argv == [argv[0]] + Rest(argv);
  }

  // ------------------------------------------------------------------ being called sh

  predicate EndsWith(s: string, end: string) {
    |end| <= |s| && s[|s| - |end|..] == end
  }

  /** The name means a POSIX shell exactly when it is `sh` or `-sh`, with or without a directory in front. */
  lemma NamedShIs(argv0: string)
    ensures NamedSh(argv0) <==> argv0 == "sh" || argv0 == "-sh" || EndsWith(argv0, "/sh") || EndsWith(argv0, "/-sh")
  {
    var (sh, dashed) := ("sh", "-sh");
    assert "/" + sh == "/sh" && "/" + dashed == "/-sh" && dashed == "-" + sh;
    assert '/' !in sh && '/' !in dashed;
    var base := Base(argv0);
    hide *;
    BaseIsName(argv0, sh);
    BaseIsName(argv0, dashed);
    DashedName(base, sh, dashed);
    NamedShUnfolds(argv0);
  }

  lemma NamedShUnfolds(argv0: string)
    ensures NamedSh(argv0) <==> Undashed(Base(argv0)) == "sh"
  {
    hide Base, StartsWith;
  }

  function Undashed(base: string): string {
    if StartsWith(base, "-") then base[1..] else base
  }

  lemma DashedName(base: string, name: string, dashed: string)
    requires name != "" && name[0] != '-' && dashed == "-" + name
    ensures Undashed(base) == name <==> base == name || base == dashed
  {
    assert StartsWith(base, "-") <==> base != "" && base[0] == '-';
    assert base != "" ==> base == [base[0]] + base[1..];
  }

  lemma {:induction false} BaseIsName(path: string, name: string)
    requires '/' !in name
    ensures Base(path) == name <==> path == name || EndsWith(path, "/" + name)
    decreases |path|
  {
    if path == "" {
    } else if path[|path| - 1] == '/' {
      EndChar(path, "/" + name);
      assert path[|path| - 1] in path;
    } else if name == "" {
      EndChar(path, "/" + name);
    } else {
      var most, c := path[..|path| - 1], path[|path| - 1];
      var stem := name[..|name| - 1];
      BaseIsName(most, stem);
      assert name == stem + [name[|name| - 1]];
      assert path == most + [c];
      LastOf(most, c, stem, name[|name| - 1]);
    }
  }

  lemma EndChar(s: string, end: string)
    requires end != ""
    ensures EndsWith(s, end) ==> s != "" && s[|s| - 1] == end[|end| - 1]
  {
  }

  lemma LastOf(a: string, c: char, b: string, d: char)
    ensures a + [c] == b + [d] <==> a == b && c == d
    ensures EndsWith(a + [c], "/" + (b + [d])) <==> EndsWith(a, "/" + b) && c == d
  {
    if a + [c] == b + [d] {
      assert (a + [c])[..|a|] == a && (b + [d])[..|b|] == b && (a + [c])[|a|] == c && (b + [d])[|b|] == d;
    }
    var (whole, end) := (a + [c], "/" + (b + [d]));
    assert end == ("/" + b) + [d];
    if EndsWith(whole, end) {
      var tail := whole[|whole| - |end|..];
      assert tail[|tail| - 1] == c && end[|end| - 1] == d;
      assert tail[..|tail| - 1] == a[|a| - |b| - 1..];
      assert end[..|end| - 1] == "/" + b;
    }
    if EndsWith(a, "/" + b) && c == d {
      assert whole[|whole| - |end|..] == a[|a| - |b| - 1..] + [c];
    }
  }
}
