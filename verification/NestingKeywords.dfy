/** Which scripts the scan reads keyword by keyword: exactly those where every reserved word is looked for. */
module NestingKeywords {
  import opened Wrappers
  import opened Chars
  import opened Nesting
  import opened NestingCode
  import opened NestingScripts
  import Seqs

  lemma {:induction false} GlyphsConcat(a: string, b: string, k: Code)
    ensures Glyphs(a + b, k) == Glyphs(a, Glyphs(b, k))
  {
    if a == [] {
      assert a + b == b;
    } else {
      Seqs.ConcatHead(a, b);
      GlyphsConcat(a[1..], b, k);
    }
  }

  lemma {:induction false} PastLetters(s: string, k: Code, word: string, cmd: bool, block: bool)
    requires forall i :: 0 <= i < |s| ==> IsWordChar(s[i])
    ensures Past(Glyphs(s, k), word, cmd, block) == Past(k, word + s, cmd, block)
  {
    if s == [] {
      assert word + s == word;
    } else {
      PastLetters(s[1..], k, word + [s[0]], cmd, block);
      hide Glyphs;
      assert word + [s[0]] + s[1..] == word + s;
    }
  }

  lemma PastBlank(k: Code, word: string, cmd: bool, block: bool)
    requires !(cmd && IsReserved(word))
    ensures Past(Glyph(' ', k), word, cmd, block) == Past(k, "", NextIsCommandPosition(' ', word, cmd), block)
  {
  }

  lemma PastSeparator(sep: char, k: Code, word: string, cmd: bool, block: bool)
    requires EndsCommand(sep) && !(cmd && IsReserved(word))
    ensures Past(Glyph(sep, k), word, cmd, block) == Past(k, "", true, block)
  {
  }

  /** A word of the script's own, and the blank after it. */
  lemma PastSpaced(word: string, k: Code, cmd: bool, block: bool)
    requires IsWord(word) && !IsReserved(word)
    ensures Past(Glyphs(word + " ", k), "", cmd, block) == Past(k, "", Introduces(word), block)
  {
    hide Past, Glyphs, IsReserved, Introduces;
    GlyphsConcat(word, " ", k);
    OneGlyph(' ', k);
    PastLetters(word, Glyph(' ', k), "", cmd, block);
    assert "" + word == word;
    PastBlank(k, word, cmd, block);
  }

  lemma OneGlyph(c: char, k: Code)
    ensures Glyphs([c], k) == Glyph(c, k)
  {
    assert [c][1..] == [];
  }

  lemma BlankFirst(s: string, k: Code)
    ensures Glyphs(" " + s, k) == Glyph(' ', Glyphs(s, k))
  {
    assert (" " + s)[1..] == s;
  }

  lemma PastKeyword(word: string, k: Code, cmd: bool, block: bool)
    requires word == "then" || word == "else" || word == "in"
    ensures Past(Glyphs(" " + (word + " "), k), "", cmd, block) == Past(k, "", true, block)
  {
    hide Past, Glyphs;
    BlankFirst(word + " ", k);
    PastBlank(Glyphs(word + " ", k), "", cmd, block);
    PastSpaced(word, k, cmd, block);
  }

  lemma {:induction false} ScriptPast(script: Script, k: Code, cmd: bool, block: bool)
    requires ScriptWritten(script)
    ensures Past(CodeOf(script, k), "", cmd, block)
         == if ScriptHeeded(script, cmd) then Past(k, "", if script.Done? then cmd else true, block) else None
    decreases script, 1
  {
    hide Past, CommandCode, CommandWritten, CommandHeeded;
    match script
    case Done =>
    case Item(command, sep, rest) =>
      CommandPast(command, sep, if rest.Done? then k else Glyph(' ', CodeOf(rest, k)), cmd, block);
      if rest.Item? {
        ScriptPast(rest, k, true, block);
        PastBlank(CodeOf(rest, k), "", true, block);
      }
  }

  lemma {:induction false} CommandPast(command: Command, sep: char, k: Code, cmd: bool, block: bool)
    requires CommandWritten(command) && EndsCommand(sep)
    ensures Past(CommandCode(command, sep, k), "", cmd, block)
         == if CommandHeeded(command, cmd) then Past(k, "", true, block) else None
    decreases command, 2
  {
    hide Past, Glyphs, CodeOf, ArgsCode, ArgsWritten, ArgsHeeded, ScriptWritten, ScriptHeeded, ArmsCode, ArmsWritten, ArmsHeeded;
    hide EndsCommand, IsReserved, Introduces;
    match command
    case Simple(name, args) =>
      PastLetters(name, ArgsCode(args, Glyph(sep, k)), "", cmd, block);
      assert "" + name == name;
      BlankMoves(name, cmd);
      ArgsPast(args, sep, k, name, cmd, block);
    case Subshell(body) =>
      BodyPast(body, true, false);
      GroupPast(false, Glyph(' ', CodeOf(body, Glyph(' ', Nil))), sep, k, cmd, block);
    case Braced(body) =>
      BodyPast(body, true, false);
      GroupPast(true, Glyph(' ', CodeOf(body, Glyph(' ', Nil))), sep, k, cmd, block);
    case IfThen(_, _, _) => IfPast(command, sep, k, cmd, block);
    case While(_, _) => WhilePast(command, sep, k, cmd, block);
    case CaseOf(subject, arms) =>
      CasePast(subject, arms);
      BlockPast(Case, Glyphs(subject, Glyphs(" in ", ArmsCode(arms))), sep, k, cmd, block);
  }

  lemma GroupPast(braced: bool, inner: Code, sep: char, k: Code, cmd: bool, block: bool)
    requires EndsCommand(sep)
    ensures Past(Group(braced, inner, Glyph(sep, k)), "", cmd, block)
         == if Past(inner, "", true, false).Some? then Past(k, "", true, block) else None
  {
    PastSeparator(sep, k, "", true, block);
    hide EndsCommand, PastGlyph;
  }

  lemma BlockPast(kind: Kind, inner: Code, sep: char, k: Code, cmd: bool, block: bool)
    requires IsBlock(kind) && EndsCommand(sep)
    ensures Past(Block(kind, inner, sep, k), "", cmd, block)
         == if cmd && Past(inner, "", kind == Do, true) == Some(Pos("", true)) then Past(k, "", true, block) else None
  {
    hide EndsCommand, PastGlyph;
  }

  lemma {:induction false} BodyPast(body: Script, cmd: bool, block: bool)
    requires ScriptWritten(body) && cmd
    ensures Past(CodeOf(body, Glyph(' ', Nil)), "", cmd, block) == if ScriptHeeded(body, cmd) then Some(Pos("", true)) else None
    ensures Past(Glyph(' ', CodeOf(body, Glyph(' ', Nil))), "", cmd, block)
         == Past(CodeOf(body, Glyph(' ', Nil)), "", cmd, block)
    decreases body, 2
  {
    ScriptPast(body, Glyph(' ', Nil), cmd, block);
    PastBlank(Nil, "", true, block);
    NilPast(block);
    hide Past, CodeOf, ScriptWritten, ScriptHeeded;
    PastBlank(CodeOf(body, Glyph(' ', Nil)), "", cmd, block);
  }

  lemma NilPast(block: bool)
    ensures Past(Nil, "", true, block) == Some(Pos("", true))
  {
  }

  lemma {:induction false} IfPast(command: Command, sep: char, k: Code, cmd: bool, block: bool)
    requires command.IfThen? && CommandWritten(command) && EndsCommand(sep)
    ensures Past(CommandCode(command, sep, k), "", cmd, block)
         == if CommandHeeded(command, cmd) then Past(k, "", true, block) else None
    decreases command, 1
  {
    hide Past, Glyphs, CodeOf, ScriptWritten, ScriptHeeded, EndsCommand;
    var cond, body, orElse := command.cond, command.body, command.orElse;
    var last := if orElse.Done? then Glyph(' ', Nil) else Glyphs(" else ", CodeOf(orElse, Glyph(' ', Nil)));
    ElsePast(command, last);
    ScriptPast(body, last, true, true);
    assert " then " == " " + ("then" + " ");
    PastKeyword("then", CodeOf(body, last), true, true);
    ScriptPast(cond, Glyphs(" then ", CodeOf(body, last)), false, true);
    BlockPast(If, CodeOf(cond, Glyphs(" then ", CodeOf(body, last))), sep, k, cmd, block);
  }

  lemma {:induction false} ElsePast(command: Command, last: Code)
    requires command.IfThen? && CommandWritten(command)
    requires last == if command.orElse.Done? then Glyph(' ', Nil) else Glyphs(" else ", CodeOf(command.orElse, Glyph(' ', Nil)))
    ensures Past(last, "", true, true) == if ScriptHeeded(command.orElse, true) then Some(Pos("", true)) else None
    decreases command, 0
  {
    var orElse := command.orElse;
    if orElse.Done? {
      PastBlank(Nil, "", true, true);
      NilPast(true);
    } else {
      hide Past, Glyphs, CodeOf, ScriptWritten, ScriptHeeded;
      BodyPast(orElse, true, true);
      assert " else " == " " + ("else" + " ");
      PastKeyword("else", CodeOf(orElse, Glyph(' ', Nil)), true, true);
    }
  }

  lemma {:induction false} WhilePast(command: Command, sep: char, k: Code, cmd: bool, block: bool)
    requires command.While? && CommandWritten(command) && EndsCommand(sep)
    ensures Past(CommandCode(command, sep, k), "", cmd, block)
         == if CommandHeeded(command, cmd) then Past(k, "", true, block) else None
    decreases command, 1
  {
    hide Past, Glyphs, CodeOf, ScriptWritten, ScriptHeeded, EndsCommand;
    var cond, body := command.cond, command.body;
    var loop := Block(Do, CodeOf(body, Glyph(' ', Nil)), sep, k);
    BodyPast(body, true, true);
    BlockPast(Do, CodeOf(body, Glyph(' ', Nil)), sep, k, true, block);
    PastBlank(loop, "", true, block);
    ScriptPast(cond, Glyph(' ', loop), false, block);
    assert "while " == "while" + " ";
    PastSpaced("while", CodeOf(cond, Glyph(' ', loop)), cmd, block);
  }

  lemma {:induction false} CasePast(subject: string, arms: Arms)
    requires IsWord(subject) && ArmsWritten(arms)
    ensures Past(Glyphs(subject, Glyphs(" in ", ArmsCode(arms))), "", false, true)
         == if ArmsHeeded(arms) then Some(Pos("", true)) else None
    decreases arms, 1
  {
    hide Past, Glyphs, ArmsCode, ArmsWritten, ArmsHeeded, IsReserved, Introduces;
    ArmsPast(arms);
    var rest := Glyphs("in ", ArmsCode(arms));
    assert " in " == " " + "in " && "in " == "in" + " ";
    BlankFirst("in ", ArmsCode(arms));
    PastLetters(subject, Glyph(' ', rest), "", false, true);
    assert "" + subject == subject;
    PastBlank(rest, subject, false, true);
    InIntroduces();
    PastSpaced("in", ArmsCode(arms), NextIsCommandPosition(' ', subject, false), true);
  }

  lemma InIntroduces()
    ensures IsWord("in") && !IsReserved("in") && Introduces("in")
  {
  }

  lemma {:induction false} ArmsPast(arms: Arms)
    requires ArmsWritten(arms)
    ensures Past(ArmsCode(arms), "", true, true) == if ArmsHeeded(arms) then Some(Pos("", true)) else None
    decreases arms, 0
  {
    hide Past, Glyphs, CodeOf, ScriptWritten, ScriptHeeded, IsReserved;
    match arms
    case NoArms => NilPast(true);
    case Arm(pattern, body, more) =>
      ArmsPast(more);
      var end := Glyphs(";; ", ArmsCode(more));
      PastEnd(ArmsCode(more));
      ScriptPast(body, end, true, true);
      BlankMoves("", true);
      PastBlank(CodeOf(body, end), "", true, true);
      PastParen(Glyph(' ', CodeOf(body, end)), pattern);
      PastLetters(pattern, Glyph(')', Glyph(' ', CodeOf(body, end))), "", true, true);
      assert "" + pattern == pattern;
  }

  lemma PastParen(k: Code, word: string)
    ensures Past(Glyph(')', k), word, true, true) == Past(k, "", true, true)
  {
  }

  lemma PastEnd(k: Code)
    ensures Past(Glyphs(";; ", k), "", true, true) == Past(k, "", true, true)
  {
    hide Past;
    OneGlyph(' ', k);
    assert "; "[1..] == " " && ";; "[1..] == "; ";
    assert Glyphs("; ", k) == Glyph(';', Glyph(' ', k));
    PastBlank(k, "", true, true);
    PastSeparator(';', Glyph(' ', k), "", true, true);
    PastSeparator(';', Glyph(';', Glyph(' ', k)), "", true, true);
  }

  lemma {:induction false} LastRunCut(a: string, c: char, b: string)
    requires !IsWordChar(c)
    ensures LastRun(a + [c] + b) == LastRun(b)
  {
    var s := a + [c] + b;
    if b != [] {
      assert s[..|s| - 1] == a + [c] + b[..|b| - 1];
      LastRunCut(a, c, b[..|b| - 1]);
    }
  }

  lemma {:induction false} LastRunWord(s: string)
    requires forall i :: 0 <= i < |s| ==> IsWordChar(s[i])
    ensures LastRun(s) == s
  {
    if s != "" {
      LastRunWord(s[..|s| - 1]);
    }
  }

  /** An ordinary word away from command position leaves its last run to be ended. */
  lemma {:induction false} PastOrdinary(s: string, k: Code, run: string, block: bool)
    requires forall i :: 0 <= i < |s| ==> IsOrdinary(s[i])
    requires forall i :: 0 <= i < |run| ==> IsWordChar(run[i])
    ensures Past(Glyphs(s, k), run, false, block) == Past(k, LastRun(run + s), false, block)
  {
    if s == [] {
      assert run + s == run;
      LastRunWord(run);
    } else {
      hide LastRun;
      assert IsOrdinary(s[0]);
      assert run + s == run + [s[0]] + s[1..];
      if IsWordChar(s[0]) {
        PastOrdinary(s[1..], k, run + [s[0]], block);
      } else {
        PastOrdinary(s[1..], k, "", block);
        assert "" + s[1..] == s[1..];
        LastRunCut(run, s[0], s[1..]);
        OrdinaryMark(s[0], Glyphs(s[1..], k), run, block);
      }
    }
  }

  lemma OrdinaryMark(c: char, k: Code, run: string, block: bool)
    requires IsOrdinary(c) && !IsWordChar(c)
    ensures Past(Glyph(c, k), run, false, block) == Past(k, "", false, block)
  {
  }

  lemma {:induction false} LettersCut(s: string)
    ensures |Letters(s)| <= |s| && s == Letters(s) + s[|Letters(s)|..]
    ensures forall i :: 0 <= i < |Letters(s)| ==> IsWordChar(Letters(s)[i])
    ensures |Letters(s)| < |s| ==> !IsWordChar(s[|Letters(s)|])
  {
    if s != "" && IsWordChar(s[0]) {
      LettersCut(s[1..]);
    }
  }

  /** How an ordinary word is left: stopped at a reserved word inside it, or with its last run still to be ended. */
  predicate WordLeft(s: string, k: Code, cmd: bool, block: bool, c: bool) {
    || (cmd && IsReserved(FirstRun(s)) && Past(Glyphs(s, k), "", cmd, block) == None)
    || (&& Past(Glyphs(s, k), "", cmd, block) == Past(k, LastRun(s), c, block)
        && ((c && IsReserved(LastRun(s))) <==> (cmd && IsReserved(FirstRun(s))))
        && NextIsCommandPosition(' ', LastRun(s), c) == AfterWord(s, cmd))
  }

  lemma {:induction false} PastWord(s: string, k: Code, cmd: bool, block: bool) returns (c: bool)
    requires forall i :: 0 <= i < |s| ==> IsOrdinary(s[i])
    ensures WordLeft(s, k, cmd, block, c)
  {
    if !cmd {
      PastOrdinary(s, k, "", block);
      assert "" + s == s;
      BlankMoves(LastRun(s), false);
      c := false;
    } else if s == "" {
      BlankMoves("", true);
      c := true;
    } else if IsWordChar(s[0]) {
      c := PastFirstRun(s, k, block);
    } else {
      hide Past;
      assert IsOrdinary(s[0]);
      MarkFirst(s[0], Glyphs(s[1..], k), block);
      c := PastWord(s[1..], k, cmd, block);
      assert s == "" + [s[0]] + s[1..];
      LastRunCut("", s[0], s[1..]);
    }
  }

  lemma MarkFirst(c: char, k: Code, block: bool)
    requires IsOrdinary(c) && !IsWordChar(c)
    ensures Past(Glyph(c, k), "", true, block) == Past(k, "", true, block)
  {
  }

  lemma PastFirstRun(s: string, k: Code, block: bool) returns (c: bool)
    requires s != "" && IsWordChar(s[0]) && forall i :: 0 <= i < |s| ==> IsOrdinary(s[i])
    ensures WordLeft(s, k, true, block, c)
  {
    LettersCut(s);
    var run, rest := Letters(s), s[|Letters(s)|..];
    assert FirstRun(s) == run && run != "";
    hide *;
    if rest == "" {
      assert s == run;
      PastWhole(s, k, block);
      c := true;
    } else {
      assert forall i :: 0 <= i < |rest| ==> rest[i] == s[|run| + i];
      assert s == run + [rest[0]] + rest[1..];
      LastRunCut(run, rest[0], rest[1..]);
      PastTwo(s, run, rest, k, block);
      c := false;
    }
  }

  lemma PastWhole(s: string, k: Code, block: bool)
    requires FirstRun(s) == s && s != "" && forall i :: 0 <= i < |s| ==> IsWordChar(s[i])
    ensures WordLeft(s, k, true, block, true)
  {
    hide Past, Glyphs, IsReserved, Introduces, IsWordChar;
    PastLetters(s, k, "", true, block);
    assert "" + s == s;
    LastRunWord(s);
    BlankMoves(s, true);
  }

  lemma PastTwo(s: string, run: string, rest: string, k: Code, block: bool)
    requires s == run + rest && run != "" && rest != "" && IsOrdinary(rest[0]) && !IsWordChar(rest[0])
    requires (forall i :: 0 <= i < |run| ==> IsWordChar(run[i])) && forall i :: 0 <= i < |rest| ==> IsOrdinary(rest[i])
    requires FirstRun(s) == run && LastRun(s) == LastRun(rest[1..])
    ensures WordLeft(s, k, true, block, false)
  {
    hide Past, Glyphs, IsReserved, Introduces, IsOrdinary, IsWordChar, FirstRun, LastRun;
    GlyphsConcat(run, rest, k);
    RestLeft(run, rest, k, block);
    BlankMoves(LastRun(s), false);
  }

  lemma RestLeft(run: string, rest: string, k: Code, block: bool)
    requires run != "" && rest != "" && IsOrdinary(rest[0]) && !IsWordChar(rest[0])
    requires (forall i :: 0 <= i < |run| ==> IsWordChar(run[i])) && forall i :: 0 <= i < |rest| ==> IsOrdinary(rest[i])
    ensures Past(Glyphs(run, Glyphs(rest, k)), "", true, block)
         == if IsReserved(run) then None else Past(k, LastRun(rest[1..]), false, block)
  {
    hide *;
    var after := rest[1..];
    OneThenGlyphs(rest, k);
    PastLetters(run, Glyphs(rest, k), "", true, block);
    assert "" + run == run;
    MarkAfter(rest[0], Glyphs(after, k), run, block);
    PastOrdinary(after, k, "", block);
    assert "" + after == after;
  }

  lemma OneThenGlyphs(s: string, k: Code)
    requires s != ""
    ensures Glyphs(s, k) == Glyph(s[0], Glyphs(s[1..], k))
  {
  }

  lemma MarkAfter(c: char, k: Code, run: string, block: bool)
    requires IsOrdinary(c) && !IsWordChar(c) && run != ""
    ensures Past(Glyph(c, k), run, true, block) == if IsReserved(run) then None else Past(k, "", false, block)
  {
    hide IsReserved, Introduces;
  }

  lemma {:induction false} ArgsPast(args: Args, sep: char, k: Code, word: string, cmd: bool, block: bool)
    requires EndsCommand(sep) && ArgsWritten(args)
    ensures Past(ArgsCode(args, Glyph(sep, k)), word, cmd, block)
         == if !(cmd && IsReserved(word)) && ArgsHeeded(args, NextIsCommandPosition(' ', word, cmd))
            then Past(k, "", true, block) else None
    decreases args
  {
    hide Past, Glyphs, StrungOf, ContentWritten, ContentHeeded, HasOutput, IsReserved, Introduces, FirstRun, LastRun;
    hide EndsCommand, IsOrdinary, IsWordChar, AfterWord;
    var now := NextIsCommandPosition(' ', word, cmd);
    BlankMoves(word, cmd);
    hide NextIsCommandPosition;
    if cmd && IsReserved(word) {
      ArgsStop(args, sep, k, word, block);
    } else {
      match args
      case NoArgs =>
        PastSeparator(sep, k, word, cmd, block);
      case Plain(w, others) =>
        var rest := ArgsCode(others, Glyph(sep, k));
        PastBlank(Glyphs(w, rest), word, cmd, block);
        var c := PastWord(w, rest, now, block);
        ArgsPast(others, sep, k, LastRun(w), c, block);
      case Apostrophes(text, others) =>
        var rest := ArgsCode(others, Glyph(sep, k));
        PastBlank(Quoted(text, rest), word, cmd, block);
        PastQuoted(text, rest, now, block);
        BlankMoves("", false);
        ArgsPast(others, sep, k, "", false, block);
      case Backslashed(c, others) =>
        var rest := ArgsCode(others, Glyph(sep, k));
        PastBlank(Escaped(c, rest), word, cmd, block);
        PastEscaped(c, rest, now, block);
        BlankMoves("", false);
        ArgsPast(others, sep, k, "", false, block);
      case InQuotes(content, others) =>
        var rest := ArgsCode(others, Glyph(sep, k));
        PastBlank(Doubled(StrungOf(content), rest), word, cmd, block);
        ContentPast(content, false);
        PastDoubled(StrungOf(content), rest, now, block);
        BlankMoves("", HasOutput(content));
        ArgsPast(others, sep, k, "", HasOutput(content), block);
    }
  }

  lemma ArgsStop(args: Args, sep: char, k: Code, word: string, block: bool)
    requires EndsCommand(sep) && IsReserved(word)
    ensures Past(ArgsCode(args, Glyph(sep, k)), word, true, block) == None
  {
    hide Glyphs, StrungOf;
  }

  /** Where a blank leaves the scan, after a word and after none. */
  lemma BlankMoves(word: string, cmd: bool)
    ensures NextIsCommandPosition(' ', word, cmd) == if word == "" then cmd else Introduces(word)
    ensures !IsReserved("") && !Introduces("")
  {
  }

  lemma PastQuoted(text: string, k: Code, cmd: bool, block: bool)
    requires '\'' !in text
    ensures Past(Quoted(text, k), "", cmd, block) == Past(k, "", false, block)
  {
  }

  lemma PastEscaped(c: char, k: Code, cmd: bool, block: bool)
    ensures Past(Escaped(c, k), "", cmd, block) == Past(k, "", false, block)
  {
  }

  lemma PastDoubled(body: Strung, k: Code, cmd: bool, block: bool)
    ensures Past(Doubled(body, k), "", cmd, block)
         == if PastStrung(body, false).Some? then Past(k, "", PastStrung(body, false).value, block) else None
  {
  }

  lemma {:induction false} ContentPast(content: Content, cmd: bool)
    requires ContentWritten(content)
    ensures PastStrung(StrungOf(content), cmd) == if ContentHeeded(content, cmd) then Some(cmd || HasOutput(content)) else None
    decreases content
  {
    hide Past, CodeOf, ScriptWritten, ScriptHeeded, IsName;
    match content
    case EndQuote =>
    case Char(_, further) => ContentPast(further, cmd);
    case Escape(_, further) => ContentPast(further, cmd);
    case Variable(_, further) => ContentPast(further, cmd);
    case Output(script, further) =>
      ScriptPast(script, Nil, cmd, false);
      NilIsSome(if script.Done? then cmd else true);
      ContentPast(further, true);
  }

  lemma NilIsSome(cmd: bool)
    ensures Past(Nil, "", cmd, false).Some?
  {
  }

  /** The scan reads a script as the tree it is exactly when every keyword stands where it is looked for. */
  lemma ReadAsATree(script: Script, cmd: bool)
    requires ScriptWritten(script)
    ensures ScriptHeeded(script, cmd) <==> Past(CodeOf(script, Nil), "", cmd, false).Some?
  {
    ScriptPast(script, Nil, cmd, false);
    NilIsSome(if script.Done? then cmd else true);
  }
}
