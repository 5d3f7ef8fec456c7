/** A grammar of scripts for the nesting scan: what each prints, and the tree it is. */
module NestingScripts {
  import opened Wrappers
  import opened Chars
  import opened Nesting
  import opened NestingCode
  import Seqs

  // ------------------------------------------------------------------ a grammar of scripts

  datatype Script = Done | Item(command: Command, sep: char, rest: Script)

  datatype Command =
    | Simple(name: string, args: Args)
    | Subshell(body: Script)
    | Braced(body: Script)
    | IfThen(cond: Script, body: Script, orElse: Script)
    | While(cond: Script, body: Script)
    | CaseOf(subject: string, arms: Arms)

  datatype Arms = NoArms | Arm(pattern: string, body: Script, more: Arms)

  datatype Args =
    | NoArgs
    | Plain(word: string, others: Args)
    | Apostrophes(text: string, others: Args)
    | Backslashed(c: char, others: Args)
    | InQuotes(content: Content, others: Args)

  /** What stands between double quotes: characters, `${name}` and `$(script)`. */
  datatype Content =
    | EndQuote
    | Char(c: char, further: Content)
    | Escape(c: char, further: Content)
    | Variable(name: string, further: Content)
    | Output(script: Script, further: Content)

  function PrintScript(script: Script): string {
    match script
    case Done => []
    case Item(command, sep, rest) =>
      PrintCommand(command) + ([sep] + (if rest.Done? then [] else [' '] + PrintScript(rest)))
  }

  function PrintCommand(command: Command): string {
    match command
    case Simple(name, args) => name + PrintArgs(args)
    case Subshell(body) => ("(" + " ") + PrintScript(body) + (" " + ")")
    case Braced(body) => ("{" + " ") + PrintScript(body) + (" " + "}")
    case IfThen(cond, body, orElse) =>
      "if " + PrintScript(cond) + " then " + PrintScript(body)
      + (if orElse.Done? then " fi" else " else " + PrintScript(orElse) + " fi")
    case While(cond, body) => "while " + PrintScript(cond) + " do " + PrintScript(body) + " done"
    case CaseOf(subject, arms) => "case " + subject + " in " + PrintArms(arms) + "esac"
  }

  function PrintArms(arms: Arms): string {
    match arms
    case NoArms => []
    case Arm(pattern, body, more) => pattern + ") " + PrintScript(body) + ";; " + PrintArms(more)
  }

  function PrintArgs(args: Args): string {
    match args
    case NoArgs => []
    case Plain(word, others) => " " + word + PrintArgs(others)
    case Apostrophes(text, others) => " '" + text + "'" + PrintArgs(others)
    case Backslashed(c, others) => [' ', '\\', c] + PrintArgs(others)
    case InQuotes(content, others) => " \"" + PrintContent(content) + PrintArgs(others)
  }

  function PrintContent(content: Content): string {
    match content
    case EndQuote => "\""
    case Char(c, further) => [c] + PrintContent(further)
    case Escape(c, further) => ['\\', c] + PrintContent(further)
    case Variable(name, further) => "${" + name + "}" + PrintContent(further)
    case Output(script, further) => "$(" + PrintScript(script) + ")" + PrintContent(further)
  }

  // The scripts the scan can follow.

  predicate IsWord(s: string) {
    s != "" && forall k :: 0 <= k < |s| ==> IsWordChar(s[k])
  }

  /** Not a quote, a bracket, a separator, a blank or the start of a comment. */
  predicate IsOrdinary(c: char) {
    !IsWhitespace(c) && !EndsCommand(c) && c !in "\\'\"#(){}"
  }

  /** The letters, digits and underscores `s` ends in. */
  function LastRun(s: string): string {
    if s == "" || !IsWordChar(s[|s| - 1]) then "" else LastRun(s[..|s| - 1]) + [s[|s| - 1]]
  }

  /** The first letters, digits and underscores in `s`, together. */
  function FirstRun(s: string): string {
    if s == "" then "" else if IsWordChar(s[0]) then Letters(s) else FirstRun(s[1..])
  }

  /** Those `s` starts with. */
  function Letters(s: string): string {
    if s == "" || !IsWordChar(s[0]) then "" else [s[0]] + Letters(s[1..])
  }

  // What makes the text a script, whatever words stand where: no comment, no unfinished quote or name.

  predicate ScriptWritten(script: Script) {
    match script
    case Done => true
    case Item(command, sep, rest) => EndsCommand(sep) && CommandWritten(command) && ScriptWritten(rest)
  }

  predicate CommandWritten(command: Command) {
    match command
    case Simple(name, args) => IsWord(name) && !IsReserved(name) && ArgsWritten(args)
    case Subshell(body) => ScriptWritten(body)
    case Braced(body) => ScriptWritten(body)
    case IfThen(cond, body, orElse) => cond.Item? && ScriptWritten(cond) && ScriptWritten(body) && ScriptWritten(orElse)
    case While(cond, body) => cond.Item? && ScriptWritten(cond) && ScriptWritten(body)
    case CaseOf(subject, arms) => IsWord(subject) && ArmsWritten(arms)
  }

  predicate ArmsWritten(arms: Arms) {
    match arms
    case NoArms => true
    case Arm(pattern, body, more) => IsWord(pattern) && ScriptWritten(body) && ArmsWritten(more)
  }

  predicate ArgsWritten(args: Args) {
    match args
    case NoArgs => true
    case Plain(word, others) => word != "" && (forall k :: 0 <= k < |word| ==> IsOrdinary(word[k])) && ArgsWritten(others)
    case Apostrophes(text, others) => '\'' !in text && ArgsWritten(others)
    case Backslashed(_, others) => ArgsWritten(others)
    case InQuotes(content, others) => ContentWritten(content) && ArgsWritten(others)
  }

  predicate ContentWritten(content: Content) {
    match content
    case EndQuote => true
    case Char(c, further) =>
      c !in "\"\\" && !(c == '$' && further.Char? && (further.c == '(' || further.c == '{')) && ContentWritten(further)
    case Escape(_, further) => ContentWritten(further)
    case Variable(name, further) => IsName(name) && ContentWritten(further)
    case Output(script, further) => ScriptWritten(script) && ContentWritten(further)
  }

  // Whether the scan takes every keyword of the script for one, and no other word. `cmd` says whether it takes
  // the place for one where a command may start.

  /** No `if` or `case` stands right after `if`, `while` or `"$(`, where it would be missed. */
  predicate ScriptHeeded(script: Script, cmd: bool) {
    match script
    case Done => true
    case Item(command, _, rest) => CommandHeeded(command, cmd) && ScriptHeeded(rest, true)
  }

  predicate CommandHeeded(command: Command, cmd: bool) {
    match command
    case Simple(name, args) => ArgsHeeded(args, Introduces(name))
    case Subshell(body) => ScriptHeeded(body, true)
    case Braced(body) => ScriptHeeded(body, true)
    case IfThen(cond, body, orElse) =>
      cmd && ScriptHeeded(cond, false) && ScriptHeeded(body, true) && ScriptHeeded(orElse, true)
    case While(cond, body) => ScriptHeeded(cond, false) && ScriptHeeded(body, true)
    case CaseOf(_, arms) => cmd && ArmsHeeded(arms)
  }

  predicate ArmsHeeded(arms: Arms) {
    match arms
    case NoArms => true
    case Arm(_, body, more) => ScriptHeeded(body, true) && ArmsHeeded(more)
  }

  /** No argument's first run is a reserved word right after `then`, `else`, `elif`, `do` or `in`, or right after
      a string with a substitution in it. Elsewhere an argument may be any word. */
  predicate ArgsHeeded(args: Args, cmd: bool) {
    match args
    case NoArgs => true
    case Plain(word, others) => !(cmd && IsReserved(FirstRun(word))) && ArgsHeeded(others, AfterWord(word, cmd))
    case Apostrophes(_, others) => ArgsHeeded(others, false)
    case Backslashed(_, others) => ArgsHeeded(others, false)
    case InQuotes(content, others) => ContentHeeded(content, false) && ArgsHeeded(others, HasOutput(content))
  }

  predicate ContentHeeded(content: Content, cmd: bool) {
    match content
    case EndQuote => true
    case Char(_, further) => ContentHeeded(further, cmd)
    case Escape(_, further) => ContentHeeded(further, cmd)
    case Variable(_, further) => ContentHeeded(further, cmd)
    case Output(script, further) => ScriptHeeded(script, cmd) && ContentHeeded(further, true)
  }

  /** Whether a command may start after the argument `word` and a blank, as the scan sees it. */
  predicate AfterWord(word: string, cmd: bool) {
    if LastRun(word) == "" then cmd && FirstRun(word) == "" else Introduces(LastRun(word))
  }

  predicate ScriptOk(script: Script, cmd: bool) {
    ScriptWritten(script) && ScriptHeeded(script, cmd)
  }

  predicate HasOutput(content: Content) {
    match content
    case EndQuote => false
    case Char(_, further) => HasOutput(further)
    case Escape(_, further) => HasOutput(further)
    case Variable(_, further) => HasOutput(further)
    case Output(_, _) => true
  }

  // ------------------------------------------------------------------ scripts as trees

  function Glyphs(s: string, k: Code): Code {
    if s == [] then k else Glyph(s[0], Glyphs(s[1..], k))
  }

  function CodeOf(script: Script, k: Code): Code {
    match script
    case Done => k
    case Item(command, sep, rest) =>
      CommandCode(command, sep, if rest.Done? then k else Glyph(' ', CodeOf(rest, k)))
  }

  function CommandCode(command: Command, sep: char, k: Code): Code {
    match command
    case Simple(name, args) => Glyphs(name, ArgsCode(args, Glyph(sep, k)))
    case Subshell(body) => Group(false, Glyph(' ', CodeOf(body, Glyph(' ', Nil))), Glyph(sep, k))
    case Braced(body) => Group(true, Glyph(' ', CodeOf(body, Glyph(' ', Nil))), Glyph(sep, k))
    case IfThen(cond, body, orElse) =>
      Block(If,
            CodeOf(cond, Glyphs(" then ", CodeOf(body,
              if orElse.Done? then Glyph(' ', Nil) else Glyphs(" else ", CodeOf(orElse, Glyph(' ', Nil)))))),
            sep, k)
    case While(cond, body) =>
      Glyphs("while ", CodeOf(cond, Glyph(' ', Block(Do, CodeOf(body, Glyph(' ', Nil)), sep, k))))
    case CaseOf(subject, arms) => Block(Case, Glyphs(subject, Glyphs(" in ", ArmsCode(arms))), sep, k)
  }

  function ArmsCode(arms: Arms): Code {
    match arms
    case NoArms => Nil
    case Arm(pattern, body, more) =>
      Glyphs(pattern, Glyph(')', Glyph(' ', CodeOf(body, Glyphs(";; ", ArmsCode(more))))))
  }

  function ArgsCode(args: Args, k: Code): Code {
    match args
    case NoArgs => k
    case Plain(word, others) => Glyph(' ', Glyphs(word, ArgsCode(others, k)))
    case Apostrophes(text, others) => Glyph(' ', Quoted(text, ArgsCode(others, k)))
    case Backslashed(c, others) => Glyph(' ', Escaped(c, ArgsCode(others, k)))
    case InQuotes(content, others) => Glyph(' ', Doubled(StrungOf(content), ArgsCode(others, k)))
  }

  function StrungOf(content: Content): Strung {
    match content
    case EndQuote => Close
    case Char(c, further) => Lit(c, StrungOf(further))
    case Escape(c, further) => Esc(c, StrungOf(further))
    case Variable(name, further) => Param(name, StrungOf(further))
    case Output(script, further) => Subst(CodeOf(script, Nil), StrungOf(further))
  }

  // The tree prints as the script.

  lemma {:induction false} GlyphsAre(s: string, k: Code)
    ensures Print(Glyphs(s, k)) == s + Print(k)
  {
    if s == [] {
      assert s + Print(k) == Print(k);
    } else {
      GlyphsAre(s[1..], k);
      assert s == [s[0]] + s[1..];
      Seqs.Assoc([s[0]], s[1..], Print(k));
    }
  }

  lemma {:induction false} ScriptPrints(script: Script, k: Code)
    ensures Print(CodeOf(script, k)) == PrintScript(script) + Print(k)
    decreases script, 1
  {
    hide CommandCode, PrintCommand;
    match script
    case Done =>
      assert [] + Print(k) == Print(k);
    case Item(command, sep, rest) =>
      var next := if rest.Done? then k else Glyph(' ', CodeOf(rest, k));
      CommandPrints(command, sep, next);
      if rest.Item? {
        ScriptPrints(rest, k);
        hide PrintScript, CodeOf;
        Seqs.Assoc([' '], PrintScript(rest), Print(k));
      }
      var after := if rest.Done? then [] else [' '] + PrintScript(rest);
      assert Print(next) == after + Print(k);
      hide Print, PrintScript;
      Seqs.Assoc([sep], after, Print(k));
      Seqs.Assoc(PrintCommand(command), [sep] + after, Print(k));
  }

  lemma {:induction false} CommandPrints(command: Command, sep: char, k: Code)
    ensures Print(CommandCode(command, sep, k)) == PrintCommand(command) + ([sep] + Print(k))
    decreases command, 2
  {
    hide ArgsCode, PrintArgs, CodeOf, PrintScript, ArmsCode, PrintArms;
    match command
    case Simple(name, args) =>
      GlyphsAre(name, ArgsCode(args, Glyph(sep, k)));
      ArgsPrint(args, Glyph(sep, k));
      hide Glyphs;
      Seqs.Assoc(name, PrintArgs(args), [sep] + Print(k));
    case Subshell(body) =>
      BodyPrints(body);
      GroupText("(", PrintScript(body), ")", [sep] + Print(k));
    case Braced(body) =>
      BodyPrints(body);
      GroupText("{", PrintScript(body), "}", [sep] + Print(k));
    case IfThen(_, _, _) => IfPrints(command, sep, k);
    case While(_, _) => WhilePrints(command, sep, k);
    case CaseOf(subject, arms) =>
      hide Glyphs;
      CasePrints(subject, arms);
      CaseText(subject, PrintArms(arms), sep, Print(k));
  }

  lemma GroupText(open: string, body: string, close: string, k: string)
    ensures (open + (" " + body + " ") + close) + k == ((open + " ") + body + (" " + close)) + k
  {
  }

  lemma CaseText(subject: string, arms: string, sep: char, k: string)
    ensures (("case" + [' ']) + (subject + (" in " + arms)) + ("esac" + [sep])) + k
         == ("case " + subject + " in " + arms + "esac") + ([sep] + k)
  {
  }

  lemma {:induction false} CasePrints(subject: string, arms: Arms)
    ensures Print(Glyphs(subject, Glyphs(" in ", ArmsCode(arms)))) == subject + (" in " + PrintArms(arms))
    decreases arms, 1
  {
    hide ArmsCode, PrintArms;
    GlyphsAre(subject, Glyphs(" in ", ArmsCode(arms)));
    GlyphsAre(" in ", ArmsCode(arms));
    ArmsPrint(arms);
  }

  /** A body with a blank on either side. */
  lemma {:induction false} BodyPrints(body: Script)
    ensures Print(Glyph(' ', CodeOf(body, Glyph(' ', Nil)))) == " " + PrintScript(body) + " "
    ensures Print(CodeOf(body, Glyph(' ', Nil))) == PrintScript(body) + " "
    decreases body, 2
  {
    ScriptPrints(body, Glyph(' ', Nil));
    assert Print(Glyph(' ', Nil)) == " ";
    hide CodeOf, PrintScript;
    assert [' '] + (PrintScript(body) + " ") == " " + PrintScript(body) + " ";
  }

  lemma BlockPrints(kind: Kind, inner: Code, sep: char, k: Code)
    ensures Print(Block(kind, inner, sep, k)) == ((Opener(kind) + [' ']) + Print(inner) + (Closer(kind) + [sep])) + Print(k)
  {
    hide Opener, Closer;
  }

  lemma {:induction false} IfPrints(command: Command, sep: char, k: Code)
    requires command.IfThen?
    ensures Print(CommandCode(command, sep, k)) == PrintCommand(command) + ([sep] + Print(k))
    decreases command, 1
  {
    hide CodeOf, PrintScript, Glyphs;
    var cond, body, orElse := command.cond, command.body, command.orElse;
    var last := if orElse.Done? then Glyph(' ', Nil) else Glyphs(" else ", CodeOf(orElse, Glyph(' ', Nil)));
    if orElse.Done? {
      assert Print(last) == " ";
    } else {
      BodyPrints(orElse);
      GlyphsAre(" else ", CodeOf(orElse, Glyph(' ', Nil)));
    }
    ScriptPrints(body, last);
    GlyphsAre(" then ", CodeOf(body, last));
    ScriptPrints(cond, Glyphs(" then ", CodeOf(body, last)));
    BlockPrints(If, CodeOf(cond, Glyphs(" then ", CodeOf(body, last))), sep, k);
    hide Print;
    IfText(PrintScript(cond), PrintScript(body), if orElse.Done? then None else Some(PrintScript(orElse)), Print(last), sep, Print(k));
  }

  lemma IfText(cond: string, body: string, orElse: Option<string>, last: string, sep: char, k: string)
    requires last == if orElse.None? then " " else " else " + (orElse.value + " ")
    ensures (("if" + [' ']) + (cond + (" then " + (body + last))) + ("fi" + [sep])) + k
         == ("if " + cond + " then " + body + (if orElse.None? then " fi" else " else " + orElse.value + " fi")) + ([sep] + k)
  {
  }

  lemma {:induction false} WhilePrints(command: Command, sep: char, k: Code)
    requires command.While?
    ensures Print(CommandCode(command, sep, k)) == PrintCommand(command) + ([sep] + Print(k))
    decreases command, 1
  {
    hide CodeOf, PrintScript, Glyphs, Print;
    var cond, body := command.cond, command.body;
    var inner := CodeOf(body, Glyph(' ', Nil));
    var loop := Block(Do, inner, sep, k);
    BodyPrints(body);
    BlockPrints(Do, inner, sep, k);
    AfterBlank(loop, "", ' ', Close);
    ScriptPrints(cond, Glyph(' ', loop));
    GlyphsAre("while ", CodeOf(cond, Glyph(' ', loop)));
    WhileText(PrintScript(cond), PrintScript(body), sep, Print(k));
  }

  lemma WhileText(cond: string, body: string, sep: char, k: string)
    ensures "while " + (cond + ([' '] + ((("do" + [' ']) + (body + " ") + ("done" + [sep])) + k)))
         == ("while " + cond + " do " + body + " done") + ([sep] + k)
  {
  }

  lemma {:induction false} ArmsPrint(arms: Arms)
    ensures Print(ArmsCode(arms)) == PrintArms(arms)
    decreases arms, 0
  {
    hide CodeOf, PrintScript, Glyphs;
    match arms
    case NoArms =>
    case Arm(pattern, body, more) =>
      ArmsPrint(more);
      GlyphsAre(";; ", ArmsCode(more));
      ScriptPrints(body, Glyphs(";; ", ArmsCode(more)));
      GlyphsAre(pattern, Glyph(')', Glyph(' ', CodeOf(body, Glyphs(";; ", ArmsCode(more))))));
      ArmText(pattern, PrintScript(body), PrintArms(more));
  }

  lemma ArmText(pattern: string, body: string, more: string)
    ensures pattern + ([')'] + ([' '] + (body + (";; " + more)))) == pattern + ") " + body + ";; " + more
  {
  }

  lemma AfterBlank(k: Code, text: string, c: char, body: Strung)
    ensures Print(Glyph(' ', k)) == [' '] + Print(k)
    ensures Print(Quoted(text, k)) == ("'" + text + "'") + Print(k)
    ensures Print(Escaped(c, k)) == ['\\', c] + Print(k)
    ensures Print(Doubled(body, k)) == ("\"" + PrintStrung(body)) + Print(k)
  {
    hide PrintStrung;
  }

  lemma {:induction false} ArgsPrint(args: Args, k: Code)
    ensures Print(ArgsCode(args, k)) == PrintArgs(args) + Print(k)
    decreases args
  {
    hide Print, Glyphs, StrungOf, PrintStrung, PrintContent;
    match args
    case NoArgs =>
      assert [] + Print(k) == Print(k);
    case Plain(word, others) =>
      var rest := ArgsCode(others, k);
      ArgsPrint(others, k);
      GlyphsAre(word, rest);
      AfterBlank(Glyphs(word, rest), "", ' ', Close);
      ArgText(word, PrintArgs(others), Print(k));
    case Apostrophes(text, others) =>
      var rest := ArgsCode(others, k);
      ArgsPrint(others, k);
      AfterBlank(rest, text, ' ', Close);
      AfterBlank(Quoted(text, rest), "", ' ', Close);
      ArgText("'" + text + "'", PrintArgs(others), Print(k));
      assert " " + ("'" + text + "'") == " '" + text + "'";
    case Backslashed(c, others) =>
      var rest := ArgsCode(others, k);
      ArgsPrint(others, k);
      AfterBlank(rest, "", c, Close);
      AfterBlank(Escaped(c, rest), "", ' ', Close);
      ArgText(['\\', c], PrintArgs(others), Print(k));
      assert " " + ['\\', c] == [' ', '\\', c];
    case InQuotes(content, others) =>
      var rest := ArgsCode(others, k);
      ArgsPrint(others, k);
      ContentPrints(content);
      AfterBlank(rest, "", ' ', StrungOf(content));
      AfterBlank(Doubled(StrungOf(content), rest), "", ' ', Close);
      ArgText("\"" + PrintContent(content), PrintArgs(others), Print(k));
      assert " " + ("\"" + PrintContent(content)) == " \"" + PrintContent(content);
  }

  lemma ArgText(word: string, others: string, k: string)
    ensures [' '] + (word + (others + k)) == (" " + word + others) + k
  {
  }

  lemma {:induction false} ContentPrints(content: Content)
    ensures PrintStrung(StrungOf(content)) == PrintContent(content)
    decreases content
  {
    hide CodeOf, PrintScript;
    match content
    case EndQuote =>
    case Char(_, further) => ContentPrints(further);
    case Escape(_, further) => ContentPrints(further);
    case Variable(name, further) =>
      ContentPrints(further);
    case Output(script, further) =>
      ContentPrints(further);
      ScriptPrints(script, Nil);
      assert PrintScript(script) + [] == PrintScript(script);
  }
}
