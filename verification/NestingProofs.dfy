/** What the nesting check promises of scripts, and the scripts it misjudges. */
module NestingProofs {
  import opened Wrappers
  import opened Chars
  import opened Nesting
  import opened NestingCode
  import opened NestingScripts
  import opened NestingDepth
  import opened NestingKeywords
  import opened NestingMoves
  import Heredoc

  /** Text the scan reads as it stands, its last line ended. */
  predicate Unchanged(text: string) {
    Heredoc.NoHeredoc(text) && '\r' !in text
  }

  lemma ScanOfCode(code: Code, input: string)
    requires Heredoc.Stripped(input) == Print(code) && Past(code, "", true, false) == Some(Pos("", true))
    ensures ScanOf(input) == Found(Reach(code, 0), 0)
  {
    CodeRuns(START, code, false);
    assert Top([]) == 0;
    hide Print, Past, Reach, Run, Heredoc.Stripped;
  }

  /** Whether or not its last line is ended, a script is read as one tree. */
  lemma TreeOf(script: Script) returns (code: Code)
    requires ScriptOk(script, true) && Unchanged(PrintScript(script))
    ensures Heredoc.Stripped(PrintScript(script)) == Print(code) && Past(code, "", true, false) == Some(Pos("", true))
    ensures code == CodeOf(script, Nil) || code == CodeOf(script, Glyph('\n', Nil))
  {
    var text := PrintScript(script);
    Heredoc.PlainScriptStands(text);
    var ended := text == [] || text[|text| - 1] == '\n';
    var last := if ended then Nil else Glyph('\n', Nil);
    assert Print(last) == if ended then [] else ['\n'];
    NilPast(false);
    PastSeparator('\n', Nil, "", true, false);
    hide Print, Past, PrintScript, CodeOf, ScriptWritten, ScriptHeeded, Heredoc.Stripped;
    ScriptPrints(script, last);
    ScriptPast(script, last, true, false);
    code := CodeOf(script, last);
    assert text + [] == text;
  }

  /** A script read keyword by keyword closes what it opens, and the scan says so. It never says deeper than the
      script is, and says how deep exactly when some deepest place comes before every `}` in a double-quoted
      string in each brace group around it. */
  lemma ScriptsAreMeasured(script: Script)
    requires ScriptOk(script, true) && Unchanged(PrintScript(script))
    ensures var found := ScanOf(PrintScript(script));
            && found.unmatched == 0
            && found.maxDepth <= ScriptDepth(script)
            && (found.maxDepth == ScriptDepth(script) <==> ScriptSees(script, ScriptDepth(script), false))
  {
    var code := TreeOf(script);
    ScanOfCode(code, PrintScript(script));
    hide ScanOf, PrintScript, ScriptOk, Unchanged;
    ReachOf(script, code, 0);
  }

  lemma ReachOf(script: Script, code: Code, top: nat)
    requires top == 0 && (code == CodeOf(script, Nil) || exists c :: code == CodeOf(script, Glyph(c, Nil)))
    ensures Reach(code, top) <= ScriptDepth(script)
    ensures Reach(code, top) == ScriptDepth(script) <==> ScriptSees(script, ScriptDepth(script), false)
  {
    var d := ScriptDepth(script);
    var k := if code == CodeOf(script, Nil) then Nil else var c :| code == CodeOf(script, Glyph(c, Nil)); Glyph(c, Nil);
    NothingSeen(d);
    if k.Glyph? {
      GlyphMeasures(k.c, Nil, d, false);
    }
    SeesNone(script, d, false);
    hide ScriptDepth, ScriptSees, CodeOf, Reach, Depth, Sees;
    ScriptMeasures(script, k, d, false);
    NeverOver(code, top);
    if d > 0 {
      SeesExact(code, d, false, top);
    }
  }

  lemma NothingSeen(d: nat)
    ensures Depth(Nil) == 0 && (Sees(Nil, d, false) <==> d == 0)
  {
  }

  /** A word is under way only in text that is neither quoted, escaped nor a comment. */
  predicate Calm(s: Scan) {
    s.word != "" ==> s.quote == Bare && !s.escaped && !s.comment
  }

  lemma CalmStep(s: Scan, c: char)
    requires Calm(s)
    ensures Calm(Step(s, c)) && (c == '\n' ==> Step(s, c).word == "")
    ensures c == '\n' && s.word == "" ==> Step(s, c).stack == s.stack && Step(s, c).max == s.max
  {
    hide Shut, Resumed, Max, Introduces, IsWhitespace;
    assert !IsWordChar('\n');
    hide IsWordChar;
  }

  lemma {:induction false} CalmRuns(s: Scan, text: string)
    requires Calm(s)
    ensures Calm(Run(s, text))
    decreases |text|
  {
    if text != [] {
      CalmStep(s, text[0]);
      CalmRuns(Step(s, text[0]), text[1..]);
    }
  }

  lemma NewlineMore(s: Scan, text: string)
    requires Calm(s) && text != [] && text[|text| - 1] == '\n'
    ensures var (one, two) := (Finished(Run(s, text)), Finished(Run(s, text + ['\n'])));
            one.stack == two.stack && one.max == two.max
  {
    hide Step, Calm;
    var most := text[..|text| - 1];
    assert most + ['\n'] == text;
    RunConcat(s, most, ['\n']);
    RunConcat(s, text, ['\n']);
    CalmRuns(s, most);
    RunOne(Run(s, most), '\n');
    RunOne(Run(s, text), '\n');
    CalmStep(Run(s, most), '\n');
    CalmStep(Run(s, text), '\n');
    hide Run;
  }

  /** Leaving out the newline that ends the script makes no difference. */
  lemma LastNewlineIsFree(text: string)
    requires Unchanged(text) && text != [] && text[|text| - 1] == '\n'
    ensures ScanOf(text[..|text| - 1]) == ScanOf(text)
  {
    var most := text[..|text| - 1];
    assert most + ['\n'] == text;
    assert Heredoc.NoHeredoc(most);
    Heredoc.PlainScriptStands(text);
    Heredoc.PlainScriptStands(most);
    hide Step, Heredoc.Stripped;
    if most == [] {
      RunOne(START, '\n');
      CalmStep(START, '\n');
    } else if most[|most| - 1] == '\n' {
      NewlineMore(START, most);
    }
    hide Run;
  }

  /** The check passes every such script of a hundred levels or fewer, and refuses every deeper one whose depth
      shows, for its depth and never for its openers. */
  lemma VerdictOnScripts(script: Script)
    requires ScriptOk(script, true) && Unchanged(PrintScript(script)) && ScriptSees(script, ScriptDepth(script), false)
    ensures Verdict(PrintScript(script)) == if ScriptDepth(script) > 100 then Err(TooDeep) else Ok(())
  {
    ScriptsAreMeasured(script);
    hide ScanOf, PrintScript, ScriptDepth, ScriptSees;
  }

  // ------------------------------------------------------------------ what it misjudges

  /** `{ echo "}"; p }` */
  function HidingALevel(body: Script): Script {
    Item(Braced(Item(Simple("echo", InQuotes(Char('}', EndQuote), NoArgs)), ';', body)), '\n', Done)
  }

  /** The quoted `}` closes the group around it: whatever follows there is counted one level too shallow. */
  lemma QuotedBraceHidesALevel(body: Script)
    requires ScriptOk(body, true) && body.Item? && ScriptSees(body, ScriptDepth(body), false)
    requires Unchanged(PrintScript(HidingALevel(body)))
    ensures ScriptDepth(HidingALevel(body)) == 1 + ScriptDepth(body)
    ensures ScanOf(PrintScript(HidingALevel(body))) == Found(Max(1, ScriptDepth(body)), 0)
  {
    var script := HidingALevel(body);
    HidingIsOk(body);
    var code := TreeOf(script);
    ScanOfCode(code, PrintScript(script));
    HidingReach(body, Nil);
    HidingReach(body, Glyph('\n', Nil));
    HidingDepth(body);
    hide *;
  }

  lemma HidingDepth(body: Script)
    ensures ScriptDepth(HidingALevel(body)) == 1 + ScriptDepth(body)
  {
    var args := InQuotes(Char('}', EndQuote), NoArgs);
    assert ContentDepth(Char('}', EndQuote)) == 0;
    assert ArgsDepth(args) == 0;
    hide ArgsDepth;
    assert CommandDepth(Simple("echo", args)) == 0;
    assert ScriptDepth(Item(Simple("echo", args), ';', body)) == ScriptDepth(body);
  }

  lemma ReachGlyph(c: char, next: Code, top: nat)
    ensures Reach(Glyph(c, next), top) == Reach(next, top)
  {
  }

  lemma ReachGroup(braced: bool, inner: Code, next: Code, top: nat)
    requires braced
    ensures Reach(Group(braced, inner, next), top)
         == Then(1 + Reach(inner, top + 1), Pops(inner), top, Reach(next, top - Min(Pops(inner), top)))
  {
    hide Pops, Then, Min;
  }

  lemma ReachDoubled(body: Strung, next: Code, top: nat)
    ensures Reach(Doubled(body, next), top)
         == Then(StrungReach(body, top), StrungPops(body), top, Reach(next, top - Min(StrungPops(body), top)))
  {
    hide StrungPops, StrungReach;
  }

  lemma HidingIsOk(body: Script)
    requires ScriptOk(body, true)
    ensures ScriptOk(HidingALevel(body), true)
  {
    var args := InQuotes(Char('}', EndQuote), NoArgs);
    assert ContentWritten(Char('}', EndQuote)) && ContentHeeded(Char('}', EndQuote), false);
    assert ArgsWritten(args) && ArgsHeeded(args, false);
    assert IsWord("echo") && !IsReserved("echo") && !Introduces("echo");
    assert CommandWritten(Simple("echo", args)) && CommandHeeded(Simple("echo", args), true);
    var inside := Item(Simple("echo", args), ';', body);
    assert ScriptWritten(inside) && ScriptHeeded(inside, true);
    assert CommandWritten(Braced(inside)) && CommandHeeded(Braced(inside), true);
    assert EndsCommand('\n') && ScriptWritten(Done) && ScriptHeeded(Done, true);
    hide CommandWritten, CommandHeeded;
  }

  lemma HidingReach(body: Script, k: Code)
    requires body.Item? && ScriptSees(body, ScriptDepth(body), false) && (k == Nil || k == Glyph('\n', Nil))
    ensures Reach(CodeOf(HidingALevel(body), k), 0) == Max(1, ScriptDepth(body))
  {
    HidingTree(body, k);
    HidingCount(body, k, CodeOf(body, Glyph(' ', Nil)), "echo", 0);
    hide *;
  }

  lemma HidingCount(body: Script, k: Code, rest: Code, name: string, top: nat)
    requires ScriptSees(body, ScriptDepth(body), false) && (k == Nil || k == Glyph('\n', Nil)) && top == 0
    requires rest == CodeOf(body, Glyph(' ', Nil))
    ensures Reach(Group(true, Glyph(' ', Glyphs(name, Quoting(rest))), Glyph('\n', k)), top) == Max(1, ScriptDepth(body))
  {
    hide *;
    BodyIsExact(body);
    HidingQuoted(rest, top + 1);
    GlyphsReach(name, Quoting(rest), top + 1);
    HidingGroup(Glyphs(name, Quoting(rest)), k, top);
    MaxesMeet(ScriptDepth(body));
  }

  lemma BodyIsExact(body: Script)
    requires ScriptSees(body, ScriptDepth(body), false)
    ensures Reach(CodeOf(body, Glyph(' ', Nil)), 0) == ScriptDepth(body)
  {
    hide *;
    ReachOf(body, CodeOf(body, Glyph(' ', Nil)), 0);
  }

  /** ` "}"; ` and what follows it. */
  function Quoting(rest: Code): Code {
    Glyph(' ', Doubled(Lit('}', Close), Glyph(';', Glyph(' ', rest))))
  }

  lemma MaxesMeet(depth: nat)
    ensures 1 + Max(0, depth - 1) == Max(1, depth) && Max(depth, 0) == depth
  {
  }

  lemma HidingTree(body: Script, k: Code)
    requires body.Item?
    ensures CodeOf(HidingALevel(body), k)
         == Group(true, Glyph(' ', Glyphs("echo", Quoting(CodeOf(body, Glyph(' ', Nil))))), Glyph('\n', k))
  {
    hide Glyphs;
    var args := InQuotes(Char('}', EndQuote), NoArgs);
    var rest := CodeOf(body, Glyph(' ', Nil));
    assert StrungOf(Char('}', EndQuote)) == Lit('}', Close);
    assert ArgsCode(args, Glyph(';', Glyph(' ', rest))) == Glyph(' ', Doubled(Lit('}', Close), Glyph(';', Glyph(' ', rest))));
    hide ArgsCode, StrungOf;
    assert CodeOf(Item(Simple("echo", args), ';', body), Glyph(' ', Nil))
        == CommandCode(Simple("echo", args), ';', Glyph(' ', rest));
  }

  lemma HidingQuoted(rest: Code, top: nat)
    requires top == 1
    ensures Reach(Quoting(rest), top) == Max(0, Reach(rest, 0) - 1)
  {
    hide StrungReach, StrungPops, Reach;
    var after := Glyph(';', Glyph(' ', rest));
    ClosingLit(top);
    ReachGlyph(' ', rest, top - 1);
    ReachGlyph(';', Glyph(' ', rest), top - 1);
    ReachDoubled(Lit('}', Close), after, top);
    ReachGlyph(' ', Doubled(Lit('}', Close), after), top);
  }

  lemma ClosingLit(top: nat)
    ensures StrungReach(Lit('}', Close), top) == 0 && StrungPops(Lit('}', Close)) == 1
  {
  }

  lemma HidingGroup(inner: Code, k: Code, top: nat)
    requires (k == Nil || k == Glyph('\n', Nil)) && top == 0
    ensures Reach(Group(true, Glyph(' ', inner), Glyph('\n', k)), top) == 1 + Reach(inner, top + 1)
  {
    hide Reach;
    ReachNil(top);
    ReachGlyph('\n', Nil, top);
    ReachGlyph('\n', k, top);
    ReachGlyph(' ', inner, top + 1);
    ReachGroup(true, Glyph(' ', inner), Glyph('\n', k), top);
  }

  lemma ReachNil(top: nat)
    ensures Reach(Nil, top) == 0
  {
  }

  lemma {:induction false} GlyphsReach(s: string, k: Code, top: nat)
    ensures Reach(Glyphs(s, k), top) == Reach(k, top) && Pops(Glyphs(s, k)) == Pops(k)
  {
    if s != [] {
      GlyphsReach(s[1..], k, top);
    }
  }

  /** A word and the separator after it. */
  lemma WordThen(s: Scan, word: string, sep: char)
    requires Ready(s, Bare) && s.word == "" && (EndsCommand(sep) || sep == ' ')
    requires forall k :: 0 <= k < |word| ==> IsWordChar(word[k])
    ensures Run(s, word + [sep])
         == (if s.cmdPos then Reserved(s.(dollar := false), word) else s.(dollar := false))
              .(word := "", cmdPos := NextIsCommandPosition(sep, word, s.cmdPos))
  {
    hide Run, Step, Reserved, NextIsCommandPosition, IsWordChar, EndsCommand, BracesBare;
    RunConcat(s, word, [sep]);
    WordRuns(s, word);
    assert [] + word == word;
    var ended := s.(word := word, dollar := if word == [] then s.dollar else false);
    RunOne(ended, sep);
    SeparatorStep(ended, sep);
    SameReserved(s, ended, word);
  }

  lemma SameReserved(s: Scan, t: Scan, word: string)
    requires t == s.(word := t.word, dollar := t.dollar)
    ensures Reserved(t.(dollar := false), word).(word := "") == Reserved(s.(dollar := false), word).(word := "")
  {
    hide KeywordOf, Shut, Max;
  }

  /** What the scan finds of any script, misread keywords or not, from its moves. */
  lemma AnyScriptIsMeasured(script: Script)
    requires ScriptWritten(script) && Unchanged(PrintScript(script))
    ensures var text := PrintScript(script);
            var last := if text == [] || text[|text| - 1] == '\n' then [] else ['\n'];
            match Acts(Pile([], 0), ScriptMoves(script, true, last))
            case On(pile) => ScanOf(text) == Found(pile.max, |pile.stack|)
            case Off(pile, quote, rest) =>
              var end := Finished(Run(At(pile, Place(quote, "", true, false)), rest));
              ScanOf(text) == Found(end.max, |end.stack|)
  {
    var text := PrintScript(script);
    var last := if text == [] || text[|text| - 1] == '\n' then [] else ['\n'];
    Heredoc.PlainScriptStands(text);
    assert text + [] == text;
    ScriptReads(script, true, last);
    hide PrintScript, ScriptMoves, Acts, Run, Heredoc.Stripped;
    assert START == At(Pile([], 0), Between(true));
    var o := Acts(Pile([], 0), ScriptMoves(script, true, last));
    if o.On? {
      LastRead(At(o.pile, Between(true)), last);
    }
  }

  lemma LastRead(s: Scan, last: string)
    requires s.quote == Bare && !s.escaped && !s.comment && s.word == "" && s.cmdPos && (last == [] || last == ['\n'])
    ensures Finished(Run(s, last)).stack == s.stack && Finished(Run(s, last)).max == s.max
  {
    if last != [] {
      RunOne(s, '\n');
      CalmStep(s, '\n');
      hide Run, Step;
    }
  }

  /** `if` as an argument, after the argument `in`, is taken for the keyword. */
  lemma ReservedAfterIn()
    ensures Run(START, "echo in if\n").stack == [Frame(If, Bare)]
  {
    hide Run, Reserved;
    var (echo, into, word) := ("echo" + " ", "in" + " ", "if" + "\n");
    assert "echo in if\n" == echo + (into + word);
    RunConcat(START, echo, into + word);
    WordThen(START, "echo", ' ');
    NotReserved(START, "echo");
    var s1 := START.(cmdPos := false);
    assert Run(START, echo) == s1;
    RunConcat(s1, into, word);
    WordThen(s1, "in", ' ');
    var s2 := s1.(cmdPos := true);
    assert Run(s1, into) == s2;
    WordThen(s2, "if", '\n');
    ReservedIf(s2);
  }

  lemma NotReserved(s: Scan, word: string)
    requires !IsReserved(word)
    ensures Reserved(s.(dollar := false), word) == s.(dollar := false)
  {
  }

  lemma ReservedIf(s: Scan)
    ensures Reserved(s.(dollar := false), "if").stack == s.stack + [Frame(If, Bare)]
  {
  }

  /** A word right before a `)` is never read as a keyword, so `(if a; then b; fi)` closes neither; and an `if`
      right after an `if` or a `"$(` is not one either, so that its `fi` closes whatever `if` is open. */
  lemma KeywordsUnread(s: Scan, word: string)
    requires Ready(s, Bare) && s.word == "" && forall k :: 0 <= k < |word| ==> IsWordChar(word[k])
    ensures Run(s, word + [')']).stack == Shut(s.stack, Paren)
    ensures !s.cmdPos ==> Run(s, word + [' ']).stack == s.stack
  {
    RunConcat(s, word, [')']);
    WordRuns(s, word);
    var ended := s.(word := word, dollar := if word == [] then s.dollar else false);
    assert [] + word == word;
    BracketRuns(ended, false);
    WordThen(s, word, ' ');
    hide Run, Reserved, Shut, BracesBare;
  }
}
