/** What the scan makes of plain pieces of text: comments, keywords and where a command may start, and brackets that
    are never closed. */
module NestingText {
  import opened Chars
  import opened Nesting
  import opened NestingCode
  import opened NestingMoves
  import opened NestingProofs
  import opened NestingScripts
  import opened Wrappers
  import Heredoc
  import Utf8

  // ------------------------------------------------------------------ comments

  /** Between words, in text that is neither quoted, escaped nor a comment. */
  predicate BetweenWords(s: Scan) {
    s.quote == Bare && !s.escaped && !s.comment && s.word == ""
  }

  lemma {:induction false} CommentGoesOn(s: Scan, text: string)
    requires s.comment && !s.escaped && '\n' !in text
    ensures Run(s, text) == s
    decreases |text|
  {
    if text != [] {
      assert text[0] in text;
      CommentGoesOn(s, text[1..]);
    }
  }

  /** A comment and the newline after it are that newline: whatever it holds, brackets, quotes and keywords among
      it, opens and closes nothing. */
  lemma CommentIsItsNewline(s: Scan, text: string)
    requires BetweenWords(s) && '\n' !in text
    ensures Run(s, ['#'] + text + ['\n']) == Run(s, ['\n'])
    ensures Run(s, ['\n']).stack == s.stack && Run(s, ['\n']).max == s.max && Run(s, ['\n']).cmdPos
  {
    var begun := s.(dollar := false, comment := true);
    assert Step(s, '#') == begun;
    RunOne(s, '#');
    RunConcat(s, ['#'] + text, ['\n']);
    RunConcat(s, ['#'], text);
    CommentGoesOn(begun, text);
    RunOne(begun, '\n');
    RunOne(s, '\n');
    assert !IsWordChar('\n');
    assert KeywordOf("") == NoKeyword;
    hide Run;
  }

  /** A `#` inside a word begins no comment: the text after it is read on. */
  lemma HashInAWord(s: Scan)
    requires s.quote == Bare && !s.escaped && !s.comment && s.word != ""
    ensures BetweenWords(Step(s, '#'))
  {
    ReservedQuote(s.(dollar := false), s.word);
    hide Reserved, NextIsCommandPosition;
    assert !IsWordChar('#');
  }

  /** A comment between words makes no difference to what a script is found to be. */
  lemma CommentsAreFree(before: string, text: string, after: string)
    requires '\n' !in text && BetweenWords(Run(START, before))
    requires Unchanged(before + (['#'] + text + ['\n']) + after) && Unchanged(before + ['\n'] + after)
    ensures ScanOf(before + (['#'] + text + ['\n']) + after) == ScanOf(before + ['\n'] + after)
  {
    hide *;
    var (a, b) := (['#'] + text + ['\n'], ['\n']);
    CommentIsItsNewline(Run(START, before), text);
    SamePast(before, a, b, after);
    SamePast(before, a, b, after + ['\n']);
    SameScan(before + a + after, before + b + after, before + a + (after + ['\n']), before + b + (after + ['\n']));
  }

  lemma SameScan(one: string, two: string, oneMore: string, twoMore: string)
    requires Unchanged(one) && Unchanged(two) && one != [] && two != [] && (one[|one| - 1] == '\n' <==> two[|two| - 1] == '\n')
    requires Run(START, one) == Run(START, two) && Run(START, oneMore) == Run(START, twoMore)
    requires oneMore == one + ['\n'] && twoMore == two + ['\n']
    ensures ScanOf(one) == ScanOf(two)
  {
    Heredoc.PlainScriptStands(one);
    Heredoc.PlainScriptStands(two);
    hide Run, Heredoc.Stripped, Heredoc.NoHeredoc, Finished;
  }

  lemma SamePast(before: string, a: string, b: string, after: string)
    requires Run(Run(START, before), a) == Run(Run(START, before), b)
    ensures Run(START, before + a + after) == Run(START, before + b + after)
  {
    RunConcat(START, before + a, after);
    RunConcat(START, before + b, after);
    RunConcat(START, before, a);
    RunConcat(START, before, b);
    hide Run;
  }

  // ------------------------------------------------------------------ words and separators

  /** Where a command may start, `if`, `case` and `do` open, `fi`, `esac` and `done` close the last thing opened if
      it is theirs, and no other word does either. */
  lemma KeywordsAct(s: Scan, word: string, sep: char)
    requires Ready(s, Bare) && s.word == "" && s.cmdPos && sep in {' ', ';', '&', '|', '\n'}
    requires forall k :: 0 <= k < |word| ==> IsWordChar(word[k])
    ensures var (t, n) := (Run(s, word + [sep]), |s.stack|);
            && (word == "if" ==> t.stack == s.stack + [Frame(If, Bare)])
            && (word == "case" ==> t.stack == s.stack + [Frame(Case, Bare)])
            && (word == "do" ==> t.stack == s.stack + [Frame(Do, Bare)])
            && (word == "fi" ==> t.stack == if n > 0 && s.stack[n - 1].kind == If then s.stack[..n - 1] else s.stack)
            && (word == "esac" ==> t.stack == if n > 0 && s.stack[n - 1].kind == Case then s.stack[..n - 1] else s.stack)
            && (word == "done" ==> t.stack == if n > 0 && s.stack[n - 1].kind == Do then s.stack[..n - 1] else s.stack)
            && (word !in {"if", "case", "do", "fi", "esac", "done"} ==> t.stack == s.stack)
            && t.max == (if word in {"if", "case", "do"} && n == s.max then n + 1 else s.max)
  {
    WordThen(s, word, sep);
    ReservedActs(s.(dollar := false), word);
    hide Run, Reserved, NextIsCommandPosition;
  }

  lemma ReservedActs(s: Scan, word: string)
    requires |s.stack| <= s.max
    ensures var (t, n) := (Reserved(s, word), |s.stack|);
            && (word == "if" ==> t.stack == s.stack + [Frame(If, Bare)])
            && (word == "case" ==> t.stack == s.stack + [Frame(Case, Bare)])
            && (word == "do" ==> t.stack == s.stack + [Frame(Do, Bare)])
            && (word == "fi" ==> t.stack == if n > 0 && s.stack[n - 1].kind == If then s.stack[..n - 1] else s.stack)
            && (word == "esac" ==> t.stack == if n > 0 && s.stack[n - 1].kind == Case then s.stack[..n - 1] else s.stack)
            && (word == "done" ==> t.stack == if n > 0 && s.stack[n - 1].kind == Do then s.stack[..n - 1] else s.stack)
            && (word !in {"if", "case", "do", "fi", "esac", "done"} ==> t.stack == s.stack)
            && t.max == (if word in {"if", "case", "do"} && n == s.max then n + 1 else s.max)
  {
  }

  /** A command may start after the end of another, after a word that introduces one and a blank, and, when there
      was no word, where it could before; and an argument that is a keyword moves nothing. */
  lemma WhereCommandsStart(s: Scan, word: string, sep: char)
    requires Ready(s, Bare) && s.word == "" && sep in {' ', ';', '&', '|', '\n'}
    requires forall k :: 0 <= k < |word| ==> IsWordChar(word[k])
    ensures var t := Run(s, word + [sep]);
            && BetweenWords(t)
            && (t.cmdPos <==> sep != ' ' || word in {"then", "else", "elif", "do", "in"} || (word == "" && s.cmdPos))
            && (!s.cmdPos ==> t.stack == s.stack && t.max == s.max)
  {
    WordThen(s, word, sep);
    assert IsWhitespace(' ');
    NextIs(sep, word, s.cmdPos);
    ReservedQuote(s.(dollar := false), word);
    hide Run, Reserved, NextIsCommandPosition;
  }

  lemma NextIs(sep: char, word: string, was: bool)
    requires sep in {' ', ';', '&', '|', '\n'}
    ensures NextIsCommandPosition(sep, word, was)
       <==> sep != ' ' || word in {"then", "else", "elif", "do", "in"} || (word == "" && was)
  {
    assert IsWhitespace(' ');
    hide IsWhitespace;
  }

  lemma ReservedQuote(s: Scan, word: string)
    ensures Reserved(s, word) == s.(stack := Reserved(s, word).stack, max := Reserved(s, word).max)
  {
    hide KeywordOf, Shut, Max;
  }

  // ------------------------------------------------------------------ brackets never closed

  /** Nothing but opening brackets, blanks and separators. */
  predicate OnlyOpeners(text: string) {
    forall k :: 0 <= k < |text| ==> text[k] in {'(', '{', ' ', '\t', '\n', ';', '&', '|'}
  }

  function Openers(text: string): nat {
    if text == [] then 0 else (if text[0] == '(' || text[0] == '{' then 1 else 0) + Openers(text[1..])
  }

  lemma OpenerStep(s: Scan, c: char)
    requires BetweenWords(s) && |s.stack| == s.max && c in {'(', '{', ' ', '\t', '\n', ';', '&', '|'}
    ensures var t := Step(s, c);
            && BetweenWords(t)
            && |t.stack| == t.max == |s.stack| + if c == '(' || c == '{' then 1 else 0
  {
    assert KeywordOf("") == NoKeyword;
    assert c != '(' && c != '{' ==> !IsWordChar(c);
    hide NextIsCommandPosition, KeywordOf;
  }

  lemma {:induction false} OpenersPile(s: Scan, text: string)
    requires BetweenWords(s) && |s.stack| == s.max && OnlyOpeners(text)
    ensures var t := Run(s, text); BetweenWords(t) && |t.stack| == t.max == |s.stack| + Openers(text)
    decreases |text|
  {
    hide BetweenWords, Step;
    if text != [] {
      OpenerStep(s, text[0]);
      OpenersPile(Step(s, text[0]), text[1..]);
    }
  }

  lemma {:induction false} OpenersEnded(text: string)
    ensures Openers(text + ['\n']) == Openers(text)
  {
    if text == [] {
      assert text + ['\n'] == ['\n'];
    } else {
      assert (text + ['\n'])[0] == text[0] && (text + ['\n'])[1..] == text[1..] + ['\n'];
      OpenersEnded(text[1..]);
    }
  }

  /** Brackets that are only opened are refused for their number, as soon as it passes sixteen and one more for
      every 256 bytes of the script; within that they are refused for depth past a hundred. */
  lemma OpenersAreRefused(text: string)
    requires OnlyOpeners(text)
    ensures var n := Openers(text);
            Verdict(text) == if n > 16 + |Utf8.Encode(text)| / 256 then Err(TooManyOpeners(n))
                             else if n > 100 then Err(TooDeep)
                             else Ok(())
  {
    OpenersFound(text);
    hide ScanOf, Openers, OnlyOpeners, Utf8.Encode;
  }

  lemma OpenersFound(text: string)
    requires OnlyOpeners(text)
    ensures ScanOf(text) == Found(Openers(text), Openers(text))
  {
    assert Heredoc.NoHeredoc(text) && '\r' !in text;
    Heredoc.PlainScriptStands(text);
    OpenersEnded(text);
    hide Openers, Heredoc.Stripped, Heredoc.NoHeredoc, Run, Reserved;
    var read := Heredoc.Stripped(text);
    assert OnlyOpeners(read) && Openers(read) == Openers(text);
    hide OnlyOpeners;
    OpenersPile(START, read);
    NoWordHere(Run(START, read));
  }

  lemma NoWordHere(s: Scan)
    requires s.word == ""
    ensures Reserved(s, s.word) == s
  {
    assert KeywordOf("") == NoKeyword;
  }

  // ------------------------------------------------------------------ the verdict on any script

  /** Whatever the script, misread keywords or not: what its moves leave open is told first, past sixteen and one
      for every 256 bytes, and then a depth past a hundred. */
  lemma VerdictOnAnyScript(script: Script)
    requires ScriptWritten(script) && Unchanged(PrintScript(script))
    requires Acts(Pile([], 0), ScriptMoves(script, true, LastNewline(PrintScript(script)))).On?
    ensures var text := PrintScript(script);
            var pile := Acts(Pile([], 0), ScriptMoves(script, true, LastNewline(text))).pile;
            Verdict(text) == if |pile.stack| > 16 + |Utf8.Encode(text)| / 256 then Err(TooManyOpeners(|pile.stack|))
                             else if pile.max > 100 then Err(TooDeep)
                             else Ok(())
  {
    AnyScriptIsMeasured(script);
    hide ScanOf, PrintScript, ScriptMoves, Acts, ScriptWritten, Unchanged;
  }

  /** The newline a script's last line may lack. */
  function LastNewline(text: string): string {
    if text == [] || text[|text| - 1] == '\n' then [] else ['\n']
  }
}
