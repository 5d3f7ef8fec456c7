/** How deep a script nests, counted without parsing it: one pass over the characters, with what is open and
    the quoting to go back to on a stack. */
module Nesting {
  import opened Wrappers
  import opened Chars
  import Heredoc
  import Utf8

  const MAX_INPUT_NESTING := 100
  const MAX_UNMATCHED_OPENERS := 16

  datatype Kind = Paren | Brace | If | Case | Do

  datatype Quote = Bare | Single | Double

  /** An open construct, and the quoting to resume once it closes. */
  datatype Frame = Frame(kind: Kind, resume: Quote)

  /** Everything the pass keeps between two characters. */
  datatype Scan = Scan(
    stack: seq<Frame>,
    max: nat,
    quote: Quote,
    escaped: bool,
    comment: bool,
    word: string,
    cmdPos: bool,
    dollar: bool)

  const START := Scan([], 0, Bare, false, false, "", true, false)

  function Max(a: int, b: int): int {
    if a < b then b else a
  }

  // ------------------------------------------------------------------ one character, as functions

  function Opened(s: Scan, kind: Kind, resume: Quote): Scan {
    s.(stack := s.stack + [Frame(kind, resume)], max := Max(s.max, |s.stack| + 1))
  }

  predicate OnTop(stack: seq<Frame>, kind: Kind) {
    stack != [] && stack[|stack| - 1].kind == kind
  }

  /** A closer that matches nothing is ignored. */
  function Shut(stack: seq<Frame>, kind: Kind): seq<Frame> {
    if OnTop(stack, kind) then stack[..|stack| - 1] else stack
  }

  function Resumed(stack: seq<Frame>, kind: Kind, quote: Quote): Quote {
    if OnTop(stack, kind) then stack[|stack| - 1].resume else quote
  }

  datatype Keyword = Opens(kind: Kind) | Closes(kind: Kind) | NoKeyword

  function KeywordOf(word: string): Keyword {
    if word == "if" then Opens(If)
    else if word == "case" then Opens(Case)
    else if word == "do" then Opens(Do)
    else if word == "fi" then Closes(If)
    else if word == "esac" then Closes(Case)
    else if word == "done" then Closes(Do)
    else NoKeyword
  }

  /** The word that just ended, where a command may start. */
  function Reserved(s: Scan, word: string): Scan {
    match KeywordOf(word)
    case Opens(kind) => Opened(s, kind, Bare)
    case Closes(kind) => s.(stack := Shut(s.stack, kind))
    case NoKeyword => s
  }

  predicate Introduces(word: string) {
    word == "then" || word == "else" || word == "elif" || word == "do" || word == "in"
  }

  predicate EndsCommand(c: char) {
    c == ';' || c == '&' || c == '|' || c == '\n'
  }

  /** Whether a command may start after the separator `c`, which followed `word`. */
  predicate NextIsCommandPosition(c: char, word: string, was: bool) {
    if EndsCommand(c) then true
    else if word == "" then was
    else if IsWhitespace(c) then Introduces(word)
    else false
  }

  function InDouble(s: Scan, c: char): Scan
    requires s.quote == Double
  {
    if c == '\\' then s.(escaped := true, dollar := false)
    else if c == '"' then s.(quote := Bare, dollar := false)
    else if c == '(' && s.dollar then Opened(s, Paren, Double).(quote := Bare, dollar := false)
    else if c == '{' && s.dollar then Opened(s, Brace, Double).(dollar := false)
    else if c == '}' then s.(stack := Shut(s.stack, Brace), dollar := false)
    else s.(dollar := c == '$')
  }

  function InBare(was: Scan, c: char): Scan
    requires was.quote == Bare
  {
    var s := was.(dollar := c == '$');
    if c == '\\' then s.(escaped := true, word := "", cmdPos := false)
    else if c == '\'' then s.(quote := Single, word := "", cmdPos := false)
    else if c == '"' then s.(quote := Double, word := "", cmdPos := false)
    else if c == '#' && s.word == "" then s.(comment := true)
    else if c == '(' then Opened(s, Paren, Bare).(word := "", cmdPos := true)
    else if c == '{' then Opened(s, Brace, Bare).(word := "", cmdPos := true)
    else if c == ')' then
      s.(stack := Shut(s.stack, Paren), quote := Resumed(s.stack, Paren, Bare), word := "", cmdPos := true)
    else if c == '}' then
      s.(stack := Shut(s.stack, Brace), quote := Resumed(s.stack, Brace, Bare), word := "", cmdPos := true)
    else if IsWordChar(c) then s.(word := s.word + [c])
    else
      var t := if s.cmdPos then Reserved(s, s.word) else s;
      t.(cmdPos := NextIsCommandPosition(c, s.word, s.cmdPos), word := "")
  }

  function Step(s: Scan, c: char): Scan {
    if s.escaped then s.(escaped := false, dollar := false)
    else if s.comment then (if c == '\n' then s.(comment := false, cmdPos := true) else s)
    else
      match s.quote
      case Single => if c == '\'' then s.(quote := Bare) else s
      case Double => InDouble(s, c)
      case Bare => InBare(s, c)
  }

  function Run(s: Scan, text: string): Scan
    decreases |text|
  {
    if text == [] then s else Run(Step(s, text[0]), text[1..])
  }

  /** A word the input ends on is still a keyword. */
  function Finished(s: Scan): Scan {
    if s.cmdPos then Reserved(s, s.word) else s
  }

  /** The deepest nesting anywhere in the script, and how much of it is still open at the end. */
  datatype Found = Found(maxDepth: nat, unmatched: nat)

  function ScanOf(input: string): Found {
    var end := Finished(Run(START, Heredoc.Stripped(input)));
    Found(end.max, |end.stack|)
  }

  function Allowance(input: string): nat {
    MAX_UNMATCHED_OPENERS + |Utf8.Encode(input)| / 256
  }

  datatype Refusal = TooManyOpeners(unmatched: nat) | TooDeep

  /** Too many openers is told before too deep. */
  function Verdict(input: string): Result<(), Refusal> {
    var found := ScanOf(input);
    if found.unmatched > Allowance(input) then Err(TooManyOpeners(found.unmatched))
    else if found.maxDepth > MAX_INPUT_NESTING then Err(TooDeep)
    else Ok(())
  }

  // ------------------------------------------------------------------ the code

  method Open(stack: seq<Frame>, what: Kind, quote: Quote, max: nat) returns (now: seq<Frame>, deepest: nat)
    ensures now == stack + [Frame(what, quote)] && deepest == Max(max, |stack| + 1)
  {
    now := stack + [Frame(what, quote)];
    deepest := if max < |now| then |now| else max;
  }

  method Close(stack: seq<Frame>, what: Kind) returns (now: seq<Frame>, resume: Option<Quote>)
    ensures now == Shut(stack, what)
    ensures resume == if OnTop(stack, what) then Some(stack[|stack| - 1].resume) else None
  {
    if |stack| > 0 && stack[|stack| - 1].kind == what {
      return stack[..|stack| - 1], Some(stack[|stack| - 1].resume);
    }
    return stack, None;
  }

  method EndWord(word: string, stack: seq<Frame>, max: nat) returns (now: seq<Frame>, deepest: nat)
    ensures forall s: Scan :: s.stack == stack && s.max == max ==> Reserved(s, word) == s.(stack := now, max := deepest)
  {
    now, deepest := stack, max;
    var resume: Option<Quote> := None;
    if word == "if" {
      now, deepest := Open(stack, If, Bare, max);
    } else if word == "case" {
      now, deepest := Open(stack, Case, Bare, max);
    } else if word == "do" {
      now, deepest := Open(stack, Do, Bare, max);
    } else if word == "fi" {
      now, resume := Close(stack, If);
    } else if word == "esac" {
      now, resume := Close(stack, Case);
    } else if word == "done" {
      now, resume := Close(stack, Do);
    }
  }

  method ScanNesting(input: string) returns (found: Found)
    ensures found == ScanOf(input)
  {
    var text := Heredoc.StripHeredocBodies(Heredoc.Lines(input));
    var stack: seq<Frame> := [];
    var max := 0;
    var quote := Bare;
    var escaped, comment := false, false;
    var word := "";
    var cmdPos, dollar := true, false;
    var i := 0;
    while i < |text|
      invariant i <= |text|
      invariant Run(Scan(stack, max, quote, escaped, comment, word, cmdPos, dollar), text[i..]) == Run(START, text)
    {
      hide Run, Reserved, NextIsCommandPosition;
      var c := text[i];
      RunStep(Scan(stack, max, quote, escaped, comment, word, cmdPos, dollar), text, i);
      i := i + 1;
      if escaped {
        escaped, dollar := false, false;
        continue;
      }
      if comment {
        if c == '\n' {
          comment, cmdPos := false, true;
        }
        continue;
      }
      if quote == Single {
        if c == '\'' {
          quote := Bare;
        }
        continue;
      }
      if quote == Double {
        stack, max, quote, escaped, dollar := DoubleQuoted(c, stack, max, dollar, word, cmdPos);
        continue;
      }
      dollar := c == '$';
      if c == '\\' {
        escaped, word, cmdPos := true, "", false;
      } else if c == '\'' {
        quote, word, cmdPos := Single, "", false;
      } else if c == '"' {
        quote, word, cmdPos := Double, "", false;
      } else if c == '#' && word == "" {
        comment := true;
      } else if c == '(' || c == '{' {
        stack, max := Open(stack, if c == '(' then Paren else Brace, Bare, max);
        word, cmdPos := "", true;
      } else if c == ')' || c == '}' {
        var resume;
        stack, resume := Close(stack, if c == ')' then Paren else Brace);
        if resume.Some? {
          quote := resume.value;
        }
        word, cmdPos := "", true;
      } else if IsWordChar(c) {
        word := word + [c];
      } else {
        if cmdPos {
          stack, max := EndWord(word, stack, max);
        }
        cmdPos := NextIsCommandPosition(c, word, cmdPos);
        word := "";
      }
    }
    if cmdPos {
      stack, max := EndWord(word, stack, max);
    }
    found := Found(max, |stack|);
  }

  method DoubleQuoted(c: char, stack: seq<Frame>, max: nat, dollar: bool, ghost word: string, ghost cmdPos: bool)
    returns (now: seq<Frame>, deepest: nat, quote: Quote, escaped: bool, prevDollar: bool)
    ensures InDouble(Scan(stack, max, Double, false, false, word, cmdPos, dollar), c)
         == Scan(now, deepest, quote, escaped, false, word, cmdPos, prevDollar)
  {
    now, deepest, quote, escaped := stack, max, Double, false;
    if c == '\\' {
      escaped := true;
    } else if c == '"' {
      quote := Bare;
    } else if c == '(' && dollar {
      now, deepest := Open(stack, Paren, Double, max);
      return now, deepest, Bare, false, false;
    } else if c == '{' && dollar {
      now, deepest := Open(stack, Brace, Double, max);
    } else if c == '}' {
      var resume;
      now, resume := Close(stack, Brace);
    }
    prevDollar := c == '$';
  }

  lemma RunStep(s: Scan, text: string, i: nat)
    requires i < |text|
    ensures Run(s, text[i..]) == Run(Step(s, text[i]), text[i + 1..])
  {
    hide Step;
    assert text[i..][0] == text[i] && text[i..][1..] == text[i + 1..];
  }

  method CheckNesting(input: string) returns (r: Result<(), Refusal>)
    ensures r == Verdict(input)
  {
    var scan := ScanNesting(input);
    if scan.unmatched > Allowance(input) {
      return Err(TooManyOpeners(scan.unmatched));
    }
    if scan.maxDepth > MAX_INPUT_NESTING {
      return Err(TooDeep);
    }
    return Ok(());
  }

  lemma {:induction false} RunConcat(s: Scan, a: string, b: string)
    ensures Run(s, a + b) == Run(Run(s, a), b)
    decreases |a|
  {
    hide Step;
    if a == [] {
      assert a + b == b;
    } else {
      assert (a + b)[0] == a[0] && (a + b)[1..] == a[1..] + b;
      RunConcat(Step(s, a[0]), a[1..], b);
    }
  }
}
