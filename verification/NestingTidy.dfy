/** Exactly when the nesting scan leaves every stack as it found it: for any text by one scan from nothing, and for
    a script by its moves. */
module NestingTidy {
  import opened Wrappers
  import opened Chars
  import opened Nesting
  import opened NestingCode
  import opened NestingScripts
  import opened NestingDepth
  import opened NestingKeywords
  import opened NestingMoves
  import Seqs

  /** A scan about to read a command. */
  predicate AtCommand(s: Scan) {
    Ready(s, Bare) && s.word == "" && s.cmdPos
  }

  /** Whatever is open where a command is about to be read, the same is open after `text`. */
  ghost predicate LeavesStacks(text: string) {
    forall s: Scan :: AtCommand(s) ==> Run(s, text).stack == s.stack
  }

  // ------------------------------------------------------------------ a tree

  /** The scan leaves every stack as it found it exactly when no double-quoted string outside every bracket and
      block but brace groups holds a `}`. */
  lemma StackAsFound(code: Code)
    requires Past(code, "", true, false).Some?
    ensures LeavesStacks(Print(code)) <==> Pops(code) == 0
  {
    forall s: Scan | AtCommand(s)
      ensures Run(s, Print(code)).stack == Less(s.stack, Pops(code))
    {
      CodeRuns(s, code, false);
    }
    hide Run, Print, Pops, Past;
    var s := START.(stack := [Frame(Brace, Bare)], max := 1);
    assert AtCommand(s);
    assert Top(s.stack) == 1 by {
      assert s.stack[..0] == [];
    }
    if Pops(code) == 0 {
      forall t: Scan | AtCommand(t)
        ensures Less(t.stack, 0) == t.stack
      {
        NoneLess(t.stack);
      }
    } else {
      assert Less(s.stack, Pops(code)) == [];
    }
  }

  // ------------------------------------------------------------------ any text

  /** What the scan would close on reading `c`. */
  function Closing(s: Scan, c: char): Option<Kind> {
    if s.escaped || s.comment || s.quote == Single then None
    else if s.quote == Double then (if c == '}' then Some(Brace) else None)
    else if c == ')' then Some(Paren)
    else if c == '}' then Some(Brace)
    else if c in "\\'\"({" || (c == '#' && s.word == "") || IsWordChar(c) || !s.cmdPos then None
    else
      match KeywordOf(s.word)
      case Closes(kind) => Some(kind)
      case _ => None
  }

  /** Nothing is closed while nothing of the text's own is open, and nothing is open at its end. */
  predicate Clean(s: Scan, text: string)
    decreases |text|
  {
    if text == [] then s.stack == []
    else !(s.stack == [] && Closing(s, text[0]).Some?) && Clean(Step(s, text[0]), text[1..])
  }

  /** The same scan with more open underneath. */
  function Over(s: Scan, base: seq<Frame>, max: nat): Scan {
    s.(stack := base + s.stack, max := max)
  }

  /** The most that was ever open has no say in what is. */
  predicate SameButMax(a: Scan, b: Scan) {
    a == b.(max := a.max)
  }

  lemma ShutOver(base: seq<Frame>, own: seq<Frame>, kind: Kind, quote: Quote)
    requires own != []
    ensures Shut(base + own, kind) == base + Shut(own, kind)
    ensures Resumed(base + own, kind, quote) == Resumed(own, kind, quote)
  {
    assert (base + own)[..|base + own| - 1] == base + own[..|own| - 1];
  }

  lemma ReservedOver(s: Scan, base: seq<Frame>, max: nat, word: string)
    requires s.stack != [] || !KeywordOf(word).Closes?
    ensures SameButMax(Reserved(Over(s, base, max), word), Over(Reserved(s, word), base, max))
  {
    hide KeywordOf, Shut, Max;
    match KeywordOf(word)
    case Opens(kind) => Seqs.Assoc(base, s.stack, [Frame(kind, Bare)]);
    case Closes(kind) => ShutOver(base, s.stack, kind, Bare);
    case NoKeyword =>
  }

  lemma DoubleOver(s: Scan, base: seq<Frame>, max: nat, c: char)
    requires s.quote == Double && !s.escaped && !s.comment && (s.stack != [] || Closing(s, c).None?)
    ensures SameButMax(InDouble(Over(s, base, max), c), Over(InDouble(s, c), base, max))
  {
    Seqs.Assoc(base, s.stack, [Frame(Paren, Double)]);
    Seqs.Assoc(base, s.stack, [Frame(Brace, Double)]);
    if s.stack != [] {
      ShutOver(base, s.stack, Brace, Bare);
    }
    hide Shut, Max, KeywordOf;
  }

  lemma BareOver(s: Scan, base: seq<Frame>, max: nat, c: char)
    requires s.quote == Bare && !s.escaped && !s.comment && (s.stack != [] || Closing(s, c).None?)
    ensures SameButMax(InBare(Over(s, base, max), c), Over(InBare(s, c), base, max))
  {
    hide Shut, Resumed, Max, KeywordOf, Reserved, IsWordChar, NextIsCommandPosition;
    if c == '(' || c == '{' {
      Seqs.Assoc(base, s.stack, [Frame(if c == '(' then Paren else Brace, Bare)]);
    } else if c == ')' || c == '}' {
      ShutOver(base, s.stack, if c == ')' then Paren else Brace, Bare);
    } else if s.cmdPos && (s.stack != [] || !KeywordOf(s.word).Closes?) {
      ReservedOver(s.(dollar := c == '$'), base, max, s.word);
    }
  }

  lemma StepOver(s: Scan, base: seq<Frame>, max: nat, c: char)
    requires s.stack != [] || Closing(s, c).None?
    ensures SameButMax(Step(Over(s, base, max), c), Over(Step(s, c), base, max))
  {
    hide InDouble, InBare, Closing;
    if !s.escaped && !s.comment {
      if s.quote == Double {
        DoubleOver(s, base, max, c);
      } else if s.quote == Bare {
        BareOver(s, base, max, c);
      }
    }
  }

  /** A closer with nothing of its own to close makes one stack of two. */
  lemma StepMerges(s: Scan, kind: Kind, max: nat, c: char)
    requires s.stack == [] && Closing(s, c) == Some(kind)
    ensures SameButMax(Step(Over(s, [], max), c), Step(Over(s, [Frame(kind, Bare)], max), c))
  {
    var one := [Frame(kind, Bare)];
    assert one + [] == one && one[..0] == [];
    hide Max, NextIsCommandPosition, IsWordChar, KeywordOf;
  }

  lemma ReservedSame(a: Scan, b: Scan, word: string)
    requires SameButMax(a, b)
    ensures SameButMax(Reserved(a, word), Reserved(b, word))
  {
    hide KeywordOf, Shut, Max;
  }

  lemma DoubleSame(a: Scan, b: Scan, c: char)
    requires SameButMax(a, b) && a.quote == Double
    ensures SameButMax(InDouble(a, c), InDouble(b, c))
  {
    hide Shut, Max;
  }

  lemma OpenedSame(a: Scan, b: Scan, kind: Kind)
    requires SameButMax(a, b)
    ensures SameButMax(Opened(a, kind, Bare), Opened(b, kind, Bare))
  {
    hide Max;
  }

  lemma BareSame(a: Scan, b: Scan, c: char)
    requires SameButMax(a, b) && a.quote == Bare
    ensures SameButMax(InBare(a, c), InBare(b, c))
  {
    hide Shut, Resumed, Opened, NextIsCommandPosition, IsWordChar, Reserved;
    var (d, e) := (a.(dollar := c == '$'), b.(dollar := c == '$'));
    if c == '(' || c == '{' {
      OpenedSame(d, e, if c == '(' then Paren else Brace);
    } else if c == ')' || c == '}' {
    } else if c in "\\'\"" || (c == '#' && d.word == "") || IsWordChar(c) {
    } else if d.cmdPos {
      ReservedSame(d, e, d.word);
    }
  }

  lemma StepSame(a: Scan, b: Scan, c: char)
    requires SameButMax(a, b)
    ensures SameButMax(Step(a, c), Step(b, c))
  {
    hide InDouble, InBare;
    match a.quote
    case Single =>
    case Double => DoubleSame(a, b, c);
    case Bare => BareSame(a, b, c);
  }

  lemma {:induction false} RunSame(a: Scan, b: Scan, text: string)
    requires SameButMax(a, b)
    ensures Run(a, text).stack == Run(b, text).stack
    decreases |text|
  {
    if text != [] {
      hide Step;
      StepSame(a, b, text[0]);
      RunSame(Step(a, text[0]), Step(b, text[0]), text[1..]);
    }
  }

  lemma {:induction false} CleanKeeps(s: Scan, text: string, base: seq<Frame>, max: nat)
    requires Clean(s, text)
    ensures Run(Over(s, base, max), text).stack == base
    decreases |text|
  {
    if text == [] {
      assert base + [] == base;
    } else {
      hide Step, Closing;
      StepOver(s, base, max, text[0]);
      CleanKeeps(Step(s, text[0]), text[1..], base, max);
      RunSame(Step(Over(s, base, max), text[0]), Over(Step(s, text[0]), base, max), text[1..]);
    }
  }

  /** Nothing, or one frame of some kind. */
  predicate AtMostOne(base: seq<Frame>) {
    base == [] || (|base| == 1 && base[0].resume == Bare)
  }

  lemma {:induction false} UncleanLoses(s: Scan, text: string, max: nat) returns (base: seq<Frame>)
    requires !Clean(s, text)
    ensures AtMostOne(base) && Run(Over(s, base, max), text).stack != base
    decreases |text|
  {
    base := [];
    if text == [] {
      assert base + s.stack == s.stack;
    } else {
      hide Step, Closing;
      var (c, rest) := (text[0], text[1..]);
      if s.stack == [] && Closing(s, c).Some? {
        var one := [Frame(Closing(s, c).value, Bare)];
        StepMerges(s, Closing(s, c).value, max, c);
        RunSame(Step(Over(s, [], max), c), Step(Over(s, one, max), c), rest);
        if Run(Over(s, [], max), text).stack == [] {
          base := one;
        }
      } else {
        base := UncleanLoses(Step(s, c), rest, max);
        StepOver(s, base, max, c);
        RunSame(Step(Over(s, base, max), c), Over(Step(s, c), base, max), rest);
      }
    }
  }

  lemma DollarIsPast(s: Scan, text: string)
    requires Reading(s, Bare)
    ensures Run(s, text).stack == Run(s.(dollar := false), text).stack
    ensures Run(s, text).max == Run(s.(dollar := false), text).max
  {
    if text != [] {
      assert Step(s, text[0]) == Step(s.(dollar := false), text[0]);
    }
    hide Step;
  }

  /** For any text at all: every stack is left as it was exactly when the scan that starts with nothing open
      never meets a closer then, and ends with nothing open. */
  lemma StacksAsFound(text: string)
    ensures LeavesStacks(text) <==> Clean(START, text)
  {
    hide Clean, Run;
    if Clean(START, text) {
      forall s: Scan | AtCommand(s)
        ensures Run(s, text).stack == s.stack
      {
        CleanKeeps(START, text, s.stack, s.max);
        DollarIsPast(s, text);
        assert s.stack + [] == s.stack;
        assert s.(dollar := false) == Over(START, s.stack, s.max);
      }
    } else {
      var base := UncleanLoses(START, text, 1);
      var s := Over(START, base, 1);
      assert base + [] == base;
      assert AtCommand(s);
    }
  }

  // ------------------------------------------------------------------ scripts

  /** Every move closes only what one before it opened, and in the end all of it is closed; where a bracket closes
      something else than its own, the text after it is as good as any. */
  predicate Tidy(own: seq<Frame>, moves: seq<Move>)
    decreases |moves|
  {
    if moves == [] then own == []
    else
      match moves[0]
      case Push(frame) => Tidy(own + [frame], moves[1..])
      case Pop(kind) => own != [] && Tidy(Shut(own, kind), moves[1..])
      case Resume(kind, quote, rest) =>
        own != []
        && (if Resumed(own, kind, Bare) == quote then Tidy(Shut(own, kind), moves[1..])
            else Clean(Astray(Shut(own, kind), 0, Resumed(own, kind, Bare)), rest))
  }

  /** A scan whose quoting a bracket has just turned to `quote`. */
  function Astray(stack: seq<Frame>, max: nat, quote: Quote): Scan {
    At(Pile(stack, max), Place(quote, "", true, false))
  }

  /** What the scan leaves open after the moves and the text that follows them. */
  function LeftBy(stack: seq<Frame>, max: nat, moves: seq<Move>, to: Place): seq<Frame> {
    Go(Acts(Pile(stack, max), moves), to, "").stack
  }

  lemma LeftStep(stack: seq<Frame>, max: nat, moves: seq<Move>, to: Place)
    requires moves != []
    ensures var o := Act(Pile(stack, max), moves[0]);
            LeftBy(stack, max, moves, to)
            == if o.On? then LeftBy(o.pile.stack, o.pile.max, moves[1..], to)
               else Run(Astray(o.pile.stack, o.pile.max, o.quote), o.rest).stack
  {
    hide Act, Run, At;
  }

  lemma {:induction false} LeftSame(stack: seq<Frame>, m: nat, n: nat, moves: seq<Move>, to: Place)
    ensures LeftBy(stack, m, moves, to) == LeftBy(stack, n, moves, to)
    decreases |moves|
  {
    if moves == [] {
      assert Run(At(Pile(stack, m), to), "").stack == stack && Run(At(Pile(stack, n), to), "").stack == stack;
    } else {
      hide LeftBy, Run, Max;
      LeftStep(stack, m, moves, to);
      LeftStep(stack, n, moves, to);
      var (o, p) := (Act(Pile(stack, m), moves[0]), Act(Pile(stack, n), moves[0]));
      if o.On? {
        LeftSame(o.pile.stack, o.pile.max, p.pile.max, moves[1..], to);
      } else {
        RunSame(Astray(o.pile.stack, o.pile.max, o.quote), Astray(p.pile.stack, p.pile.max, p.quote), o.rest);
      }
    }
  }

  lemma LeftNothing(stack: seq<Frame>, max: nat, to: Place)
    ensures LeftBy(stack, max, [], to) == stack
  {
  }

  /** What the first move makes of a stack with more underneath. */
  lemma ActOver(own: seq<Frame>, base: seq<Frame>, max: nat, moves: seq<Move>, to: Place)
    requires moves != [] && (own != [] || moves[0].Push?)
    ensures var o := Act(Pile(own, max), moves[0]);
            LeftBy(base + own, max, moves, to)
            == if o.On? then LeftBy(base + o.pile.stack, max, moves[1..], to)
               else Run(Over(Astray(o.pile.stack, 0, o.quote), base, max), o.rest).stack
  {
    var p := Act(Pile(base + own, max), moves[0]);
    if moves[0].Push? {
      Seqs.Assoc(base, own, [moves[0].frame]);
    } else {
      ShutOver(base, own, moves[0].kind, Bare);
    }
    hide LeftBy, Run, Max, Shut, Resumed;
    LeftStep(base + own, max, moves, to);
    if p.On? {
      LeftSame(p.pile.stack, p.pile.max, max, moves[1..], to);
    } else {
      var o := Act(Pile(own, max), moves[0]);
      RunSame(Astray(p.pile.stack, p.pile.max, p.quote), Over(Astray(o.pile.stack, 0, o.quote), base, max), o.rest);
    }
  }

  lemma {:induction false} TidyKeeps(own: seq<Frame>, moves: seq<Move>, to: Place, base: seq<Frame>, max: nat)
    requires Tidy(own, moves)
    ensures LeftBy(base + own, max, moves, to) == base
    decreases |moves|
  {
    hide LeftBy, Run, Max, Shut, Resumed, Clean, Over;
    if moves == [] {
      assert base + [] == base;
      LeftNothing(base, max, to);
    } else {
      ActOver(own, base, max, moves, to);
      var o := Act(Pile(own, max), moves[0]);
      if o.On? {
        TidyKeeps(o.pile.stack, moves[1..], to, base, max);
      } else {
        CleanKeeps(Astray(o.pile.stack, 0, o.quote), o.rest, base, max);
      }
    }
  }

  lemma {:induction false} UntidyLoses(own: seq<Frame>, moves: seq<Move>, to: Place, max: nat) returns (base: seq<Frame>)
    requires !Tidy(own, moves)
    ensures AtMostOne(base) && LeftBy(base + own, max, moves, to) != base
    decreases |moves|
  {
    hide LeftBy, Run, Max, Shut, Resumed, Clean, Over;
    base := [];
    if moves == [] {
      assert [] + own == own;
      LeftNothing(own, max, to);
    } else if own == [] && !moves[0].Push? {
      base := MoveMerges(moves, to, max);
    } else {
      var o := Act(Pile(own, max), moves[0]);
      if o.On? {
        base := UntidyLoses(o.pile.stack, moves[1..], to, max);
      } else {
        base := UncleanLoses(Astray(o.pile.stack, 0, o.quote), o.rest, max);
      }
      ActOver(own, base, max, moves, to);
    }
  }

  lemma MoveMerges(moves: seq<Move>, to: Place, max: nat) returns (base: seq<Frame>)
    requires moves != [] && !moves[0].Push?
    ensures AtMostOne(base) && LeftBy(base + [], max, moves, to) != base
  {
    var one := [Frame(moves[0].kind, Bare)];
    assert one[..0] == [];
    assert Act(Pile(one, max), moves[0]) == Act(Pile([], max), moves[0]);
    hide Act, Run;
    LeftStep([], max, moves, to);
    LeftStep(one, max, moves, to);
    hide LeftBy;
    base := if LeftBy([], max, moves, to) == [] then one else [];
    assert base + [] == base;
  }

  /** What the scan makes of a script: its moves, and where one goes astray, the scan of the rest. */
  lemma MovesAreMade(script: Script, s: Scan)
    requires ScriptWritten(script) && AtCommand(s)
    ensures var left := Go(Acts(Pile(s.stack, s.max), ScriptMoves(script, true, "")), Between(true), "");
            Run(s, PrintScript(script)).stack == left.stack && Run(s, PrintScript(script)).max == left.max
  {
    ScriptReads(script, true, "");
    var text := PrintScript(script);
    hide Run, Acts, ScriptMoves, PrintScript, ScriptWritten;
    DollarIsPast(s, text);
    assert s.(dollar := false) == At(Pile(s.stack, s.max), Between(true));
    assert text + "" == text;
  }

  /** A script leaves every stack as it was exactly when its moves are tidy, misread keywords and all. */
  lemma ScriptsLeaveStacks(script: Script)
    requires ScriptWritten(script)
    ensures LeavesStacks(PrintScript(script)) <==> Tidy([], ScriptMoves(script, true, ""))
  {
    var moves := ScriptMoves(script, true, "");
    forall s: Scan | AtCommand(s)
      ensures Run(s, PrintScript(script)).stack == LeftBy(s.stack, s.max, moves, Between(true))
    {
      MovesAreMade(script, s);
    }
    hide Tidy, LeftBy, Run, ScriptMoves, PrintScript;
    if Tidy([], moves) {
      forall s: Scan | AtCommand(s)
        ensures LeftBy(s.stack, s.max, moves, Between(true)) == s.stack
      {
        assert s.stack + [] == s.stack;
        TidyKeeps([], moves, Between(true), s.stack, s.max);
      }
    } else {
      var base := UntidyLoses([], moves, Between(true), 1);
      assert base + [] == base;
      OneIsReady(base);
    }
  }

  lemma OneIsReady(base: seq<Frame>)
    requires AtMostOne(base)
    ensures AtCommand(START.(stack := base, max := 1))
  {
  }

  /** Where every keyword is looked for, that is exactly when no `}` stands in a double-quoted string outside every
      bracket, block and substitution but brace groups. */
  lemma HeededScriptsLeaveStacks(script: Script)
    requires ScriptOk(script, true)
    ensures LeavesStacks(PrintScript(script)) <==> !ScriptSpoils(script)
  {
    var code := CodeOf(script, Nil);
    ReadAsATree(script, true);
    ScriptPrints(script, Nil);
    ScriptMeasures(script, Nil, 0, false);
    StackAsFound(code);
    hide CodeOf, PrintScript, ScriptSpoils, ScriptWritten, ScriptHeeded, Past, LeavesStacks;
    assert PrintScript(script) + [] == PrintScript(script);
  }
}
