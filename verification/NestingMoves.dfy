/** What the nesting scan does to its stack on any script, keywords misread or not: the openings and closings it
    makes of the tree, one by one, and exactly when they leave every stack as it was. */
module NestingMoves {
  import opened Chars
  import opened Nesting
  import opened NestingCode
  import opened NestingScripts
  import opened NestingKeywords
  import Seqs

  // ------------------------------------------------------------------ moves

  /** What is open, and the most that ever was. */
  datatype Pile = Pile(stack: seq<Frame>, max: nat)

  /** A bracket that closes says how the text after it is quoted, and what that text is. */
  datatype Move = Push(frame: Frame) | Pop(kind: Kind) | Resume(kind: Kind, quote: Quote, rest: string)

  /** Off the tree: a bracket closed something else than its own, and the scan reads on with the quoting wrong. */
  datatype Outcome = On(pile: Pile) | Off(pile: Pile, quote: Quote, rest: string)

  function Act(p: Pile, move: Move): Outcome {
    match move
    case Push(frame) => On(Pile(p.stack + [frame], Max(p.max, |p.stack| + 1)))
    case Pop(kind) => On(p.(stack := Shut(p.stack, kind)))
    case Resume(kind, quote, rest) =>
      var (left, resumed) := (p.(stack := Shut(p.stack, kind)), Resumed(p.stack, kind, Bare));
      if resumed == quote then On(left) else Off(left, resumed, rest)
  }

  function Acts(p: Pile, moves: seq<Move>): Outcome
    decreases |moves|
  {
    if moves == [] then On(p)
    else
      match Act(p, moves[0])
      case On(q) => Acts(q, moves[1..])
      case Off(_, _, _) => Act(p, moves[0])
  }

  lemma {:induction false} ActsConcat(p: Pile, a: seq<Move>, b: seq<Move>)
    ensures Acts(p, a + b) == (match Acts(p, a) case On(q) => Acts(q, b) case Off(_, _, _) => Acts(p, a))
    decreases |a|
  {
    hide Act;
    if a == [] {
      assert a + b == b;
    } else {
      Seqs.ConcatHead(a, b);
      if Act(p, a[0]).On? {
        ActsConcat(Act(p, a[0]).pile, a[1..], b);
      }
    }
  }

  // ------------------------------------------------------------------ the moves of a script

  /** What a word does where a command may start, once it has ended. */
  function WordMoves(word: string, cmd: bool): seq<Move> {
    if !cmd then []
    else
      match KeywordOf(word)
      case Opens(kind) => [Push(Frame(kind, Bare))]
      case Closes(kind) => [Pop(kind)]
      case NoKeyword => []
  }

  function ScriptMoves(script: Script, cmd: bool, after: string): seq<Move> {
    match script
    case Done => []
    case Item(command, sep, rest) =>
      CommandMoves(command, sep, cmd, Tail(rest) + after) + ScriptMoves(rest, true, after)
  }

  /** What is printed after a command and its separator. */
  function Tail(rest: Script): string {
    if rest.Done? then [] else [' '] + PrintScript(rest)
  }

  /** An `if` or `case` that is missed is not pushed, and its end pops all the same. */
  function CommandMoves(command: Command, sep: char, cmd: bool, after: string): seq<Move> {
    match command
    case Simple(name, args) => ArgsMoves(args, Introduces(name), [sep] + after)
    case Subshell(body) => GroupMoves(Paren, ScriptMoves(body, true, " )" + ([sep] + after)), [sep] + after)
    case Braced(body) => GroupMoves(Brace, ScriptMoves(body, true, " }" + ([sep] + after)), [sep] + after)
    case IfThen(cond, body, orElse) =>
      var end := Ending(orElse, sep) + after;
      WordMoves("if", cmd)
      + (ScriptMoves(cond, false, " then " + (PrintScript(body) + end))
         + (ScriptMoves(body, true, end) + (ScriptMoves(orElse, true, (" fi" + [sep]) + after) + [Pop(If)])))
    case While(cond, body) =>
      ScriptMoves(cond, false, " do " + (PrintScript(body) + ((" done" + [sep]) + after)))
      + ([Push(Frame(Do, Bare))] + (ScriptMoves(body, true, (" done" + [sep]) + after) + [Pop(Do)]))
    case CaseOf(subject, arms) =>
      WordMoves("case", cmd) + (ArmsMoves(arms, ("esac" + [sep]) + after) + [Pop(Case)])
  }

  function GroupMoves(kind: Kind, inner: seq<Move>, after: string): seq<Move> {
    [Push(Frame(kind, Bare))] + (inner + [Resume(kind, Bare, after)])
  }

  /** What ends an `if` after its body. */
  function Ending(orElse: Script, sep: char): string {
    if orElse.Done? then " fi" + [sep] else " else " + (PrintScript(orElse) + (" fi" + [sep]))
  }

  /** The `)` after a pattern closes whatever `(` is on top. */
  function ArmsMoves(arms: Arms, after: string): seq<Move> {
    match arms
    case NoArms => []
    case Arm(_, body, more) =>
      [Resume(Paren, Bare, " " + (PrintScript(body) + (";; " + (PrintArms(more) + after))))]
      + (ScriptMoves(body, true, ";; " + (PrintArms(more) + after)) + ArmsMoves(more, after))
  }

  function ArgsMoves(args: Args, cmd: bool, after: string): seq<Move> {
    match args
    case NoArgs => []
    case Plain(word, others) => WordMoves(FirstRun(word), cmd) + ArgsMoves(others, AfterWord(word, cmd), after)
    case Apostrophes(_, others) => ArgsMoves(others, false, after)
    case Backslashed(_, others) => ArgsMoves(others, false, after)
    case InQuotes(content, others) =>
      ContentMoves(content, false, PrintArgs(others) + after) + ArgsMoves(others, HasOutput(content), after)
  }

  /** A `}` in a string closes whatever brace group is on top. */
  function ContentMoves(content: Content, cmd: bool, after: string): seq<Move> {
    match content
    case EndQuote => []
    case Char(c, further) => (if c == '}' then [Pop(Brace)] else []) + ContentMoves(further, cmd, after)
    case Escape(_, further) => ContentMoves(further, cmd, after)
    case Variable(_, further) => [Push(Frame(Brace, Double)), Pop(Brace)] + ContentMoves(further, cmd, after)
    case Output(script, further) =>
      var rest := PrintContent(further) + after;
      [Push(Frame(Paren, Double))]
      + (ScriptMoves(script, cmd, ")" + rest) + ([Resume(Paren, Double, rest)] + ContentMoves(further, true, after)))
  }

  // ------------------------------------------------------------------ the scan makes those moves

  /** Where the scan is in the text, whatever is open. */
  datatype Place = Place(quote: Quote, word: string, cmd: bool, dollar: bool)

  function At(p: Pile, at: Place): Scan {
    Scan(p.stack, p.max, at.quote, false, false, at.word, at.cmd, at.dollar)
  }

  /** Between words. */
  function Between(cmd: bool): Place {
    Place(Bare, "", cmd, false)
  }

  /** The rest of the scan, from where the moves leave it. */
  function Go(o: Outcome, at: Place, after: string): Scan {
    match o
    case On(p) => Run(At(p, at), after)
    case Off(p, quote, rest) => Run(At(p, Place(quote, "", true, false)), rest)
  }

  /** Whatever is open, reading `text` from one place to the other makes just these moves. */
  ghost predicate Reads(from: Place, text: string, moves: seq<Move>, to: Place, after: string) {
    forall p: Pile :: Run(At(p, from), text + after) == Go(Acts(p, moves), to, after)
  }

  lemma ReadsThen(a: Place, s: string, ms: seq<Move>, b: Place, t: string, ns: seq<Move>, c: Place, after: string)
    requires Reads(a, s, ms, b, t + after) && Reads(b, t, ns, c, after)
    ensures Reads(a, s + t, ms + ns, c, after)
  {
    hide Run, Acts, At;
    Seqs.Assoc(s, t, after);
    forall p: Pile
      ensures Run(At(p, a), (s + t) + after) == Go(Acts(p, ms + ns), c, after)
    {
      ActsConcat(p, ms, ns);
    }
  }

  /** Text that is read on its own. */
  lemma ReadsAlone(a: Place, text: string, moves: seq<Move>, b: Place, after: string)
    requires forall p: Pile :: Acts(p, moves).On? && Run(At(p, a), text) == At(Acts(p, moves).pile, b)
    ensures Reads(a, text, moves, b, after)
  {
    hide Run, Acts, At;
    forall p: Pile
      ensures Run(At(p, a), text + after) == Go(Acts(p, moves), b, after)
    {
      RunConcat(At(p, a), text, after);
    }
  }

  // Part by part.

  lemma LettersRead(from: Place, word: string, after: string)
    requires from.quote == Bare && word != "" && forall k :: 0 <= k < |word| ==> IsWordChar(word[k])
    ensures Reads(from, word, [], from.(word := from.word + word, dollar := false), after)
  {
    forall p: Pile
      ensures Acts(p, []).On? && Run(At(p, from), word) == At(p, from.(word := from.word + word, dollar := false))
    {
      hide Run, IsWordChar;
      WordRuns(At(p, from), word);
    }
    hide Run, Reads;
    ReadsAlone(from, word, [], from.(word := from.word + word, dollar := false), after);
  }

  /** A character that ends a word. */
  predicate IsMark(c: char) {
    EndsCommand(c) || c == ' ' || (IsOrdinary(c) && !IsWordChar(c))
  }

  function Marked(from: Place, c: char): Place {
    Place(Bare, "", NextIsCommandPosition(c, from.word, from.cmd), c == '$')
  }

  lemma MarkStep(p: Pile, from: Place, c: char)
    requires from.quote == Bare && IsMark(c)
    ensures Acts(p, WordMoves(from.word, from.cmd)).On?
    ensures Step(At(p, from), c) == At(Acts(p, WordMoves(from.word, from.cmd)).pile, Marked(from, c))
  {
    assert !IsWordChar(c) && c !in "\\'\"#(){}";
    hide NextIsCommandPosition, KeywordOf, IsOrdinary, EndsCommand, IsWordChar, Max, Shut;
    var ms := WordMoves(from.word, from.cmd);
    if ms != [] {
      assert ms[1..] == [];
    }
  }

  lemma MarkReads(from: Place, c: char, after: string)
    requires from.quote == Bare && IsMark(c)
    ensures Reads(from, [c], WordMoves(from.word, from.cmd), Marked(from, c), after)
  {
    forall p: Pile
      ensures Acts(p, WordMoves(from.word, from.cmd)).On?
      ensures Run(At(p, from), [c]) == At(Acts(p, WordMoves(from.word, from.cmd)).pile, Marked(from, c))
    {
      hide Run, Step, Marked, WordMoves, IsMark;
      RunOne(At(p, from), c);
      MarkStep(p, from, c);
    }
    hide *;
    ReadsAlone(from, [c], WordMoves(from.word, from.cmd), Marked(from, c), after);
  }

  lemma OpenReads(from: Place, kind: Kind, after: string)
    requires from.quote == Bare && (kind == Paren || kind == Brace)
    ensures Reads(from, [if kind == Brace then '{' else '('], [Push(Frame(kind, Bare))], Between(true), after)
  {
    var (text, moves) := ([if kind == Brace then '{' else '('], [Push(Frame(kind, Bare))]);
    forall p: Pile
      ensures Acts(p, moves).On? && Run(At(p, from), text) == At(Acts(p, moves).pile, Between(true))
    {
      BracketRuns(At(p, from), kind == Brace);
      assert moves[1..] == [];
      hide Run;
    }
    hide *;
    ReadsAlone(from, text, moves, Between(true), after);
  }

  /** A closing bracket after which the tree goes on in `quote`. */
  lemma CloseReads(from: Place, kind: Kind, quote: Quote, after: string)
    requires from.quote == Bare && (kind == Paren || kind == Brace)
    ensures Reads(from, [if kind == Brace then '}' else ')'], [Resume(kind, quote, after)], Place(quote, "", true, false), after)
  {
    var (text, moves, to) := ([if kind == Brace then '}' else ')'], [Resume(kind, quote, after)], Place(quote, "", true, false));
    assert moves[1..] == [];
    forall p: Pile
      ensures Run(At(p, from), text + after) == Go(Acts(p, moves), to, after)
    {
      RunConcat(At(p, from), text, after);
      BracketRuns(At(p, from), kind == Brace);
      hide Run;
    }
  }

  lemma ApostrophesRead(from: Place, text: string, after: string)
    requires from.quote == Bare && '\'' !in text
    ensures Reads(from, "'" + text + "'", [], Between(false), after)
  {
    forall p: Pile
      ensures Acts(p, []).On? && Run(At(p, from), "'" + text + "'") == At(p, Between(false))
    {
      QuotedRuns(At(p, from), text);
      hide Run;
    }
    hide *;
    ReadsAlone(from, "'" + text + "'", [], Between(false), after);
  }

  lemma BackslashReads(from: Place, c: char, after: string)
    requires from.quote == Bare
    ensures Reads(from, ['\\', c], [], Between(false), after)
  {
    forall p: Pile
      ensures Acts(p, []).On? && Run(At(p, from), ['\\', c]) == At(p, Between(false))
    {
      EscapedRuns(At(p, from), c);
      hide Run;
    }
    hide *;
    ReadsAlone(from, ['\\', c], [], Between(false), after);
  }

  // In double quotes.

  lemma QuoteOpens(from: Place, after: string)
    requires from.quote == Bare
    ensures Reads(from, "\"", [], Place(Double, "", false, false), after)
  {
    forall p: Pile
      ensures Acts(p, []).On? && Run(At(p, from), "\"") == At(p, Place(Double, "", false, false))
    {
      RunOne(At(p, from), '"');
      hide Run;
    }
    hide *;
    ReadsAlone(from, "\"", [], Place(Double, "", false, false), after);
  }

  lemma QuoteEnds(from: Place, after: string)
    requires from.quote == Double
    ensures Reads(from, "\"", [], from.(quote := Bare, dollar := false), after)
  {
    forall p: Pile
      ensures Acts(p, []).On? && Run(At(p, from), "\"") == At(p, from.(quote := Bare, dollar := false))
    {
      QuoteCloses(At(p, from));
      hide Run;
    }
    hide *;
    ReadsAlone(from, "\"", [], from.(quote := Bare, dollar := false), after);
  }

  function CharMoves(c: char): seq<Move> {
    if c == '}' then [Pop(Brace)] else []
  }

  lemma CharReads(from: Place, c: char, after: string)
    requires from.quote == Double && c !in "\"\\" && (from.dollar ==> c != '(' && c != '{')
    ensures Reads(from, [c], CharMoves(c), from.(dollar := c == '$'), after)
  {
    var moves := CharMoves(c);
    assert c == '}' ==> moves[1..] == [];
    forall p: Pile
      ensures Acts(p, moves).On? && Run(At(p, from), [c]) == At(Acts(p, moves).pile, from.(dollar := c == '$'))
    {
      RunOne(At(p, from), c);
      hide Run;
    }
    hide *;
    ReadsAlone(from, [c], moves, from.(dollar := c == '$'), after);
  }

  lemma EscapeReads(from: Place, c: char, after: string)
    requires from.quote == Double
    ensures Reads(from, ['\\', c], [], from.(dollar := false), after)
  {
    forall p: Pile
      ensures Acts(p, []).On? && Run(At(p, from), ['\\', c]) == At(p, from.(dollar := false))
    {
      RunTwo(At(p, from), '\\', c);
      hide Run;
    }
    hide *;
    ReadsAlone(from, ['\\', c], [], from.(dollar := false), after);
  }

  lemma DollarReads(from: Place, kind: Kind, after: string)
    requires from.quote == Double && (kind == Paren || kind == Brace)
    ensures Reads(from, ['$', if kind == Brace then '{' else '('], [Push(Frame(kind, Double))],
                  from.(quote := if kind == Brace then Double else Bare, dollar := false), after)
  {
    var (text, moves) := (['$', if kind == Brace then '{' else '('], [Push(Frame(kind, Double))]);
    var to := from.(quote := if kind == Brace then Double else Bare, dollar := false);
    assert moves[1..] == [];
    forall p: Pile
      ensures Acts(p, moves).On? && Run(At(p, from), text) == At(Acts(p, moves).pile, to)
    {
      DollarBracket(At(p, from), if kind == Brace then '{' else '(');
      hide Run;
    }
    hide *;
    ReadsAlone(from, text, moves, to, after);
  }

  lemma NameReads(from: Place, name: string, after: string)
    requires from.quote == Double && !from.dollar && IsName(name)
    ensures Reads(from, name, [], from, after)
  {
    forall p: Pile
      ensures Acts(p, []).On? && Run(At(p, from), name) == At(p, from)
    {
      hide IsName, Run;
      NameRuns(At(p, from), name);
    }
    hide *;
    ReadsAlone(from, name, [], from, after);
  }

  lemma VariableReads(from: Place, name: string, after: string)
    requires from.quote == Double && IsName(name)
    ensures Reads(from, "${" + name + "}", [Push(Frame(Brace, Double)), Pop(Brace)], from.(dollar := false), after)
  {
    hide Reads, IsName;
    var to := from.(dollar := false);
    DollarReads(from, Brace, name + ("}" + after));
    NameReads(to, name, "}" + after);
    CharReads(to, '}', after);
    assert name + ("}" + after) == (name + "}") + after;
    ReadsThen(to, name, [], to, "}", [Pop(Brace)], to, after);
    ReadsThen(from, "${", [Push(Frame(Brace, Double))], to, name + "}", [] + [Pop(Brace)], to, after);
    assert "${" + (name + "}") == "${" + name + "}";
    assert [Push(Frame(Brace, Double))] + ([] + [Pop(Brace)]) == [Push(Frame(Brace, Double)), Pop(Brace)];
  }

  lemma NothingReads(from: Place, after: string)
    ensures Reads(from, "", [], from, after)
  {
    assert "" + after == after;
  }

  // Words.

  /** A word, and the blank or separator after it. */
  lemma WordReads(word: string, c: char, cmd: bool, after: string)
    requires IsWord(word) && IsMark(c)
    ensures Reads(Between(cmd), word + [c], WordMoves(word, cmd), Marked(Place(Bare, word, cmd, false), c), after)
  {
    hide Reads, IsMark, WordMoves, Marked;
    var read := Place(Bare, word, cmd, false);
    assert "" + word == word;
    LettersRead(Between(cmd), word, [c] + after);
    MarkReads(read, c, after);
    ReadsThen(Between(cmd), word, [], read, [c], WordMoves(word, cmd), Marked(read, c), after);
    assert [] + WordMoves(word, cmd) == WordMoves(word, cmd);
  }

  lemma BlankReads(cmd: bool, after: string)
    ensures Reads(Between(cmd), " ", [], Between(cmd), after)
  {
    hide Reads;
    MarkReads(Between(cmd), ' ', after);
    assert WordMoves("", cmd) == [];
  }

  lemma {:induction false} OrdinaryReads(run: string, s: string, dollar: bool, after: string) returns (to: Place)
    requires forall i :: 0 <= i < |s| ==> IsOrdinary(s[i])
    requires forall i :: 0 <= i < |run| ==> IsWordChar(run[i])
    ensures to == Place(Bare, LastRun(run + s), false, to.dollar)
    ensures Reads(Place(Bare, run, false, dollar), s, [], to, after)
    decreases |s|
  {
    hide Reads, LastRun, IsOrdinary, IsWordChar;
    var from := Place(Bare, run, false, dollar);
    if s == [] {
      assert run + s == run;
      LastRunWord(run);
      NothingReads(from, after);
      to := from;
    } else {
      var rest := s[1..];
      assert run + s == run + [s[0]] + rest && [s[0]] + rest == s;
      assert IsOrdinary(s[0]);
      var next := if IsWordChar(s[0]) then run + [s[0]] else "";
      to := OrdinaryReads(next, rest, !IsWordChar(s[0]) && s[0] == '$', after);
      if IsWordChar(s[0]) {
        LettersRead(from, [s[0]], rest + after);
      } else {
        assert "" + rest == rest;
        LastRunCut(run, s[0], rest);
        OrdinaryMarkReads(from, s[0], rest + after);
      }
      ReadsThen(from, [s[0]], [], Place(Bare, next, false, !IsWordChar(s[0]) && s[0] == '$'), rest, [], to, after);
      var none: seq<Move> := [];
      assert none + none == none;
    }
  }

  lemma OrdinaryMarkReads(from: Place, c: char, after: string)
    requires from.quote == Bare && !from.cmd && IsOrdinary(c) && !IsWordChar(c)
    ensures Reads(from, [c], [], Place(Bare, "", false, c == '$'), after)
  {
    MarkReads(from, c, after);
    hide Reads, Introduces;
  }

  /** How the scan goes through an ordinary word: `moves` of its own, and what is left for the word's end. */
  ghost predicate WordRead(s: string, cmd: bool, dollar: bool, moves: seq<Move>, to: Place, after: string) {
    && Reads(Place(Bare, "", cmd, dollar), s, moves, to, after)
    && moves + WordMoves(to.word, to.cmd) == WordMoves(FirstRun(s), cmd)
    && NextIsCommandPosition(' ', to.word, to.cmd) == AfterWord(s, cmd)
    && to.quote == Bare
  }

  lemma {:induction false} ArgumentReads(s: string, cmd: bool, dollar: bool, after: string) returns (moves: seq<Move>, to: Place)
    requires forall i :: 0 <= i < |s| ==> IsOrdinary(s[i])
    ensures WordRead(s, cmd, dollar, moves, to, after)
    decreases |s|
  {
    hide Reads;
    if !cmd {
      assert "" + s == s;
      to := OrdinaryReads("", s, dollar, after);
      BlankMoves(LastRun(s), false);
      moves := [];
    } else if s == "" {
      BlankMoves("", true);
      moves, to := [], Place(Bare, "", cmd, dollar);
      NothingReads(to, after);
    } else if IsWordChar(s[0]) {
      moves, to := FirstRunReads(s, dollar, after);
    } else {
      moves, to := LeadingMarkReads(s, dollar, after);
    }
  }

  lemma {:induction false} LeadingMarkReads(s: string, dollar: bool, after: string) returns (moves: seq<Move>, to: Place)
    requires s != "" && !IsWordChar(s[0]) && forall i :: 0 <= i < |s| ==> IsOrdinary(s[i])
    ensures WordRead(s, true, dollar, moves, to, after)
    decreases |s|, 0
  {
    hide Reads, IsOrdinary;
    var (from, rest) := (Place(Bare, "", true, dollar), s[1..]);
    assert IsOrdinary(s[0]);
    MarkReads(from, s[0], rest + after);
    moves, to := ArgumentReads(rest, true, s[0] == '$', after);
    assert s == "" + [s[0]] + rest && s == [s[0]] + rest;
    LastRunCut("", s[0], rest);
    MarkFollows(s[0]);
    hide FirstRun, LastRun, WordMoves;
    ReadsThen(from, [s[0]], [], Place(Bare, "", true, s[0] == '$'), rest, moves, to, after);
    assert [] + moves == moves;
  }

  lemma MarkFollows(c: char)
    requires IsOrdinary(c) && !IsWordChar(c)
    ensures NextIsCommandPosition(c, "", true) && WordMoves("", true) == []
  {
  }

  lemma FirstRunReads(s: string, dollar: bool, after: string) returns (moves: seq<Move>, to: Place)
    requires s != "" && IsWordChar(s[0]) && forall i :: 0 <= i < |s| ==> IsOrdinary(s[i])
    ensures WordRead(s, true, dollar, moves, to, after)
  {
    LettersCut(s);
    var run, rest := Letters(s), s[|Letters(s)|..];
    assert FirstRun(s) == run && run != "";
    var from := Place(Bare, "", true, dollar);
    hide *;
    assert "" + run == run;
    if rest == "" {
      assert s == run;
      LettersRead(from, s, after);
      moves, to := [], Place(Bare, s, true, false);
      LastRunWord(s);
      LastOfRun(s, dollar, to, after);
    } else {
      assert forall i :: 0 <= i < |rest| ==> rest[i] == s[|run| + i];
      assert s == run + [rest[0]] + rest[1..] && s == run + rest;
      LastRunCut(run, rest[0], rest[1..]);
      LettersRead(from, run, rest + after);
      moves, to := RestReads(s, run, rest, after);
      ReadsThen(from, run, [], Place(Bare, run, true, false), rest, moves, to, after);
      assert [] + moves == moves;
      RestLeaves(s, dollar, moves, to, after);
    }
  }

  lemma LastOfRun(s: string, dollar: bool, to: Place, after: string)
    requires FirstRun(s) == s && LastRun(s) == s && s != "" && to == Place(Bare, s, true, false)
    requires Reads(Place(Bare, "", true, dollar), s, [], to, after)
    ensures WordRead(s, true, dollar, [], to, after)
  {
    hide Reads, FirstRun, LastRun, WordMoves, Introduces;
    BlankMoves(s, true);
    assert [] + WordMoves(s, true) == WordMoves(s, true);
  }

  lemma RestLeaves(s: string, dollar: bool, moves: seq<Move>, to: Place, after: string)
    requires moves == WordMoves(FirstRun(s), true) && FirstRun(s) != "" && to == Place(Bare, LastRun(s), false, to.dollar)
    requires Reads(Place(Bare, "", true, dollar), s, moves, to, after)
    ensures WordRead(s, true, dollar, moves, to, after)
  {
    hide Reads, FirstRun, LastRun, Introduces;
    BlankMoves(LastRun(s), false);
    assert moves + [] == moves;
  }

  lemma RestReads(s: string, run: string, rest: string, after: string) returns (moves: seq<Move>, to: Place)
    requires run != "" && rest != "" && IsOrdinary(rest[0]) && !IsWordChar(rest[0])
    requires (forall i :: 0 <= i < |rest| ==> IsOrdinary(rest[i])) && FirstRun(s) == run && LastRun(s) == LastRun(rest[1..])
    ensures moves == WordMoves(FirstRun(s), true) && to == Place(Bare, LastRun(s), false, to.dollar)
    ensures Reads(Place(Bare, run, true, false), rest, moves, to, after)
  {
    hide Reads, FirstRun, LastRun, IsOrdinary, IsWordChar, WordMoves, Introduces;
    var (from, later) := (Place(Bare, run, true, false), rest[1..]);
    moves := WordMoves(run, true);
    OrdinaryIsMark(rest[0], run);
    MarkReads(from, rest[0], later + after);
    assert "" + later == later && [rest[0]] + later == rest;
    to := OrdinaryReads("", later, rest[0] == '$', after);
    ReadsThen(from, [rest[0]], moves, Place(Bare, "", false, rest[0] == '$'), later, [], to, after);
    assert moves + [] == moves;
  }

  lemma OrdinaryIsMark(c: char, run: string)
    requires IsOrdinary(c) && !IsWordChar(c) && run != ""
    ensures IsMark(c) && !NextIsCommandPosition(c, run, true)
  {
    hide Introduces;
  }

  // The whole tree.

  /** The scan of any script, from anywhere between words: it makes the script's moves, whatever is open. */
  lemma {:induction false} ScriptReads(script: Script, cmd: bool, after: string)
    requires ScriptWritten(script)
    ensures Reads(Between(cmd), PrintScript(script), ScriptMoves(script, cmd, after),
                  Between(if script.Done? then cmd else true), after)
    decreases script, 1
  {
    hide Reads, CommandMoves, PrintCommand, CommandWritten, EndsCommand;
    match script
    case Done => NothingReads(Between(cmd), after);
    case Item(command, sep, rest) =>
      CommandReads(command, sep, cmd, Tail(rest) + after);
      TailReads(rest, after);
      var read := PrintCommand(command) + [sep];
      ReadsThen(Between(cmd), read, CommandMoves(command, sep, cmd, Tail(rest) + after), Between(true),
                Tail(rest), ScriptMoves(rest, true, after), Between(true), after);
      assert read + Tail(rest) == PrintCommand(command) + ([sep] + Tail(rest));
  }

  lemma {:induction false} TailReads(rest: Script, after: string)
    requires ScriptWritten(rest)
    ensures Reads(Between(true), Tail(rest), ScriptMoves(rest, true, after), Between(true), after)
    decreases rest, 2
  {
    hide Reads, PrintScript, ScriptWritten;
    if rest.Done? {
      NothingReads(Between(true), after);
    } else {
      hide ScriptMoves;
      var moves := ScriptMoves(rest, true, after);
      BlankReads(true, PrintScript(rest) + after);
      ScriptReads(rest, true, after);
      ReadsThen(Between(true), " ", [], Between(true), PrintScript(rest), moves, Between(true), after);
      assert [] + moves == moves;
    }
  }

  lemma {:induction false} CommandReads(command: Command, sep: char, cmd: bool, after: string)
    requires CommandWritten(command) && EndsCommand(sep)
    ensures Reads(Between(cmd), PrintCommand(command) + [sep], CommandMoves(command, sep, cmd, after), Between(true), after)
    decreases command, 2
  {
    hide Reads, PrintScript, PrintArgs, PrintArms, ScriptMoves, ArgsMoves, ArmsMoves, GroupMoves, EndsCommand;
    hide ScriptWritten, ArgsWritten, ArmsWritten, WordMoves, Introduces;
    match command
    case Simple(name, args) => SimpleReads(name, args, sep, cmd, after);
    case Subshell(body) =>
      assert " )" == " " + [Bracket(Paren, true)] && "( " == [Bracket(Paren, false)] + " ";
      ScriptReads(body, true, " )" + ([sep] + after));
      GroupReads(Paren, PrintScript(body), ScriptMoves(body, true, " )" + ([sep] + after)), sep, cmd, after);
    case Braced(body) =>
      assert " }" == " " + [Bracket(Brace, true)] && "{ " == [Bracket(Brace, false)] + " ";
      ScriptReads(body, true, " }" + ([sep] + after));
      GroupReads(Brace, PrintScript(body), ScriptMoves(body, true, " }" + ([sep] + after)), sep, cmd, after);
    case IfThen(_, _, _) => IfReads(command, sep, cmd, after);
    case While(_, _) => WhileReads(command, sep, cmd, after);
    case CaseOf(_, _) => CaseReads(command, sep, cmd, after);
  }

  lemma {:induction false} SimpleReads(name: string, args: Args, sep: char, cmd: bool, after: string)
    requires IsWord(name) && !IsReserved(name) && ArgsWritten(args) && EndsCommand(sep)
    ensures Reads(Between(cmd), (name + PrintArgs(args)) + [sep], ArgsMoves(args, Introduces(name), [sep] + after),
                  Between(true), after)
    decreases args, 2
  {
    var read := Place(Bare, name, cmd, false);
    assert WordMoves(name, cmd) == [];
    hide Reads, EndsCommand, ArgsMoves, PrintArgs, ArgsWritten, WordMoves, Introduces, IsReserved;
    assert "" + name == name;
    LettersRead(Between(cmd), name, (PrintArgs(args) + [sep]) + after);
    BlankMoves(name, cmd);
    ArgsRead(read, args, sep, after);
    var moves := ArgsMoves(args, Introduces(name), [sep] + after);
    assert [] + ([] + moves) == moves;
    ReadsThen(Between(cmd), name, [], read, PrintArgs(args) + [sep], [] + moves, Between(true), after);
    Seqs.Assoc(name, PrintArgs(args), [sep]);
  }

  function Bracket(kind: Kind, close: bool): char {
    if kind == Brace then (if close then '}' else '{') else (if close then ')' else '(')
  }

  lemma OpenSpaced(kind: Kind, cmd: bool, after: string)
    requires kind == Paren || kind == Brace
    ensures Reads(Between(cmd), [Bracket(kind, false)] + " ", [Push(Frame(kind, Bare))], Between(true), after)
  {
    hide Reads;
    OpenReads(Between(cmd), kind, " " + after);
    BlankReads(true, after);
    ReadsThen(Between(cmd), [Bracket(kind, false)], [Push(Frame(kind, Bare))], Between(true), " ", [], Between(true), after);
    assert [Push(Frame(kind, Bare))] + [] == [Push(Frame(kind, Bare))];
  }

  lemma SeparatorReads(sep: char, after: string)
    requires EndsCommand(sep)
    ensures Reads(Between(true), [sep], [], Between(true), after)
  {
    hide Reads;
    MarkReads(Between(true), sep, after);
    assert WordMoves("", true) == [];
  }

  lemma CloseSpaced(kind: Kind, sep: char, after: string)
    requires (kind == Paren || kind == Brace) && EndsCommand(sep)
    ensures Reads(Between(true), " " + [Bracket(kind, true)] + [sep], [Resume(kind, Bare, [sep] + after)], Between(true), after)
  {
    hide Reads, EndsCommand;
    var close := [Bracket(kind, true)];
    var moves := [Resume(kind, Bare, [sep] + after)];
    BlankReads(true, close + ([sep] + after));
    CloseReads(Between(true), kind, Bare, [sep] + after);
    SeparatorReads(sep, after);
    ReadsThen(Between(true), " ", [], Between(true), close, moves, Between(true), [sep] + after);
    ReadsThen(Between(true), " " + close, [] + moves, Between(true), [sep], [], Between(true), after);
    assert [] + moves + [] == moves;
  }

  lemma GroupReads(kind: Kind, body: string, inner: seq<Move>, sep: char, cmd: bool, after: string)
    requires (kind == Paren || kind == Brace) && EndsCommand(sep)
    requires Reads(Between(true), body, inner, Between(true), (" " + [Bracket(kind, true)]) + ([sep] + after))
    ensures Reads(Between(cmd), (([Bracket(kind, false)] + " ") + body + (" " + [Bracket(kind, true)])) + [sep],
                  GroupMoves(kind, inner, [sep] + after), Between(true), after)
  {
    hide Reads, EndsCommand;
    var (open, close) := ([Bracket(kind, false)] + " ", (" " + [Bracket(kind, true)]) + [sep]);
    var last := [Resume(kind, Bare, [sep] + after)];
    assert (" " + [Bracket(kind, true)]) + ([sep] + after) == close + after;
    CloseSpaced(kind, sep, after);
    ReadsThen(Between(true), body, inner, Between(true), close, last, Between(true), after);
    assert (body + close) + after == body + (close + after);
    OpenSpaced(kind, cmd, (body + close) + after);
    ReadsThen(Between(cmd), open, [Push(Frame(kind, Bare))], Between(true), body + close, inner + last, Between(true), after);
    assert open + (body + close) == (open + body + (" " + [Bracket(kind, true)])) + [sep];
  }

  /** A keyword where a command may start, in blanks. */
  lemma SpacedReads(word: string, c: char, after: string)
    requires IsWord(word) && IsMark(c)
    ensures Reads(Between(true), " " + (word + [c]), WordMoves(word, true), Marked(Place(Bare, word, true, false), c), after)
  {
    hide Reads, WordMoves, Marked, IsMark;
    BlankReads(true, (word + [c]) + after);
    WordReads(word, c, true, after);
    ReadsThen(Between(true), " ", [], Between(true), word + [c], WordMoves(word, true),
              Marked(Place(Bare, word, true, false), c), after);
    assert [] + WordMoves(word, true) == WordMoves(word, true);
  }

  /** What each keyword of the grammar does, and where it leaves the scan. */
  lemma KeywordWords(cmd: bool)
    ensures IsWord("if") && !Introduces("if") && IsWord("case") && !Introduces("case")
    ensures IsWord("while") && !Introduces("while") && WordMoves("while", cmd) == []
    ensures IsWord("then") && Introduces("then") && WordMoves("then", cmd) == []
    ensures IsWord("else") && Introduces("else") && WordMoves("else", cmd) == []
    ensures IsWord("in") && Introduces("in") && WordMoves("in", cmd) == []
  {
  }

  lemma ClosingWords()
    ensures IsWord("do") && Introduces("do") && WordMoves("do", true) == [Push(Frame(Do, Bare))]
    ensures IsWord("fi") && WordMoves("fi", true) == [Pop(If)]
    ensures IsWord("esac") && WordMoves("esac", true) == [Pop(Case)]
    ensures IsWord("done") && WordMoves("done", true) == [Pop(Do)]
  {
  }

  lemma MarkedIs(word: string, cmd: bool, c: char)
    requires word != "" && (c == ' ' || EndsCommand(c))
    ensures Marked(Place(Bare, word, cmd, false), c) == Between(EndsCommand(c) || Introduces(word)) && IsMark(c)
  {
    hide Introduces;
  }

  /** ` fi`, ` done` and their like, with the separator after them. */
  lemma EndReads(word: string, sep: char, moves: seq<Move>, after: string)
    requires IsWord(word) && WordMoves(word, true) == moves && EndsCommand(sep)
    ensures Reads(Between(true), (" " + word) + [sep], moves, Between(true), after)
    ensures Reads(Between(true), word + [sep], moves, Between(true), after)
  {
    hide Reads, WordMoves, Introduces, EndsCommand, IsMark, Marked;
    MarkedIs(word, true, sep);
    SpacedReads(word, sep, after);
    WordReads(word, sep, true, after);
    Seqs.Assoc(" ", word, [sep]);
  }

  /** ` then `, ` else ` and ` do `. */
  lemma MiddleReads(word: string, moves: seq<Move>, after: string)
    requires IsWord(word) && WordMoves(word, true) == moves && Introduces(word)
    ensures Reads(Between(true), " " + (word + " "), moves, Between(true), after)
  {
    hide Reads, WordMoves, Introduces, IsMark, Marked;
    MarkedIs(word, true, ' ');
    SpacedReads(word, ' ', after);
  }

  lemma FirstReads(word: string, cmd: bool, after: string)
    requires IsWord(word) && !Introduces(word)
    ensures Reads(Between(cmd), word + " ", WordMoves(word, cmd), Between(false), after)
  {
    hide Reads, WordMoves, Introduces, IsMark, Marked;
    MarkedIs(word, cmd, ' ');
    NoSeparator();
    WordReads(word, ' ', cmd, after);
  }

  lemma NoSeparator()
    ensures !EndsCommand(' ')
  {
  }

  /** A script, what follows it, and the moves of both. */
  lemma ScriptThen(script: Script, cmd: bool, t: string, ns: seq<Move>, after: string)
    requires Reads(Between(cmd), PrintScript(script), ScriptMoves(script, cmd, t + after), Between(true), t + after)
    requires Reads(Between(true), t, ns, Between(true), after)
    ensures Reads(Between(cmd), PrintScript(script) + t, ScriptMoves(script, cmd, t + after) + ns, Between(true), after)
  {
    hide *;
    ReadsThen(Between(cmd), PrintScript(script), ScriptMoves(script, cmd, t + after), Between(true), t, ns, Between(true), after);
  }

  lemma {:induction false} EndingReads(orElse: Script, sep: char, after: string)
    requires ScriptWritten(orElse) && EndsCommand(sep)
    ensures Reads(Between(true), Ending(orElse, sep),
                  ScriptMoves(orElse, true, (" fi" + [sep]) + after) + [Pop(If)], Between(true), after)
    decreases orElse, 2
  {
    hide Reads, PrintScript, ScriptWritten, EndsCommand;
    KeywordWords(true);
    ClosingWords();
    hide WordMoves, Introduces, IsWord;
    var end := " fi" + [sep];
    assert " fi" == " " + "fi";
    EndReads("fi", sep, [Pop(If)], after);
    if orElse.Done? {
      assert [] + [Pop(If)] == [Pop(If)];
    } else {
      hide ScriptMoves;
      ScriptReads(orElse, true, end + after);
      ScriptThen(orElse, true, end, [Pop(If)], after);
      var (text, moves) := (PrintScript(orElse) + end, ScriptMoves(orElse, true, end + after) + [Pop(If)]);
      assert " else " == " " + ("else" + " ");
      MiddleReads("else", [], text + after);
      ReadsThen(Between(true), " else ", [], Between(true), text, moves, Between(true), after);
      assert [] + moves == moves;
    }
  }

  lemma {:induction false} IfReads(command: Command, sep: char, cmd: bool, after: string)
    requires command.IfThen? && CommandWritten(command) && EndsCommand(sep)
    ensures Reads(Between(cmd), PrintCommand(command) + [sep], CommandMoves(command, sep, cmd, after), Between(true), after)
    decreases command, 1
  {
    hide Reads, PrintScript, ScriptWritten, EndsCommand, ScriptMoves, WordMoves;
    var cond, body, orElse := command.cond, command.body, command.orElse;
    var (ending, last) := (Ending(orElse, sep), ScriptMoves(orElse, true, (" fi" + [sep]) + after) + [Pop(If)]);
    EndingReads(orElse, sep, after);
    ScriptReads(body, true, ending + after);
    ScriptThen(body, true, ending, last, after);
    var (text, moves) := (PrintScript(body) + ending, ScriptMoves(body, true, ending + after) + last);
    ScriptReads(cond, false, (" then " + text) + after);
    IfReadsOn(cond, text, moves, cmd, after);
    IfPrinted(command, sep);
    assert (" then " + text) + after == " then " + (PrintScript(body) + (ending + after));
  }

  lemma IfReadsOn(cond: Script, text: string, moves: seq<Move>, cmd: bool, after: string)
    requires Reads(Between(true), text, moves, Between(true), after)
    requires Reads(Between(false), PrintScript(cond), ScriptMoves(cond, false, (" then " + text) + after), Between(true),
                   (" then " + text) + after)
    ensures Reads(Between(cmd), "if " + (PrintScript(cond) + (" then " + text)),
                  WordMoves("if", cmd) + (ScriptMoves(cond, false, (" then " + text) + after) + moves), Between(true), after)
  {
    hide Reads, PrintScript, ScriptMoves;
    KeywordWords(true);
    hide WordMoves, Introduces, IsWord;
    assert " then " == " " + ("then" + " ");
    MiddleReads("then", [], text + after);
    ReadsThen(Between(true), " then ", [], Between(true), text, moves, Between(true), after);
    assert [] + moves == moves;
    ScriptThen(cond, false, " then " + text, moves, after);
    var (rest, more) := (PrintScript(cond) + (" then " + text), ScriptMoves(cond, false, (" then " + text) + after) + moves);
    assert "if " == "if" + " ";
    FirstReads("if", cmd, rest + after);
    ReadsThen(Between(cmd), "if ", WordMoves("if", cmd), Between(false), rest, more, Between(true), after);
  }

  lemma IfPrinted(command: Command, sep: char)
    requires command.IfThen?
    ensures PrintCommand(command) + [sep]
         == "if " + (PrintScript(command.cond) + (" then " + (PrintScript(command.body) + Ending(command.orElse, sep))))
  {
    hide PrintScript;
  }

  lemma {:induction false} WhileReads(command: Command, sep: char, cmd: bool, after: string)
    requires command.While? && CommandWritten(command) && EndsCommand(sep)
    ensures Reads(Between(cmd), PrintCommand(command) + [sep], CommandMoves(command, sep, cmd, after), Between(true), after)
    decreases command, 1
  {
    hide Reads, PrintScript, ScriptWritten, EndsCommand, ScriptMoves;
    KeywordWords(true);
    ClosingWords();
    KeywordWords(cmd);
    hide WordMoves, Introduces, IsWord;
    var cond, body := command.cond, command.body;
    var end := " done" + [sep];
    assert " done" == " " + "done";
    EndReads("done", sep, [Pop(Do)], after);
    ScriptReads(body, true, end + after);
    ScriptThen(body, true, end, [Pop(Do)], after);
    var (text, moves) := (PrintScript(body) + end, ScriptMoves(body, true, end + after) + [Pop(Do)]);
    assert " do " == " " + ("do" + " ");
    MiddleReads("do", [Push(Frame(Do, Bare))], text + after);
    ReadsThen(Between(true), " do ", [Push(Frame(Do, Bare))], Between(true), text, moves, Between(true), after);
    ScriptReads(cond, false, (" do " + text) + after);
    ScriptThen(cond, false, " do " + text, [Push(Frame(Do, Bare))] + moves, after);
    var rest := PrintScript(cond) + (" do " + text);
    var more := ScriptMoves(cond, false, (" do " + text) + after) + ([Push(Frame(Do, Bare))] + moves);
    assert "while " == "while" + " ";
    FirstReads("while", cmd, rest + after);
    ReadsThen(Between(cmd), "while ", [], Between(false), rest, more, Between(true), after);
    assert [] + more == more;
    assert (" do " + text) + after == " do " + (PrintScript(body) + (end + after));
    WhilePrinted(cond, body, sep);
  }

  lemma WhilePrinted(cond: Script, body: Script, sep: char)
    ensures PrintCommand(While(cond, body)) + [sep]
         == "while " + (PrintScript(cond) + (" do " + (PrintScript(body) + (" done" + [sep]))))
  {
    hide PrintScript;
  }

  lemma {:induction false} CaseReads(command: Command, sep: char, cmd: bool, after: string)
    requires command.CaseOf? && CommandWritten(command) && EndsCommand(sep)
    ensures Reads(Between(cmd), PrintCommand(command) + [sep], CommandMoves(command, sep, cmd, after), Between(true), after)
    decreases command, 1
  {
    hide Reads, PrintArms, ArmsWritten, EndsCommand, ArmsMoves;
    KeywordWords(true);
    ClosingWords();
    KeywordWords(cmd);
    hide WordMoves, Introduces;
    var subject, arms := command.subject, command.arms;
    var end := "esac" + [sep];
    EndReads("esac", sep, [Pop(Case)], after);
    ArmsRead(arms, end + after);
    ReadsThen(Between(true), PrintArms(arms), ArmsMoves(arms, end + after), Between(true), end, [Pop(Case)], Between(true), after);
    var (text, moves) := (PrintArms(arms) + end, ArmsMoves(arms, end + after) + [Pop(Case)]);
    SubjectReads(subject, (text) + after);
    ReadsThen(Between(false), subject + " in ", [], Between(true), text, moves, Between(true), after);
    assert [] + moves == moves;
    var rest := (subject + " in ") + text;
    assert "case " == "case" + " ";
    FirstReads("case", cmd, rest + after);
    ReadsThen(Between(cmd), "case ", WordMoves("case", cmd), Between(false), rest, moves, Between(true), after);
    CasePrinted(subject, arms, sep);
  }

  lemma CasePrinted(subject: string, arms: Arms, sep: char)
    ensures PrintCommand(CaseOf(subject, arms)) + [sep] == "case " + ((subject + " in ") + (PrintArms(arms) + ("esac" + [sep])))
  {
    hide PrintArms;
  }

  lemma SubjectReads(subject: string, after: string)
    requires IsWord(subject)
    ensures Reads(Between(false), subject + " in ", [], Between(true), after)
  {
    hide Reads, IsMark, Marked;
    var now := Introduces(subject);
    KeywordWords(now);
    assert subject != "";
    hide Introduces, IsWord;
    MarkedIs(subject, false, ' ');
    NoSeparator();
    MarkedIs("in", now, ' ');
    WordReads(subject, ' ', false, "in " + after);
    WordReads("in", ' ', now, after);
    hide WordMoves;
    assert "in " == "in" + " ";
    ReadsThen(Between(false), subject + " ", WordMoves(subject, false), Between(now), "in ", [], Between(true), after);
    assert (subject + " ") + "in " == subject + " in ";
    NoMoves(subject);
  }

  lemma NoMoves(word: string)
    ensures WordMoves(word, false) == [] && WordMoves(word, false) + [] == []
  {
  }

  lemma {:induction false} ArmsRead(arms: Arms, after: string)
    requires ArmsWritten(arms)
    ensures Reads(Between(true), PrintArms(arms), ArmsMoves(arms, after), Between(true), after)
    decreases arms, 0
  {
    hide Reads, PrintScript, ScriptWritten, ScriptMoves, IsWord;
    match arms
    case NoArms => NothingReads(Between(true), after);
    case Arm(pattern, body, more) =>
      ArmsRead(more, after);
      hide ArmsMoves, PrintArms;
      var (others, moves) := (PrintArms(more), ArmsMoves(more, after));
      ArmEnds(others + after);
      ReadsThen(Between(true), ";; ", [], Between(true), others, moves, Between(true), after);
      assert [] + moves == moves;
      ScriptReads(body, true, (";; " + others) + after);
      ScriptThen(body, true, ";; " + others, moves, after);
      assert (";; " + others) + after == ";; " + (others + after);
      var (text, inside) := (PrintScript(body) + (";; " + others), ScriptMoves(body, true, ";; " + (others + after)) + moves);
      PatternReads(pattern, text, inside, after);
      ArmIs(pattern, body, more, after);
      assert text + after == PrintScript(body) + (";; " + (others + after));
      assert pattern + ")" + (" " + text) == pattern + ") " + PrintScript(body) + ";; " + others;
  }

  lemma ArmIs(pattern: string, body: Script, more: Arms, after: string)
    ensures PrintArms(Arm(pattern, body, more)) == pattern + ") " + PrintScript(body) + ";; " + PrintArms(more)
    ensures ArmsMoves(Arm(pattern, body, more), after)
         == [Resume(Paren, Bare, " " + (PrintScript(body) + (";; " + (PrintArms(more) + after))))]
            + (ScriptMoves(body, true, ";; " + (PrintArms(more) + after)) + ArmsMoves(more, after))
  {
    hide PrintScript, ScriptMoves;
  }

  lemma ArmEnds(after: string)
    ensures Reads(Between(true), ";; ", [], Between(true), after)
  {
    hide Reads;
    SeparatorReads(';', "; " + after);
    SeparatorReads(';', " " + after);
    BlankReads(true, after);
    assert ";" + "; " == ";; " && ";" + " " == "; ";
    ReadsThen(Between(true), ";", [], Between(true), " ", [], Between(true), after);
    ReadsThen(Between(true), ";", [], Between(true), "; ", [] + [], Between(true), after);
    var none: seq<Move> := [];
    assert none + (none + none) == none;
  }

  lemma PatternReads(pattern: string, text: string, inside: seq<Move>, after: string)
    requires IsWord(pattern) && Reads(Between(true), text, inside, Between(true), after)
    ensures Reads(Between(true), pattern + ")" + (" " + text), [Resume(Paren, Bare, " " + (text + after))] + inside,
                  Between(true), after)
  {
    hide Reads;
    var read := Place(Bare, pattern, true, false);
    var close := [Resume(Paren, Bare, " " + (text + after))];
    BlankReads(true, text + after);
    ReadsThen(Between(true), " ", [], Between(true), text, inside, Between(true), after);
    assert [] + inside == inside;
    assert (" " + text) + after == " " + (text + after);
    CloseReads(read, Paren, Bare, (" " + text) + after);
    ReadsThen(read, ")", close, Between(true), " " + text, inside, Between(true), after);
    assert "" + pattern == pattern;
    LettersRead(Between(true), pattern, (")" + (" " + text)) + after);
    ReadsThen(Between(true), pattern, [], read, ")" + (" " + text), close + inside, Between(true), after);
    assert [] + (close + inside) == close + inside;
    assert pattern + (")" + (" " + text)) == pattern + ")" + (" " + text);
  }

  /** The arguments and the separator after them, from the end of the word before them. */
  lemma {:induction false} ArgsRead(from: Place, args: Args, sep: char, after: string)
    requires ArgsWritten(args) && EndsCommand(sep) && from.quote == Bare
    ensures Reads(from, PrintArgs(args) + [sep],
                  WordMoves(from.word, from.cmd)
                  + ArgsMoves(args, NextIsCommandPosition(' ', from.word, from.cmd), [sep] + after),
                  Between(true), after)
    decreases args, 1
  {
    hide Reads, EndsCommand, WordMoves, PrintContent, ContentWritten, ContentMoves, IsOrdinary, FirstRun, AfterWord;
    var now := NextIsCommandPosition(' ', from.word, from.cmd);
    match args
    case NoArgs =>
      SeparatorEnds(from, sep, after);
      assert [] + [sep] == [sep];
      assert WordMoves(from.word, from.cmd) + [] == WordMoves(from.word, from.cmd);
    case Plain(word, others) =>
      var rest := PrintArgs(others) + [sep];
      var moves, to := ArgumentReads(word, now, false, rest + after);
      ArgsRead(to, others, sep, after);
      var more := ArgsMoves(others, AfterWord(word, now), [sep] + after);
      ReadsThen(Between(now), word, moves, to, rest, WordMoves(to.word, to.cmd) + more, Between(true), after);
      assert moves + (WordMoves(to.word, to.cmd) + more) == WordMoves(FirstRun(word), now) + more;
      ArgumentThen(from, args, word, others, sep, after);
    case Apostrophes(text, others) =>
      ApostrophesRead(Between(now), text, (PrintArgs(others) + [sep]) + after);
      ArgsRead(Between(false), others, sep, after);
      QuietArgument(from, args, "'" + text + "'", [], others, false, sep, after);
    case Backslashed(c, others) =>
      BackslashReads(Between(now), c, (PrintArgs(others) + [sep]) + after);
      ArgsRead(Between(false), others, sep, after);
      QuietArgument(from, args, ['\\', c], [], others, false, sep, after);
    case InQuotes(content, others) =>
      var rest := PrintArgs(others) + [sep];
      StringReads(content, now, rest + after);
      ArgsRead(Between(HasOutput(content)), others, sep, after);
      Seqs.Assoc(PrintArgs(others), [sep], after);
      QuietArgument(from, args, "\"" + PrintContent(content), ContentMoves(content, false, rest + after), others,
                    HasOutput(content), sep, after);
  }

  lemma ArgumentThen(from: Place, args: Args, word: string, others: Args, sep: char, after: string)
    requires from.quote == Bare && PrintArgs(args) == " " + word + PrintArgs(others)
    requires var now := NextIsCommandPosition(' ', from.word, from.cmd);
             Reads(Between(now), word + (PrintArgs(others) + [sep]), ArgsMoves(args, now, [sep] + after), Between(true), after)
    ensures Reads(from, PrintArgs(args) + [sep],
                  WordMoves(from.word, from.cmd)
                  + ArgsMoves(args, NextIsCommandPosition(' ', from.word, from.cmd), [sep] + after),
                  Between(true), after)
  {
    hide Reads, WordMoves, PrintArgs, ArgsMoves, NextIsCommandPosition;
    var now := NextIsCommandPosition(' ', from.word, from.cmd);
    var text := word + (PrintArgs(others) + [sep]);
    MarkReads(from, ' ', text + after);
    ReadsThen(from, " ", WordMoves(from.word, from.cmd), Between(now), text, ArgsMoves(args, now, [sep] + after), Between(true), after);
    assert " " + text == PrintArgs(args) + [sep];
  }

  /** An argument after which no word is left to be ended. */
  lemma QuietArgument(from: Place, args: Args, word: string, moves: seq<Move>, others: Args, cmd: bool, sep: char, after: string)
    requires from.quote == Bare && PrintArgs(args) == " " + word + PrintArgs(others)
    requires var now := NextIsCommandPosition(' ', from.word, from.cmd);
             && ArgsMoves(args, now, [sep] + after) == moves + ArgsMoves(others, cmd, [sep] + after)
             && Reads(Between(now), word, moves, Between(cmd), (PrintArgs(others) + [sep]) + after)
    requires Reads(Between(cmd), PrintArgs(others) + [sep],
                   WordMoves("", cmd) + ArgsMoves(others, NextIsCommandPosition(' ', "", cmd), [sep] + after), Between(true), after)
    ensures Reads(from, PrintArgs(args) + [sep],
                  WordMoves(from.word, from.cmd)
                  + ArgsMoves(args, NextIsCommandPosition(' ', from.word, from.cmd), [sep] + after),
                  Between(true), after)
  {
    BlankMoves("", cmd);
    hide Reads, PrintArgs, ArgsMoves, NextIsCommandPosition;
    assert WordMoves("", cmd) == [];
    hide WordMoves;
    var now := NextIsCommandPosition(' ', from.word, from.cmd);
    var more := ArgsMoves(others, cmd, [sep] + after);
    assert [] + more == more;
    ReadsThen(Between(now), word, moves, Between(cmd), PrintArgs(others) + [sep], more, Between(true), after);
    ArgumentThen(from, args, word, others, sep, after);
  }

  lemma {:induction false} StringReads(content: Content, cmd: bool, after: string)
    requires ContentWritten(content)
    ensures Reads(Between(cmd), "\"" + PrintContent(content), ContentMoves(content, false, after), Between(HasOutput(content)), after)
    decreases content, 1
  {
    hide Reads, PrintContent, ContentMoves, ContentWritten, HasOutput;
    var moves := ContentMoves(content, false, after);
    ContentReads(content, false, false, after);
    QuoteOpens(Between(cmd), PrintContent(content) + after);
    ReadsThen(Between(cmd), "\"", [], Place(Double, "", false, false), PrintContent(content), moves,
              Between(HasOutput(content)), after);
    assert [] + moves == moves;
  }

  /** The rest of a double-quoted string. */
  lemma {:induction false} ContentReads(content: Content, cmd: bool, dollar: bool, after: string)
    requires ContentWritten(content) && (dollar ==> !(content.Char? && (content.c == '(' || content.c == '{')))
    ensures Reads(Place(Double, "", cmd, dollar), PrintContent(content), ContentMoves(content, cmd, after),
                  Between(cmd || HasOutput(content)), after)
    decreases content, 0
  {
    hide Reads, PrintScript, ScriptMoves, ScriptWritten, IsName;
    var from := Place(Double, "", cmd, dollar);
    match content
    case EndQuote => QuoteEnds(from, after);
    case Char(c, further) =>
      ContentReads(further, cmd, c == '$', after);
      CharReads(from, c, PrintContent(further) + after);
      ContentThen(from, content, [c], CharMoves(c), cmd, c == '$', further, after);
    case Escape(c, further) =>
      ContentReads(further, cmd, false, after);
      EscapeReads(from, c, PrintContent(further) + after);
      ContentThen(from, content, ['\\', c], [], cmd, false, further, after);
    case Variable(name, further) =>
      ContentReads(further, cmd, false, after);
      VariableReads(from, name, PrintContent(further) + after);
      ContentThen(from, content, "${" + name + "}", [Push(Frame(Brace, Double)), Pop(Brace)], cmd, false, further, after);
    case Output(script, further) =>
      ContentReads(further, true, false, after);
      ScriptReads(script, cmd, ")" + (PrintContent(further) + after));
      OutputReads(from, script, further, after);
  }

  lemma ContentThen(from: Place, content: Content, text: string, moves: seq<Move>, cmd: bool, dollar: bool, further: Content, after: string)
    requires from.quote == Double && PrintContent(content) == text + PrintContent(further)
    requires ContentMoves(content, from.cmd, after) == moves + ContentMoves(further, cmd, after)
    requires Reads(from, text, moves, Place(Double, "", cmd, dollar), PrintContent(further) + after)
    requires Reads(Place(Double, "", cmd, dollar), PrintContent(further), ContentMoves(further, cmd, after),
                   Between(cmd || HasOutput(further)), after)
    ensures Reads(from, PrintContent(content), ContentMoves(content, from.cmd, after), Between(cmd || HasOutput(further)), after)
  {
    hide *;
    ReadsThen(from, text, moves, Place(Double, "", cmd, dollar), PrintContent(further), ContentMoves(further, cmd, after),
              Between(cmd || HasOutput(further)), after);
  }

  lemma OutputReads(from: Place, script: Script, further: Content, after: string)
    requires from.quote == Double && from.word == ""
    requires Reads(Between(from.cmd), PrintScript(script), ScriptMoves(script, from.cmd, ")" + (PrintContent(further) + after)),
                   Between(if script.Done? then from.cmd else true), ")" + (PrintContent(further) + after))
    requires Reads(Place(Double, "", true, false), PrintContent(further), ContentMoves(further, true, after), Between(true), after)
    ensures Reads(from, PrintContent(Output(script, further)), ContentMoves(Output(script, further), from.cmd, after), Between(true), after)
  {
    hide Reads, PrintScript, ScriptMoves;
    OutputIs(script, from.cmd, further, after);
    hide PrintContent, ContentMoves;
    var (rest, resumed) := (PrintContent(further), Place(Double, "", true, false));
    var (inner, later) := (ScriptMoves(script, from.cmd, ")" + (rest + after)), ContentMoves(further, true, after));
    var (close, ended) := ([Resume(Paren, Double, rest + after)], Between(if script.Done? then from.cmd else true));
    CloseReads(ended, Paren, Double, rest + after);
    ReadsThen(ended, ")", close, resumed, rest, later, Between(true), after);
    assert (")" + rest) + after == ")" + (rest + after);
    ReadsThen(Between(from.cmd), PrintScript(script), inner, ended, ")" + rest, close + later, Between(true), after);
    DollarReads(from, Paren, (PrintScript(script) + (")" + rest)) + after);
    ReadsThen(from, "$(", [Push(Frame(Paren, Double))], Between(from.cmd), PrintScript(script) + (")" + rest), inner + (close + later),
              Between(true), after);
    assert "$(" + (PrintScript(script) + (")" + rest)) == "$(" + PrintScript(script) + ")" + rest;
  }

  lemma OutputIs(script: Script, cmd: bool, further: Content, after: string)
    ensures PrintContent(Output(script, further)) == "$(" + PrintScript(script) + ")" + PrintContent(further)
    ensures ContentMoves(Output(script, further), cmd, after)
         == [Push(Frame(Paren, Double))]
            + (ScriptMoves(script, cmd, ")" + (PrintContent(further) + after))
               + ([Resume(Paren, Double, PrintContent(further) + after)] + ContentMoves(further, true, after)))
  {
    hide PrintScript, ScriptMoves;
  }

  lemma SeparatorEnds(from: Place, sep: char, after: string)
    requires EndsCommand(sep) && from.quote == Bare
    ensures Reads(from, [sep], WordMoves(from.word, from.cmd), Between(true), after)
  {
    hide Reads, WordMoves;
    MarkReads(from, sep, after);
  }

  // ------------------------------------------------------------------ where the moves are not the tree's

  /** A word after the argument `in` does what it would do as a command. */
  lemma WordAfterIn(name: string, word: string, sep: char, cmd: bool, after: string)
    requires IsWord(word)
    ensures CommandMoves(Simple(name, Plain("in", Plain(word, NoArgs))), sep, cmd, after) == WordMoves(word, true)
  {
    FirstOfWord("in");
    FirstOfWord(word);
    LastRunWord("in");
    InIntroduces();
    NoKeywordIn(Introduces(name));
    hide FirstRun, LastRun, WordMoves, Introduces;
    assert AfterWord("in", Introduces(name));
    var last := ArgsMoves(NoArgs, AfterWord(word, true), [sep] + after);
    assert last == [];
    assert ArgsMoves(Plain(word, NoArgs), true, [sep] + after) == WordMoves(word, true) + last;
  }

  lemma NoKeywordIn(cmd: bool)
    ensures WordMoves("in", cmd) == []
  {
  }

  lemma FirstOfWord(word: string)
    requires IsWord(word)
    ensures FirstRun(word) == word
  {
    LettersCut(word);
  }

  /** A `case` right after `"$(` is missed, and the `)` after its first pattern ends the substitution: what follows
      is read in double quotes. */
  lemma CaseInSubstitution(p: Pile, subject: string, arms: Arms, sep: char, rest: Script, further: Content, after: string)
    requires arms.Arm?
    ensures var script := Item(CaseOf(subject, arms), sep, rest);
            var o := Acts(p, ContentMoves(Output(script, further), false, after));
            o.Off? && o.pile.stack == p.stack && o.quote == Double
  {
    var script := Item(CaseOf(subject, arms), sep, rest);
    var moves := ContentMoves(Output(script, further), false, after);
    var close := ArmsMoves(arms, ("esac" + [sep]) + (Tail(rest) + (")" + (PrintContent(further) + after))))[0];
    NoMoves("case");
    OutputIs(script, false, further, after);
    assert moves[0] == Push(Frame(Paren, Double));
    assert moves[1..][0] == close;
    hide ScriptMoves, ArmsMoves, ContentMoves, PrintContent, PrintScript, PrintArms;
    var q := Act(p, moves[0]).pile;
    assert q.stack[..|p.stack|] == p.stack;
    assert Act(q, close).Off?;
    assert Acts(p, moves) == Acts(q, moves[1..]);
  }
}
