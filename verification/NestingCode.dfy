/** Shell text as the tree it is: characters, quoted runs, brackets and keyword blocks. What the nesting scan
    makes of every such tree, whatever was open before it. */
module NestingCode {
  import opened Wrappers
  import opened Chars
  import opened Nesting

  datatype Code =
    | Nil
    | Glyph(c: char, next: Code)
    | Escaped(e: char, next: Code)
    | Quoted(s: string, next: Code)
    | Doubled(body: Strung, next: Code)
    | Group(braced: bool, inner: Code, next: Code)
    | Block(kind: Kind, inner: Code, sep: char, next: Code)

  /** The rest of a double-quoted string: text, `${name}` and `$(code)`. */
  datatype Strung =
    | Close
    | Lit(lit: char, after: Strung)
    | Esc(esc: char, after: Strung)
    | Param(name: string, after: Strung)
    | Subst(code: Code, after: Strung)

  function Opener(kind: Kind): string {
    match kind case If => "if" case Case => "case" case _ => "do"
  }

  function Closer(kind: Kind): string {
    match kind case If => "fi" case Case => "esac" case _ => "done"
  }

  function Print(code: Code): string {
    match code
    case Nil => []
    case Glyph(c, next) => [c] + Print(next)
    case Escaped(e, next) => ['\\', e] + Print(next)
    case Quoted(s, next) => (['\''] + s + ['\'']) + Print(next)
    case Doubled(body, next) => (['"'] + PrintStrung(body)) + Print(next)
    case Group(braced, inner, next) =>
      ([if braced then '{' else '('] + Print(inner) + [if braced then '}' else ')']) + Print(next)
    case Block(kind, inner, sep, next) =>
      ((Opener(kind) + [' ']) + Print(inner) + (Closer(kind) + [sep])) + Print(next)
  }

  function PrintStrung(body: Strung): string {
    match body
    case Close => ['"']
    case Lit(c, after) => [c] + PrintStrung(after)
    case Esc(e, after) => ['\\', e] + PrintStrung(after)
    case Param(name, after) => (['$', '{'] + name + ['}']) + PrintStrung(after)
    case Subst(code, after) => (['$', '('] + Print(code) + [')']) + PrintStrung(after)
  }

  // ------------------------------------------------------------------ no keyword is misread

  /** The word so far, and whether it stands where a command may start. */
  datatype Pos = Pos(word: string, cmd: bool)

  predicate IsReserved(word: string) {
    !KeywordOf(word).NoKeyword?
  }

  /** Past one unquoted character: nothing when it starts a comment, or ends a reserved word that no block
      of the tree stands for. A `)` is plain text right inside a keyword block alone. */
  function PastGlyph(c: char, word: string, cmd: bool, block: bool): Option<Pos> {
    if IsWordChar(c) then Some(Pos(word + [c], cmd))
    else if c == ')' then (if block then Some(Pos("", true)) else None)
    else if c in "\\'\"({}" || (c == '#' && word == "") || (cmd && IsReserved(word)) then None
    else Some(Pos("", NextIsCommandPosition(c, word, cmd)))
  }

  predicate IsBlock(kind: Kind) {
    kind == If || kind == Case || kind == Do
  }

  function Past(code: Code, word: string, cmd: bool, block: bool): Option<Pos>
    decreases code
  {
    match code
    case Nil => Some(Pos(word, cmd))
    case Glyph(c, next) =>
      (match PastGlyph(c, word, cmd, block)
       case None => None
       case Some(p) => Past(next, p.word, p.cmd, block))
    case Escaped(_, next) => Past(next, "", false, block)
    case Quoted(s, next) => if '\'' in s then None else Past(next, "", false, block)
    case Doubled(body, next) =>
      (match PastStrung(body, false)
       case None => None
       case Some(after) => Past(next, "", after, block))
    case Group(_, inner, next) => if Past(inner, "", true, false).None? then None else Past(next, "", true, block)
    case Block(kind, inner, sep, next) =>
      if IsBlock(kind) && word == "" && cmd && (EndsCommand(sep) || sep == ' ')
         && Past(inner, "", kind == Do, true) == Some(Pos("", true))
      then Past(next, "", EndsCommand(sep), block)
      else None
  }

  function PastStrung(body: Strung, cmd: bool): Option<bool>
    decreases body
  {
    match body
    case Close => Some(cmd)
    case Lit(c, after) => if c in "\"\\" || (c == '$' && OpensBracket(after)) then None else PastStrung(after, cmd)
    case Esc(_, after) => PastStrung(after, cmd)
    case Param(name, after) => if IsName(name) then PastStrung(after, cmd) else None
    case Subst(code, after) => if Past(code, "", cmd, false).None? then None else PastStrung(after, true)
  }

  predicate OpensBracket(body: Strung) {
    body.Lit? && (body.lit == '(' || body.lit == '{')
  }

  predicate IsName(name: string) {
    forall k :: 0 <= k < |name| ==> name[k] !in "\"\\}$"
  }

  // ------------------------------------------------------------------ what the scan makes of it

  /** How many braces right on top of the stack a `}` in a double-quoted string of `code` would close: those of
      strings in no bracket or block of their own, or only in brace groups. */
  function Pops(code: Code): nat {
    match code
    case Nil => 0
    case Glyph(_, next) => Pops(next)
    case Escaped(_, next) => Pops(next)
    case Quoted(_, next) => Pops(next)
    case Doubled(body, next) => StrungPops(body) + Pops(next)
    case Group(braced, inner, next) => (if braced then Pops(inner) else 0) + Pops(next)
    case Block(_, _, _, next) => Pops(next)
  }

  function StrungPops(body: Strung): nat {
    match body
    case Close => 0
    case Lit(c, after) => (if c == '}' then 1 else 0) + StrungPops(after)
    case Esc(_, after) => StrungPops(after)
    case Param(_, after) => StrungPops(after)
    case Subst(_, after) => StrungPops(after)
  }

  function Min(a: nat, b: nat): nat {
    if a < b then a else b
  }

  /** One part and then another that starts `n` braces lower, when `top` of them are there to close. */
  function Then(first: nat, n: nat, top: nat, second: nat): nat {
    Max(first, second - Min(n, top))
  }

  /** How far above where it starts the stack rises, `top` braces being on top of it at the start. */
  function Reach(code: Code, top: nat): nat
    decreases code
  {
    match code
    case Nil => 0
    case Glyph(_, next) => Reach(next, top)
    case Escaped(_, next) => Reach(next, top)
    case Quoted(_, next) => Reach(next, top)
    case Doubled(body, next) =>
      Then(StrungReach(body, top), StrungPops(body), top, Reach(next, top - Min(StrungPops(body), top)))
    case Group(braced, inner, next) =>
      if braced then
        Then(1 + Reach(inner, top + 1), Pops(inner), top, Reach(next, top - Min(Pops(inner), top)))
      else Max(1 + Reach(inner, 0), Reach(next, top))
    case Block(_, inner, _, next) => Max(1 + Reach(inner, 0), Reach(next, top))
  }

  function StrungReach(body: Strung, top: nat): nat
    decreases body
  {
    match body
    case Close => 0
    case Lit(c, after) =>
      if c == '}' then Then(0, 1, top, StrungReach(after, top - Min(1, top))) else StrungReach(after, top)
    case Esc(_, after) => StrungReach(after, top)
    case Param(_, after) => Max(1, StrungReach(after, top))
    case Subst(code, after) => Max(1 + Reach(code, 0), StrungReach(after, top))
  }

  function EndsInDollar(code: Code, dollar: bool): bool {
    match code
    case Nil => dollar
    case Glyph(c, next) => EndsInDollar(next, c == '$')
    case Escaped(_, next) => EndsInDollar(next, false)
    case Quoted(_, next) => EndsInDollar(next, false)
    case Doubled(_, next) => EndsInDollar(next, false)
    case Group(_, _, next) => EndsInDollar(next, false)
    case Block(_, _, _, next) => EndsInDollar(next, false)
  }

  /** The braces on top of the stack. */
  function Top(stack: seq<Frame>): (n: nat)
    ensures n <= |stack|
  {
    if OnTop(stack, Brace) then 1 + Top(stack[..|stack| - 1]) else 0
  }

  function Less(stack: seq<Frame>, n: nat): seq<Frame> {
    stack[..|stack| - Min(n, Top(stack))]
  }

  function Moved(s: Scan, pops: nat, reach: nat): Scan {
    s.(stack := Less(s.stack, pops), max := Max(s.max, |s.stack| + reach))
  }

  predicate BracesBare(stack: seq<Frame>) {
    forall k :: 0 <= k < |stack| ==> stack[k].kind == Brace ==> stack[k].resume == Bare
  }

  /** Not inside an escape or a comment. */
  predicate Reading(s: Scan, quote: Quote) {
    s.quote == quote && !s.escaped && !s.comment
  }

  predicate Ready(s: Scan, quote: Quote) {
    Reading(s, quote) && BracesBare(s.stack) && |s.stack| <= s.max
  }

  function Placed(s: Scan, p: Pos, dollar: bool): Scan {
    s.(word := p.word, cmdPos := p.cmd, dollar := dollar)
  }

  function Effect(s: Scan, code: Code, end: Pos): Scan {
    Placed(Moved(s, Pops(code), Reach(code, Top(s.stack))), end, EndsInDollar(code, s.dollar))
  }

  // Popping and reaching, composed.

  lemma {:induction false} TopOfLess(stack: seq<Frame>, n: nat)
    ensures Top(Less(stack, n)) == Top(stack) - Min(n, Top(stack))
    decreases |stack|
  {
    if n == 0 || !OnTop(stack, Brace) {
      assert stack[..|stack|] == stack;
    } else {
      var rest := stack[..|stack| - 1];
      TopOfLess(rest, n - 1);
      assert Less(stack, n) == Less(rest, n - 1);
    }
  }

  lemma BareLess(stack: seq<Frame>, n: nat)
    requires BracesBare(stack)
    ensures BracesBare(Less(stack, n))
  {
  }

  lemma TopOfPushed(stack: seq<Frame>, frame: Frame)
    ensures Top(stack + [frame]) == if frame.kind == Brace then Top(stack) + 1 else 0
  {
    assert (stack + [frame])[..|stack|] == stack;
  }

  lemma MovedTwice(s: Scan, n: nat, reach: nat, m: nat, more: nat)
    requires |s.stack| <= s.max
    ensures Moved(Moved(s, n, reach), m, more) == Moved(s, n + m, Then(reach, n, Top(s.stack), more))
    ensures Top(Moved(s, n, reach).stack) == Top(s.stack) - Min(n, Top(s.stack))
    ensures |Moved(s, n, reach).stack| <= Moved(s, n, reach).max
  {
    TopOfLess(s.stack, n);
    hide Top;
    var cut := |s.stack| - Min(n, Top(s.stack));
    assert |Less(s.stack, n)| == cut;
    var left := cut - Min(m, Top(s.stack) - Min(n, Top(s.stack)));
    assert s.stack[..cut][..left] == s.stack[..left];
    assert |s.stack| - Min(n + m, Top(s.stack)) == left;
  }

  lemma MovedNowhere(s: Scan)
    requires |s.stack| <= s.max
    ensures Moved(s, 0, 0) == s
  {
    assert s.stack[..|s.stack|] == s.stack;
  }

  // ------------------------------------------------------------------ part by part

  lemma RunOne(s: Scan, c: char)
    ensures Run(s, [c]) == Step(s, c)
  {
    hide Step;
    assert [c][1..] == [];
    assert Run(Step(s, c), []) == Step(s, c);
  }

  lemma RunTwo(s: Scan, c: char, d: char)
    ensures Run(s, [c, d]) == Step(Step(s, c), d)
  {
    hide Step;
    assert [c, d][1..] == [d];
    RunOne(Step(s, c), d);
  }

  lemma GlyphRuns(s: Scan, c: char, block: bool)
    requires Ready(s, Bare) && PastGlyph(c, s.word, s.cmdPos, block).Some? && (block ==> InBlock(s.stack))
    ensures Run(s, [c]) == Placed(s, PastGlyph(c, s.word, s.cmdPos, block).value, c == '$')
  {
    RunOne(s, c);
  }

  lemma EscapedRuns(s: Scan, e: char)
    requires Reading(s, Bare)
    ensures Run(s, ['\\', e]) == Placed(s, Pos("", false), false)
  {
    RunTwo(s, '\\', e);
  }

  lemma {:induction false} SingleRuns(s: Scan, text: string)
    requires s.quote == Single && !s.escaped && !s.comment && '\'' !in text
    ensures Run(s, text) == s
  {
    if text != [] {
      SingleRuns(s, text[1..]);
    }
  }

  lemma QuotedRuns(s: Scan, text: string)
    requires Reading(s, Bare) && '\'' !in text
    ensures Run(s, ['\''] + text + ['\'']) == Placed(s, Pos("", false), false)
  {
    var inside := s.(quote := Single, word := "", cmdPos := false, dollar := false);
    RunConcat(s, ['\''] + text, ['\'']);
    RunConcat(s, ['\''], text);
    RunOne(s, '\'');
    SingleRuns(inside, text);
    RunOne(inside, '\'');
    hide Run;
  }

  lemma {:induction false} NameRuns(s: Scan, name: string)
    requires s.quote == Double && !s.escaped && !s.comment && !s.dollar && IsName(name)
    ensures Run(s, name) == s
  {
    if name != [] {
      assert name[0] !in "\"\\}$";
      NameRuns(s, name[1..]);
    }
  }

  lemma DollarBracket(s: Scan, open: char)
    requires Reading(s, Double) && (open == '{' || open == '(')
    ensures Run(s, ['$', open])
         == if open == '{' then Opened(s, Brace, Double).(dollar := false)
            else Opened(s, Paren, Double).(quote := Bare, dollar := false)
  {
    RunTwo(s, '$', open);
    hide Run;
  }

  lemma BraceInDouble(s: Scan)
    requires s.quote == Double && !s.escaped && !s.comment
    ensures Run(s, ['}']) == s.(stack := Shut(s.stack, Brace), dollar := false)
  {
    RunOne(s, '}');
    hide Run;
  }

  lemma ParamRuns(s: Scan, name: string)
    requires Ready(s, Double) && IsName(name)
    ensures Run(s, ['$', '{'] + name + ['}']) == Moved(s, 0, 1).(cmdPos := s.cmdPos, dollar := false)
  {
    NoneLess(s.stack);
    hide Run, Step;
    RunConcat(s, ['$', '{'] + name, ['}']);
    RunConcat(s, ['$', '{'], name);
    DollarBracket(s, '{');
    var inside := Opened(s, Brace, Double).(dollar := false);
    NameRuns(inside, name);
    BraceInDouble(inside);
    assert (s.stack + [Frame(Brace, Double)])[..|s.stack|] == s.stack;
  }

  /** What a bracket or block leaves, once the inside has been run on the stack with its own frame. */
  lemma Bracketed(s: Scan, frame: Frame, inner: Code)
    requires |s.stack| <= s.max && BracesBare(s.stack) && (frame.kind == Brace ==> frame.resume == Bare)
    ensures var inside := Moved(Opened(s, frame.kind, frame.resume), Pops(inner), Reach(inner, Top(s.stack + [frame])));
            && inside.max == Max(s.max, |s.stack| + 1 + Reach(inner, Top(s.stack + [frame])))
            && (frame.kind == Brace ==> Shut(inside.stack, Brace) == Less(s.stack, Pops(inner))
                                        && Resumed(inside.stack, Brace, Bare) == Bare)
            && (frame.kind != Brace ==> inside.stack == s.stack + [frame] && Shut(inside.stack, frame.kind) == s.stack
                                        && Resumed(inside.stack, frame.kind, Bare) == frame.resume)
  {
    hide Pops, Reach;
    var stack := s.stack + [frame];
    TopOfPushed(s.stack, frame);
    assert stack[..|s.stack|] == s.stack;
    assert stack[..|stack|] == stack;
    if frame.kind == Brace {
      var n := Pops(inner);
      TopOfLess(stack, n);
      BareLess(stack, n);
      hide BracesBare;
      LessOfPushed(s.stack, frame, n);
    }
  }

  lemma LessOfPushed(stack: seq<Frame>, frame: Frame, n: nat)
    requires frame.kind == Brace
    ensures Shut(Less(stack + [frame], n), Brace) == Less(stack, n)
  {
    TopOfPushed(stack, frame);
    TopOfLess(stack + [frame], n);
    TopOnTop(Less(stack + [frame], n));
    TopOnTop(stack);
    hide Top;
    var cut := |stack| + 1 - Min(n, Top(stack) + 1);
    assert Less(stack + [frame], n) == (stack + [frame])[..cut];
    if n > Top(stack) {
      assert cut <= |stack|;
      assert (stack + [frame])[..cut] == stack[..cut];
    } else {
      assert (stack + [frame])[..cut][..cut - 1] == stack[..cut - 1];
    }
  }

  lemma TopOnTop(stack: seq<Frame>)
    ensures Top(stack) > 0 <==> OnTop(stack, Brace)
  {
  }

  lemma {:induction false} WordRuns(s: Scan, word: string)
    requires Reading(s, Bare) && forall k :: 0 <= k < |word| ==> IsWordChar(word[k])
    ensures Run(s, word) == s.(word := s.word + word, dollar := if word == [] then s.dollar else false)
    decreases |word|
  {
    if word == [] {
      assert s.word + word == s.word;
    } else {
      RunConcat(s, [word[0]], word[1..]);
      assert [word[0]] + word[1..] == word;
      RunOne(s, word[0]);
      WordRuns(Step(s, word[0]), word[1..]);
      hide Run;
      assert s.word + [word[0]] + word[1..] == s.word + word;
    }
  }

  lemma OpenerRuns(s: Scan, kind: Kind)
    requires Ready(s, Bare) && IsBlock(kind) && s.word == "" && s.cmdPos
    ensures Run(s, Opener(kind) + [' ']) == Opened(s, kind, Bare).(word := "", cmdPos := kind == Do, dollar := false)
  {
    var word := Opener(kind);
    hide Run;
    RunConcat(s, word, [' ']);
    WordRuns(s, word);
    assert [] + word == word;
    WordEnds(s, word, ' ');
  }

  lemma SeparatorStep(s: Scan, sep: char)
    requires s.quote == Bare && !s.escaped && !s.comment && (EndsCommand(sep) || sep == ' ')
    ensures Step(s, sep) == (if s.cmdPos then Reserved(s.(dollar := false), s.word) else s.(dollar := false))
              .(word := "", cmdPos := NextIsCommandPosition(sep, s.word, s.cmdPos))
  {
    hide Reserved, NextIsCommandPosition;
  }

  lemma WordEnds(s: Scan, word: string, sep: char)
    requires Ready(s, Bare) && s.cmdPos && (EndsCommand(sep) || sep == ' ')
    ensures Run(s.(word := word, dollar := false), [sep])
         == Reserved(s, word).(word := "", cmdPos := NextIsCommandPosition(sep, word, true), dollar := false)
  {
    hide Run, Step, NextIsCommandPosition, BracesBare;
    RunOne(s.(word := word, dollar := false), sep);
    SeparatorStep(s.(word := word, dollar := false), sep);
  }

  lemma CloserRuns(s: Scan, kind: Kind, sep: char)
    requires Ready(s, Bare) && IsBlock(kind) && s.word == "" && s.cmdPos && (EndsCommand(sep) || sep == ' ')
    ensures Run(s, Closer(kind) + [sep])
         == s.(stack := Shut(s.stack, kind), word := "", cmdPos := EndsCommand(sep), dollar := false)
  {
    var word := Closer(kind);
    hide Run;
    RunConcat(s, word, [sep]);
    WordRuns(s, word);
    assert [] + word == word;
    WordEnds(s, word, sep);
  }

  lemma BracketRuns(s: Scan, braced: bool)
    requires Reading(s, Bare)
    ensures Run(s, [if braced then '{' else '('])
         == Opened(s, if braced then Brace else Paren, Bare).(word := "", cmdPos := true, dollar := false)
    ensures Run(s, [if braced then '}' else ')'])
         == (var kind := if braced then Brace else Paren;
             s.(stack := Shut(s.stack, kind), quote := Resumed(s.stack, kind, Bare), word := "", cmdPos := true, dollar := false))
  {
    RunOne(s, if braced then '{' else '(');
    RunOne(s, if braced then '}' else ')');
    hide Run;
  }

  // ------------------------------------------------------------------ the whole tree

  lemma PushedReady(s: Scan, frame: Frame)
    requires Ready(s, s.quote) && (frame.kind == Brace ==> frame.resume == Bare)
    ensures Ready(Opened(s, frame.kind, frame.resume), s.quote)
  {
  }

  lemma MovedReady(s: Scan, n: nat, reach: nat)
    requires Ready(s, s.quote)
    ensures Ready(Moved(s, n, reach), s.quote)
  {
    BareLess(s.stack, n);
  }

  lemma PlacedKeeps(s: Scan, p: Pos, dollar: bool)
    requires Ready(s, Bare)
    ensures var t := Placed(s, p, dollar);
            && t.stack == s.stack && t.max == s.max && t.word == p.word && t.cmdPos == p.cmd && t.dollar == dollar
            && Ready(t, Bare)
  {
  }

  lemma PlacedAgain(s: Scan, p: Pos, dollar: bool, n: nat, reach: nat, q: Pos, e: bool)
    ensures Placed(Moved(Placed(s, p, dollar), n, reach), q, e) == Placed(Moved(s, n, reach), q, e)
  {
    hide Less, Max;
  }

  lemma EffectIs(s: Scan, code: Code, end: Pos)
    ensures Effect(s, code, end) == Placed(Moved(s, Pops(code), Reach(code, Top(s.stack))), end, EndsInDollar(code, s.dollar))
  {
  }

  /** A part of the text and then what follows it. */
  lemma Glued(s: Scan, n: nat, reach: nat, p: Pos, dollar: bool, next: Code, end: Pos)
    requires Ready(s, Bare)
    ensures Effect(Placed(Moved(s, n, reach), p, dollar), next, end)
         == Placed(Moved(s, n + Pops(next), Then(reach, n, Top(s.stack), Reach(next, Top(s.stack) - Min(n, Top(s.stack))))),
                   end, EndsInDollar(next, dollar))
  {
    hide *;
    ReadyIs(s, Bare);
    MovedReady(s, n, reach);
    MovedQuote(s, n, reach);
    var moved := Moved(s, n, reach);
    var more := Reach(next, Top(s.stack) - Min(n, Top(s.stack)));
    MovedTwice(s, n, reach, Pops(next), more);
    PlacedKeeps(moved, p, dollar);
    EffectIs(Placed(moved, p, dollar), next, end);
    PlacedAgain(moved, p, dollar, Pops(next), more, end, EndsInDollar(next, dollar));
  }

  lemma MovedQuote(s: Scan, n: nat, reach: nat)
    ensures Moved(s, n, reach).quote == s.quote && Moved(s, n, reach).stack == Less(s.stack, n)
    ensures Min(n, Top(s.stack)) <= Top(s.stack)
  {
  }

  /** Right inside a keyword block. */
  predicate InBlock(stack: seq<Frame>) {
    stack != [] && IsBlock(stack[|stack| - 1].kind)
  }

  lemma BlockUnmoved(stack: seq<Frame>, n: nat)
    requires InBlock(stack)
    ensures Less(stack, n) == stack
  {
    assert stack[..|stack|] == stack;
  }

  /** The scan of any tree, from anywhere: what it leaves on the stack, and how deep it says the text went. */
  lemma {:induction false} CodeRuns(s: Scan, code: Code, block: bool)
    requires Ready(s, Bare) && Past(code, s.word, s.cmdPos, block).Some? && (block ==> InBlock(s.stack))
    ensures Run(s, Print(code)) == Effect(s, code, Past(code, s.word, s.cmdPos, block).value)
    decreases code, 1
  {
    match code
    case Nil =>
      MovedNowhere(s);
    case Doubled(_, _) =>
      OnDoubled(s, code, block);
    case Group(_, _, _) =>
      OnGroup(s, code, block);
    case Block(_, _, _, _) =>
      OnBlock(s, code, block);
    case _ =>
      OnCharacters(s, code, block);
  }

  /** What a node's first part does, and what is left after it. */
  predicate FirstPart(code: Code, s: Scan, block: bool, text: string, n: nat, reach: nat, p: Pos, dollar: bool, next: Code) {
    && Print(code) == text + Print(next)
    && Past(code, s.word, s.cmdPos, block) == Past(next, p.word, p.cmd, block)
    && Pops(code) == n + Pops(next)
    && Reach(code, Top(s.stack)) == Then(reach, n, Top(s.stack), Reach(next, Top(s.stack) - Min(n, Top(s.stack))))
    && EndsInDollar(code, s.dollar) == EndsInDollar(next, dollar)
  }

  lemma CharactersFirst(s: Scan, code: Code, block: bool)
    requires Past(code, s.word, s.cmdPos, block).Some?
    requires code.Glyph? || code.Escaped? || code.Quoted?
    ensures code.Glyph? ==>
              && PastGlyph(code.c, s.word, s.cmdPos, block).Some?
              && FirstPart(code, s, block, [code.c], 0, 0, PastGlyph(code.c, s.word, s.cmdPos, block).value, code.c == '$', code.next)
    ensures code.Escaped? ==> FirstPart(code, s, block, ['\\', code.e], 0, 0, Pos("", false), false, code.next)
    ensures code.Quoted? ==>
              && '\'' !in code.s
              && FirstPart(code, s, block, ['\''] + code.s + ['\''], 0, 0, Pos("", false), false, code.next)
  {
    hide PastGlyph, Top;
  }

  lemma {:induction false} OnCharacters(s: Scan, code: Code, block: bool)
    requires Ready(s, Bare) && Past(code, s.word, s.cmdPos, block).Some? && (block ==> InBlock(s.stack))
    requires code.Glyph? || code.Escaped? || code.Quoted?
    ensures Run(s, Print(code)) == Effect(s, code, Past(code, s.word, s.cmdPos, block).value)
    decreases code, 0
  {
    hide *;
    CharactersFirst(s, code, block);
    ReadyIs(s, Bare);
    MovedNowhere(s);
    match code
    case Glyph(c, next) =>
      GlyphRuns(s, c, block);
      Onward(s, code, [c], 0, 0, PastGlyph(c, s.word, s.cmdPos, block).value, c == '$', next, block);
    case Escaped(e, next) =>
      EscapedRuns(s, e);
      Onward(s, code, ['\\', e], 0, 0, Pos("", false), false, next, block);
    case Quoted(text, next) =>
      QuotedRuns(s, text);
      Onward(s, code, ['\''] + text + ['\''], 0, 0, Pos("", false), false, next, block);
  }

  lemma ReadyIs(s: Scan, quote: Quote)
    requires Ready(s, quote)
    ensures |s.stack| <= s.max && s.quote == quote && Reading(s, quote)
  {
  }

  lemma {:induction false} OnDoubled(s: Scan, code: Code, block: bool)
    requires Ready(s, Bare) && Past(code, s.word, s.cmdPos, block).Some? && (block ==> InBlock(s.stack))
    requires code.Doubled?
    ensures Run(s, Print(code)) == Effect(s, code, Past(code, s.word, s.cmdPos, block).value)
    decreases code, 0
  {
    hide *;
    DoubledFirst(s, code, block);
    var body := code.body;
    DoubledRuns(s, body);
    Onward(s, code, ['"'] + PrintStrung(body), StrungPops(body), StrungReach(body, Top(s.stack)),
           Pos("", PastStrung(body, false).value), false, code.next, block);
  }

  lemma DoubledFirst(s: Scan, code: Code, block: bool)
    requires Past(code, s.word, s.cmdPos, block).Some? && code.Doubled?
    ensures PastStrung(code.body, false).Some?
    ensures FirstPart(code, s, block, ['"'] + PrintStrung(code.body), StrungPops(code.body), StrungReach(code.body, Top(s.stack)),
                      Pos("", PastStrung(code.body, false).value), false, code.next)
  {
    hide Top, PastStrung, PrintStrung, StrungPops, StrungReach;
  }

  function GroupText(code: Code): string
    requires code.Group?
  {
    [if code.braced then '{' else '('] + Print(code.inner) + [if code.braced then '}' else ')']
  }

  function BlockText(code: Code): string
    requires code.Block?
  {
    (Opener(code.kind) + [' ']) + Print(code.inner) + (Closer(code.kind) + [code.sep])
  }

  function GroupPops(code: Code): nat
    requires code.Group?
  {
    if code.braced then Pops(code.inner) else 0
  }

  function GroupReach(code: Code, top: nat): nat
    requires code.Group?
  {
    1 + Reach(code.inner, if code.braced then top + 1 else 0)
  }

  lemma GroupFirst(s: Scan, code: Code, block: bool)
    requires Past(code, s.word, s.cmdPos, block).Some? && code.Group?
    ensures Past(code.inner, "", true, false).Some?
    ensures FirstPart(code, s, block, GroupText(code), GroupPops(code), GroupReach(code, Top(s.stack)),
                      Pos("", true), false, code.next)
  {
    hide Print, Past, Pops, Reach, EndsInDollar, GroupText, GroupPops, GroupReach, Then, Min, Top;
    GroupMeasures(code, Top(s.stack));
    GroupReads(code, s.word, s.cmdPos, block, s.dollar);
  }

  lemma GroupReads(code: Code, word: string, cmd: bool, block: bool, dollar: bool)
    requires code.Group?
    ensures Past(code, word, cmd, block)
         == if Past(code.inner, "", true, false).None? then None else Past(code.next, "", true, block)
    ensures Print(code) == GroupText(code) + Print(code.next) && EndsInDollar(code, dollar) == EndsInDollar(code.next, false)
  {
    hide PastGlyph;
  }

  lemma GroupMeasures(code: Code, top: nat)
    requires code.Group?
    ensures Pops(code) == GroupPops(code) + Pops(code.next)
    ensures Reach(code, top)
         == Then(GroupReach(code, top), GroupPops(code), top, Reach(code.next, top - Min(GroupPops(code), top)))
    ensures Min(GroupPops(code), top) <= top
  {
    ThenZero(GroupReach(code, top), top);
  }

  lemma PastBlock(s: Scan, code: Code, block: bool)
    requires Past(code, s.word, s.cmdPos, block).Some? && code.Block?
    ensures IsBlock(code.kind) && s.word == "" && s.cmdPos && (EndsCommand(code.sep) || code.sep == ' ')
    ensures Past(code.inner, "", code.kind == Do, true) == Some(Pos("", true))
    ensures Past(code, s.word, s.cmdPos, block) == Past(code.next, "", EndsCommand(code.sep), block)
  {
    hide EndsCommand;
  }

  lemma BlockFirst(s: Scan, code: Code, block: bool)
    requires code.Block? && Past(code, s.word, s.cmdPos, block) == Past(code.next, "", EndsCommand(code.sep), block)
    ensures FirstPart(code, s, block, BlockText(code), 0, 1 + Reach(code.inner, 0), Pos("", EndsCommand(code.sep)), false, code.next)
  {
    hide Top, Opener, Closer, Past, EndsCommand;
    ThenZero(1 + Reach(code.inner, 0), Top(s.stack));
  }

  lemma ThenZero(first: nat, top: nat)
    ensures forall second: nat :: Then(first, 0, top, second) == Max(first, second)
    ensures Min(0, top) == 0
  {
  }

  lemma {:induction false} OnGroup(s: Scan, code: Code, block: bool)
    requires Ready(s, Bare) && Past(code, s.word, s.cmdPos, block).Some? && (block ==> InBlock(s.stack))
    requires code.Group?
    ensures Run(s, Print(code)) == Effect(s, code, Past(code, s.word, s.cmdPos, block).value)
    decreases code, 0
  {
    hide *;
    GroupFirst(s, code, block);
    GroupRuns(s, code);
    Onward(s, code, GroupText(code), GroupPops(code), GroupReach(code, Top(s.stack)), Pos("", true), false, code.next, block);
  }

  lemma {:induction false} OnBlock(s: Scan, code: Code, block: bool)
    requires Ready(s, Bare) && Past(code, s.word, s.cmdPos, block).Some? && (block ==> InBlock(s.stack))
    requires code.Block?
    ensures Run(s, Print(code)) == Effect(s, code, Past(code, s.word, s.cmdPos, block).value)
    decreases code, 0
  {
    hide *;
    PastBlock(s, code, block);
    BlockFirst(s, code, block);
    BlockRuns(s, code);
    Onward(s, code, BlockText(code), 0, 1 + Reach(code.inner, 0), Pos("", EndsCommand(code.sep)), false, code.next, block);
  }

  lemma {:induction false} Onward(s: Scan, code: Code, text: string, n: nat, reach: nat, p: Pos, dollar: bool, next: Code, block: bool)
    requires Ready(s, Bare) && (block ==> InBlock(s.stack)) && Past(code, s.word, s.cmdPos, block).Some?
    requires FirstPart(code, s, block, text, n, reach, p, dollar, next)
    requires Run(s, text) == Placed(Moved(s, n, reach), p, dollar)
    ensures Run(s, Print(code)) == Effect(s, code, Past(code, s.word, s.cmdPos, block).value)
    decreases next, 2
  {
    hide Run, Step, Past, Print, Pops, Reach, EndsInDollar, Less, Top, BracesBare, Placed, Moved, Then, Min;
    RunConcat(s, text, Print(next));
    MovedReady(s, n, reach);
    MovedQuote(s, n, reach);
    PlacedKeeps(Moved(s, n, reach), p, dollar);
    Glued(s, n, reach, p, dollar, next, Past(next, p.word, p.cmd, block).value);
    if block {
      BlockUnmoved(s.stack, n);
    }
    CodeRuns(Placed(Moved(s, n, reach), p, dollar), next, block);
  }

  lemma {:induction false} GroupRuns(s: Scan, code: Code)
    requires Ready(s, Bare) && code.Group? && Past(code.inner, "", true, false).Some?
    ensures Run(s, GroupText(code))
         == Placed(Moved(s, GroupPops(code), GroupReach(code, Top(s.stack))), Pos("", true), false)
    decreases code.inner, 2
  {
    hide Run, Step, Past, Print, Pops, Reach, EndsInDollar, BracesBare;
    var braced, inner := code.braced, code.inner;
    var (open, close) := ([if braced then '{' else '('], [if braced then '}' else ')']);
    var frame := Frame(if braced then Brace else Paren, Bare);
    RunConcat(s, open + Print(inner), close);
    RunConcat(s, open, Print(inner));
    BracketRuns(s, braced);
    var inside := Opened(s, frame.kind, Bare).(word := "", cmdPos := true, dollar := false);
    PushedReady(s, frame);
    CodeRuns(inside, inner, false);
    GroupCloses(s, code, Past(inner, "", true, false).value);
  }

  function InsideGroup(s: Scan, braced: bool): Scan {
    Opened(s, if braced then Brace else Paren, Bare).(word := "", cmdPos := true, dollar := false)
  }

  lemma GroupCloses(s: Scan, code: Code, end: Pos)
    requires Ready(s, Bare) && code.Group?
    ensures Run(Effect(InsideGroup(s, code.braced), code.inner, end), [if code.braced then '}' else ')'])
         == Placed(Moved(s, GroupPops(code), GroupReach(code, Top(s.stack))), Pos("", true), false)
  {
    hide Run, Step, Past, Print, Pops, Reach, EndsInDollar, BracesBare, Less, Top;
    var frame := Frame(if code.braced then Brace else Paren, Bare);
    var inside := InsideGroup(s, code.braced);
    PushedReady(s, frame);
    ReadyParts(s);
    Bracketed(s, frame, code.inner);
    TopOfPushed(s.stack, frame);
    MovedReady(inside, Pops(code.inner), Reach(code.inner, Top(inside.stack)));
    BracketRuns(Effect(inside, code.inner, end), code.braced);
    NoneLess(s.stack);
  }

  lemma ReadyParts(s: Scan)
    requires Ready(s, s.quote)
    ensures BracesBare(s.stack) && |s.stack| <= s.max
  {
  }

  lemma NoneLess(stack: seq<Frame>)
    ensures Less(stack, 0) == stack
  {
  }

  lemma {:induction false} BlockRuns(s: Scan, code: Code)
    requires Ready(s, Bare) && code.Block? && IsBlock(code.kind) && s.word == "" && s.cmdPos
    requires (EndsCommand(code.sep) || code.sep == ' ') && Past(code.inner, "", code.kind == Do, true) == Some(Pos("", true))
    ensures Run(s, BlockText(code)) == Placed(Moved(s, 0, 1 + Reach(code.inner, 0)), Pos("", EndsCommand(code.sep)), false)
    decreases code.inner, 2
  {
    hide Run, Step, Past, Print, Pops, Reach, EndsInDollar, Opener, Closer;
    var kind, inner, sep := code.kind, code.inner, code.sep;
    var (open, close) := (Opener(kind) + [' '], Closer(kind) + [sep]);
    var frame := Frame(kind, Bare);
    RunConcat(s, open + Print(inner), close);
    RunConcat(s, open, Print(inner));
    OpenerRuns(s, kind);
    var inside := Opened(s, kind, Bare).(word := "", cmdPos := kind == Do, dollar := false);
    PushedReady(s, frame);
    CodeRuns(inside, inner, true);
    Bracketed(s, frame, inner);
    TopOfPushed(s.stack, frame);
    var end := Effect(inside, inner, Pos("", true));
    MovedReady(inside, Pops(inner), Reach(inner, Top(inside.stack)));
    CloserRuns(end, kind, sep);
    MovedNowhere(s);
    hide Less, Top, BracesBare, EndsCommand;
  }

  lemma {:induction false} DoubledRuns(s: Scan, body: Strung)
    requires Ready(s, Bare) && PastStrung(body, false).Some?
    ensures Run(s, ['"'] + PrintStrung(body))
         == Placed(Moved(s, StrungPops(body), StrungReach(body, Top(s.stack))),
                   Pos("", PastStrung(body, false).value), false)
    decreases body, 3
  {
    hide Run, PastStrung, PrintStrung, StrungPops, StrungReach, Less, Top, BracesBare;
    RunConcat(s, ['"'], PrintStrung(body));
    RunOne(s, '"');
    StrungRuns(s.(quote := Double, word := "", cmdPos := false, dollar := false), body);
  }

  lemma ShutIsLess(stack: seq<Frame>)
    ensures Shut(stack, Brace) == Less(stack, 1)
  {
    assert stack[..|stack|] == stack;
  }

  lemma LitRuns(s: Scan, c: char)
    requires Ready(s, Double) && c !in "\"\\" && (s.dollar ==> c != '(' && c != '{')
    ensures Run(s, [c]) == Moved(s, if c == '}' then 1 else 0, 0).(cmdPos := s.cmdPos, dollar := c == '$')
  {
    RunOne(s, c);
    ShutIsLess(s.stack);
    MovedNowhere(s);
    hide Run, Less, Top, BracesBare;
  }

  lemma EscRuns(s: Scan, e: char)
    requires Ready(s, Double)
    ensures Run(s, ['\\', e]) == Moved(s, 0, 0).(cmdPos := s.cmdPos, dollar := false)
  {
    RunTwo(s, '\\', e);
    MovedNowhere(s);
    hide Run, Less, Top, BracesBare;
  }

  lemma QuoteCloses(s: Scan)
    requires Reading(s, Double)
    ensures Run(s, ['"']) == s.(quote := Bare, dollar := false)
  {
    RunOne(s, '"');
    hide Run;
  }

  lemma {:induction false} SubstRuns(s: Scan, code: Code)
    requires Ready(s, Double) && s.word == "" && Past(code, "", s.cmdPos, false).Some?
    ensures Run(s, ['$', '('] + Print(code) + [')'])
         == Moved(s, 0, 1 + Reach(code, 0)).(cmdPos := true, dollar := false)
    decreases code, 2
  {
    hide Run, Step, Past, Print, Pops, Reach, EndsInDollar;
    var frame := Frame(Paren, Double);
    RunConcat(s, ['$', '('] + Print(code), [')']);
    RunConcat(s, ['$', '('], Print(code));
    DollarBracket(s, '(');
    var inside := Opened(s, Paren, Double).(quote := Bare, dollar := false);
    PushedReady(s, frame);
    CodeRuns(inside, code, false);
    Bracketed(s, frame, code);
    TopOfPushed(s.stack, frame);
    var end := Effect(inside, code, Past(code, "", s.cmdPos, false).value);
    MovedReady(inside, Pops(code), Reach(code, Top(inside.stack)));
    BracketRuns(end, false);
    assert Less(s.stack, 0) == s.stack by {
      MovedNowhere(s);
    }
    hide Less, Top, BracesBare;
  }

  /** The scan of the rest of a double-quoted string. */
  lemma {:induction false} StrungRuns(s: Scan, body: Strung)
    requires Ready(s, Double) && s.word == "" && PastStrung(body, s.cmdPos).Some? && (s.dollar ==> !OpensBracket(body))
    ensures Run(s, PrintStrung(body)) == StrungEffect(s, body, PastStrung(body, s.cmdPos).value)
    decreases body, 1
  {
    hide Run, Step, Less, Top, Reach, Print, Past, BracesBare, StrungEffect, Moved;
    match body
    case Close =>
      OnClose(s);
    case Lit(c, after) =>
      LitRuns(s, c);
      OnLit(s, body);
    case Esc(e, after) =>
      EscRuns(s, e);
      StrungOnward(s, body, ['\\', e], 0, 0, s.cmdPos, false, after);
    case Param(name, after) =>
      ParamRuns(s, name);
      StrungOnward(s, body, ['$', '{'] + name + ['}'], 0, 1, s.cmdPos, false, after);
    case Subst(code, after) =>
      SubstRuns(s, code);
      StrungOnward(s, body, ['$', '('] + Print(code) + [')'], 0, 1 + Reach(code, 0), true, false, after);
  }

  function StrungEffect(s: Scan, body: Strung, cmd: bool): Scan {
    Moved(s, StrungPops(body), StrungReach(body, Top(s.stack))).(quote := Bare, cmdPos := cmd, dollar := false)
  }

  lemma OnClose(s: Scan)
    requires Ready(s, Double)
    ensures Run(s, ['"']) == StrungEffect(s, Close, s.cmdPos)
  {
    QuoteCloses(s);
    MovedNowhere(s);
    hide Run, Less, Top, BracesBare;
  }

  lemma {:induction false} OnLit(s: Scan, body: Strung)
    requires Ready(s, Double) && s.word == "" && PastStrung(body, s.cmdPos).Some? && body.Lit?
    requires Run(s, [body.lit]) == Moved(s, if body.lit == '}' then 1 else 0, 0).(cmdPos := s.cmdPos, dollar := body.lit == '$')
    ensures Run(s, PrintStrung(body)) == StrungEffect(s, body, PastStrung(body, s.cmdPos).value)
    decreases body, 0
  {
    hide Run, Step, Less, Top, Reach, Print, Past, BracesBare, StrungEffect, Moved;
    StrungOnward(s, body, [body.lit], if body.lit == '}' then 1 else 0, 0, s.cmdPos, body.lit == '$', body.after);
  }

  /** `text` is the first part of `body`, and what it does. */
  predicate StrungFirst(s: Scan, body: Strung, text: string, n: nat, reach: nat, cmd: bool, after: Strung) {
    && PrintStrung(body) == text + PrintStrung(after)
    && PastStrung(body, s.cmdPos) == PastStrung(after, cmd)
    && StrungPops(body) == n + StrungPops(after)
    && StrungReach(body, Top(s.stack))
       == Then(reach, n, Top(s.stack), StrungReach(after, Top(s.stack) - Min(n, Top(s.stack))))
  }

  lemma {:induction false} StrungOnward(s: Scan, body: Strung, text: string, n: nat, reach: nat, cmd: bool, dollar: bool, after: Strung)
    requires Ready(s, Double) && s.word == "" && PastStrung(body, s.cmdPos).Some? && (dollar ==> !OpensBracket(after))
    requires StrungFirst(s, body, text, n, reach, cmd, after)
    requires Run(s, text) == Moved(s, n, reach).(cmdPos := cmd, dollar := dollar)
    ensures Run(s, PrintStrung(body)) == StrungEffect(s, body, PastStrung(body, s.cmdPos).value)
    decreases after, 2
  {
    hide Run, PastStrung, PrintStrung, StrungPops, StrungReach, Less, Top, BracesBare, OpensBracket, Min, Then;
    RunConcat(s, text, PrintStrung(after));
    MovedReady(s, n, reach);
    MovedQuote(s, n, reach);
    var moved := Moved(s, n, reach);
    MovedTwice(s, n, reach, StrungPops(after), StrungReach(after, Top(s.stack) - Min(n, Top(s.stack))));
    hide Moved;
    var next := moved.(cmdPos := cmd, dollar := dollar);
    StrungRuns(next, after);
    StrungPlaced(moved, cmd, dollar, after, PastStrung(after, cmd).value);
  }

  lemma StrungPlaced(s: Scan, cmd: bool, dollar: bool, after: Strung, end: bool)
    ensures StrungEffect(s.(cmdPos := cmd, dollar := dollar), after, end) == StrungEffect(s, after, end)
  {
    hide Less, Top, StrungPops, StrungReach;
  }
}
