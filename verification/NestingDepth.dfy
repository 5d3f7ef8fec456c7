/** How deep a script nests, and exactly when the nesting scan says so. */
module NestingDepth {
  import opened Nesting
  import opened NestingCode
  import opened NestingScripts

  // ------------------------------------------------------------------ depth, and the strings that hide it

  function Depth(code: Code): nat {
    match code
    case Nil => 0
    case Glyph(_, next) => Depth(next)
    case Escaped(_, next) => Depth(next)
    case Quoted(_, next) => Depth(next)
    case Doubled(body, next) => Max(StrungDepth(body), Depth(next))
    case Group(_, inner, next) => Max(1 + Depth(inner), Depth(next))
    case Block(_, inner, _, next) => Max(1 + Depth(inner), Depth(next))
  }

  function StrungDepth(body: Strung): nat {
    match body
    case Close => 0
    case Lit(_, after) => StrungDepth(after)
    case Esc(_, after) => StrungDepth(after)
    case Param(_, after) => Max(1, StrungDepth(after))
    case Subst(code, after) => Max(1 + Depth(code), StrungDepth(after))
  }

  /** Whether some place `d` levels deep in `code` has no `}` in a double-quoted string before it in any brace
      group around it, other than in brackets, blocks and substitutions of their own. `braced` says whether
      `code` is itself right inside a brace group. */
  predicate Sees(code: Code, d: nat, braced: bool) {
    d == 0
    || match code
       case Nil => false
       case Glyph(_, next) => Sees(next, d, braced)
       case Escaped(_, next) => Sees(next, d, braced)
       case Quoted(_, next) => Sees(next, d, braced)
       case Doubled(body, next) =>
         StrungSees(body, d, braced) || (!(braced && StrungPops(body) > 0) && Sees(next, d, braced))
       case Group(brace, inner, next) =>
         Sees(inner, d - 1, brace) || (!(braced && brace && Pops(inner) > 0) && Sees(next, d, braced))
       case Block(_, inner, _, next) => Sees(inner, d - 1, false) || Sees(next, d, braced)
  }

  predicate StrungSees(body: Strung, d: nat, braced: bool) {
    d == 0
    || match body
       case Close => false
       case Lit(c, after) => !(braced && c == '}') && StrungSees(after, d, braced)
       case Esc(_, after) => StrungSees(after, d, braced)
       case Param(_, after) => d == 1 || StrungSees(after, d, braced)
       case Subst(code, after) => Sees(code, d - 1, false) || StrungSees(after, d, braced)
  }

  /** The scan never says deeper than it is. */
  lemma {:induction false} NeverOver(code: Code, top: nat)
    ensures Reach(code, top) <= Depth(code)
    decreases code
  {
    hide Pops, StrungPops, StrungReach, StrungDepth;
    match code
    case Nil =>
    case Glyph(_, next) => NeverOver(next, top);
    case Escaped(_, next) => NeverOver(next, top);
    case Quoted(_, next) => NeverOver(next, top);
    case Doubled(body, next) =>
      StrungNeverOver(body, top);
      NeverOver(next, top - Min(StrungPops(body), top));
    case Group(braced, inner, next) =>
      NeverOver(inner, if braced then top + 1 else 0);
      NeverOver(next, if braced then top - Min(Pops(inner), top) else top);
    case Block(_, inner, _, next) =>
      NeverOver(inner, 0);
      NeverOver(next, top);
  }

  lemma {:induction false} StrungNeverOver(body: Strung, top: nat)
    ensures StrungReach(body, top) <= StrungDepth(body)
    decreases body
  {
    match body
    case Close =>
    case Lit(c, after) => StrungNeverOver(after, if c == '}' then top - Min(1, top) else top);
    case Esc(_, after) => StrungNeverOver(after, top);
    case Param(_, after) => StrungNeverOver(after, top);
    case Subst(code, after) =>
      NeverOver(code, 0);
      StrungNeverOver(after, top);
  }

  /** It says how deep exactly when a deepest place can be seen. */
  lemma {:induction false} SeesExact(code: Code, d: nat, braced: bool, top: nat)
    requires 0 < d && Depth(code) <= d && (braced <==> top > 0)
    ensures Reach(code, top) == d <==> Sees(code, d, braced)
    decreases code, 1
  {
    match code
    case Nil =>
    case Glyph(_, next) => SeesExact(next, d, braced, top);
    case Escaped(_, next) => SeesExact(next, d, braced, top);
    case Quoted(_, next) => SeesExact(next, d, braced, top);
    case Doubled(_, _) => DoubledExact(code, d, braced, top);
    case Group(_, _, _) => GroupExact(code, d, braced, top);
    case Block(_, _, _, _) => BlockExact(code, d, braced, top);
  }

  lemma {:induction false} DoubledExact(code: Code, d: nat, braced: bool, top: nat)
    requires code.Doubled? && 0 < d && Depth(code) <= d && (braced <==> top > 0)
    ensures Reach(code, top) == d <==> Sees(code, d, braced)
    decreases code, 0
  {
    var (body, next) := (code.body, code.next);
    hide StrungReach, StrungPops, StrungSees, StrungDepth, Then, Min;
    StrungSeesExact(body, d, braced, top);
    StrungNeverOver(body, top);
    RestExact(StrungReach(body, top), StrungPops(body), next, d, braced, top);
  }

  lemma {:induction false} GroupExact(code: Code, d: nat, braced: bool, top: nat)
    requires code.Group? && 0 < d && Depth(code) <= d && (braced <==> top > 0)
    ensures Reach(code, top) == d <==> Sees(code, d, braced)
    decreases code, 0
  {
    var (brace, inner, next) := (code.braced, code.inner, code.next);
    var (first, n) := (1 + Reach(inner, if brace then top + 1 else 0), if brace then Pops(inner) else 0);
    NoneThen(first, Reach(next, top), top);
    hide Pops, Then, Min;
    InnerExact(inner, d - 1, brace, if brace then top + 1 else 0);
    RestExact(first, n, next, d, braced, top);
  }

  lemma {:induction false} BlockExact(code: Code, d: nat, braced: bool, top: nat)
    requires code.Block? && 0 < d && Depth(code) <= d && (braced <==> top > 0)
    ensures Reach(code, top) == d <==> Sees(code, d, braced)
    decreases code, 0
  {
    InnerExact(code.inner, d - 1, false, 0);
    NeverOver(code.next, top);
    SeesExact(code.next, d, braced, top);
  }

  lemma NoneThen(first: nat, second: nat, top: nat)
    ensures Then(first, 0, top, second) == Max(first, second) && Min(0, top) == 0
  {
  }

  /** A part, and what follows it with `n` braces fewer. */
  lemma {:induction false} RestExact(first: nat, n: nat, next: Code, d: nat, braced: bool, top: nat)
    requires 0 < d && first <= d && Depth(next) <= d && (braced <==> top > 0)
    ensures Min(n, top) <= top
    ensures Then(first, n, top, Reach(next, top - Min(n, top))) == d
            <==> first == d || (!(braced && n > 0) && Sees(next, d, braced))
    decreases next, 2
  {
    hide Reach, Sees, Depth;
    NeverOver(next, top - Min(n, top));
    if !(braced && n > 0) {
      SeesExact(next, d, braced, top);
    }
  }

  lemma {:induction false} InnerExact(inner: Code, d: nat, braced: bool, top: nat)
    requires Depth(inner) <= d && (braced <==> top > 0)
    ensures Reach(inner, top) <= d && (Reach(inner, top) == d <==> Sees(inner, d, braced))
    decreases inner, 2
  {
    NeverOver(inner, top);
    if d > 0 {
      SeesExact(inner, d, braced, top);
    }
  }

  lemma {:induction false} StrungSeesExact(body: Strung, d: nat, braced: bool, top: nat)
    requires 0 < d && StrungDepth(body) <= d && (braced <==> top > 0)
    ensures StrungReach(body, top) == d <==> StrungSees(body, d, braced)
    decreases body
  {
    match body
    case Close =>
    case Lit(c, after) =>
      StrungNeverOver(after, if c == '}' then top - Min(1, top) else top);
      if !(braced && c == '}') {
        StrungSeesExact(after, d, braced, top);
      }
    case Esc(_, after) => StrungSeesExact(after, d, braced, top);
    case Param(_, after) =>
      StrungNeverOver(after, top);
      StrungSeesExact(after, d, braced, top);
    case Subst(code, after) =>
      InnerExact(code, d - 1, false, 0);
      StrungNeverOver(after, top);
      StrungSeesExact(after, d, braced, top);
  }

  // ------------------------------------------------------------------ scripts

  /** Brackets, conditionals, loops, `case`, and the expansions in double quotes, inside one another. */
  function ScriptDepth(script: Script): nat {
    match script
    case Done => 0
    case Item(command, _, rest) => Max(CommandDepth(command), ScriptDepth(rest))
  }

  function CommandDepth(command: Command): nat {
    match command
    case Simple(_, args) => ArgsDepth(args)
    case Subshell(body) => 1 + ScriptDepth(body)
    case Braced(body) => 1 + ScriptDepth(body)
    case IfThen(cond, body, orElse) => 1 + Max(ScriptDepth(cond), Max(ScriptDepth(body), ScriptDepth(orElse)))
    case While(cond, body) => Max(ScriptDepth(cond), 1 + ScriptDepth(body))
    case CaseOf(_, arms) => 1 + ArmsDepth(arms)
  }

  function ArmsDepth(arms: Arms): nat {
    match arms
    case NoArms => 0
    case Arm(_, body, more) => Max(ScriptDepth(body), ArmsDepth(more))
  }

  function ArgsDepth(args: Args): nat {
    match args
    case NoArgs => 0
    case Plain(_, others) => ArgsDepth(others)
    case Apostrophes(_, others) => ArgsDepth(others)
    case Backslashed(_, others) => ArgsDepth(others)
    case InQuotes(content, others) => Max(ContentDepth(content), ArgsDepth(others))
  }

  function ContentDepth(content: Content): nat {
    match content
    case EndQuote => 0
    case Char(_, further) => ContentDepth(further)
    case Escape(_, further) => ContentDepth(further)
    case Variable(_, further) => Max(1, ContentDepth(further))
    case Output(script, further) => Max(1 + ScriptDepth(script), ContentDepth(further))
  }

  /** A `}` in a double-quoted string in no bracket, block or substitution, or in brace groups alone. */
  predicate ScriptSpoils(script: Script) {
    match script
    case Done => false
    case Item(command, _, rest) => CommandSpoils(command) || ScriptSpoils(rest)
  }

  predicate CommandSpoils(command: Command) {
    match command
    case Simple(_, args) => ArgsSpoil(args)
    case Subshell(_) => false
    case Braced(body) => ScriptSpoils(body)
    case IfThen(_, _, _) => false
    case While(cond, _) => ScriptSpoils(cond)
    case CaseOf(_, _) => false
  }

  predicate ArgsSpoil(args: Args) {
    match args
    case NoArgs => false
    case Plain(_, others) => ArgsSpoil(others)
    case Apostrophes(_, others) => ArgsSpoil(others)
    case Backslashed(_, others) => ArgsSpoil(others)
    case InQuotes(content, others) => ContentSpoils(content) || ArgsSpoil(others)
  }

  predicate ContentSpoils(content: Content) {
    match content
    case EndQuote => false
    case Char(c, further) => c == '}' || ContentSpoils(further)
    case Escape(_, further) => ContentSpoils(further)
    case Variable(_, further) => ContentSpoils(further)
    case Output(_, further) => ContentSpoils(further)
  }

  /** Whether some place `d` levels deep comes before every such `}` in each brace group around it; `braced` says
      whether the script is itself right inside one. */
  predicate ScriptSees(script: Script, d: nat, braced: bool) {
    d == 0
    || match script
       case Done => false
       case Item(command, _, rest) =>
         CommandSees(command, d, braced) || (!(braced && CommandSpoils(command)) && ScriptSees(rest, d, braced))
  }

  predicate CommandSees(command: Command, d: nat, braced: bool) {
    d == 0
    || match command
       case Simple(_, args) => ArgsSee(args, d, braced)
       case Subshell(body) => ScriptSees(body, d - 1, false)
       case Braced(body) => ScriptSees(body, d - 1, true)
       case IfThen(cond, body, orElse) =>
         ScriptSees(cond, d - 1, false) || ScriptSees(body, d - 1, false) || ScriptSees(orElse, d - 1, false)
       case While(cond, body) =>
         ScriptSees(cond, d, braced) || (!(braced && ScriptSpoils(cond)) && ScriptSees(body, d - 1, false))
       case CaseOf(_, arms) => ArmsSee(arms, d - 1)
  }

  predicate ArmsSee(arms: Arms, d: nat) {
    d == 0
    || match arms
       case NoArms => false
       case Arm(_, body, more) => ScriptSees(body, d, false) || ArmsSee(more, d)
  }

  predicate ArgsSee(args: Args, d: nat, braced: bool) {
    d == 0
    || match args
       case NoArgs => false
       case Plain(_, others) => ArgsSee(others, d, braced)
       case Apostrophes(_, others) => ArgsSee(others, d, braced)
       case Backslashed(_, others) => ArgsSee(others, d, braced)
       case InQuotes(content, others) =>
         ContentSees(content, d, braced) || (!(braced && ContentSpoils(content)) && ArgsSee(others, d, braced))
  }

  predicate ContentSees(content: Content, d: nat, braced: bool) {
    d == 0
    || match content
       case EndQuote => false
       case Char(c, further) => !(braced && c == '}') && ContentSees(further, d, braced)
       case Escape(_, further) => ContentSees(further, d, braced)
       case Variable(_, further) => d == 1 || ContentSees(further, d, braced)
       case Output(script, further) => ScriptSees(script, d - 1, false) || ContentSees(further, d, braced)
  }

  // The tree is as deep as the script, and shows its depth where the script does.

  lemma {:induction false} GlyphsMeasure(s: string, k: Code, d: nat, braced: bool)
    ensures Depth(Glyphs(s, k)) == Depth(k) && Pops(Glyphs(s, k)) == Pops(k)
    ensures Sees(Glyphs(s, k), d, braced) == Sees(k, d, braced)
  {
    if s != [] {
      GlyphsMeasure(s[1..], k, d, braced);
    }
  }

  /** One glyph is no deeper than what follows it. */
  lemma GlyphMeasures(c: char, k: Code, d: nat, braced: bool)
    ensures Depth(Glyph(c, k)) == Depth(k) && Pops(Glyph(c, k)) == Pops(k)
    ensures Sees(Glyph(c, k), d, braced) == Sees(k, d, braced)
  {
  }

  lemma BlankEnd(d: nat)
    ensures Depth(Glyph(' ', Nil)) == 0 && Pops(Glyph(' ', Nil)) == 0
    ensures forall braced :: Sees(Glyph(' ', Nil), d, braced) <==> d == 0
  {
  }

  lemma {:induction false} ScriptMeasures(script: Script, k: Code, d: nat, braced: bool)
    ensures Depth(CodeOf(script, k)) == Max(ScriptDepth(script), Depth(k))
    ensures Pops(CodeOf(script, k)) > 0 <==> ScriptSpoils(script) || Pops(k) > 0
    ensures Sees(CodeOf(script, k), d, braced)
            <==> ScriptSees(script, d, braced) || (!(braced && ScriptSpoils(script)) && Sees(k, d, braced))
    decreases script, 1
  {
    hide CommandCode, CommandDepth, CommandSpoils, Depth, Pops;
    match script
    case Done => NoneSeen(k, d, braced);
    case Item(command, sep, rest) =>
      CommandMeasures(command, sep, if rest.Done? then k else Glyph(' ', CodeOf(rest, k)), d, braced);
      AtNought(k, command, d, braced);
      hide CommandSees, Sees;
      if rest.Item? {
        GlyphMeasures(' ', CodeOf(rest, k), d, braced);
        ScriptMeasures(rest, k, d, braced);
      }
  }

  /** Every place is at least no levels deep. */
  lemma AtNought(k: Code, command: Command, d: nat, braced: bool)
    ensures d == 0 ==> Sees(k, d, braced) && CommandSees(command, d, braced)
  {
    hide CommandSees, Sees;
    if d == 0 {
      NoneSeen(k, d, braced);
      CommandNone(command, d, braced);
    }
  }

  lemma NoneSeen(k: Code, d: nat, braced: bool)
    ensures d == 0 ==> Sees(k, d, braced)
  {
  }

  lemma CommandNone(command: Command, d: nat, braced: bool)
    ensures d == 0 ==> CommandSees(command, d, braced)
  {
  }

  lemma {:induction false} CommandMeasures(command: Command, sep: char, k: Code, d: nat, braced: bool)
    ensures Depth(CommandCode(command, sep, k)) == Max(CommandDepth(command), Depth(k))
    ensures Pops(CommandCode(command, sep, k)) > 0 <==> CommandSpoils(command) || Pops(k) > 0
    ensures Sees(CommandCode(command, sep, k), d, braced)
            <==> CommandSees(command, d, braced) || (!(braced && CommandSpoils(command)) && Sees(k, d, braced))
    decreases command, 2
  {
    hide ArgsCode, CodeOf, ArmsCode, Glyphs, ScriptDepth, ScriptSpoils, ScriptSees, ArgsDepth, ArgsSpoil, ArgsSee, ArmsDepth, ArmsSee;
    GlyphMeasures(sep, k, d, braced);
    match command
    case Simple(name, args) =>
      GlyphsMeasure(name, ArgsCode(args, Glyph(sep, k)), d, braced);
      ArgsMeasure(args, Glyph(sep, k), d, braced);
    case Subshell(body) => GroupMeasures(body, false, Glyph(sep, k), d, braced);
    case Braced(body) => GroupMeasures(body, true, Glyph(sep, k), d, braced);
    case IfThen(_, _, _) => IfMeasures(command, sep, k, d, braced);
    case While(_, _) => WhileMeasures(command, sep, k, d, braced);
    case CaseOf(subject, arms) => CaseMeasures(subject, arms, sep, k, d, braced);
  }

  lemma {:induction false} GroupMeasures(body: Script, brace: bool, k: Code, d: nat, braced: bool)
    ensures var code := Group(brace, Glyph(' ', CodeOf(body, Glyph(' ', Nil))), k);
            && Depth(code) == Max(1 + ScriptDepth(body), Depth(k))
            && (Pops(code) > 0 <==> (brace && ScriptSpoils(body)) || Pops(k) > 0)
            && (Sees(code, d, braced)
                <==> d == 0 || ScriptSees(body, d - 1, brace) || (!(braced && brace && ScriptSpoils(body)) && Sees(k, d, braced)))
    decreases body, 2
  {
    var inner := CodeOf(body, Glyph(' ', Nil));
    var e := if d == 0 then 0 else d - 1;
    ScriptMeasures(body, Glyph(' ', Nil), e, brace);
    BlankEnd(e);
    GlyphMeasures(' ', inner, e, brace);
    SeesNone(body, e, brace);
    hide ScriptSees, ScriptSpoils, ScriptDepth, CodeOf;
  }

  lemma SeesNone(body: Script, e: nat, braced: bool)
    ensures e == 0 ==> ScriptSees(body, e, braced)
  {
  }

  lemma BlockMeasures(kind: Kind, inner: Code, sep: char, k: Code, d: nat, braced: bool)
    ensures Depth(Block(kind, inner, sep, k)) == Max(1 + Depth(inner), Depth(k)) && Pops(Block(kind, inner, sep, k)) == Pops(k)
    ensures Sees(Block(kind, inner, sep, k), d, braced) <==> d == 0 || Sees(inner, d - 1, false) || Sees(k, d, braced)
  {
  }

  lemma {:induction false} WhileMeasures(command: Command, sep: char, k: Code, d: nat, braced: bool)
    requires command.While?
    ensures Depth(CommandCode(command, sep, k)) == Max(CommandDepth(command), Depth(k))
    ensures Pops(CommandCode(command, sep, k)) > 0 <==> CommandSpoils(command) || Pops(k) > 0
    ensures Sees(CommandCode(command, sep, k), d, braced)
            <==> CommandSees(command, d, braced) || (!(braced && CommandSpoils(command)) && Sees(k, d, braced))
    decreases command, 1
  {
    hide CodeOf, Glyphs, ScriptDepth, ScriptSpoils, ScriptSees, Depth, Pops, Sees;
    var cond, body := command.cond, command.body;
    var inner := CodeOf(body, Glyph(' ', Nil));
    var loop := Block(Do, inner, sep, k);
    var e := if d == 0 then 0 else d - 1;
    ScriptMeasures(body, Glyph(' ', Nil), e, false);
    BlankEnd(e);
    SeesNone(body, e, false);
    SeesNone(cond, d, braced);
    BlockMeasures(Do, inner, sep, k, d, braced);
    GlyphMeasures(' ', loop, d, braced);
    ScriptMeasures(cond, Glyph(' ', loop), d, braced);
    GlyphsMeasure("while ", CodeOf(cond, Glyph(' ', loop)), d, braced);
    NoneSeen(k, d, braced);
  }

  lemma {:induction false} IfMeasures(command: Command, sep: char, k: Code, d: nat, braced: bool)
    requires command.IfThen?
    ensures Depth(CommandCode(command, sep, k)) == Max(CommandDepth(command), Depth(k))
    ensures Pops(CommandCode(command, sep, k)) > 0 <==> CommandSpoils(command) || Pops(k) > 0
    ensures Sees(CommandCode(command, sep, k), d, braced)
            <==> CommandSees(command, d, braced) || (!(braced && CommandSpoils(command)) && Sees(k, d, braced))
    decreases command, 1
  {
    hide CodeOf, Glyphs, Depth, Pops, Sees, ScriptDepth, ScriptSpoils, ScriptSees;
    var cond, body, orElse := command.cond, command.body, command.orElse;
    var last := if orElse.Done? then Glyph(' ', Nil) else Glyphs(" else ", CodeOf(orElse, Glyph(' ', Nil)));
    var e := if d == 0 then 0 else d - 1;
    ElseMeasures(orElse, last, e);
    ScriptMeasures(body, last, e, false);
    GlyphsMeasure(" then ", CodeOf(body, last), e, false);
    ScriptMeasures(cond, Glyphs(" then ", CodeOf(body, last)), e, false);
    BlockMeasures(If, CodeOf(cond, Glyphs(" then ", CodeOf(body, last))), sep, k, d, braced);
  }

  lemma {:induction false} ElseMeasures(orElse: Script, last: Code, d: nat)
    requires last == if orElse.Done? then Glyph(' ', Nil) else Glyphs(" else ", CodeOf(orElse, Glyph(' ', Nil)))
    ensures Depth(last) == ScriptDepth(orElse) && (Sees(last, d, false) <==> ScriptSees(orElse, d, false))
    decreases orElse, 2
  {
    BlankEnd(d);
    if orElse.Item? {
      ScriptMeasures(orElse, Glyph(' ', Nil), d, false);
      GlyphsMeasure(" else ", CodeOf(orElse, Glyph(' ', Nil)), d, false);
      SeesNone(orElse, d, false);
      hide ScriptSees, ScriptDepth, CodeOf, Glyphs, Sees, Depth;
    }
  }

  lemma {:induction false} CaseMeasures(subject: string, arms: Arms, sep: char, k: Code, d: nat, braced: bool)
    ensures var (code, command) := (CommandCode(CaseOf(subject, arms), sep, k), CaseOf(subject, arms));
            && Depth(code) == Max(CommandDepth(command), Depth(k))
            && (Pops(code) > 0 <==> CommandSpoils(command) || Pops(k) > 0)
            && (Sees(code, d, braced)
                <==> CommandSees(command, d, braced) || (!(braced && CommandSpoils(command)) && Sees(k, d, braced)))
    decreases arms, 2
  {
    var e := if d == 0 then 0 else d - 1;
    ArmsMeasure(arms, e);
    GlyphsMeasure(" in ", ArmsCode(arms), e, false);
    GlyphsMeasure(subject, Glyphs(" in ", ArmsCode(arms)), e, false);
    BlockMeasures(Case, Glyphs(subject, Glyphs(" in ", ArmsCode(arms))), sep, k, d, braced);
    hide Glyphs, ArmsCode, Depth, Pops, Sees, ArmsSee, ArmsDepth;
  }

  lemma {:induction false} ArmsMeasure(arms: Arms, d: nat)
    ensures Depth(ArmsCode(arms)) == ArmsDepth(arms) && (Sees(ArmsCode(arms), d, false) <==> ArmsSee(arms, d))
    decreases arms, 0
  {
    match arms
    case NoArms =>
    case Arm(pattern, body, more) =>
      ArmsMeasure(more, d);
      NoArmsSeen(more, d);
      hide CodeOf, Glyphs, Depth, Sees, ScriptSees, ScriptDepth;
      var rest := Glyphs(";; ", ArmsCode(more));
      GlyphsMeasure(";; ", ArmsCode(more), d, false);
      ScriptMeasures(body, rest, d, false);
      GlyphMeasures(' ', CodeOf(body, rest), d, false);
      GlyphMeasures(')', Glyph(' ', CodeOf(body, rest)), d, false);
      GlyphsMeasure(pattern, Glyph(')', Glyph(' ', CodeOf(body, rest))), d, false);
  }

  lemma NoArmsSeen(arms: Arms, d: nat)
    ensures d == 0 ==> ArmsSee(arms, d)
  {
  }

  lemma {:induction false} ArgsMeasure(args: Args, k: Code, d: nat, braced: bool)
    ensures Depth(ArgsCode(args, k)) == Max(ArgsDepth(args), Depth(k))
    ensures Pops(ArgsCode(args, k)) > 0 <==> ArgsSpoil(args) || Pops(k) > 0
    ensures Sees(ArgsCode(args, k), d, braced)
            <==> ArgsSee(args, d, braced) || (!(braced && ArgsSpoil(args)) && Sees(k, d, braced))
    decreases args
  {
    hide Glyphs, StrungOf;
    match args
    case NoArgs =>
    case Plain(word, others) =>
      ArgsMeasure(others, k, d, braced);
      GlyphsMeasure(word, ArgsCode(others, k), d, braced);
    case Apostrophes(_, others) => ArgsMeasure(others, k, d, braced);
    case Backslashed(_, others) => ArgsMeasure(others, k, d, braced);
    case InQuotes(content, others) =>
      hide StrungSees, StrungPops, StrungDepth, ContentSees, ContentSpoils, ContentDepth;
      ArgsMeasure(others, k, d, braced);
      ContentMeasures(content, d, braced);
  }

  lemma {:induction false} ContentMeasures(content: Content, d: nat, braced: bool)
    ensures StrungDepth(StrungOf(content)) == ContentDepth(content)
    ensures StrungPops(StrungOf(content)) > 0 <==> ContentSpoils(content)
    ensures StrungSees(StrungOf(content), d, braced) <==> ContentSees(content, d, braced)
    decreases content
  {
    hide CodeOf, ScriptDepth, ScriptSees;
    match content
    case EndQuote =>
    case Char(_, further) => ContentMeasures(further, d, braced);
    case Escape(_, further) => ContentMeasures(further, d, braced);
    case Variable(_, further) => ContentMeasures(further, d, braced);
    case Output(script, further) =>
      ContentMeasures(further, d, braced);
      var e := if d == 0 then 0 else d - 1;
      ScriptMeasures(script, Nil, e, false);
      SeesNone(script, e, false);
  }
}
