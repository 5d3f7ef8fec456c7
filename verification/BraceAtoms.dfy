/** Which characters of a word's source text are brace syntax: each one exposed to it is an atom of its own,
    and each quoted run or expansion is one opaque atom. */
module BraceAtoms {
  import Seqs

  datatype Atom = Raw(c: char) | Opaque(text: string)

  // ------------------------------------------------------------------ where a run ends, as functions

  /** How much of `text` a quoted run takes, its closing character included: all of it when that never comes. */
  function Closing(text: string, close: char, escapes: bool): (n: nat)
    ensures n <= |text|
  {
    if text == [] then 0
    else if escapes && text[0] == '\\' then
      (if |text| == 1 then 1 else 2 + Closing(text[2..], close, escapes))
    else if text[0] == close then 1
    else 1 + Closing(text[1..], close, escapes)
  }

  predicate Delimiters(open: char, close: char) {
    (open == '{' && close == '}') || (open == '(' && close == ')')
  }

  /** How far the front of `text` reaches inside an expansion: a backslash quotes one character, and a quoted
      run is passed over whole. */
  function Stride(text: string): (n: nat)
    requires text != []
    ensures 0 < n <= |text|
  {
    if text[0] == '\\' then (if |text| == 1 then 1 else 2)
    else if text[0] == '\'' || text[0] == '"' then 1 + Closing(text[1..], text[0], text[0] == '"')
    else 1
  }

  function DepthPast(c: char, open: char, close: char, depth: nat): nat {
    if c == open then depth + 1 else if c == close && depth > 0 then depth - 1 else depth
  }

  /** How much of `text` an expansion takes, from `depth` delimiters in. */
  function Nested(text: string, open: char, close: char, depth: nat): (n: nat)
    ensures n <= |text|
    decreases |text|
  {
    if text == [] then 0
    else if text[0] == close && depth <= 1 then 1
    else Stride(text) + Nested(text[Stride(text)..], open, close, DepthPast(text[0], open, close, depth))
  }

  /** How long the opaque run at the front of `text` is, or 0 when its first character is exposed. */
  function RunLength(text: string): (n: nat)
    requires text != []
    ensures n <= |text|
  {
    match text[0]
    case '\\' => if |text| == 1 then 1 else 2
    case '\'' => 1 + Closing(text[1..], '\'', false)
    case '"' => 1 + Closing(text[1..], '"', true)
    case '`' => 1 + Closing(text[1..], '`', true)
    case '$' =>
      if |text| == 1 then 0
      else if text[1] == '\'' then 2 + Closing(text[2..], '\'', true)
      else if text[1] == '{' then 1 + Nested(text[1..], '{', '}', 0)
      else if text[1] == '(' then 1 + Nested(text[1..], '(', ')', 0)
      else 0
    case _ => 0
  }

  function ToAtoms(text: string): (atoms: seq<Atom>)
    decreases |text|
  {
    if text == [] then []
    else if RunLength(text) == 0 then [Raw(text[0])] + ToAtoms(text[1..])
    else [Opaque(text[..RunLength(text)])] + ToAtoms(text[RunLength(text)..])
  }

  function TextOf(atom: Atom): string {
    match atom
    case Raw(c) => [c]
    case Opaque(text) => text
  }

  function FromAtoms(atoms: seq<Atom>): string {
    if atoms == [] then [] else TextOf(atoms[0]) + FromAtoms(atoms[1..])
  }

  // ------------------------------------------------------------------ the code

  method ClosingAt(chars: string, from: nat, close: char, escapes: bool) returns (end: nat)
    requires from <= |chars|
    ensures end == from + Closing(chars[from..], close, escapes) <= |chars|
  {
    var i := from;
    while i < |chars|
      invariant from <= i <= |chars| + 1
      invariant i <= |chars| ==> i + Closing(chars[i..], close, escapes) == from + Closing(chars[from..], close, escapes)
      invariant i > |chars| ==> |chars| == from + Closing(chars[from..], close, escapes)
      decreases |chars| + 1 - i
    {
      Seqs.DropHead(chars, i);
      if escapes && chars[i] == '\\' {
        if i + 2 <= |chars| {
          Seqs.DropDrop(chars, i, 2);
        }
        i := i + 2;
        continue;
      }
      if chars[i] == close {
        return i + 1;
      }
      i := i + 1;
    }
    return |chars|;
  }

  /** The depth never falls below zero: the run starts at its own opening delimiter. */
  method NestedAt(chars: string, from: nat, open: char, close: char) returns (end: nat)
    requires from < |chars| && chars[from] == open && Delimiters(open, close)
    ensures end == from + Nested(chars[from..], open, close, 0) <= |chars|
  {
    hide Closing, Nested, Stride;
    NestedNothing(open, close);
    assert chars[|chars|..] == [];
    var depth: nat := 0;
    var i := from;
    while i < |chars|
      invariant from <= i
      invariant depth == 0 ==> i == from
      invariant i <= |chars| ==> i + Nested(chars[i..], open, close, depth) == from + Nested(chars[from..], open, close, 0)
      invariant i > |chars| ==> |chars| == from + Nested(chars[from..], open, close, 0)
      decreases |chars| + 1 - i
    {
      NestedStep(chars, i, open, close, depth);
      if chars[i] == '\\' {
        i := i + 2;
        continue;
      }
      if chars[i] == '\'' || chars[i] == '"' {
        i := ClosingAt(chars, i + 1, chars[i], chars[i] == '"');
        continue;
      }
      if chars[i] == open {
        depth := depth + 1;
      } else if chars[i] == close {
        depth := depth - 1;
        if depth == 0 {
          return i + 1;
        }
      }
      i := i + 1;
    }
    return |chars|;
  }

  lemma NestedNothing(open: char, close: char)
    ensures forall depth: nat :: Nested([], open, close, depth) == 0
  {
  }

  lemma StrideAt(chars: string, i: nat)
    requires i < |chars|
    ensures Stride(chars[i..])
         == if chars[i] == '\\' then (if i + 1 == |chars| then 1 else 2)
            else if chars[i] == '\'' || chars[i] == '"' then 1 + Closing(chars[i + 1..], chars[i], chars[i] == '"')
            else 1
  {
    hide Closing;
    Seqs.DropHead(chars, i);
  }

  lemma NestedUnfold(chars: string, i: nat, open: char, close: char, depth: nat)
    requires i < |chars|
    ensures Nested(chars[i..], open, close, depth)
         == if chars[i] == close && depth <= 1 then 1
            else Stride(chars[i..]) + Nested(chars[i + Stride(chars[i..])..], open, close, DepthPast(chars[i], open, close, depth))
  {
    hide Stride, DepthPast, Closing;
    Seqs.DropDrop(chars, i, Stride(chars[i..]));
  }

  /** One turn of the loop, case by case. */
  lemma NestedStep(chars: string, i: nat, open: char, close: char, depth: nat)
    requires i < |chars| && Delimiters(open, close)
    ensures Nested(chars[i..], open, close, depth)
         == if chars[i] == '\\' then
              (if i + 1 == |chars| then 1 else 2 + Nested(chars[i + 2..], open, close, depth))
            else if chars[i] == '\'' || chars[i] == '"' then
              var n := 1 + Closing(chars[i + 1..], chars[i], chars[i] == '"');
              n + Nested(chars[i + n..], open, close, depth)
            else if chars[i] == close && depth <= 1 then 1
            else 1 + Nested(chars[i + 1..], open, close, DepthPast(chars[i], open, close, depth))
  {
    hide Closing, Stride, Nested, DepthPast;
    StrideAt(chars, i);
    NestedUnfold(chars, i, open, close, depth);
    if chars[i] == '\\' || chars[i] == '\'' || chars[i] == '"' {
      QuotingKeepsDepth(chars[i], open, close, depth);
    }
    if i + 1 == |chars| {
      assert chars[i + 1..] == [];
      NestedNothing(open, close);
    }
  }

  lemma QuotingKeepsDepth(c: char, open: char, close: char, depth: nat)
    requires Delimiters(open, close) && (c == '\\' || c == '\'' || c == '"')
    ensures c != close && DepthPast(c, open, close, depth) == depth
  {
  }

  method Split(chars: string) returns (atoms: seq<Atom>)
    ensures atoms == ToAtoms(chars)
  {
    hide Closing, Nested, RunLength;
    atoms := [];
    var i := 0;
    while i < |chars|
      invariant i <= |chars|
      invariant atoms + ToAtoms(chars[i..]) == ToAtoms(chars)
      decreases |chars| - i
    {
      RunAt(chars, i);
      var end := i;
      if chars[i] == '\\' {
        end := if i + 2 < |chars| then i + 2 else |chars|;
      } else if chars[i] == '\'' {
        end := ClosingAt(chars, i + 1, '\'', false);
      } else if chars[i] == '"' {
        end := ClosingAt(chars, i + 1, '"', true);
      } else if chars[i] == '`' {
        end := ClosingAt(chars, i + 1, '`', true);
      } else if chars[i] == '$' && i + 1 < |chars| && chars[i + 1] == '\'' {
        end := ClosingAt(chars, i + 2, '\'', true);
      } else if chars[i] == '$' && i + 1 < |chars| && chars[i + 1] == '{' {
        end := NestedAt(chars, i + 1, '{', '}');
      } else if chars[i] == '$' && i + 1 < |chars| && chars[i + 1] == '(' {
        end := NestedAt(chars, i + 1, '(', ')');
      } else {
        NextRaw(chars, i);
        Seqs.Assoc(atoms, [Raw(chars[i])], ToAtoms(chars[i + 1..]));
        atoms := atoms + [Raw(chars[i])];
        i := i + 1;
        continue;
      }
      NextRun(chars, i, end);
      Seqs.Assoc(atoms, [Opaque(chars[i..end])], ToAtoms(chars[end..]));
      atoms := atoms + [Opaque(chars[i..end])];
      i := end;
    }
  }

  lemma RunAt(chars: string, i: nat)
    requires i < |chars|
    ensures RunLength(chars[i..]) ==
      match chars[i]
      case '\\' => if i + 1 == |chars| then 1 else 2
      case '\'' => 1 + Closing(chars[i + 1..], '\'', false)
      case '"' => 1 + Closing(chars[i + 1..], '"', true)
      case '`' => 1 + Closing(chars[i + 1..], '`', true)
      case '$' =>
        if i + 1 == |chars| then 0
        else if chars[i + 1] == '\'' then 2 + Closing(chars[i + 2..], '\'', true)
        else if chars[i + 1] == '{' then 1 + Nested(chars[i + 1..], '{', '}', 0)
        else if chars[i + 1] == '(' then 1 + Nested(chars[i + 1..], '(', ')', 0)
        else 0
      case _ => 0
  {
    hide Closing, Nested;
    Seqs.DropHead(chars, i);
    if i + 2 <= |chars| {
      Seqs.DropDrop(chars, i, 2);
    }
  }

  lemma NextRaw(chars: string, i: nat)
    requires i < |chars| && RunLength(chars[i..]) == 0
    ensures ToAtoms(chars[i..]) == [Raw(chars[i])] + ToAtoms(chars[i + 1..])
  {
    hide RunLength;
    Seqs.DropHead(chars, i);
  }

  lemma NextRun(chars: string, i: nat, end: nat)
    requires i < end <= |chars| && RunLength(chars[i..]) == end - i
    ensures ToAtoms(chars[i..]) == [Opaque(chars[i..end])] + ToAtoms(chars[end..])
  {
    hide RunLength;
    Seqs.DropDrop(chars, i, end - i);
    assert chars[i..][..end - i] == chars[i..end];
  }

  method Join(atoms: seq<Atom>) returns (text: string)
    ensures text == FromAtoms(atoms)
  {
    text := [];
    for i := 0 to |atoms|
      invariant text + FromAtoms(atoms[i..]) == FromAtoms(atoms)
    {
      Seqs.DropHead(atoms, i);
      Seqs.Assoc(text, TextOf(atoms[i]), FromAtoms(atoms[i + 1..]));
      text := text + TextOf(atoms[i]);
    }
  }

  // ------------------------------------------------------------------ nothing is lost

  lemma {:induction false} FromAtomsConcat(a: seq<Atom>, b: seq<Atom>)
    ensures FromAtoms(a + b) == FromAtoms(a) + FromAtoms(b)
  {
    if a == [] {
      assert a + b == b;
    } else {
      Seqs.ConcatHead(a, b);
      FromAtomsConcat(a[1..], b);
    }
  }

  /** Atoms are a way of reading a text and never change it, whatever is left unterminated in it. */
  lemma {:induction false} RoundTrip(text: string)
    ensures FromAtoms(ToAtoms(text)) == text
    decreases |text|
  {
    if text != [] {
      var n := RunLength(text);
      RoundTrip(text[if n == 0 then 1 else n..]);
      Seqs.Split(text, if n == 0 then 1 else n);
      hide RunLength;
    }
  }

  lemma {:induction false} ClosingLocal(text: string, close: char, escapes: bool, cut: nat)
    requires Closing(text, close, escapes) <= cut <= |text|
    ensures Closing(text[..cut], close, escapes) == Closing(text, close, escapes)
    decreases |text|
  {
    if text != [] {
      if escapes && text[0] == '\\' {
        if |text| > 1 {
          ClosingLocal(text[2..], close, escapes, cut - 2);
          assert text[..cut][2..] == text[2..][..cut - 2];
        }
      } else if text[0] != close {
        ClosingLocal(text[1..], close, escapes, cut - 1);
        assert text[..cut][1..] == text[1..][..cut - 1];
      }
    }
  }

  lemma StrideLocal(text: string, cut: nat)
    requires text != [] && Stride(text) <= cut <= |text|
    ensures Stride(text[..cut]) == Stride(text)
  {
    assert text[..cut][1..] == text[1..][..cut - 1];
    if text[0] == '\'' || text[0] == '"' {
      ClosingLocal(text[1..], text[0], text[0] == '"', cut - 1);
    }
    hide Closing;
  }

  lemma {:induction false} NestedLocal(text: string, open: char, close: char, depth: nat, cut: nat)
    requires Nested(text, open, close, depth) <= cut <= |text|
    ensures Nested(text[..cut], open, close, depth) == Nested(text, open, close, depth)
    decreases |text|
  {
    if text != [] && !(text[0] == close && depth <= 1) {
      hide DepthPast, Closing;
      var n := Stride(text);
      StrideLocal(text, cut);
      hide Stride;
      assert text[..cut][n..] == text[n..][..cut - n];
      NestedLocal(text[n..], open, close, DepthPast(text[0], open, close, depth), cut - n);
    }
  }

  /** A run is recognised by its own characters: what comes after does not matter. */
  lemma RunLocal(text: string, cut: nat)
    requires text != [] && 0 < cut <= |text| && RunLength(text) <= cut
    ensures RunLength(text[..cut]) == RunLength(text)
  {
    var front := text[..cut];
    assert front[1..] == text[1..][..cut - 1];
    if text[0] == '\'' || text[0] == '"' || text[0] == '`' {
      ClosingLocal(text[1..], text[0], text[0] != '\'', cut - 1);
    } else if text[0] == '$' && |text| > 1 && cut > 1 {
      assert front[2..] == text[2..][..cut - 2];
      if text[1] == '\'' {
        ClosingLocal(text[2..], '\'', true, cut - 2);
      } else if text[1] == '{' {
        NestedLocal(text[1..], '{', '}', 0, cut - 1);
      } else if text[1] == '(' {
        NestedLocal(text[1..], '(', ')', 0, cut - 1);
      }
    } else if text[0] == '$' && |text| > 1 {
      NestedTakesItsOpener(text[1..]);
    }
  }

  lemma NestedTakesItsOpener(text: string)
    requires text != []
    ensures text[0] == '{' ==> Nested(text, '{', '}', 0) > 0
    ensures text[0] == '(' ==> Nested(text, '(', ')', 0) > 0
  {
  }

  /** Cutting a text between two of its atoms cuts nothing else: the text in front reads as the atoms in
      front, and the text behind as those behind. */
  lemma {:induction false} CutBetweenAtoms(text: string, k: nat)
    requires k <= |ToAtoms(text)|
    ensures ToAtoms(FromAtoms(ToAtoms(text)[..k])) == ToAtoms(text)[..k]
    ensures ToAtoms(FromAtoms(ToAtoms(text)[k..])) == ToAtoms(text)[k..]
    decreases |text|
  {
    var atoms := ToAtoms(text);
    if k == 0 {
      assert atoms[0..] == atoms && atoms[..0] == [];
      RoundTrip(text);
    } else {
      hide RunLength, FromAtoms;
      var n := if RunLength(text) == 0 then 1 else RunLength(text);
      FirstAtom(text);
      hide ToAtoms;
      CutBetweenAtoms(text[n..], k - 1);
      CutStep(text, n, atoms[0], k);
    }
  }

  lemma CutStep(text: string, n: nat, first: Atom, k: nat)
    requires text != [] && 0 < n <= |text| && n == (if RunLength(text) == 0 then 1 else RunLength(text))
    requires ToAtoms(text) == [first] + ToAtoms(text[n..]) && TextOf(first) == text[..n]
    requires 0 < k <= |ToAtoms(text)|
    requires ToAtoms(FromAtoms(ToAtoms(text[n..])[..k - 1])) == ToAtoms(text[n..])[..k - 1]
    requires ToAtoms(FromAtoms(ToAtoms(text[n..])[k - 1..])) == ToAtoms(text[n..])[k - 1..]
    ensures ToAtoms(FromAtoms(ToAtoms(text)[..k])) == ToAtoms(text)[..k]
    ensures ToAtoms(FromAtoms(ToAtoms(text)[k..])) == ToAtoms(text)[k..]
  {
    hide ToAtoms, RunLength;
    var rest := ToAtoms(text[n..]);
    assert ToAtoms(text)[k..] == rest[k - 1..];
    assert ToAtoms(text)[..k] == [first] + rest[..k - 1];
    var front := FromAtoms(rest[..k - 1]);
    Seqs.HeadTail(first, rest[..k - 1]);
    assert FromAtoms(ToAtoms(text)[..k]) == text[..n] + front;
    hide FromAtoms;
    PrefixText(text[n..], k - 1);
    CutPoint(text, n, |front|);
    RunLocal(text, n + |front|);
    FirstAtom(text[..n + |front|]);
    assert first == if RunLength(text) == 0 then Raw(text[0]) else Opaque(text[..n]) by {
      FirstAtom(text);
      Seqs.HeadTail(first, rest);
    }
  }

  lemma CutPoint(text: string, n: nat, m: nat)
    requires n + m <= |text| && n > 0
    ensures text[..n] + text[n..][..m] == text[..n + m]
    ensures text[..n + m][n..] == text[n..][..m] && text[..n + m][..n] == text[..n] && text[..n + m][0] == text[0]
  {
  }

  lemma FirstAtom(text: string)
    requires text != []
    ensures var n := if RunLength(text) == 0 then 1 else RunLength(text);
            var atom := if RunLength(text) == 0 then Raw(text[0]) else Opaque(text[..n]);
            ToAtoms(text) == [atom] + ToAtoms(text[n..]) && TextOf(atom) == text[..n]
  {
    hide RunLength;
  }

  lemma PrefixText(text: string, k: nat)
    requires k <= |ToAtoms(text)|
    ensures |FromAtoms(ToAtoms(text)[..k])| <= |text|
    ensures FromAtoms(ToAtoms(text)[..k]) == text[..|FromAtoms(ToAtoms(text)[..k])|]
  {
    RoundTrip(text);
    Seqs.Split(ToAtoms(text), k);
    FromAtomsConcat(ToAtoms(text)[..k], ToAtoms(text)[k..]);
  }

  /** Any stretch of a text's atoms reads back as itself. */
  lemma StretchReadsBack(text: string, i: nat, j: nat)
    requires i <= j <= |ToAtoms(text)|
    ensures ToAtoms(FromAtoms(ToAtoms(text)[i..j])) == ToAtoms(text)[i..j]
  {
    hide ToAtoms, FromAtoms;
    var atoms := ToAtoms(text);
    CutBetweenAtoms(text, i);
    CutBetweenAtoms(FromAtoms(atoms[i..]), j - i);
    assert atoms[i..][..j - i] == atoms[i..j];
  }

  // ------------------------------------------------------------------ what is one run

  /** A character between double quotes, or one a backslash quotes there. */
  datatype Unit = Lit(lit: char) | Esc(esc: char)

  /** What stands inside an expansion's delimiters. */
  datatype Piece =
    | Plain(c: char)
    | Escaped(e: char)
    | SingleQuoted(s: string)
    | DoubleQuoted(units: seq<Unit>)
    | Grouped(pieces: seq<Piece>)

  function PrintUnits(units: seq<Unit>): string {
    if units == [] then []
    else (match units[0] case Lit(c) => [c] case Esc(c) => ['\\', c]) + PrintUnits(units[1..])
  }

  predicate UnitsFor(units: seq<Unit>, close: char) {
    forall k :: 0 <= k < |units| ==> units[k].Lit? ==> units[k].lit != close && units[k].lit != '\\'
  }

  function Print(piece: Piece, open: char, close: char): string {
    match piece
    case Plain(c) => [c]
    case Escaped(c) => ['\\', c]
    case SingleQuoted(s) => "'" + s + "'"
    case DoubleQuoted(units) => "\"" + PrintUnits(units) + "\""
    case Grouped(pieces) => [open] + PrintAll(pieces, open, close) + [close]
  }

  function PrintAll(pieces: seq<Piece>, open: char, close: char): string {
    if pieces == [] then [] else Print(pieces[0], open, close) + PrintAll(pieces[1..], open, close)
  }

  predicate PieceFor(piece: Piece, open: char, close: char) {
    match piece
    case Plain(c) => c !in "\\'\"" && c != open && c != close
    case Escaped(_) => true
    case SingleQuoted(s) => '\'' !in s
    case DoubleQuoted(units) => UnitsFor(units, '"')
    case Grouped(pieces) => forall k :: 0 <= k < |pieces| ==> PieceFor(pieces[k], open, close)
  }

  /** `run` is one opaque atom in front of whatever `rest` is. */
  predicate TakenWhole(run: string, rest: string) {
    ToAtoms(run + rest) == [Opaque(run)] + ToAtoms(rest)
  }

  lemma {:induction false} ClosingUnits(units: seq<Unit>, close: char, rest: string)
    requires UnitsFor(units, close) && close != '\\'
    ensures Closing(PrintUnits(units) + [close] + rest, close, true) == |PrintUnits(units)| + 1
  {
    var text := PrintUnits(units) + [close] + rest;
    if units != [] {
      ClosingUnits(units[1..], close, rest);
      var tail := PrintUnits(units[1..]) + [close] + rest;
      if units[0].Lit? {
        assert text[1..] == tail && text[0] == units[0].lit;
      } else {
        assert text[2..] == tail && text[0] == '\\';
      }
    }
  }

  lemma {:induction false} ClosingPlain(body: string, close: char, rest: string)
    requires close !in body
    ensures Closing(body + [close] + rest, close, false) == |body| + 1
  {
    if body != [] {
      assert (body + [close] + rest)[1..] == body[1..] + [close] + rest;
      ClosingPlain(body[1..], close, rest);
    }
  }

  /** The stride over a piece other than a group is the piece. */
  lemma StridePiece(piece: Piece, open: char, close: char, rest: string)
    requires PieceFor(piece, open, close) && Delimiters(open, close) && !piece.Grouped?
    ensures Stride(Print(piece, open, close) + rest) == |Print(piece, open, close)|
    ensures (Print(piece, open, close) + rest)[0] != open && (Print(piece, open, close) + rest)[0] != close
  {
    var text := Print(piece, open, close) + rest;
    hide Closing, PrintUnits;
    match piece
    case Plain(c) =>
    case Escaped(c) =>
    case SingleQuoted(s) =>
      ClosingPlain(s, '\'', rest);
      assert text[1..] == s + ['\''] + rest;
    case DoubleQuoted(units) =>
      ClosingUnits(units, '"', rest);
      assert text[1..] == PrintUnits(units) + ['"'] + rest;
  }

  lemma {:induction false} NestedPiece(piece: Piece, open: char, close: char, depth: nat, rest: string)
    requires PieceFor(piece, open, close) && Delimiters(open, close) && (depth == 0 ==> piece.Grouped?)
    ensures Nested(Print(piece, open, close) + rest, open, close, depth)
         == |Print(piece, open, close)| + (if depth == 0 then 0 else Nested(rest, open, close, depth))
    decreases piece, 1
  {
    if piece.Grouped? {
      var inner := PrintAll(piece.pieces, open, close);
      hide PrintAll, Nested;
      NestedPieces(piece.pieces, open, close, depth + 1, [close] + rest);
      assert Print(piece, open, close) == [open] + inner + [close];
      hide Print, PieceFor;
      assert [open] + inner + [close] + rest == [open] + (inner + ([close] + rest));
      NestedGroup(inner, open, close, depth, rest);
    } else {
      StridePiece(piece, open, close, rest);
      Seqs.DropPrefix(Print(piece, open, close), rest);
      hide Stride, Print, PieceFor;
    }
  }

  lemma NestedGroup(inner: string, open: char, close: char, depth: nat, rest: string)
    requires Delimiters(open, close)
    requires Nested(inner + ([close] + rest), open, close, depth + 1)
          == |inner| + Nested([close] + rest, open, close, depth + 1)
    ensures Nested([open] + (inner + ([close] + rest)), open, close, depth)
         == |inner| + 2 + (if depth == 0 then 0 else Nested(rest, open, close, depth))
  {
    var text := [open] + (inner + ([close] + rest));
    Seqs.HeadTail(open, inner + ([close] + rest));
    assert Stride(text) == 1;
    Seqs.HeadTail(close, rest);
    assert Stride([close] + rest) == 1;
    assert DepthPast(close, open, close, depth + 1) == depth;
    hide Stride, DepthPast, Closing;
  }

  lemma {:induction false} NestedPieces(pieces: seq<Piece>, open: char, close: char, depth: nat, rest: string)
    requires forall k :: 0 <= k < |pieces| ==> PieceFor(pieces[k], open, close)
    requires Delimiters(open, close) && depth > 0
    ensures Nested(PrintAll(pieces, open, close) + rest, open, close, depth)
         == |PrintAll(pieces, open, close)| + Nested(rest, open, close, depth)
    decreases pieces, 0
  {
    hide Nested;
    if pieces == [] {
      assert PrintAll(pieces, open, close) + rest == rest;
    } else {
      var tail := PrintAll(pieces[1..], open, close);
      Seqs.Assoc(Print(pieces[0], open, close), tail, rest);
      NestedPiece(pieces[0], open, close, depth, tail + rest);
      NestedPieces(pieces[1..], open, close, depth, rest);
    }
  }

  /** `${...}` and `$(...)` are one run to their own closing delimiter, whatever nests or is quoted inside. */
  lemma ExpansionIsOneRun(pieces: seq<Piece>, open: char, close: char, rest: string)
    requires Delimiters(open, close) && PieceFor(Grouped(pieces), open, close)
    ensures TakenWhole("$" + Print(Grouped(pieces), open, close), rest)
  {
    var body := Print(Grouped(pieces), open, close);
    var run := "$" + body;
    NestedPiece(Grouped(pieces), open, close, 0, rest);
    assert (run + rest)[1..] == body + rest;
    assert (run + rest)[1] == open;
    OneRun(run, rest);
  }

  lemma OneRun(run: string, rest: string)
    requires run != [] && RunLength(run + rest) == |run|
    ensures TakenWhole(run, rest)
  {
    hide RunLength;
    Seqs.DropPrefix(run, rest);
  }

  /** A quoted run ends at its first unescaped closing quote, a single-quoted one at its first closing quote. */
  lemma QuotedIsOneRun(units: seq<Unit>, plain: string, rest: string)
    requires '\'' !in plain
    ensures TakenWhole("'" + plain + "'", rest)
    ensures UnitsFor(units, '"') ==> TakenWhole("\"" + PrintUnits(units) + "\"", rest)
    ensures UnitsFor(units, '`') ==> TakenWhole("`" + PrintUnits(units) + "`", rest)
    ensures UnitsFor(units, '\'') ==> TakenWhole("$'" + PrintUnits(units) + "'", rest)
  {
    hide TakenWhole, UnitsFor, PrintUnits;
    PlainQuoted(plain, rest);
    if UnitsFor(units, '"') {
      QuotedUnits(units, '"', rest);
    }
    if UnitsFor(units, '`') {
      QuotedUnits(units, '`', rest);
    }
    if UnitsFor(units, '\'') {
      DollarQuoted(units, rest);
    }
  }

  lemma DollarQuoted(units: seq<Unit>, rest: string)
    requires UnitsFor(units, '\'')
    ensures TakenWhole("$'" + PrintUnits(units) + "'", rest)
  {
    ClosingUnits(units, '\'', rest);
    hide Closing, Nested, PrintUnits;
    var run := "$'" + PrintUnits(units) + "'";
    assert (run + rest)[2..] == PrintUnits(units) + ['\''] + rest;
    OneRun(run, rest);
  }

  lemma PlainQuoted(plain: string, rest: string)
    requires '\'' !in plain
    ensures TakenWhole("'" + plain + "'", rest)
  {
    ClosingPlain(plain, '\'', rest);
    hide Closing, Nested;
    assert ("'" + plain + "'" + rest)[1..] == plain + ['\''] + rest;
    OneRun("'" + plain + "'", rest);
  }

  lemma QuotedUnits(units: seq<Unit>, quote: char, rest: string)
    requires UnitsFor(units, quote) && (quote == '"' || quote == '`')
    ensures TakenWhole([quote] + PrintUnits(units) + [quote], rest)
  {
    ClosingUnits(units, quote, rest);
    var run := [quote] + PrintUnits(units) + [quote];
    assert (run + rest)[1..] == PrintUnits(units) + [quote] + rest;
    OneRun(run, rest);
  }

  /** A backslash and the character it quotes are one run, whatever that character is; with none it is one alone. */
  lemma BackslashIsOneRun(c: char, rest: string)
    ensures TakenWhole(['\\', c], rest)
    ensures ToAtoms("\\") == [Opaque("\\")]
  {
    OneRun(['\\', c], rest);
    AllOneRun("\\");
  }

  /** Any other character is exposed: one that begins no run, and a `$` that begins no expansion. */
  lemma OthersAreExposed(c: char, rest: string)
    requires c !in "\\'\"`"
    requires c == '$' ==> rest == [] || rest[0] !in "'{("
    ensures ToAtoms([c] + rest) == [Raw(c)] + ToAtoms(rest)
  {
    Seqs.HeadTail(c, rest);
    hide Closing, Nested;
  }

  /** A quote or an expansion that is never closed hides everything after it. */
  lemma UnclosedHidesTheRest(body: string, units: seq<Unit>, pieces: seq<Piece>, open: char, close: char)
    requires '\'' !in body && UnitsFor(units, '"') && Delimiters(open, close) && PieceFor(Grouped(pieces), open, close)
    ensures ToAtoms("'" + body) == [Opaque("'" + body)]
    ensures ToAtoms("\"" + PrintUnits(units)) == [Opaque("\"" + PrintUnits(units))]
    ensures var run := ['$', open] + PrintAll(pieces, open, close); ToAtoms(run) == [Opaque(run)]
  {
    hide ToAtoms, UnitsFor, PrintUnits, PrintAll, PieceFor;
    UnclosedQuote(body);
    UnclosedUnits(units);
    UnclosedExpansion(pieces, open, close);
  }

  lemma AllOneRun(run: string)
    requires run != [] && RunLength(run) == |run|
    ensures ToAtoms(run) == [Opaque(run)]
  {
    hide RunLength;
    assert run[..|run|] == run && run[|run|..] == [];
  }

  lemma UnclosedQuote(body: string)
    requires '\'' !in body
    ensures ToAtoms("'" + body) == [Opaque("'" + body)]
  {
    assert ("'" + body)[1..] == body;
    UnclosedTakesAll(body);
    AllOneRun("'" + body);
  }

  lemma {:induction false} UnclosedTakesAll(body: string)
    requires '\'' !in body
    ensures Closing(body, '\'', false) == |body|
  {
    if body != [] {
      UnclosedTakesAll(body[1..]);
    }
  }

  lemma UnclosedUnits(units: seq<Unit>)
    requires UnitsFor(units, '"')
    ensures ToAtoms("\"" + PrintUnits(units)) == [Opaque("\"" + PrintUnits(units))]
  {
    UnitsTakeAll(units, '"');
    hide Closing, PrintUnits, UnitsFor;
    assert ("\"" + PrintUnits(units))[1..] == PrintUnits(units);
    AllOneRun("\"" + PrintUnits(units));
  }

  lemma {:induction false} UnitsTakeAll(units: seq<Unit>, close: char)
    requires UnitsFor(units, close) && close != '\\'
    ensures Closing(PrintUnits(units), close, true) == |PrintUnits(units)|
  {
    if units != [] {
      UnitsTakeAll(units[1..], close);
      var text, tail := PrintUnits(units), PrintUnits(units[1..]);
      if units[0].Lit? {
        assert text[1..] == tail && text[0] == units[0].lit;
      } else {
        assert text[2..] == tail && text[0] == '\\';
      }
    }
  }

  lemma UnclosedExpansion(pieces: seq<Piece>, open: char, close: char)
    requires Delimiters(open, close) && PieceFor(Grouped(pieces), open, close)
    ensures var run := ['$', open] + PrintAll(pieces, open, close); ToAtoms(run) == [Opaque(run)]
  {
    var inner := PrintAll(pieces, open, close);
    var run := ['$', open] + inner;
    NestedPieces(pieces, open, close, 1, []);
    NestedNothing(open, close);
    hide Nested, PrintAll, Closing;
    assert inner + [] == inner;
    assert run[1..] == [open] + inner && run[1] == open;
    assert ([open] + inner)[1..] == inner && ([open] + inner)[0] == open;
    NestedOpens(inner, open, close);
    AllOneRun(run);
  }

  lemma NestedOpens(inner: string, open: char, close: char)
    requires Delimiters(open, close)
    ensures Nested([open] + inner, open, close, 0) == 1 + Nested(inner, open, close, 1)
  {
    Seqs.HeadTail(open, inner);
    assert Stride([open] + inner) == 1;
    hide Closing, Stride;
  }
}
