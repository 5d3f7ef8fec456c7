/** Here-document bodies: the lines a `<<WORD` sets aside, taken out before the nesting scan reads a script. */
module Heredoc {
  import opened Chars
  import Seqs

  /** A body's closing word, and whether tabs before it do not count. */
  type Delimiter = (string, bool)

  // ------------------------------------------------------------------ lines

  function Newline(text: string): (k: nat)
    ensures k <= |text| && (k < |text| ==> text[k] == '\n') && '\n' !in text[..k]
  {
    if text == [] || text[0] == '\n' then 0 else 1 + Newline(text[1..])
  }

  function WithoutReturn(line: string): string {
    if line != [] && line[|line| - 1] == '\r' then line[..|line| - 1] else line
  }

  /** A line ends at a newline, or a return and a newline; the last may have neither. */
  function Lines(text: string): seq<string>
    decreases |text|
  {
    if text == [] then []
    else if Newline(text) == |text| then [text]
    else [WithoutReturn(text[..Newline(text)])] + Lines(text[Newline(text) + 1..])
  }

  // ------------------------------------------------------------------ delimiters, as functions

  predicate CharAt(line: string, i: nat, c: char) {
    i < |line| && line[i] == c
  }

  function PastSpaces(line: string, i: nat): (j: nat)
    ensures i <= j && (i <= |line| ==> j <= |line|)
    decreases |line| - i
  {
    if CharAt(line, i, ' ') then PastSpaces(line, i + 1) else i
  }

  function PastWord(line: string, i: nat): (j: nat)
    ensures i <= j && (i <= |line| ==> j <= |line|)
    decreases |line| - i
  {
    if i < |line| && IsWordChar(line[i]) then PastWord(line, i + 1) else i
  }

  /** Where the delimiter's own characters begin, past its dash, blanks and quote. */
  function WordStart(line: string, i: nat): (j: nat)
    ensures i <= j
  {
    var dash := if CharAt(line, i, '-') then i + 1 else i;
    var word := PastSpaces(line, dash);
    var bare := if CharAt(line, word, '\\') then word + 1 else word;
    if CharAt(line, bare, '\'') || CharAt(line, bare, '"') then bare + 1 else bare
  }

  /** The delimiters from `i` on: a word must follow `<<`, so a shift is none, and `<<<` opens no body. */
  function DelimitersFrom(line: string, i: nat): seq<Delimiter>
    decreases |line| - i
  {
    if i + 1 >= |line| then []
    else if line[i] != '<' || line[i + 1] != '<' then DelimitersFrom(line, i + 1)
    else if CharAt(line, i + 2, '<') then DelimitersFrom(line, i + 3)
    else
      var start := WordStart(line, i + 2);
      if start < |line| && (IsAlphabetic(line[start]) || line[start] == '_')
      then [(line[start..PastWord(line, start)], CharAt(line, i + 2, '-'))] + DelimitersFrom(line, PastWord(line, start))
      else DelimitersFrom(line, i + 2)
  }

  function WithoutTabs(line: string): string {
    if line != [] && line[0] == '\t' then WithoutTabs(line[1..]) else line
  }

  predicate Ends(line: string, delimiter: Delimiter) {
    (if delimiter.1 then WithoutTabs(line) else line) == delimiter.0
  }

  /** How many lines a body takes, its closing line included: all of them when it has none. */
  function BodyLength(lines: seq<string>, delimiter: Delimiter): (n: nat)
    ensures n <= |lines|
  {
    if lines == [] then 0 else if Ends(lines[0], delimiter) then 1 else 1 + BodyLength(lines[1..], delimiter)
  }

  function BodiesLength(lines: seq<string>, delimiters: seq<Delimiter>): (n: nat)
    ensures n <= |lines|
    decreases |delimiters|
  {
    if delimiters == [] then 0
    else
      var n := BodyLength(lines, delimiters[0]);
      n + BodiesLength(lines[n..], delimiters[1..])
  }

  /** The lines that are shell, each with its newline. */
  function ShellLines(lines: seq<string>): string
    decreases |lines|
  {
    if lines == [] then []
    else
      var n := BodiesLength(lines[1..], DelimitersFrom(lines[0], 0));
      lines[0] + ['\n'] + ShellLines(lines[1..][n..])
  }

  // ------------------------------------------------------------------ the code

  method SkipToWord(chars: string, from: nat) returns (j: nat)
    ensures j == WordStart(chars, from)
  {
    j := from;
    if CharAt(chars, j, '-') {
      j := j + 1;
    }
    ghost var dash := j;
    while CharAt(chars, j, ' ')
      invariant PastSpaces(chars, j) == PastSpaces(chars, dash)
      decreases |chars| - j
    {
      j := j + 1;
    }
    if CharAt(chars, j, '\\') {
      j := j + 1;
    }
    if CharAt(chars, j, '\'') || CharAt(chars, j, '"') {
      j := j + 1;
    }
  }

  method HeredocDelimiters(chars: string) returns (found: seq<Delimiter>)
    ensures found == DelimitersFrom(chars, 0)
  {
    hide WordStart, IsAlphabetic, IsWordChar;
    found := [];
    var i := 0;
    while i + 1 < |chars|
      invariant found + DelimitersFrom(chars, i) == DelimitersFrom(chars, 0)
      decreases |chars| - i
    {
      if chars[i] != '<' || chars[i + 1] != '<' {
        i := i + 1;
        continue;
      }
      if CharAt(chars, i + 2, '<') {
        i := i + 3;
        continue;
      }
      var stripTabs := CharAt(chars, i + 2, '-');
      var start := SkipToWord(chars, i + 2);
      if !(start < |chars| && (IsAlphabetic(chars[start]) || chars[start] == '_')) {
        i := i + 2;
        continue;
      }
      var j := start;
      while j < |chars| && IsWordChar(chars[j])
        invariant start <= j <= |chars|
        invariant PastWord(chars, j) == PastWord(chars, start)
      {
        j := j + 1;
      }
      Seqs.Assoc(found, [(chars[start..j], stripTabs)], DelimitersFrom(chars, j));
      found := found + [(chars[start..j], stripTabs)];
      i := j;
    }
  }

  method StripHeredocBodies(lines: seq<string>) returns (out: string)
    ensures out == ShellLines(lines)
  {
    hide ShellLines, DelimitersFrom, BodiesLength, BodyLength;
    NoLines();
    assert lines[0..] == lines && lines[|lines|..] == [];
    out := "";
    var at := 0;
    while at < |lines|
      invariant at <= |lines|
      invariant out + ShellLines(lines[at..]) == ShellLines(lines)
      decreases |lines| - at
    {
      var line := lines[at];
      var delimiters := HeredocDelimiters(line);
      ghost var n := BodiesLength(lines[at + 1..], delimiters);
      LineStep(lines, at, n);
      Seqs.Assoc(out, line + ['\n'], ShellLines(lines[at + 1 + n..]));
      out := out + (line + ['\n']);
      at := at + 1;
      ghost var body := at;
      assert delimiters[0..] == delimiters && delimiters[|delimiters|..] == [];
      for k := 0 to |delimiters|
        invariant body <= at <= |lines|
        invariant at + BodiesLength(lines[at..], delimiters[k..]) == body + n
      {
        BodyStep(lines, at, delimiters, k);
        at := PastBody(lines, at, delimiters[k]);
      }
    }
  }

  lemma NoLines()
    ensures ShellLines([]) == [] && forall lines :: BodiesLength(lines, []) == 0
  {
  }

  lemma BodyStep(lines: seq<string>, at: nat, delimiters: seq<Delimiter>, k: nat)
    requires at <= |lines| && k < |delimiters|
    ensures var n := BodyLength(lines[at..], delimiters[k]);
            BodiesLength(lines[at..], delimiters[k..]) == n + BodiesLength(lines[at + n..], delimiters[k + 1..])
  {
    hide BodyLength;
    Seqs.DropHead(delimiters, k);
    Seqs.DropDrop(lines, at, BodyLength(lines[at..], delimiters[k]));
  }

  lemma LineStep(lines: seq<string>, at: nat, n: nat)
    requires at < |lines| && n == BodiesLength(lines[at + 1..], DelimitersFrom(lines[at], 0))
    ensures ShellLines(lines[at..]) == lines[at] + ['\n'] + ShellLines(lines[at + 1 + n..])
  {
    Seqs.DropHead(lines, at);
    Seqs.DropDrop(lines, at + 1, n);
  }

  method PastBody(lines: seq<string>, from: nat, delimiter: Delimiter) returns (at: nat)
    requires from <= |lines|
    ensures at == from + BodyLength(lines[from..], delimiter) <= |lines|
  {
    at := from;
    while at < |lines|
      invariant from <= at <= |lines|
      invariant at + BodyLength(lines[at..], delimiter) == from + BodyLength(lines[from..], delimiter)
    {
      Seqs.DropHead(lines, at);
      at := at + 1;
      if Ends(lines[at - 1], delimiter) {
        return;
      }
    }
  }

  /** The script the scan reads. */
  function Stripped(text: string): string {
    ShellLines(Lines(text))
  }

  // ------------------------------------------------------------------ a body is data

  /** A body and the line that ends it. */
  predicate IsBody(body: seq<string>, delimiter: Delimiter) {
    body != [] && Ends(body[|body| - 1], delimiter) && forall k :: 0 <= k < |body| - 1 ==> !Ends(body[k], delimiter)
  }

  predicate AreBodies(bodies: seq<seq<string>>, delimiters: seq<Delimiter>) {
    |bodies| == |delimiters| && forall k :: 0 <= k < |bodies| ==> IsBody(bodies[k], delimiters[k])
  }

  function Concat(bodies: seq<seq<string>>): seq<string> {
    if bodies == [] then [] else bodies[0] + Concat(bodies[1..])
  }

  lemma {:induction false} OneBody(body: seq<string>, delimiter: Delimiter, rest: seq<string>)
    requires IsBody(body, delimiter)
    ensures BodyLength(body + rest, delimiter) == |body|
  {
    hide Ends;
    Seqs.ConcatHead(body, rest);
    if |body| > 1 {
      assert !Ends(body[0], delimiter);
      OneBody(body[1..], delimiter, rest);
    }
  }

  lemma {:induction false} AllBodies(bodies: seq<seq<string>>, delimiters: seq<Delimiter>, rest: seq<string>)
    requires AreBodies(bodies, delimiters)
    ensures BodiesLength(Concat(bodies) + rest, delimiters) == |Concat(bodies)|
  {
    hide IsBody;
    if bodies != [] {
      var more := Concat(bodies[1..]);
      Seqs.Assoc(bodies[0], more, rest);
      OneBody(bodies[0], delimiters[0], more + rest);
      Seqs.DropPrefix(bodies[0], more + rest);
      AllBodies(bodies[1..], delimiters[1..], rest);
    }
  }

  /** Whatever the bodies a line opens hold, they are gone, in the order the line opened them, and the shell on
      both sides of them is read as if they had never been there. */
  lemma BodiesAreData(line: string, bodies: seq<seq<string>>, rest: seq<string>)
    requires AreBodies(bodies, DelimitersFrom(line, 0))
    ensures ShellLines([line] + (Concat(bodies) + rest)) == line + ['\n'] + ShellLines(rest)
  {
    Seqs.HeadTail(line, Concat(bodies) + rest);
    AllBodies(bodies, DelimitersFrom(line, 0), rest);
    Seqs.DropPrefix(Concat(bodies), rest);
  }

  // ------------------------------------------------------------------ shell without here-documents

  predicate NoHeredoc(text: string) {
    forall k :: 0 <= k < |text| - 1 ==> !(text[k] == '<' && text[k + 1] == '<')
  }

  lemma {:induction false} NoDelimiters(line: string, i: nat)
    requires NoHeredoc(line)
    ensures DelimitersFrom(line, i) == []
    decreases |line| - i
  {
    if i + 1 < |line| {
      NoDelimiters(line, i + 1);
    }
  }

  /** A script with no here-document is read as it stands, its last line ended. */
  lemma {:induction false} PlainScriptStands(text: string)
    requires NoHeredoc(text) && '\r' !in text
    ensures Stripped(text) == if text == [] || text[|text| - 1] == '\n' then text else text + ['\n']
    decreases |text|
  {
    hide ShellLines, DelimitersFrom, WithoutReturn, Newline;
    if text != [] {
      var k := Newline(text);
      NoDelimiters(text[..k], 0);
      NoReturn(text[..k]);
      if k == |text| {
        assert text[..k] == text;
        LastLine(text);
      } else {
        PlainScriptStands(text[k + 1..]);
        FirstLine(text[..k], Lines(text[k + 1..]));
        CutAtNewline(text, k);
      }
    } else {
      NoLines();
    }
  }

  lemma NoReturn(line: string)
    requires '\r' !in line
    ensures WithoutReturn(line) == line
  {
  }

  lemma CutAtNewline(text: string, k: nat)
    requires k < |text| && text[k] == '\n'
    ensures text == text[..k] + ['\n'] + text[k + 1..]
    ensures text + ['\n'] == text[..k] + ['\n'] + (text[k + 1..] + ['\n'])
    ensures text[k + 1..] == [] || text[k + 1..][|text| - k - 2] == text[|text| - 1]
  {
  }

  lemma LastLine(text: string)
    requires DelimitersFrom(text, 0) == []
    ensures ShellLines([text]) == text + ['\n']
  {
    assert [text][1..] == [];
    assert text + ['\n'] + [] == text + ['\n'];
  }

  lemma FirstLine(line: string, lines: seq<string>)
    requires DelimitersFrom(line, 0) == []
    ensures ShellLines([line] + lines) == line + ['\n'] + ShellLines(lines)
  {
    Seqs.HeadTail(line, lines);
    assert lines[0..] == lines;
  }
}
