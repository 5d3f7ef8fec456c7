/** Where a here-document's body ends, from the text of the script. */
module HeredocBodies {
  import opened Chars
  import opened Heredoc
  import opened HeredocSpellings
  import Seqs

  // ------------------------------------------------------------------ text by lines

  /** A line of the text, and whether it ends in a return and a newline or in a newline alone. */
  datatype Ended = Ended(line: string, return_: bool)

  predicate IsLine(e: Ended) {
    '\n' !in e.line && (e.return_ || e.line == "" || e.line[|e.line| - 1] != '\r')
  }

  function LineText(e: Ended): string {
    e.line + (if e.return_ then "\r\n" else "\n")
  }

  function TextOf(lines: seq<Ended>): string {
    if lines == [] then "" else LineText(lines[0]) + TextOf(lines[1..])
  }

  function LinesOf(lines: seq<Ended>): (r: seq<string>)
    ensures |r| == |lines|
  {
    seq(|lines|, k requires 0 <= k < |lines| => lines[k].line)
  }

  lemma {:induction false} NewlineAt(line: string, rest: string)
    requires '\n' !in line
    ensures Newline(line + (['\n'] + rest)) == |line|
  {
    if line != [] {
      Seqs.ConcatHead(line, ['\n'] + rest);
      NewlineAt(line[1..], rest);
    }
  }

  lemma OneLine(e: Ended, rest: string)
    requires IsLine(e)
    ensures Lines(LineText(e) + rest) == [e.line] + Lines(rest)
  {
    var whole := if e.return_ then e.line + "\r" else e.line;
    assert LineText(e) + rest == whole + (['\n'] + rest);
    NewlineAt(whole, rest);
    var text := whole + (['\n'] + rest);
    assert text[..|whole|] == whole && text[|whole| + 1..] == rest;
    assert WithoutReturn(whole) == e.line;
    hide Newline, WithoutReturn;
  }

  lemma {:induction false} LinesRead(lines: seq<Ended>, rest: string)
    requires forall k :: 0 <= k < |lines| ==> IsLine(lines[k])
    ensures Lines(TextOf(lines) + rest) == LinesOf(lines) + Lines(rest)
  {
    hide Lines, LineText, IsLine;
    if lines == [] {
      assert "" + rest == rest && LinesOf(lines) + Lines(rest) == Lines(rest);
    } else {
      Seqs.Assoc(LineText(lines[0]), TextOf(lines[1..]), rest);
      OneLine(lines[0], TextOf(lines[1..]) + rest);
      LinesRead(lines[1..], rest);
      assert LinesOf(lines) == [lines[0].line] + LinesOf(lines[1..]);
      Seqs.Assoc([lines[0].line], LinesOf(lines[1..]), Lines(rest));
    }
  }

  /** The last line may lack its newline. */
  lemma {:induction false} LastLineEnds(text: string)
    requires text != "" && text[|text| - 1] != '\n' && text[|text| - 1] != '\r'
    ensures Lines(text + ['\n']) == Lines(text)
    decreases |text|
  {
    hide WithoutReturn, Newline;
    var k := Newline(text);
    if k == |text| {
      assert text[..k] == text;
      OneLine(Ended(text, false), "");
      assert text + ['\n'] + "" == text + ['\n'];
    } else {
      var (line, rest) := (text[..k], text[k + 1..]);
      assert rest[|rest| - 1] == text[|text| - 1];
      assert text == line + (['\n'] + rest);
      assert text + ['\n'] == line + (['\n'] + (rest + ['\n']));
      NewlineAt(line, rest + ['\n']);
      LastLineEnds(rest);
      assert (text + ['\n'])[..k] == line && (text + ['\n'])[k + 1..] == rest + ['\n'];
    }
  }

  // ------------------------------------------------------------------ the line that ends a body

  function Tabs(n: nat): string {
    if n == 0 then "" else ['\t'] + Tabs(n - 1)
  }

  /** After a dash the closing word may stand behind any number of tabs; otherwise it is the whole line. */
  ghost predicate Closes(line: string, word: string, dash: bool) {
    if dash then exists n: nat :: line == Tabs(n) + word else line == word
  }

  lemma {:induction false} TabsGo(n: nat, word: string)
    requires word != "" && word[0] != '\t'
    ensures WithoutTabs(Tabs(n) + word) == word
  {
    if n == 0 {
      assert "" + word == word;
    } else {
      assert Tabs(n) + word == ['\t'] + (Tabs(n - 1) + word);
      Seqs.HeadTail('\t', Tabs(n - 1) + word);
      TabsGo(n - 1, word);
    }
  }

  lemma {:induction false} TabsWere(line: string) returns (n: nat)
    ensures line == Tabs(n) + WithoutTabs(line)
  {
    if line != "" && line[0] == '\t' {
      n := TabsWere(line[1..]);
      assert line == ['\t'] + line[1..];
      Seqs.Assoc(['\t'], Tabs(n), WithoutTabs(line));
      n := n + 1;
    } else {
      n := 0;
      assert "" + line == line;
    }
  }

  lemma ClosesIsEnds(line: string, word: string, dash: bool)
    requires IsDelimiter(word)
    ensures Closes(line, word, dash) <==> Ends(line, (word, dash))
  {
    assert word[0] != '\t';
    if dash {
      if Closes(line, word, dash) {
        var n: nat :| line == Tabs(n) + word;
        TabsGo(n, word);
      }
      if Ends(line, (word, dash)) {
        var n := TabsWere(line);
      }
    }
  }

  // ------------------------------------------------------------------ bodies in a script

  /** The lines of a body, and the tabs in front of the word that closes it. */
  datatype Body = Body(content: seq<Ended>, tabs: nat, return_: bool)

  function Last(body: Body, word: string): Ended {
    Ended(Tabs(body.tabs) + word, body.return_)
  }

  function BodyLines(body: Body, word: string): seq<Ended> {
    body.content + [Last(body, word)]
  }

  function AllBodyLines(bodies: seq<Body>, words: seq<Delimiter>): seq<Ended>
    requires |bodies| == |words|
  {
    if bodies == [] then [] else BodyLines(bodies[0], words[0].0) + AllBodyLines(bodies[1..], words[1..])
  }

  /** No line of the content closes the body, and tabs stand in front of the word that does only after a dash. */
  ghost predicate BodyOk(body: Body, word: string, dash: bool) {
    && (!dash ==> body.tabs == 0)
    && forall k :: 0 <= k < |body.content| ==> IsLine(body.content[k]) && !Closes(body.content[k].line, word, dash)
  }

  ghost predicate BodiesOk(bodies: seq<Body>, words: seq<Delimiter>) {
    && |bodies| == |words|
    && forall k :: 0 <= k < |bodies| ==> BodyOk(bodies[k], words[k].0, words[k].1)
  }

  predicate AllWords(words: seq<Delimiter>) {
    forall k :: 0 <= k < |words| ==> IsDelimiter(words[k].0)
  }

  lemma {:induction false} OpenedWords(pieces: seq<Piece>)
    requires LineOk(pieces)
    ensures AllWords(Opened(pieces))
  {
    if pieces != [] {
      OpenedWords(pieces[1..]);
      hide IsDelimiter;
      var own := Own(pieces[0]);
      var rest: seq<Delimiter> := Opened(pieces[1..]);
      forall k | 0 <= k < |own + rest|
        ensures IsDelimiter((own + rest)[k].0)
      {
        if k >= |own| {
          assert (own + rest)[k] == rest[k - |own|];
        }
      }
    }
  }

  lemma {:induction false} TabsLine(n: nat, word: string, return_: bool)
    requires IsDelimiter(word)
    ensures IsLine(Ended(Tabs(n) + word, return_)) && '\n' !in Tabs(n)
  {
    if n > 0 {
      TabsLine(n - 1, word, return_);
    }
    var line := Tabs(n) + word;
    assert line[|line| - 1] == word[|word| - 1];
    assert IsWordChar(word[|word| - 1]);
    assert '\n' !in word;
  }

  /** A body's own lines are one body, as the reader of bodies counts them. */
  lemma BodyCounts(body: Body, word: string, dash: bool)
    requires IsDelimiter(word) && BodyOk(body, word, dash)
    ensures IsBody(LinesOf(BodyLines(body, word)), (word, dash))
    ensures forall k :: 0 <= k < |BodyLines(body, word)| ==> IsLine(BodyLines(body, word)[k])
  {
    hide Ends, IsLine;
    var lines := LinesOf(BodyLines(body, word));
    TabsLine(body.tabs, word, body.return_);
    ClosesIsEnds(lines[|lines| - 1], word, dash);
    assert "" + word == word;
    assert Tabs(0) == "";
    assert dash ==> Closes(Tabs(body.tabs) + word, word, dash);
    forall k | 0 <= k < |lines| - 1
      ensures !Ends(lines[k], (word, dash))
    {
      ClosesIsEnds(lines[k], word, dash);
    }
  }

  function BodyStrings(bodies: seq<Body>, words: seq<Delimiter>): (r: seq<seq<string>>)
    requires |bodies| == |words|
    ensures |r| == |bodies|
  {
    seq(|bodies|, k requires 0 <= k < |bodies| => LinesOf(BodyLines(bodies[k], words[k].0)))
  }

  lemma {:induction false} BodiesCount(bodies: seq<Body>, words: seq<Delimiter>)
    requires BodiesOk(bodies, words) && AllWords(words)
    ensures AreBodies(BodyStrings(bodies, words), words)
    ensures Concat(BodyStrings(bodies, words)) == LinesOf(AllBodyLines(bodies, words))
    ensures forall k :: 0 <= k < |AllBodyLines(bodies, words)| ==> IsLine(AllBodyLines(bodies, words)[k])
  {
    hide BodyOk, IsBody, IsLine, IsDelimiter, BodyLines;
    var strings := BodyStrings(bodies, words);
    if bodies != [] {
      BodyCounts(bodies[0], words[0].0, words[0].1);
      BodiesCount(bodies[1..], words[1..]);
      assert strings[1..] == BodyStrings(bodies[1..], words[1..]);
      forall k | 0 <= k < |bodies|
        ensures IsBody(strings[k], words[k])
      {
        if k > 0 {
          assert strings[k] == strings[1..][k - 1] && words[k] == words[1..][k - 1];
        }
      }
      var (first, more) := (BodyLines(bodies[0], words[0].0), AllBodyLines(bodies[1..], words[1..]));
      assert LinesOf(first + more) == LinesOf(first) + LinesOf(more);
    }
  }

  /** A script's line and the bodies it opens, in the order it opens them. Each body goes up to the first line that
      is its word, behind any tabs after a dash and behind none otherwise; it is gone, and the rest is read on. */
  lemma BodiesAreGone(pieces: seq<Piece>, return_: bool, bodies: seq<Body>, rest: string)
    requires LineOk(pieces) && IsLine(Ended(PrintLine(pieces), return_)) && BodiesOk(bodies, Opened(pieces))
    ensures var line := PrintLine(pieces);
            Stripped(LineText(Ended(line, return_)) + (TextOf(AllBodyLines(bodies, Opened(pieces))) + rest))
            == line + ['\n'] + Stripped(rest)
  {
    var (line, words) := (PrintLine(pieces), Opened(pieces));
    var inner := AllBodyLines(bodies, words);
    OpenedWords(pieces);
    SpellingsRead(pieces);
    BodiesCount(bodies, words);
    hide PrintLine, Opened, LineOk, BodiesOk, AllBodyLines, BodyStrings, ShellLines, Lines, AreBodies, Concat, IsLine, LineText, TextOf, LinesOf;
    OneLine(Ended(line, return_), TextOf(inner) + rest);
    LinesRead(inner, rest);
    BodiesAreData(line, BodyStrings(bodies, words), Lines(rest));
  }

  /** A body whose word never comes takes everything to the end of the script. */
  lemma UnclosedTakesAll(pieces: seq<Piece>, return_: bool, content: seq<Ended>)
    requires LineOk(pieces) && IsLine(Ended(PrintLine(pieces), return_)) && |Opened(pieces)| == 1
    requires forall k :: 0 <= k < |content| ==>
               IsLine(content[k]) && !Closes(content[k].line, Opened(pieces)[0].0, Opened(pieces)[0].1)
    ensures Stripped(LineText(Ended(PrintLine(pieces), return_)) + TextOf(content)) == PrintLine(pieces) + ['\n']
  {
    var (line, words) := (PrintLine(pieces), Opened(pieces));
    OpenedWords(pieces);
    SpellingsRead(pieces);
    forall k | 0 <= k < |content|
      ensures !Ends(LinesOf(content)[k], words[0])
    {
      ClosesIsEnds(content[k].line, words[0].0, words[0].1);
    }
    hide PrintLine, Opened, LineOk, ShellLines, IsLine, LineText, Closes, Ends;
    OneLine(Ended(line, return_), TextOf(content));
    assert TextOf(content) + "" == TextOf(content);
    LinesRead(content, "");
    assert Lines("") == [];
    hide Lines, TextOf;
    var lines := LinesOf(content);
    assert lines + [] == lines;
    NeverEnds(lines, words[0]);
    OneTakesAll(line, lines, words);
  }

  lemma OneTakesAll(line: string, lines: seq<string>, words: seq<Delimiter>)
    requires DelimitersFrom(line, 0) == words && |words| == 1 && BodyLength(lines, words[0]) == |lines|
    ensures ShellLines([line] + lines) == line + ['\n']
  {
    Seqs.HeadTail(line, lines);
    assert words[1..] == [] && lines[|lines|..] == [];
    assert BodiesLength(lines, words) == |lines|;
    hide BodyLength, BodiesLength;
    assert ShellLines([]) == [];
    assert line + ['\n'] + [] == line + ['\n'];
  }

  lemma {:induction false} NeverEnds(lines: seq<string>, delimiter: Delimiter)
    requires forall k :: 0 <= k < |lines| ==> !Ends(lines[k], delimiter)
    ensures BodyLength(lines, delimiter) == |lines|
  {
    hide Ends;
    if lines != [] {
      NeverEnds(lines[1..], delimiter);
    }
  }
}
