/** Which spellings open a here-document: a line printed from its parts gives back the words it opens bodies for. */
module HeredocSpellings {
  import opened Chars
  import opened Heredoc

  datatype Mark = NoMark | Backslash | Apostrophes | Quotes

  /** A stretch of a line: text with no `<`, a here-string's `<<<`, a shift, or the start of a here-document. */
  datatype Piece =
    | Gap(text: string)
    | HereString
    | Shift(blanks: nat, digit: char)
    | Opens(dash: bool, blanks: nat, mark: Mark, word: string)

  function Blanks(n: nat): string {
    if n == 0 then "" else [' '] + Blanks(n - 1)
  }

  function OpeningMark(mark: Mark): string {
    match mark case NoMark => "" case Backslash => "\\" case Apostrophes => "'" case Quotes => "\""
  }

  function ClosingMark(mark: Mark): string {
    match mark case NoMark => "" case Backslash => "" case Apostrophes => "'" case Quotes => "\""
  }

  function Dash(dash: bool): string {
    if dash then "-" else ""
  }

  function PrintPiece(piece: Piece): string {
    match piece
    case Gap(text) => text
    case HereString => "<<<"
    case Shift(blanks, digit) => "<<" + (Blanks(blanks) + [digit])
    case Opens(dash, blanks, mark, word) =>
      "<<" + (Dash(dash) + (Blanks(blanks) + (OpeningMark(mark) + (word + ClosingMark(mark)))))
  }

  function PrintLine(pieces: seq<Piece>): string {
    if pieces == [] then "" else PrintPiece(pieces[0]) + PrintLine(pieces[1..])
  }

  predicate IsDelimiter(word: string) {
    word != "" && (IsAlphabetic(word[0]) || word[0] == '_') && forall k :: 0 <= k < |word| ==> IsWordChar(word[k])
  }

  /** An unquoted word ends where the next piece begins. */
  predicate LineOk(pieces: seq<Piece>) {
    if pieces == [] then true
    else
      LineOk(pieces[1..])
      && PieceOk(pieces[0])
      && (pieces[0].Opens? && ClosingMark(pieces[0].mark) == "" ==> !GoesOn(pieces[1..]))
  }

  predicate PieceOk(piece: Piece) {
    match piece
    case Gap(text) => text != "" && '<' !in text
    case HereString => true
    case Shift(_, digit) => '0' <= digit <= '9'
    case Opens(_, _, _, word) => IsDelimiter(word)
  }

  predicate GoesOn(pieces: seq<Piece>) {
    pieces != [] && pieces[0].Gap? && pieces[0].text != "" && IsWordChar(pieces[0].text[0])
  }

  /** The closing words the pieces open bodies for, and whether tabs before them do not count. */
  function Opened(pieces: seq<Piece>): seq<Delimiter> {
    if pieces == [] then []
    else Own(pieces[0]) + Opened(pieces[1..])
  }

  function Own(piece: Piece): seq<Delimiter> {
    match piece
    case Opens(dash, _, _, word) => [(word, dash)]
    case _ => []
  }

  // ------------------------------------------------------------------ reading a line

  lemma Step(line: string, i: nat)
    requires i < |line| && line[i] != '<'
    ensures DelimitersFrom(line, i) == DelimitersFrom(line, i + 1)
  {
    hide WordStart, PastWord, IsAlphabetic;
  }

  lemma {:induction false} PastText(line: string, i: nat, j: nat)
    requires i <= j <= |line| && forall k :: i <= k < j ==> line[k] != '<'
    ensures DelimitersFrom(line, i) == DelimitersFrom(line, j)
    decreases j - i
  {
    if i < j {
      Step(line, i);
      PastText(line, i + 1, j);
    }
  }

  lemma {:induction false} BlanksAre(n: nat)
    ensures |Blanks(n)| == n && forall k :: 0 <= k < n ==> Blanks(n)[k] == ' '
  {
    if n > 0 {
      BlanksAre(n - 1);
    }
  }

  lemma {:induction false} SpacesEnd(line: string, i: nat, j: nat)
    requires i <= j < |line| && (forall k :: i <= k < j ==> line[k] == ' ') && line[j] != ' '
    ensures PastSpaces(line, i) == j
    decreases j - i
  {
    if i < j {
      SpacesEnd(line, i + 1, j);
    }
  }

  lemma {:induction false} WordEnds(line: string, i: nat, j: nat)
    requires i <= j <= |line| && (forall k :: i <= k < j ==> IsWordChar(line[k])) && (j < |line| ==> !IsWordChar(line[j]))
    ensures PastWord(line, i) == j
    decreases j - i
  {
    if i < j {
      WordEnds(line, i + 1, j);
    }
  }

  /** Where each part of an opening stands in the line. */
  predicate Stands(line: string, at: nat, text: string) {
    at + |text| <= |line| && forall k :: 0 <= k < |text| ==> line[at + k] == text[k]
  }

  lemma StandsParts(line: string, at: nat, a: string, b: string)
    requires Stands(line, at, a + b)
    ensures Stands(line, at, a) && Stands(line, at + |a|, b)
  {
    forall k | 0 <= k < |a|
      ensures line[at + k] == a[k]
    {
      assert line[at + k] == (a + b)[k];
    }
    forall k | 0 <= k < |b|
      ensures line[at + |a| + k] == b[k]
    {
      assert line[at + (|a| + k)] == (a + b)[|a| + k];
    }
  }

  lemma StandsAt(line: string, at: nat, text: string, k: nat)
    requires Stands(line, at, text) && k < |text|
    ensures at + k < |line| && line[at + k] == text[k]
  {
  }

  lemma StandsSlice(line: string, at: nat, text: string)
    requires Stands(line, at, text)
    ensures line[at..at + |text|] == text
  {
  }

  /** The parts of an opening are read one after the other. */
  lemma StartFrom(line: string, at: nat, dash: bool, first: nat, mark: Mark, start: nat)
    requires at + |Dash(dash)| <= first && start == first + |OpeningMark(mark)| < |line|
    requires dash ==> line[at] == '-'
    requires forall k :: at + |Dash(dash)| <= k < first ==> line[k] == ' '
    requires mark != NoMark ==> line[first] == OpeningMark(mark)[0]
    requires Unmarked(line[start])
    ensures WordStart(line, at) == start
    ensures CharAt(line, at, '-') == dash && !CharAt(line, at, '<')
  {
    assert line[first] != ' ' && line[first] != '-' && line[first] != '<';
    SpacesEnd(line, at + |Dash(dash)|, first);
    hide PastSpaces;
  }

  predicate Unmarked(c: char) {
    c != ' ' && c != '\\' && c != '\'' && c != '"' && c != '-' && c != '<'
  }

  lemma FirstIs(word: string)
    requires IsDelimiter(word)
    ensures word != "" && (IsAlphabetic(word[0]) || word[0] == '_') && Unmarked(word[0])
  {
  }

  lemma StartOf(line: string, at: nat, dash: bool, blanks: nat, mark: Mark, word: string)
    requires word != "" && Unmarked(word[0])
    requires Stands(line, at, Dash(dash)) && Stands(line, at + |Dash(dash)|, Blanks(blanks))
    requires Stands(line, at + |Dash(dash)| + blanks, OpeningMark(mark))
    requires Stands(line, at + |Dash(dash)| + blanks + |OpeningMark(mark)|, word)
    ensures WordStart(line, at) == at + |Dash(dash)| + blanks + |OpeningMark(mark)|
    ensures CharAt(line, at, '-') == dash && !CharAt(line, at, '<')
  {
    hide Stands, Blanks, WordStart, Unmarked;
    BlanksAre(blanks);
    var first := at + |Dash(dash)| + blanks;
    var start := first + |OpeningMark(mark)|;
    StandsAt(line, start, word, 0);
    StandsWithin(line, start, word);
    if mark != NoMark {
      StandsAt(line, first, OpeningMark(mark), 0);
    }
    if dash {
      StandsAt(line, at, Dash(dash), 0);
    }
    forall k | at + |Dash(dash)| <= k < first
      ensures line[k] == ' '
    {
      StandsAt(line, at + |Dash(dash)|, Blanks(blanks), k - at - |Dash(dash)|);
    }
    StartFrom(line, at, dash, first, mark, start);
  }

  function StartAt(piece: Piece, at: nat): nat
    requires piece.Opens?
  {
    at + 2 + |Dash(piece.dash)| + piece.blanks + |OpeningMark(piece.mark)|
  }

  lemma OpensParts(line: string, at: nat, piece: Piece)
    requires piece.Opens? && Stands(line, at, PrintPiece(piece))
    ensures var (dash, blanks, mark) := (Dash(piece.dash), Blanks(piece.blanks), OpeningMark(piece.mark));
            && Stands(line, at, "<<") && Stands(line, at + 2, dash) && Stands(line, at + 2 + |dash|, blanks)
            && Stands(line, at + 2 + |dash| + piece.blanks, mark) && Stands(line, StartAt(piece, at), piece.word)
            && Stands(line, StartAt(piece, at) + |piece.word|, ClosingMark(piece.mark))
    ensures at + |PrintPiece(piece)| == StartAt(piece, at) + |piece.word| + |ClosingMark(piece.mark)|
  {
    var (dash, blanks, word) := (Dash(piece.dash), Blanks(piece.blanks), piece.word);
    var (open, close) := (OpeningMark(piece.mark), ClosingMark(piece.mark));
    BlanksAre(piece.blanks);
    assert PrintPiece(piece) == "<<" + (dash + (blanks + (open + (word + close))));
    hide *;
    StandsParts(line, at, "<<", dash + (blanks + (open + (word + close))));
    StandsParts(line, at + 2, dash, blanks + (open + (word + close)));
    StandsParts(line, at + 2 + |dash|, blanks, open + (word + close));
    StandsParts(line, at + 2 + |dash| + |blanks|, open, word + close);
    StandsParts(line, at + 2 + |dash| + |blanks| + |open|, word, close);
    StartIs(piece, at);
  }

  lemma StartIs(piece: Piece, at: nat)
    requires piece.Opens?
    ensures StartAt(piece, at) == at + 2 + |Dash(piece.dash)| + piece.blanks + |OpeningMark(piece.mark)|
  {
  }

  /** An opening, and the reading from the end of its word. */
  lemma OpensReads(line: string, at: nat, piece: Piece)
    requires piece.Opens? && IsDelimiter(piece.word) && Stands(line, at, PrintPiece(piece))
    requires var end := at + |PrintPiece(piece)|;
             ClosingMark(piece.mark) == "" && end < |line| ==> !IsWordChar(line[end])
    ensures DelimitersFrom(line, at)
         == [(piece.word, piece.dash)] + DelimitersFrom(line, at + |PrintPiece(piece)|)
  {
    hide *;
    CloseIs(piece.mark);
    var end := OpensFacts(line, at, piece);
    if ClosingMark(piece.mark) != "" {
      Step(line, end);
    }
  }

  /** Where an opening's word ends, and what is read up to there. */
  lemma OpensFacts(line: string, at: nat, piece: Piece) returns (end: nat)
    requires piece.Opens? && IsDelimiter(piece.word) && Stands(line, at, PrintPiece(piece))
    requires var end := at + |PrintPiece(piece)|;
             ClosingMark(piece.mark) == "" && end < |line| ==> !IsWordChar(line[end])
    ensures end + |ClosingMark(piece.mark)| == at + |PrintPiece(piece)| <= |line|
    ensures DelimitersFrom(line, at) == [(piece.word, piece.dash)] + DelimitersFrom(line, end)
    ensures ClosingMark(piece.mark) != "" ==> end < |line| && line[end] != '<'
  {
    hide *;
    var start := StartAt(piece, at);
    end := start + |piece.word|;
    OpensParts(line, at, piece);
    StartsThere(line, at, piece);
    CloseIs(piece.mark);
    WordStands(line, start, piece.word, ClosingMark(piece.mark));
    CloseStands(line, end, ClosingMark(piece.mark));
    OpensOne(line, at, start, end, piece.dash);
  }

  lemma StartsThere(line: string, at: nat, piece: Piece)
    requires piece.Opens? && IsDelimiter(piece.word) && Stands(line, at, PrintPiece(piece))
    ensures var start := StartAt(piece, at);
            && at + 2 <= start < start + |piece.word| <= |line| && line[at] == '<' && line[at + 1] == '<'
            && WordStart(line, at + 2) == start && CharAt(line, at + 2, '-') == piece.dash && !CharAt(line, at + 2, '<')
            && (IsAlphabetic(line[start]) || line[start] == '_')
  {
    hide *;
    FirstIs(piece.word);
    OpensParts(line, at, piece);
    StartIs(piece, at);
    TwoAngles(line, at);
    StartOf(line, at + 2, piece.dash, piece.blanks, piece.mark, piece.word);
    StandsWithin(line, StartAt(piece, at), piece.word);
    StandsAt(line, StartAt(piece, at), piece.word, 0);
  }

  lemma CloseStands(line: string, at: nat, close: string)
    requires Stands(line, at, close) && (close == "" || close == "'" || close == "\"")
    ensures at + |close| <= |line| && (close != "" ==> at < |line| && line[at] != '<')
  {
    if close != "" {
      StandsAt(line, at, close, 0);
    }
  }

  lemma TwoAngles(line: string, at: nat)
    requires Stands(line, at, "<<")
    ensures at + 2 <= |line| && line[at] == '<' && line[at + 1] == '<'
  {
    StandsAt(line, at, "<<", 0);
    StandsAt(line, at, "<<", 1);
  }

  lemma CloseIs(mark: Mark)
    ensures ClosingMark(mark) == "" || ClosingMark(mark) == "'" || ClosingMark(mark) == "\""
  {
  }

  lemma StandsWithin(line: string, at: nat, text: string)
    requires Stands(line, at, text)
    ensures at + |text| <= |line|
  {
  }

  lemma OpensOne(line: string, at: nat, start: nat, end: nat, dash: bool)
    requires at + 2 <= start < end <= |line| && line[at] == '<' && line[at + 1] == '<' && !CharAt(line, at + 2, '<')
    requires WordStart(line, at + 2) == start && PastWord(line, start) == end && CharAt(line, at + 2, '-') == dash
    requires IsAlphabetic(line[start]) || line[start] == '_'
    ensures DelimitersFrom(line, at) == [(line[start..end], dash)] + DelimitersFrom(line, end)
  {
    hide WordStart, PastWord, IsAlphabetic;
  }

  lemma WordStands(line: string, start: nat, word: string, close: string)
    requires IsDelimiter(word) && Stands(line, start, word) && Stands(line, start + |word|, close)
    requires close == "" || close == "'" || close == "\""
    requires var end := start + |word|; close == "" && end < |line| ==> !IsWordChar(line[end])
    ensures PastWord(line, start) == start + |word| && line[start..start + |word|] == word
  {
    forall k | start <= k < start + |word|
      ensures IsWordChar(line[k])
    {
      StandsAt(line, start, word, k - start);
    }
    if close != "" {
      StandsAt(line, start + |word|, close, 0);
    }
    StandsSlice(line, start, word);
    WordEnds(line, start, start + |word|);
  }

  lemma ShiftReads(line: string, at: nat, blanks: nat, digit: char)
    requires '0' <= digit <= '9' && Stands(line, at, "<<" + (Blanks(blanks) + [digit]))
    ensures DelimitersFrom(line, at) == DelimitersFrom(line, at + 2 + blanks + 1)
  {
    BlanksAre(blanks);
    StandsParts(line, at, "<<", Blanks(blanks) + [digit]);
    StandsParts(line, at + 2, Blanks(blanks), [digit]);
    StandsAt(line, at, "<<", 0);
    StandsAt(line, at, "<<", 1);
    StandsAt(line, at + 2 + blanks, [digit], 0);
    forall k | at + 2 <= k < at + 2 + blanks
      ensures line[k] == ' '
    {
      StandsAt(line, at + 2, Blanks(blanks), k - at - 2);
    }
    hide Blanks, Stands;
    SpacesEnd(line, at + 2, at + 2 + blanks);
    PastText(line, at + 2, at + 2 + blanks + 1);
    assert WordStart(line, at + 2) == at + 2 + blanks;
    hide WordStart, PastWord;
  }

  lemma HereStringReads(line: string, at: nat)
    requires Stands(line, at, "<<<")
    ensures DelimitersFrom(line, at) == DelimitersFrom(line, at + 3)
  {
    StandsAt(line, at, "<<<", 0);
    StandsAt(line, at, "<<<", 1);
    StandsAt(line, at, "<<<", 2);
    hide WordStart, PastWord, Stands;
  }

  lemma LineEnd(line: string, at: nat)
    requires at == |line|
    ensures DelimitersFrom(line, at) == []
  {
  }

  lemma NoPieces(pieces: seq<Piece>)
    requires pieces == []
    ensures PrintLine(pieces) == "" && Opened(pieces) == []
  {
  }

  /** What follows a piece starts with the next one. */
  lemma NextStarts(pieces: seq<Piece>)
    requires LineOk(pieces) && PrintLine(pieces) != "" && !GoesOn(pieces)
    ensures !IsWordChar(PrintLine(pieces)[0])
  {
    var first := PrintPiece(pieces[0]);
    assert first != "";
    assert PrintLine(pieces)[0] == first[0];
    if pieces[0].Gap? {
      hide IsWordChar;
    } else {
      assert first[0] == '<';
    }
  }

  lemma {:induction false} PiecesRead(line: string, at: nat, pieces: seq<Piece>)
    requires LineOk(pieces) && Stands(line, at, PrintLine(pieces)) && at + |PrintLine(pieces)| == |line|
    ensures DelimitersFrom(line, at) == Opened(pieces)
    decreases |pieces|
  {
    hide *;
    if pieces == [] {
      NoPieces(pieces);
      LineEnd(line, at);
    } else {
      var (piece, rest) := (pieces[0], pieces[1..]);
      LineParts(pieces);
      StandsParts(line, at, PrintPiece(piece), PrintLine(rest));
      var end := at + |PrintPiece(piece)|;
      PiecesRead(line, end, rest);
      if piece.Opens? && ClosingMark(piece.mark) == "" && PrintLine(rest) != "" {
        NextStarts(rest);
        StandsAt(line, end, PrintLine(rest), 0);
      }
      PieceReads(line, at, piece);
    }
  }

  lemma LineParts(pieces: seq<Piece>)
    requires pieces != [] && LineOk(pieces)
    ensures PrintLine(pieces) == PrintPiece(pieces[0]) + PrintLine(pieces[1..])
    ensures Opened(pieces) == Own(pieces[0]) + Opened(pieces[1..])
    ensures LineOk(pieces[1..]) && PieceOk(pieces[0])
    ensures pieces[0].Opens? && ClosingMark(pieces[0].mark) == "" ==> !GoesOn(pieces[1..])
  {
    hide PieceOk, PrintPiece, Own, GoesOn;
  }

  lemma PieceReads(line: string, at: nat, piece: Piece)
    requires PieceOk(piece) && Stands(line, at, PrintPiece(piece))
    requires var end := at + |PrintPiece(piece)|;
             piece.Opens? && ClosingMark(piece.mark) == "" && end < |line| ==> !IsWordChar(line[end])
    ensures DelimitersFrom(line, at) == Own(piece) + DelimitersFrom(line, at + |PrintPiece(piece)|)
  {
    hide DelimitersFrom, IsDelimiter, Stands, Blanks, IsWordChar;
    match piece
    case Gap(text) => GapReads(line, at, text);
    case HereString => HereStringReads(line, at);
    case Shift(blanks, digit) =>
      BlanksAre(blanks);
      ShiftReads(line, at, blanks, digit);
    case Opens(_, _, _, _) =>
      hide PrintPiece, ClosingMark;
      OpensReads(line, at, piece);
  }

  lemma GapReads(line: string, at: nat, text: string)
    requires '<' !in text && Stands(line, at, text)
    ensures DelimitersFrom(line, at) == DelimitersFrom(line, at + |text|)
  {
    forall k | at <= k < at + |text|
      ensures line[k] != '<'
    {
      StandsAt(line, at, text, k - at);
      assert text[k - at] in text;
    }
    PastText(line, at, at + |text|);
  }

  /** `<<W`, `<<-W`, `<< W`, `<<\W`, `<<'W'` and `<<"W"` open a body for W, wherever they stand in a line and
      however many there are; `<<<` and a shift open none. */
  lemma SpellingsRead(pieces: seq<Piece>)
    requires LineOk(pieces)
    ensures DelimitersFrom(PrintLine(pieces), 0) == Opened(pieces)
  {
    PiecesRead(PrintLine(pieces), 0, pieces);
  }
}
