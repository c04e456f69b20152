/** What `parseInput` makes of the list shapes its input box invites: one word per line,
    numbered and bulleted lines, comma-separated words, and mixtures of these. Each
    statement holds for any words of the right shape. */
module WordListExamples {
  import opened Text
  import opened Seqs
  import opened WordList

  /** A word that can stand on a line of its own: no comma and no line feed inside. */
  predicate IsLineWord(w: String) {
    IsWord(w) && ',' !in w && '\n' !in w
  }

  /** A line word that no cleaning step touches: it starts with neither a digit nor a
      bullet. */
  predicate IsPlainWord(w: String) {
    IsLineWord(w) && !IsDigit(w[0]) && !IsBullet(w[0])
  }

  lemma JoinTwo(a: String, b: String, d: char)
    ensures Join([a, b], d) == a + [d] + b
  {
    assert [a, b][1..] == [b];
  }

  lemma JoinThree(a: String, b: String, c: String, d: char)
    ensures Join([a, b, c], d) == a + [d] + b + [d] + c
  {
    assert [a, b, c][1..] == [b, c];
    JoinTwo(b, c, d);
  }

  lemma NoLineFeedIn(p: String, w: String)
    requires '\n' !in p && '\n' !in w
    ensures '\n' !in p + w
  {
  }

  /** Pieces that trim to words pass the trim-and-drop chain as those words. */
  lemma WordsOfPieces(pieces: seq<String>, ws: seq<String>)
    requires |pieces| == |ws| && AllWords(ws)
    requires forall k :: 0 <= k < |ws| ==> Trim(pieces[k]) == ws[k]
    ensures Words(pieces) == ws
  {
    assert Map(pieces, Trim) == ws;
    FilterKeepsAll(ws, NonEmpty);
  }

  /** A line that cleans to a word is not blank. */
  lemma CleanedNotBlank(line: String)
    requires CleanLine(line) != []
    ensures Trim(line) != []
  {
    var w := CleanLine(line);
    StripsAreInfixes(line);
    var i :| InfixAt(w, line, i);
    assert line[i] == w[0];
  }

  /** Text without line feeds is a single line: when that line yields words, they are the
      whole result. */
  lemma ParseOneLine(line: String)
    requires '\n' !in line && LineWords(line) != []
    ensures Parse(line) == LineWords(line)
  {
    assert CleanLine(line) != [];
    CleanedNotBlank(line);
    assert Join([line], '\n') == line;
    ParseOfJoinedLines([line]);
    FlatMapOne(line, LineWords);
  }

  /** Lines that each clean to one comma-free word parse, joined by line feeds, to exactly
      those words: in order, and with repeated words kept. */
  lemma CleanedLines(lines: seq<String>, ws: seq<String>)
    requires |lines| == |ws| >= 1
    requires forall k :: 0 <= k < |lines| ==>
      '\n' !in lines[k] && IsLineWord(ws[k]) && CleanLine(lines[k]) == ws[k]
    ensures Parse(Join(lines, '\n')) == ws
  {
    forall k | 0 <= k < |lines| ensures Trim(lines[k]) != [] && LineWords(lines[k]) == [ws[k]] {
      CleanedNotBlank(lines[k]);
    }
    ParseOfJoinedLines(lines);
    FlatMapOneEach(lines, LineWords, ws);
  }

  lemma CleanedThreeLines(l1: String, l2: String, l3: String, a: String, b: String, c: String)
    requires '\n' !in l1 && '\n' !in l2 && '\n' !in l3
    requires IsLineWord(a) && IsLineWord(b) && IsLineWord(c)
    requires CleanLine(l1) == a && CleanLine(l2) == b && CleanLine(l3) == c
    ensures Parse(Join([l1, l2, l3], '\n')) == [a, b, c]
  {
    var lines, ws := [l1, l2, l3], [a, b, c];
    forall k | 0 <= k < 3
      ensures '\n' !in lines[k] && IsLineWord(ws[k]) && CleanLine(lines[k]) == ws[k]
    {
      if k == 0 { assert lines[k] == l1 && ws[k] == a; }
      else if k == 1 { assert lines[k] == l2 && ws[k] == b; }
      else { assert lines[k] == l3 && ws[k] == c; }
    }
    CleanedLines(lines, ws);
  }

  /** Two non-blank lines contribute their words in order; here they yield some. */
  lemma ParseTwoLines(l1: String, l2: String)
    requires '\n' !in l1 && '\n' !in l2 && Trim(l1) != [] && Trim(l2) != []
    requires LineWords(l1) + LineWords(l2) != []
    ensures Parse(Join([l1, l2], '\n')) == LineWords(l1) + LineWords(l2)
  {
    ParseOfJoinedLines([l1, l2]);
    FlatMapTwo(l1, l2, LineWords);
  }

  /** One word per line gives back exactly those words. */
  lemma OneWordPerLine(ws: seq<String>)
    requires |ws| >= 1
    requires forall k :: 0 <= k < |ws| ==> IsPlainWord(ws[k])
    ensures Parse(Join(ws, '\n')) == ws
  {
    forall k | 0 <= k < |ws| ensures CleanLine(ws[k]) == ws[k] {
      CleanPlainLine(ws[k]);
    }
    CleanedLines(ws, ws);
  }

  /** Numbered with `.`, numbered with `)`, and bulleted lines, one word each. */
  lemma NumberedAndBulleted(a: String, b: String, c: String)
    requires IsLineWord(a) && IsLineWord(b) && IsLineWord(c)
    requires !IsBullet(a[0]) && !IsBullet(b[0])
    ensures Parse(Join(["1. " + a, "2) " + b, "- " + c], '\n')) == [a, b, c]
  {
    var l1, l2, l3 := "1. " + a, "2) " + b, "- " + c;
    NumberedLine('1', '.', a);
    NumberedLine('2', ')', b);
    BulletedLine('-', c);
    CleanedThreeLines(l1, l2, l3, a, b, c);
  }

  /** A line of a digit, `.` or `)`, a space and a word cleans to the word. */
  lemma NumberedLine(digit: char, mark: char, w: String)
    requires IsDigit(digit) && IsNumberMark(mark) && IsWord(w) && '\n' !in w && !IsBullet(w[0])
    ensures CleanLine([digit, mark, ' '] + w) == w && '\n' !in [digit, mark, ' '] + w
  {
    assert [digit, mark, ' '] + w == [digit] + [mark] + " " + w;
    CleanNumberedLine([digit], mark, " ", w);
  }

  /** A line of a bullet, a space and a word cleans to the word. */
  lemma BulletedLine(bullet: char, w: String)
    requires IsBullet(bullet) && IsLineWord(w)
    ensures CleanLine([bullet, ' '] + w) == w && '\n' !in [bullet, ' '] + w
  {
    assert [bullet, ' '] + w == [bullet] + " " + w;
    CleanBulletedLine(bullet, " ", w);
  }

  /** Two words joined by a comma and a space form one word, starting where the first
      does. */
  lemma CommaJoinIsLineWord(a: String, b: String)
    requires IsLineWord(a) && IsLineWord(b)
    ensures var j := a + ", " + b; IsWord(j) && j[0] == a[0] && '\n' !in j
  {
    var j := a + ", " + b;
    assert j[|j| - 1] == b[|b| - 1];
    NoLineFeedIn(a, ", ");
    NoLineFeedIn(a + ", ", b);
  }

  /** The comma words of two words separated by a comma and a space. */
  lemma CommaWordsTwo(a: String, b: String)
    requires IsLineWord(a) && IsLineWord(b)
    ensures CommaWords(a + ", " + b) == [a, b]
  {
    var p2 := " " + b;
    assert a + ", " + b == a + [','] + p2;
    JoinTwo(a, p2, ',');
    SplitJoin([a, p2], ',');
    TrimmedIsFixed(a);
    TrimOf(" ", b, "");
    assert " " + b + "" == p2;
    WordsOfPieces([a, p2], [a, b]);
  }

  /** The comma words of three words separated by commas and spaces. */
  lemma CommaWordsThree(a: String, b: String, c: String)
    requires IsLineWord(a) && IsLineWord(b) && IsLineWord(c)
    ensures CommaWords(a + ", " + b + ", " + c) == [a, b, c]
  {
    var p2, p3 := " " + b, " " + c;
    assert a + ", " + b + ", " + c == a + [','] + p2 + [','] + p3;
    JoinThree(a, p2, p3, ',');
    SplitJoin([a, p2, p3], ',');
    TrimmedIsFixed(a);
    TrimOf(" ", b, "");
    TrimOf(" ", c, "");
    assert " " + b + "" == p2 && " " + c + "" == p3;
    WordsOfPieces([a, p2, p3], [a, b, c]);
  }

  /** A line that cleans to two comma-separated words contributes both. */
  lemma LineOfTwoCommaWords(line: String, a: String, b: String)
    requires IsLineWord(a) && IsLineWord(b) && CleanLine(line) == a + ", " + b
    ensures LineWords(line) == [a, b] && Trim(line) != []
  {
    assert (a + ", " + b)[|a|] == ',';
    CommaWordsTwo(a, b);
    CleanedNotBlank(line);
  }

  /** One line of comma-separated words. */
  lemma CommaSeparatedLine(a: String, b: String, c: String)
    requires IsPlainWord(a) && IsLineWord(b) && IsLineWord(c)
    ensures Parse(a + ", " + b + ", " + c) == [a, b, c]
  {
    var text := a + ", " + b + ", " + c;
    assert CleanLine(text) == text by {
      CleanPlainLine(text);
    }
    assert text[|a|] == ',';
    CommaWordsThree(a, b, c);
    ParseOneLine(text);
  }

  /** Comma splitting applies to each cleaned line. */
  lemma NumberedLineWithCommas(a: String, b: String, c: String)
    requires IsLineWord(a) && IsLineWord(b) && IsLineWord(c)
    requires !IsBullet(a[0]) && !IsBullet(c[0])
    ensures Parse(Join(["1. " + (a + ", " + b), "2. " + c], '\n')) == [a, b, c]
  {
    var c1 := a + ", " + b;
    var l1, l2 := "1. " + c1, "2. " + c;
    assert LineWords(l1) == [a, b] && Trim(l1) != [] && '\n' !in l1 by {
      CommaJoinIsLineWord(a, b);
      NumberedLine('1', '.', c1);
      LineOfTwoCommaWords(l1, a, b);
    }
    assert LineWords(l2) == [c] && Trim(l2) != [] && '\n' !in l2 by {
      NumberedLine('2', '.', c);
      CleanedNotBlank(l2);
    }
    ParseTwoLines(l1, l2);
  }

  /** The empty text gives no words, so a session cannot start from it. */
  lemma EmptyText()
    ensures Parse("") == []
  {
  }

  /** Only one marker of each kind is removed: a second numbering stays in the word. */
  lemma OneMarkerOnly(w: String)
    requires IsLineWord(w)
    ensures CleanLine("1. 2. " + w) == "2. " + w
  {
    var rest := "2. " + w;
    assert IsTrimmed(rest) by {
      assert rest[|rest| - 1] == w[|w| - 1];
    }
    assert "1. 2. " + w == "1" + ['.'] + " " + rest;
    CleanNumberedLine("1", '.', " ", rest);
  }

  /** A non-blank single line that contributes nothing falls back to its comma pieces. */
  lemma SilentLineFallsBack(line: String)
    requires '\n' !in line && Trim(line) != [] && LineWords(line) == []
    ensures Parse(line) == CommaWords(line)
  {
    assert Join([line], '\n') == line;
    ParseOfJoinedLines([line]);
    FlatMapOne(line, LineWords);
  }
  /** A line holding only a bullet cleans to nothing, so the fallback takes the whole text
      and returns the bullet itself as a word. */
  lemma BulletOnlyFallsBack(bullet: char)
    requires IsBullet(bullet)
    ensures Parse([bullet]) == [[bullet]]
  {
    var text := [bullet];
    assert LineWords(text) == [] by {
      assert StripNumbering(text) == text;
      assert StripBullet(text) == [];
    }
    assert Trim(text) == text by {
      TrimmedIsFixed(text);
    }
    SilentLineFallsBack(text);
    assert CommaWords(text) == [text] by {
      SplitNoSeparator(text, ',');
      TrimmedIsFixed(text);
      WordsOfPieces([text], [text]);
    }
  }

  /** Whitespace, line breaks and commas alone give no words. */
  lemma SeparatorsOnly(text: String)
    requires text == " \n , "
    ensures Parse(text) == []
  {
    assert OnlySpaceOr(text, ',');
    ParseEmptyIff(text);
  }
}
