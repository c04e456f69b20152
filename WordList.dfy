/** `parseInput`: free text to the ordered list of words a session displays. */
module WordList {
  import opened Text
  import opened Seqs

  /** A displayable item: non-empty, with no whitespace at either end. */
  predicate IsWord(w: String) {
    w != [] && IsTrimmed(w)
  }

  predicate AllWords(ws: seq<String>) {
    forall k :: 0 <= k < |ws| ==> IsWord(ws[k])
  }

  predicate IsNumberMark(c: char) {
    c == '.' || c == ')'
  }

  /** `-`, `•` (U+2022) or `*`. */
  predicate IsBullet(c: char) {
    c == '-' || c == '\U{2022}' || c == '*'
  }

  /** How many ASCII digits `s` starts with: the part `^\d+` can match. */
  function DigitRun(s: String): (k: nat)
    ensures k <= |s|
    ensures k == |s| || !IsDigit(s[k])
  {
    if s != [] && IsDigit(s[0]) then 1 + DigitRun(s[1..]) else 0
  }

  /** The run `DigitRun` measures is made of digits. */
  lemma {:induction false} DigitRunIsDigits(s: String)
    ensures AllDigits(s[..DigitRun(s)])
  {
    if s != [] && IsDigit(s[0]) {
      DigitRunIsDigits(s[1..]);
      assert s[..DigitRun(s)] == [s[0]] + s[1..][..DigitRun(s[1..])];
    }
  }

  /** Removes one leading numbering marker: one or more ASCII digits, then `.` or `)`, then
      any whitespace. `NumberingRemoved` and `NumberingKept` say when it applies. */
  function StripNumbering(line: String): (r: String)
    ensures |r| <= |line|
  {
    var k := DigitRun(line);
    if 0 < k < |line| && IsNumberMark(line[k]) then TrimStart(line[k + 1..]) else line
  }

  /** Removes one leading bullet and the whitespace after it. */
  function StripBullet(line: String): (r: String)
    ensures |r| <= |line|
  {
    if line != [] && IsBullet(line[0]) then TrimStart(line[1..]) else line
  }

  /** The cleaned line: numbering removed, then a bullet, then trimmed. */
  function CleanLine(line: String): (r: String)
    ensures IsTrimmed(r) && |r| <= |line|
  {
    Trim(StripBullet(StripNumbering(line)))
  }

  /** `w.length > 0`. */
  predicate NonEmpty(w: String) {
    |w| > 0
  }

  /** `line.trim()` is truthy. */
  predicate NotBlank(line: String) {
    Trim(line) != []
  }

  /** `pieces.map(w => w.trim()).filter(w => w.length > 0)`. */
  function Words(pieces: seq<String>): seq<String> {
    Filter(Map(pieces, Trim), NonEmpty)
  }

  /** The comma-separated words of `s`. */
  function CommaWords(s: String): seq<String> {
    Words(Split(s, ','))
  }

  /** What one line contributes: its comma pieces if the cleaned line holds a comma,
      otherwise the cleaned line itself when it is not empty. */
  function LineWords(line: String): seq<String>
  {
    var cleaned := CleanLine(line);
    if ',' in cleaned then CommaWords(cleaned)
    else if cleaned != [] then [cleaned]
    else []
  }

  /** The lines the `forEach` visits: the text split on line feeds, blank lines dropped. */
  function Lines(text: String): seq<String> {
    Filter(Split(text, '\n'), NotBlank)
  }

  /** The words of `lines`, line after line: what the `forEach` pushes into `parsed`. */
  function LinePass(lines: seq<String>): seq<String> {
    FlatMap(lines, LineWords)
  }

  /** `parseInput(text)`. A blank text gives no words; otherwise the line pass, and when
      that gives nothing, the comma pieces of the whole text. */
  function Parse(text: String): seq<String> {
    if Trim(text) == [] then []
    else
      var parsed := LinePass(Lines(text));
      if parsed == [] then CommaWords(text) else parsed
  }

  /** `parseInput` as the source runs it: a loop that appends each line's words to
      `parsed`, and the comma fallback when nothing was appended. */
  method ParseInput(text: String) returns (parsed: seq<String>)
    ensures parsed == Parse(text)
    ensures AllWords(parsed)
  {
    if Trim(text) == [] {
      return [];
    }
    var lines := Lines(text);
    parsed := [];
    for i := 0 to |lines|
      invariant parsed == LinePass(lines[..i])
    {
      LinePassStep(lines, i);
      parsed := parsed + LineWords(lines[i]);
    }
    assert lines[..|lines|] == lines;
    if |parsed| == 0 {
      parsed := CommaWords(text);
    }
    ParseGivesWords(text);
  }

  /** One more line appends its words to what the earlier lines collected. */
  lemma LinePassStep(lines: seq<String>, i: nat)
    requires i < |lines|
    ensures LinePass(lines[..i + 1]) == LinePass(lines[..i]) + LineWords(lines[i])
  {
    assert lines[..i + 1] == lines[..i] + [lines[i]];
    FlatMapLast(lines[..i], lines[i], LineWords);
  }

  // ---------------------------------------------------------------------------
  // Every result is a well-formed word

  /** The trim-and-drop chain yields well-formed words only. */
  lemma WordsAreWords(pieces: seq<String>)
    ensures AllWords(Words(pieces))
  {
    var trimmed := Map(pieces, Trim);
    FilterSatisfies(trimmed, NonEmpty);
    forall i | 0 <= i < |Words(pieces)| ensures IsWord(Words(pieces)[i]) {
      var k :| 0 <= k < |trimmed| && trimmed[k] == Words(pieces)[i];
    }
  }

  /** A line contributes well-formed words only. */
  lemma LineWordsAreWords(line: String)
    ensures AllWords(LineWords(line))
  {
    var cleaned := CleanLine(line);
    if ',' in cleaned {
      WordsAreWords(Split(cleaned, ','));
    }
  }

  /** Everything the line pass collects is a well-formed word. */
  lemma LinePassWords(lines: seq<String>)
    ensures AllWords(LinePass(lines))
  {
    forall i | 0 <= i < |LinePass(lines)| ensures IsWord(LinePass(lines)[i]) {
      FlatMapFrom(lines, LineWords, i);
      var k, j :| 0 <= k < |lines| && 0 <= j < |LineWords(lines[k])|
        && LinePass(lines)[i] == LineWords(lines[k])[j];
      LineWordsAreWords(lines[k]);
    }
  }

  /** Every word `parseInput` returns is non-empty and has no whitespace at either end. */
  lemma ParseGivesWords(text: String)
    ensures AllWords(Parse(text))
  {
    LinePassWords(Lines(text));
    WordsAreWords(Split(text, ','));
  }

  // ---------------------------------------------------------------------------
  // Line cleaning

  lemma {:induction false} DigitRunOf(digits: String, tail: String)
    requires AllDigits(digits) && (tail == [] || !IsDigit(tail[0]))
    ensures DigitRun(digits + tail) == |digits|
  {
    if digits == [] {
      assert digits + tail == tail;
    } else {
      assert (digits + tail)[1..] == digits[1..] + tail;
      DigitRunOf(digits[1..], tail);
    }
  }

  /** A line that starts with a numbering marker loses exactly that marker and the
      whitespace after it, and nothing more: a second marker behind it stays. */
  lemma NumberingRemoved(digits: String, mark: char, gap: String, rest: String)
    requires digits != [] && AllDigits(digits) && IsNumberMark(mark)
    requires AllSpace(gap) && (rest == [] || !IsSpace(rest[0]))
    ensures StripNumbering(digits + [mark] + gap + rest) == rest
  {
    var line := digits + [mark] + gap + rest;
    var tail := [mark] + gap + rest;
    assert line == digits + tail;
    DigitRunOf(digits, tail);
    var k := DigitRun(line);
    assert k == |digits| && line[k] == mark;
    assert line[k + 1..] == tail[1..];
    assert tail[1..] == gap + rest;
    TrimStartOf(gap, rest);
    assert StripNumbering(line) == TrimStart(line[k + 1..]);
  }

  /** A line that does not start with digits followed by `.` or `)` is left alone. */
  lemma NumberingKept(line: String)
    requires forall k :: 0 < k < |line| && AllDigits(line[..k]) ==> !IsNumberMark(line[k])
    ensures StripNumbering(line) == line
  {
    DigitRunIsDigits(line);
  }

  /** A line that starts with a bullet loses the bullet and the whitespace after it. */
  lemma BulletRemoved(bullet: char, gap: String, rest: String)
    requires IsBullet(bullet) && AllSpace(gap) && (rest == [] || !IsSpace(rest[0]))
    ensures StripBullet([bullet] + gap + rest) == rest
  {
    assert ([bullet] + gap + rest)[1..] == gap + rest;
    TrimStartOf(gap, rest);
  }

  /** A suffix of a suffix of `s` is a suffix of `s`. */
  lemma SuffixOfSuffix(s: String, j: nat, r: String)
    requires j <= |s| && |r| <= |s| - j && r == s[j..][|s| - j - |r|..]
    ensures r == s[|s| - |r|..]
  {
    assert s[j..][|s| - j - |r|..] == s[|s| - |r|..];
  }

  /** Removing the numbering keeps a suffix of the line. */
  lemma StripNumberingKeepsSuffix(line: String)
    ensures var r := StripNumbering(line); r == line[|line| - |r|..]
  {
    var k := DigitRun(line);
    if 0 < k < |line| && IsNumberMark(line[k]) {
      var r := TrimStart(line[k + 1..]);
      TrimStartDropsSpace(line[k + 1..]);
      SuffixOfSuffix(line, k + 1, r);
    }
  }

  /** Removing the bullet keeps a suffix of the line. */
  lemma StripBulletKeepsSuffix(line: String)
    ensures var r := StripBullet(line); r == line[|line| - |r|..]
  {
    if line != [] && IsBullet(line[0]) {
      var r := TrimStart(line[1..]);
      TrimStartDropsSpace(line[1..]);
      SuffixOfSuffix(line, 1, r);
    }
  }

  /** A numbered line whose text is a single word cleans to that word. */
  lemma CleanNumberedLine(digits: String, mark: char, gap: String, word: String)
    requires digits != [] && AllDigits(digits) && IsNumberMark(mark) && AllSpace(gap)
    requires IsTrimmed(word) && (word == [] || !IsBullet(word[0]))
    ensures CleanLine(digits + [mark] + gap + word) == word
  {
    assert StripNumbering(digits + [mark] + gap + word) == word by {
      NumberingRemoved(digits, mark, gap, word);
    }
    TrimmedIsFixed(word);
  }

  /** A bulleted line whose text is a single word cleans to that word. */
  lemma CleanBulletedLine(bullet: char, gap: String, word: String)
    requires IsBullet(bullet) && AllSpace(gap) && IsTrimmed(word)
    ensures CleanLine([bullet] + gap + word) == word
  {
    var line := [bullet] + gap + word;
    assert StripNumbering(line) == line by {
      assert !IsDigit(line[0]);
    }
    assert StripBullet(line) == word by {
      BulletRemoved(bullet, gap, word);
    }
    TrimmedIsFixed(word);
  }

  /** A line that is already a bare word, not starting with a digit or a bullet, cleans to
      itself. */
  lemma CleanPlainLine(word: String)
    requires IsTrimmed(word) && (word == [] || (!IsDigit(word[0]) && !IsBullet(word[0])))
    ensures CleanLine(word) == word
  {
    TrimmedIsFixed(word);
  }

  /** A line that cleans to a single comma-free word contributes exactly that word. */
  lemma SingleWordLine(line: String, word: String)
    requires CleanLine(line) == word && IsWord(word) && ',' !in word
    ensures LineWords(line) == [word]
  {
  }

  /** Text made of non-blank lines is parsed line by line: the line pass over exactly
      those lines, with the comma fallback only when it yields nothing. */
  lemma ParseOfJoinedLines(lines: seq<String>)
    requires |lines| >= 1
    requires forall k :: 0 <= k < |lines| ==> '\n' !in lines[k] && Trim(lines[k]) != []
    ensures var text := Join(lines, '\n'); var parsed := LinePass(lines);
      Parse(text) == if parsed == [] then CommaWords(text) else parsed
  {
    var text := Join(lines, '\n');
    SplitJoin(lines, '\n');
    FilterKeepsAll(lines, NotBlank);
    assert Lines(text) == lines;
    if AllSpace(text) {
      SplitPiecesKeepProperty(text, '\n', IsSpace);
    }
  }

  // ---------------------------------------------------------------------------
  // When parsing gives nothing

  /** Every character is whitespace or `d`. */
  predicate OnlySpaceOr(s: String, d: char) {
    forall i :: 0 <= i < |s| ==> s[i] == d || IsSpace(s[i])
  }

  predicate AllBlank(pieces: seq<String>) {
    forall k :: 0 <= k < |pieces| ==> AllSpace(pieces[k])
  }

  lemma AllSpaceCons(c: char, s: String)
    ensures AllSpace([c] + s) <==> IsSpace(c) && AllSpace(s)
  {
    var cs := [c] + s;
    if IsSpace(c) && AllSpace(s) {
      forall i | 0 <= i < |cs| ensures IsSpace(cs[i]) {
        if i > 0 { assert cs[i] == s[i - 1]; }
      }
    }
    if AllSpace(cs) {
      assert cs[0] == c;
      forall i | 0 <= i < |s| ensures IsSpace(s[i]) {
        assert s[i] == cs[i + 1];
      }
    }
  }

  lemma AllBlankCons(p: String, ps: seq<String>)
    ensures AllBlank([p] + ps) <==> AllSpace(p) && AllBlank(ps)
  {
    var all := [p] + ps;
    if AllSpace(p) && AllBlank(ps) {
      forall k | 0 <= k < |all| ensures AllSpace(all[k]) {
        if k > 0 { assert all[k] == ps[k - 1]; }
      }
    }
    if AllBlank(all) {
      assert all[0] == p;
      forall k | 0 <= k < |ps| ensures AllSpace(ps[k]) {
        assert ps[k] == all[k + 1];
      }
    }
  }

  lemma OnlySpaceOrCons(s: String, d: char)
    requires s != []
    ensures OnlySpaceOr(s, d) <==> (s[0] == d || IsSpace(s[0])) && OnlySpaceOr(s[1..], d)
  {
    if (s[0] == d || IsSpace(s[0])) && OnlySpaceOr(s[1..], d) {
      forall i | 0 <= i < |s| ensures s[i] == d || IsSpace(s[i]) {
        if i > 0 { assert s[i] == s[1..][i - 1]; }
      }
    }
  }

  /** The trim-and-drop chain gives nothing exactly when every piece is blank. */
  lemma WordsEmptyIff(pieces: seq<String>)
    ensures Words(pieces) == [] <==> AllBlank(pieces)
  {
    var trimmed := Map(pieces, Trim);
    FilterEmptyIff(trimmed, NonEmpty);
    assert forall k :: 0 <= k < |pieces| ==> (!NonEmpty(trimmed[k]) <==> AllSpace(pieces[k]));
  }

  /** All pieces of `s` split on `d` are blank exactly when `s` holds nothing but
      whitespace and `d`. */
  lemma {:induction false} SplitBlankIff(s: String, d: char)
    ensures AllBlank(Split(s, d)) <==> OnlySpaceOr(s, d)
  {
    if s != [] {
      var rest := Split(s[1..], d);
      SplitBlankIff(s[1..], d);
      OnlySpaceOrCons(s, d);
      if s[0] == d {
        assert Split(s, d) == [[]] + rest;
        AllBlankCons([], rest);
      } else {
        var head := [s[0]] + rest[0];
        assert Split(s, d) == [head] + rest[1..];
        AllBlankCons(head, rest[1..]);
        AllSpaceCons(s[0], rest[0]);
        assert rest == [rest[0]] + rest[1..];
        AllBlankCons(rest[0], rest[1..]);
      }
    }
  }

  /** The comma words of `s` are empty exactly when `s` is whitespace and commas. */
  lemma CommaWordsEmptyIff(s: String)
    ensures CommaWords(s) == [] <==> OnlySpaceOr(s, ',')
  {
    WordsEmptyIff(Split(s, ','));
    SplitBlankIff(s, ',');
  }

  /** A line of whitespace and commas contributes no words. */
  lemma LineWordsOfBlankLine(line: String)
    requires OnlySpaceOr(line, ',')
    ensures LineWords(line) == []
  {
    assert line != [] ==> !IsDigit(line[0]) && !IsBullet(line[0]);
    assert StripNumbering(line) == line;
    assert StripBullet(line) == line;
    var c := Trim(line);
    TrimIsSlice(line);
    var i := |line| - |TrimStart(line)|;
    assert OnlySpaceOr(c, ',') by {
      forall j | 0 <= j < |c| ensures c[j] == ',' || IsSpace(c[j]) {
        assert c[j] == line[i + j];
      }
    }
    if ',' in c {
      CommaWordsEmptyIff(c);
    }
  }

  /** `startWAT`'s validation failure, exactly: parsing gives no word if and only if the
      text holds nothing but whitespace and commas. */
  lemma ParseEmptyIff(text: String)
    ensures Parse(text) == [] <==> OnlySpaceOr(text, ',')
  {
    CommaWordsEmptyIff(text);
    if Trim(text) == [] {
      assert AllSpace(text);
    } else if OnlySpaceOr(text, ',') {
      var pieces := Split(text, '\n');
      SplitPiecesKeepProperty(text, '\n', c => c == ',' || IsSpace(c));
      var lines := Lines(text);
      FilterSatisfies(pieces, NotBlank);
      forall k | 0 <= k < |lines| ensures LineWords(lines[k]) == [] {
        LineWordsOfBlankLine(lines[k]);
      }
      FlatMapEmpty(lines, LineWords);
    }
  }

  // ---------------------------------------------------------------------------
  // Every word is taken from the text

  lemma SuffixIsInfix(r: String, line: String)
    requires r == StripNumbering(line) || r == StripBullet(line)
    ensures IsInfix(r, line)
  {
    StripNumberingKeepsSuffix(line);
    StripBulletKeepsSuffix(line);
    assert InfixAt(r, line, |line| - |r|);
  }

  lemma StripsAreInfixes(line: String)
    ensures IsInfix(CleanLine(line), line)
  {
    var n := StripNumbering(line);
    var b := StripBullet(n);
    SuffixIsInfix(n, line);
    SuffixIsInfix(b, n);
    InfixTransitive(b, n, line);
    TrimIsInfix(b);
    InfixTransitive(Trim(b), b, line);
  }

  lemma WordsAreInfixes(pieces: seq<String>, s: String)
    requires forall k :: 0 <= k < |pieces| ==> IsInfix(pieces[k], s)
    ensures forall i :: 0 <= i < |Words(pieces)| ==> IsInfix(Words(pieces)[i], s)
  {
    var trimmed := Map(pieces, Trim);
    FilterSatisfies(trimmed, NonEmpty);
    forall i | 0 <= i < |Words(pieces)| ensures IsInfix(Words(pieces)[i], s) {
      var k :| 0 <= k < |trimmed| && trimmed[k] == Words(pieces)[i];
      TrimIsInfix(pieces[k]);
      InfixTransitive(Trim(pieces[k]), pieces[k], s);
    }
  }

  lemma CommaWordsAreInfixes(s: String)
    ensures forall k :: 0 <= k < |CommaWords(s)| ==> IsInfix(CommaWords(s)[k], s)
  {
    forall k | 0 <= k < |Split(s, ',')| ensures IsInfix(Split(s, ',')[k], s) {
      SplitPieceIsInfix(s, ',', k);
    }
    WordsAreInfixes(Split(s, ','), s);
  }

  lemma LineWordsAreInfixes(line: String)
    ensures forall k :: 0 <= k < |LineWords(line)| ==> IsInfix(LineWords(line)[k], line)
  {
    var c := CleanLine(line);
    StripsAreInfixes(line);
    if ',' in c {
      CommaWordsAreInfixes(c);
      forall k | 0 <= k < |LineWords(line)| ensures IsInfix(LineWords(line)[k], line) {
        InfixTransitive(LineWords(line)[k], c, line);
      }
    }
  }

  lemma LinePassAreInfixes(lines: seq<String>, text: String)
    requires forall k :: 0 <= k < |lines| ==> IsInfix(lines[k], text)
    ensures forall i :: 0 <= i < |LinePass(lines)| ==> IsInfix(LinePass(lines)[i], text)
  {
    var ws := LinePass(lines);
    forall i | 0 <= i < |ws| ensures IsInfix(ws[i], text) {
      FlatMapFrom(lines, LineWords, i);
      var k, j :| 0 <= k < |lines| && 0 <= j < |LineWords(lines[k])| && ws[i] == LineWords(lines[k])[j];
      LineWordsAreInfixes(lines[k]);
      InfixTransitive(ws[i], lines[k], text);
    }
  }

  /** Parsing invents no text: every word is a run of characters of the input. */
  lemma ParseWordsAreInfixes(text: String)
    ensures forall k :: 0 <= k < |Parse(text)| ==> IsInfix(Parse(text)[k], text)
  {
    var pieces := Split(text, '\n');
    var lines := Lines(text);
    FilterSatisfies(pieces, NotBlank);
    forall k | 0 <= k < |lines| ensures IsInfix(lines[k], text) {
      var p :| 0 <= p < |pieces| && pieces[p] == lines[k];
      SplitPieceIsInfix(text, '\n', p);
    }
    LinePassAreInfixes(lines, text);
    CommaWordsAreInfixes(text);
  }
}
