/** Strings as JavaScript's String methods see them: whitespace as matched by `\s`
    and stripped by `trim`, `trim` itself, and `split` on a single character. */
module Text {

  type String = seq<char>

  /** The code points ECMAScript counts as WhiteSpace or LineTerminator; `\s` and
      `String.prototype.trim` use exactly this set. */
  predicate IsSpace(c: char) {
    var n := c as int;
    (0x09 <= n <= 0x0D) || n == 0x20 || n == 0xA0 || n == 0x1680 ||
    (0x2000 <= n <= 0x200A) || n == 0x2028 || n == 0x2029 || n == 0x202F ||
    n == 0x205F || n == 0x3000 || n == 0xFEFF
  }

  /** `\d` in a JavaScript regular expression without the `u` flag: ASCII digits only. */
  predicate IsDigit(c: char) {
    '0' <= c <= '9'
  }

  predicate AllSpace(s: String) {
    forall i :: 0 <= i < |s| ==> IsSpace(s[i])
  }

  predicate AllDigits(s: String) {
    forall i :: 0 <= i < |s| ==> IsDigit(s[i])
  }

  /** A string with no whitespace at either end. */
  predicate IsTrimmed(s: String) {
    s == [] || (!IsSpace(s[0]) && !IsSpace(s[|s| - 1]))
  }

  /** `w` occurs in `s` as a contiguous run of characters. */
  ghost predicate IsInfix(w: String, s: String) {
    exists i :: InfixAt(w, s, i)
  }

  /** `w` occurs in `s` starting at offset `i`. */
  predicate InfixAt(w: String, s: String, i: int) {
    0 <= i <= |s| - |w| && s[i..i + |w|] == w
  }

  /** Drops the longest whitespace prefix (`trimStart`): what is left is a suffix that
      does not start with whitespace (`TrimStartDropsSpace` says what is dropped). */
  function TrimStart(s: String): (r: String)
    ensures |r| <= |s|
    ensures r == [] || !IsSpace(r[0])
  {
    if s != [] && IsSpace(s[0]) then TrimStart(s[1..]) else s
  }

  /** `TrimStart` keeps a suffix and drops whitespace only. */
  lemma {:induction false} TrimStartDropsSpace(s: String)
    ensures TrimStart(s) == s[|s| - |TrimStart(s)|..]
    ensures AllSpace(s[..|s| - |TrimStart(s)|])
  {
    if s != [] && IsSpace(s[0]) {
      TrimStartDropsSpace(s[1..]);
      assert s[1..][|s[1..]| - |TrimStart(s)|..] == s[|s| - |TrimStart(s)|..];
      assert s[..|s| - |TrimStart(s)|] == [s[0]] + s[1..][..|s[1..]| - |TrimStart(s[1..])|];
    }
  }

  /** Drops the longest whitespace suffix (`trimEnd`): what is left is a prefix that does
      not end in whitespace. */
  function TrimEnd(s: String): (r: String)
    ensures |r| <= |s|
    ensures r == [] || !IsSpace(r[|r| - 1])
  {
    if s != [] && IsSpace(s[|s| - 1]) then TrimEnd(s[..|s| - 1]) else s
  }

  /** `TrimEnd` keeps a prefix and drops whitespace only. */
  lemma {:induction false} TrimEndDropsSpace(s: String)
    ensures TrimEnd(s) == s[..|TrimEnd(s)|]
    ensures AllSpace(s[|TrimEnd(s)|..])
  {
    if s != [] && IsSpace(s[|s| - 1]) {
      TrimEndDropsSpace(s[..|s| - 1]);
      var r := TrimEnd(s);
      assert s[..|s| - 1][..|r|] == s[..|r|];
      assert s[|r|..] == s[..|s| - 1][|r|..] + [s[|s| - 1]];
    }
  }

  /** `String.prototype.trim`: no whitespace is left at either end, and nothing is left
      exactly when the string is all whitespace (`TrimIsSlice` says what is kept). */
  function Trim(s: String): (r: String)
    ensures IsTrimmed(r)
    ensures r == [] <==> AllSpace(s)
  {
    var t := TrimStart(s);
    TrimSlice(s, t, TrimEnd(t), |s| - |t|);
    TrimEmptyIff(s, t, TrimEnd(t), |s| - |t|);
    TrimEnd(t)
  }

  /** What `Trim` keeps is the slice of `s` between a whitespace prefix and a whitespace
      suffix. */
  lemma {:induction false} TrimIsSlice(s: String)
    ensures var r := Trim(s); var i := |s| - |TrimStart(s)|;
      i + |r| <= |s| && r == s[i..i + |r|] && AllSpace(s[..i]) && AllSpace(s[i + |r|..])
  {
    var t := TrimStart(s);
    TrimSlice(s, t, TrimEnd(t), |s| - |t|);
  }

  lemma {:induction false} TrimSlice(s: String, t: String, r: String, i: int)
    requires t == TrimStart(s) && r == TrimEnd(t) && i == |s| - |t|
    ensures IsTrimmed(r)
    ensures i + |r| <= |s| && r == s[i..i + |r|]
    ensures AllSpace(s[..i]) && AllSpace(s[i + |r|..])
  {
    TrimStartDropsSpace(s);
    TrimEndDropsSpace(t);
    assert t == s[i..];
    assert r == t[..|r|];
    assert s[i + |r|..] == t[|r|..];
    assert r != [] ==> r[0] == t[0];
  }

  lemma {:induction false} TrimEmptyIff(s: String, t: String, r: String, i: int)
    requires t == TrimStart(s) && r == TrimEnd(t) && i == |s| - |t|
    ensures r == [] <==> AllSpace(s)
  {
    TrimStartDropsSpace(s);
    TrimEndDropsSpace(t);
    if r == [] {
      assert AllSpace(t[0..]);
      assert t == [];
      assert s == s[..i];
    } else {
      assert r[0] == t[0] == s[i];
    }
  }

  /** Whitespace in front of a string that does not start with whitespace is exactly
      what `TrimStart` drops. */
  lemma {:induction false} TrimStartOf(gap: String, rest: String)
    requires AllSpace(gap) && (rest == [] || !IsSpace(rest[0]))
    ensures TrimStart(gap + rest) == rest
  {
    if gap == [] {
      assert gap + rest == rest;
    } else {
      assert (gap + rest)[1..] == gap[1..] + rest;
      TrimStartOf(gap[1..], rest);
    }
  }

  /** Whitespace after a string that does not end in whitespace is exactly what `TrimEnd`
      drops. */
  lemma {:induction false} TrimEndOf(body: String, gap: String)
    requires AllSpace(gap) && (body == [] || !IsSpace(body[|body| - 1]))
    ensures TrimEnd(body + gap) == body
  {
    if gap == [] {
      assert body + gap == body;
    } else {
      var s := body + gap;
      assert s[..|s| - 1] == body + gap[..|gap| - 1];
      TrimEndOf(body, gap[..|gap| - 1]);
    }
  }

  /** The converse of `TrimIsSlice`: a trimmed string with whitespace around it trims to
      itself, so `Trim` is fully characterised by the two lemmas. */
  lemma TrimOf(pre: String, w: String, post: String)
    requires AllSpace(pre) && AllSpace(post) && IsTrimmed(w)
    ensures Trim(pre + w + post) == w
  {
    if w == [] {
      assert AllSpace(pre + w + post);
    } else {
      assert pre + w + post == pre + (w + post);
      TrimStartOf(pre, w + post);
      TrimEndOf(w, post);
    }
  }

  /** `Trim` changes nothing on a string that is already trimmed, so it is idempotent. */
  lemma TrimmedIsFixed(s: String)
    requires IsTrimmed(s)
    ensures Trim(s) == s
  {
    assert TrimStart(s) == s;
  }

  lemma TrimIdempotent(s: String)
    ensures Trim(Trim(s)) == Trim(s)
  {
    TrimmedIsFixed(Trim(s));
  }

  /** `s.split(d)` for a one-character separator: the pieces between occurrences of `d`,
      including empty ones; an empty string gives one empty piece. */
  function Split(s: String, d: char): (r: seq<String>)
    ensures |r| >= 1
    ensures forall k :: 0 <= k < |r| ==> d !in r[k]
  {
    if s == [] then [[]]
    else
      var rest := Split(s[1..], d);
      if s[0] == d then [[]] + rest else [[s[0]] + rest[0]] + rest[1..]
  }

  /** Joining the pieces with the separator gives back the string, and the first piece is
      a prefix of it. */
  lemma {:induction false} JoinSplit(s: String, d: char)
    ensures Join(Split(s, d), d) == s
    ensures var r := Split(s, d); |r[0]| <= |s| && r[0] == s[..|r[0]|]
  {
    if s != [] {
      var rest := Split(s[1..], d);
      JoinSplit(s[1..], d);
      if s[0] == d {
        assert s == [] + [d] + Join(rest, d);
      } else {
        var r := [[s[0]] + rest[0]] + rest[1..];
        assert r[1..] == rest[1..];
        JoinHead(rest, d);
        JoinHead(r, d);
      }
    }
  }

  /** `parts.join(d)`. */
  function Join(parts: seq<String>, d: char): String
    requires |parts| >= 1
  {
    if |parts| == 1 then parts[0] else parts[0] + [d] + Join(parts[1..], d)
  }

  /** Joining puts the first part in front of whatever the rest contributes. */
  lemma JoinHead(parts: seq<String>, d: char)
    requires |parts| >= 1
    ensures Join(parts, d) == parts[0] + (if |parts| == 1 then [] else [d] + Join(parts[1..], d))
  {
  }

  /** Splitting a string that starts with a separator-free piece and a separator. */
  lemma {:induction false} SplitAfterPiece(p: String, d: char, rest: String)
    requires d !in p
    ensures Split(p + [d] + rest, d) == [p] + Split(rest, d)
  {
    var s := p + [d] + rest;
    if p == [] {
      assert s[1..] == rest;
    } else {
      assert s[0] == p[0] && p[0] != d;
      assert s[1..] == p[1..] + [d] + rest;
      SplitAfterPiece(p[1..], d, rest);
      assert [p[0]] + p[1..] == p;
    }
  }

  /** A string without the separator is one piece. */
  lemma {:induction false} SplitNoSeparator(p: String, d: char)
    requires d !in p
    ensures Split(p, d) == [p]
  {
    if p != [] {
      SplitNoSeparator(p[1..], d);
      assert p[0] != d;
      assert [p[0]] + p[1..] == p;
    }
  }

  /** `Split` undoes `Join` when no part contains the separator: the other half of the
      round trip `JoinSplit` states. */
  lemma {:induction false} SplitJoin(parts: seq<String>, d: char)
    requires |parts| >= 1
    requires forall k :: 0 <= k < |parts| ==> d !in parts[k]
    ensures Split(Join(parts, d), d) == parts
  {
    if |parts| == 1 {
      SplitNoSeparator(parts[0], d);
    } else {
      SplitJoin(parts[1..], d);
      SplitAfterPiece(parts[0], d, Join(parts[1..], d));
    }
  }

  /** Each piece of a split occurs in the split string. */
  lemma {:induction false} SplitPieceIsInfix(s: String, d: char, k: nat)
    requires k < |Split(s, d)|
    ensures IsInfix(Split(s, d)[k], s)
  {
    var r := Split(s, d);
    if k == 0 {
      JoinSplit(s, d);
      assert InfixAt(r[0], s, 0);
    } else if s[0] == d {
      var rest := Split(s[1..], d);
      assert r[k] == rest[k - 1];
      SplitPieceIsInfix(s[1..], d, k - 1);
      InfixOfSuffix(r[k], s, 1);
    } else {
      var rest := Split(s[1..], d);
      assert r[k] == rest[k];
      SplitPieceIsInfix(s[1..], d, k);
      InfixOfSuffix(r[k], s, 1);
    }
  }

  /** What occurs in a suffix of `s` occurs in `s`. */
  lemma InfixOfSuffix(w: String, s: String, j: nat)
    requires j <= |s| && IsInfix(w, s[j..])
    ensures IsInfix(w, s)
  {
    var i :| InfixAt(w, s[j..], i);
    assert s[j + i..j + i + |w|] == w;
    assert InfixAt(w, s, j + i);
  }

  lemma TrimIsInfix(s: String)
    ensures IsInfix(Trim(s), s)
  {
    TrimIsSlice(s);
    assert InfixAt(Trim(s), s, |s| - |TrimStart(s)|);
  }

  /** `IsInfix` is transitive. */
  lemma InfixTransitive(u: String, v: String, w: String)
    requires IsInfix(u, v) && IsInfix(v, w)
    ensures IsInfix(u, w)
  {
    var i :| InfixAt(u, v, i);
    var j :| InfixAt(v, w, j);
    forall k | 0 <= k < |u| ensures w[j + i + k] == u[k] {
      assert u[k] == v[i + k] == w[j + i + k];
    }
    assert w[j + i..j + i + |u|] == u;
    assert InfixAt(u, w, j + i);
  }

  /** Every character of a piece of `s` is a character of `s`. */
  lemma {:induction false} SplitPiecesKeepProperty(s: String, d: char, p: char -> bool)
    requires forall i :: 0 <= i < |s| ==> p(s[i])
    ensures forall k, i :: 0 <= k < |Split(s, d)| && 0 <= i < |Split(s, d)[k]| ==> p(Split(s, d)[k][i])
  {
    forall k, i | 0 <= k < |Split(s, d)| && 0 <= i < |Split(s, d)[k]|
      ensures p(Split(s, d)[k][i])
    {
      SplitPieceIsInfix(s, d, k);
      var w := Split(s, d)[k];
      var j :| InfixAt(w, s, j);
      assert w[i] == s[j + i];
    }
  }
}
