/**
 * Python 3 `str` primitives on `seq<char>`, in the forms the converter and the
 * commit helper use them: whitespace, strip, split, join, replace, find,
 * lower/capitalize, repetition and decimal formatting.
 */
module Strings {

  /** `c.isspace()`; the same set is what `\s` matches in a `str` pattern and what `strip()` removes. */
  predicate IsSpace(c: char)
  {
    c == ' ' || ('\t' <= c <= '\r') || ('\U{1C}' <= c <= '\U{1F}') || c == '\U{85}' || c == '\U{A0}'
    || c == '\U{1680}' || ('\U{2000}' <= c <= '\U{200A}') || c == '\U{2028}' || c == '\U{2029}'
    || c == '\U{202F}' || c == '\U{205F}' || c == '\U{3000}'
  }

  predicate IsAsciiDigit(c: char)
  {
    '0' <= c <= '9'
  }

  /** True when no character of `s` is whitespace. */
  predicate NoSpace(s: string)
  {
    forall i :: 0 <= i < |s| ==> !IsSpace(s[i])
  }

  // ---------------------------------------------------------------- strip

  /** `s.lstrip()` */
  function LStrip(s: string): (r: string)
    ensures |r| <= |s| && r == s[|s| - |r|..]
    ensures r == [] || !IsSpace(r[0])
    ensures forall i :: 0 <= i < |s| - |r| ==> IsSpace(s[i])
  {
    if s != [] && IsSpace(s[0]) then LStrip(s[1..]) else s
  }

  /** `s.rstrip()` */
  function RStrip(s: string): (r: string)
    ensures |r| <= |s| && r == s[..|r|]
    ensures r == [] || !IsSpace(r[|r| - 1])
    ensures forall i :: |r| <= i < |s| ==> IsSpace(s[i])
  {
    if s != [] && IsSpace(s[|s| - 1]) then RStrip(s[..|s| - 1]) else s
  }

  /** `s.strip()`: the longest middle part of `s` that neither starts nor ends with whitespace. */
  function Strip(s: string): (r: string)
    ensures |r| <= |s|
  {
    RStrip(LStrip(s))
  }

  /** What `Strip` keeps and what it removes. */
  lemma StripFacts(s: string)
    ensures Strip(s) == [] || (!IsSpace(Strip(s)[0]) && !IsSpace(Strip(s)[|Strip(s)| - 1]))
    ensures forall c :: c in Strip(s) ==> c in s
    ensures (s == [] || (!IsSpace(s[0]) && !IsSpace(s[|s| - 1]))) ==> Strip(s) == s
    ensures Strip(s) == [] <==> forall i :: 0 <= i < |s| ==> IsSpace(s[i])
  {
    var l := LStrip(s);
    var r := RStrip(l);
    assert forall c :: c in r ==> c in l;
    assert r == [] ==> forall i :: 0 <= i < |s| ==> IsSpace(s[i]) by {
      if r == [] {
        assert l == [];
      }
    }
  }

  // ---------------------------------------------------------------- containment

  predicate StartsWith(s: string, p: string)
  {
    |p| <= |s| && s[..|p|] == p
  }

  /** Python's `p in s`. */
  predicate Contains(s: string, p: string)
    decreases |s|
  {
    StartsWith(s, p) || (s != [] && Contains(s[1..], p))
  }

  lemma {:induction false} ContainsChar(s: string, c: char)
    ensures Contains(s, [c]) <==> c in s
    decreases |s|
  {
    if s != [] {
      ContainsChar(s[1..], c);
      assert s == [s[0]] + s[1..];
    }
  }

  /** `s.find(p)`: the first index where `p` occurs, or -1. */
  function Find(s: string, p: string): (r: int)
    ensures -1 <= r && (r >= 0 ==> r + |p| <= |s|)
    ensures r == -1 <==> !Contains(s, p)
    decreases |s|
  {
    if StartsWith(s, p) then 0
    else if s == [] then -1
    else
      var k := Find(s[1..], p);
      if k < 0 then -1 else k + 1
  }

  /** A slice of `s` read off its tail `s[1..]`. */
  lemma TailSlice(s: string, a: int, b: int)
    requires 1 <= a <= b <= |s|
    ensures s[a..b] == s[1..][a - 1..b - 1]
  {
    assert forall t :: 0 <= t < b - a ==> s[a..b][t] == s[1..][a - 1..b - 1][t];
  }

  /** The index `Find` returns is where the first occurrence of `p` starts. */
  lemma {:induction false} FindFirst(s: string, p: string)
    ensures Find(s, p) >= 0 ==> s[Find(s, p)..Find(s, p) + |p|] == p
    ensures forall j :: 0 <= j < Find(s, p) ==> !StartsWith(s[j..], p)
    decreases |s|
  {
    if !StartsWith(s, p) && s != [] {
      FindFirst(s[1..], p);
      var k := Find(s[1..], p);
      if k >= 0 {
        TailSlice(s, k + 1, k + 1 + |p|);
        forall j | 0 <= j < k + 1
          ensures !StartsWith(s[j..], p)
        {
          if j == 0 {
            assert s[j..] == s;
          } else {
            assert s[j..] == s[1..][j - 1..];
          }
        }
      }
    }
  }

  // ---------------------------------------------------------------- split and join

  /**
   * `s.split(sep)` for a non-empty separator: the pieces between the
   * occurrences of `sep` found from the left without overlap.
   */
  function Split(s: string, sep: string): (r: seq<string>)
    requires sep != []
    ensures |r| >= 1
    decreases |s|
  {
    if |s| < |sep| then [s]
    else if StartsWith(s, sep) then [[]] + Split(s[|sep|..], sep)
    else
      var t := Split(s[1..], sep);
      [[s[0]] + t[0]] + t[1..]
  }

  /** The first step of splitting at a one-character separator. */
  lemma SplitCharHead(s: string, c: char)
    requires s != []
    ensures s[0] == c ==> Split(s, [c]) == [[]] + Split(s[1..], [c])
    ensures s[0] != c ==> Split(s, [c]) == [[s[0]] + Split(s[1..], [c])[0]] + Split(s[1..], [c])[1..]
  {
    assert StartsWith(s, [c]) <==> s[0] == c;
  }

  /** Concatenation regroups: a piece appended after a written prefix. */
  lemma AppendAfter(before: string, done: string, piece: string, end: string)
    ensures before + (done + piece + end) == before + done + piece + end
  {
  }

  /** `sep.join(ps)` */
  function Join(ps: seq<string>, sep: string): string
  {
    if ps == [] then [] else if |ps| == 1 then ps[0] else ps[0] + sep + Join(ps[1..], sep)
  }

  lemma JoinCons(p: string, ps: seq<string>, sep: string)
    requires ps != []
    ensures Join([p] + ps, sep) == p + sep + Join(ps, sep)
  {
    assert ([p] + ps)[1..] == ps;
  }

  lemma JoinFirstChar(c: char, ps: seq<string>, sep: string)
    requires ps != []
    ensures Join([[c] + ps[0]] + ps[1..], sep) == [c] + Join(ps, sep)
  {
    if |ps| > 1 {
      JoinCons([c] + ps[0], ps[1..], sep);
    }
  }

  /** `JoinSplit` when the text starts with the separator. */
  lemma JoinSplitAtSep(s: string, sep: string)
    requires sep != [] && StartsWith(s, sep)
    requires Join(Split(s[|sep|..], sep), sep) == s[|sep|..]
    ensures Join(Split(s, sep), sep) == s
  {
    var rest := s[|sep|..];
    var t := Split(rest, sep);
    assert Split(s, sep) == [[]] + t;
    JoinCons([], t, sep);
    assert s[..|sep|] == sep;
    assert s == s[..|sep|] + rest;
    assert [] + sep + rest == sep + rest;
  }

  /** `JoinSplit` when the text is long enough but does not start with the separator. */
  lemma JoinSplitPastChar(s: string, sep: string)
    requires sep != [] && |s| >= |sep| && !StartsWith(s, sep)
    requires Join(Split(s[1..], sep), sep) == s[1..]
    ensures Join(Split(s, sep), sep) == s
  {
    var t := Split(s[1..], sep);
    assert Split(s, sep) == [[s[0]] + t[0]] + t[1..];
    JoinFirstChar(s[0], t, sep);
    assert s == [s[0]] + s[1..];
  }

  /** Splitting and joining again with the same separator gives back the text. */
  lemma {:induction false} JoinSplit(s: string, sep: string)
    requires sep != []
    ensures Join(Split(s, sep), sep) == s
    decreases |s|
  {
    if |s| < |sep| {
    } else if StartsWith(s, sep) {
      JoinSplit(s[|sep|..], sep);
      JoinSplitAtSep(s, sep);
    } else {
      JoinSplit(s[1..], sep);
      JoinSplitPastChar(s, sep);
    }
  }

  /** Text without the separator splits into itself alone. */
  lemma {:induction false} SplitNoSep(s: string, sep: string)
    requires sep != [] && !Contains(s, sep)
    ensures Split(s, sep) == [s]
    decreases |s|
  {
    if |s| >= |sep| {
      SplitNoSep(s[1..], sep);
      assert s == [s[0]] + s[1..];
    }
  }

  /** When there is more than one piece, every piece is shorter than the text by at least the separator. */
  lemma {:induction false} SplitPieceLength(s: string, sep: string)
    requires sep != []
    ensures forall i :: 0 <= i < |Split(s, sep)| ==> |Split(s, sep)[i]| <= |s|
    ensures |Split(s, sep)| > 1 ==> forall i :: 0 <= i < |Split(s, sep)| ==> |Split(s, sep)[i]| <= |s| - |sep|
    decreases |s|
  {
    if |s| < |sep| {
    } else if StartsWith(s, sep) {
      SplitPieceLength(s[|sep|..], sep);
    } else {
      SplitPieceLength(s[1..], sep);
    }
  }

  /** Every character of a piece is a character of the text. */
  lemma {:induction false} SplitPieceChars(s: string, sep: string)
    requires sep != []
    ensures forall i, c :: 0 <= i < |Split(s, sep)| && c in Split(s, sep)[i] ==> c in s
    decreases |s|
  {
    if |s| < |sep| {
    } else if StartsWith(s, sep) {
      SplitPieceChars(s[|sep|..], sep);
      assert forall c :: c in s[|sep|..] ==> c in s;
    } else {
      SplitPieceChars(s[1..], sep);
      assert forall c :: c in s[1..] ==> c in s;
    }
  }

  /** A one-character separator never survives inside a piece. */
  lemma {:induction false} SplitCharPieces(s: string, c: char)
    ensures forall i :: 0 <= i < |Split(s, [c])| ==> c !in Split(s, [c])[i]
    decreases |s|
  {
    if |s| < 1 {
    } else if StartsWith(s, [c]) {
      SplitCharPieces(s[1..], c);
    } else {
      SplitCharPieces(s[1..], c);
      assert s[0] != c;
    }
  }

  /** Joining pieces that do not hold a one-character separator, and splitting again, gives the pieces back. */
  lemma {:induction false} SplitJoin(ps: seq<string>, c: char)
    requires ps != []
    requires forall i :: 0 <= i < |ps| ==> c !in ps[i]
    ensures Split(Join(ps, [c]), [c]) == ps
    decreases |ps|, |ps[0]|
  {
    var j := Join(ps, [c]);
    if ps[0] == [] {
      if |ps| == 1 {
      } else {
        JoinCons([], ps[1..], [c]);
        assert j == [c] + Join(ps[1..], [c]);
        assert StartsWith(j, [c]);
        assert j[1..] == Join(ps[1..], [c]);
        SplitJoin(ps[1..], c);
        assert ps == [[]] + ps[1..];
      }
    } else {
      var d := ps[0][0];
      var ps' := [ps[0][1..]] + ps[1..];
      assert ps'[1..] == ps[1..];
      JoinFirstChar(d, ps', [c]);
      assert ps[0] == [d] + ps[0][1..];
      assert [[d] + ps'[0]] + ps'[1..] == ps;
      assert j == [d] + Join(ps', [c]);
      assert d != c;
      forall i | 0 <= i < |ps'| ensures c !in ps'[i] {
        if i == 0 {
          assert forall x :: x in ps[0][1..] ==> x in ps[0];
        }
      }
      SplitJoin(ps', c);
      assert j[1..] == Join(ps', [c]);
      if |j| >= 1 {
        assert !StartsWith(j, [c]);
      }
    }
  }

  /** Every character of a join comes from a piece or from the separator. */
  lemma {:induction false} JoinChars(ps: seq<string>, sep: string, x: char)
    requires x in Join(ps, sep)
    ensures (exists i :: 0 <= i < |ps| && x in ps[i]) || x in sep
    decreases |ps|
  {
    if |ps| > 1 {
      if x !in ps[0] && x !in sep {
        JoinChars(ps[1..], sep, x);
        var i :| 0 <= i < |ps[1..]| && x in ps[1..][i];
        assert x in ps[i + 1];
      }
    }
  }

  /** `s.replace(pat, rep)` for a non-empty pattern (Python defines it as split-then-join). */
  function Replace(s: string, pat: string, rep: string): string
    requires pat != []
  {
    Join(Split(s, pat), rep)
  }

  /** Text without the pattern is left as it is. */
  lemma ReplaceAbsent(s: string, pat: string, rep: string)
    requires pat != [] && !Contains(s, pat)
    ensures Replace(s, pat, rep) == s
  {
    SplitNoSep(s, pat);
  }

  /** Every character of a replacement comes from the text or from the new part. */
  lemma ReplaceChars(s: string, pat: string, rep: string, x: char)
    requires pat != [] && x in Replace(s, pat, rep)
    ensures x in s || x in rep
  {
    JoinChars(Split(s, pat), rep, x);
    SplitPieceChars(s, pat);
  }

  /** Replacing one character by text without it removes it completely. */
  lemma ReplaceCharGone(s: string, c: char, rep: string)
    requires c !in rep
    ensures c !in Replace(s, [c], rep)
  {
    if c in Replace(s, [c], rep) {
      JoinChars(Split(s, [c]), rep, c);
      SplitCharPieces(s, c);
    }
  }

  /** Replacing with something no longer than the pattern never lengthens the text. */
  lemma {:induction false} ReplaceNoLonger(s: string, pat: string, rep: string)
    requires pat != [] && |rep| <= |pat|
    ensures |Replace(s, pat, rep)| <= |s|
    decreases |s|
  {
    if |s| < |pat| {
    } else if StartsWith(s, pat) {
      ReplaceNoLonger(s[|pat|..], pat, rep);
      JoinCons([], Split(s[|pat|..], pat), rep);
    } else {
      ReplaceNoLonger(s[1..], pat, rep);
      JoinFirstChar(s[0], Split(s[1..], pat), rep);
    }
  }

  // ---------------------------------------------------------------- lines

  /** The characters at which `str.splitlines()` ends a line. */
  predicate IsLineBoundary(c: char)
  {
    c == '\n' || c == '\r' || c == '\U{0B}' || c == '\U{0C}' || ('\U{1C}' <= c <= '\U{1E}')
    || c == '\U{85}' || c == '\U{2028}' || c == '\U{2029}'
  }

  function FirstBoundary(s: string): (i: nat)
    ensures i <= |s|
    ensures i < |s| ==> IsLineBoundary(s[i])
    ensures forall j :: 0 <= j < i ==> !IsLineBoundary(s[j])
  {
    if s == [] then 0 else if IsLineBoundary(s[0]) then 0 else 1 + FirstBoundary(s[1..])
  }

  /** `s.splitlines()`: `\r\n` ends one line; a final boundary adds no empty line. */
  function SplitLines(s: string): (r: seq<string>)
    ensures forall k, j :: 0 <= k < |r| && 0 <= j < |r[k]| ==> !IsLineBoundary(r[k][j])
    decreases |s|
  {
    if s == [] then []
    else
      var i := FirstBoundary(s);
      if i == |s| then [s]
      else
        var skip := if s[i] == '\r' && i + 1 < |s| && s[i + 1] == '\n' then 2 else 1;
        [s[..i]] + SplitLines(s[i + skip..])
  }

  // ---------------------------------------------------------------- case

  /** `c.lower()` for the characters up to U+00FF; others are left as they are. */
  function LowerChar(c: char): char
  {
    if 'A' <= c <= 'Z' || ('\U{C0}' <= c <= '\U{DE}' && c != '\U{D7}') then (c as int + 32) as char else c
  }

  /** `s.lower()` */
  function Lower(s: string): (r: string)
    ensures |r| == |s|
  {
    if s == [] then [] else [LowerChar(s[0])] + Lower(s[1..])
  }

  /** `Lower` works character by character. */
  lemma {:induction false} LowerAt(s: string)
    ensures forall i :: 0 <= i < |s| ==> Lower(s)[i] == LowerChar(s[i])
  {
    if s != [] {
      LowerAt(s[1..]);
    }
  }

  /** Lower-casing a lower-cased character changes nothing. */
  lemma LowerCharIdempotent(c: char)
    ensures LowerChar(LowerChar(c)) == LowerChar(c)
  {
  }

  /** The upper-case (title-case) form of the characters up to U+00FF that have a one-character one. */
  function UpperChar(c: char): char
  {
    if 'a' <= c <= 'z' || ('\U{E0}' <= c <= '\U{FE}' && c != '\U{F7}') then (c as int - 32) as char
    else if c == '\U{FF}' then '\U{178}'
    else if c == '\U{B5}' then '\U{39C}'
    else c
  }

  /** `s.capitalize()`: first character upper-cased, every other one lower-cased. */
  function Capitalize(s: string): (r: string)
    ensures |r| == |s|
  {
    if s == [] then [] else [UpperChar(s[0])] + Lower(s[1..])
  }

  // ---------------------------------------------------------------- numbers and repetition

  /** `s * n` (empty for n <= 0). */
  function Repeat(s: string, n: int): (r: string)
    ensures |r| == if n <= 0 then 0 else n * |s|
    decreases n
  {
    if n <= 0 then [] else s + Repeat(s, n - 1)
  }

  lemma {:induction false} RepeatChar(c: char, n: int)
    ensures forall i :: 0 <= i < |Repeat([c], n)| ==> Repeat([c], n)[i] == c
    decreases n
  {
    if n > 0 {
      RepeatChar(c, n - 1);
    }
  }

  function DigitChar(d: nat): char
    requires d < 10
  {
    ('0' as int + d) as char
  }

  /** `str(n)` for a natural number. */
  function NatToString(n: nat): (r: string)
    ensures |r| >= 1
    ensures forall i :: 0 <= i < |r| ==> IsAsciiDigit(r[i])
    decreases n
  {
    if n < 10 then [DigitChar(n)] else NatToString(n / 10) + [DigitChar(n % 10)]
  }

  /** `str(n)` */
  function IntToString(n: int): string
  {
    if n < 0 then "-" + NatToString(-n) else NatToString(n)
  }

  predicate IsDigits(s: string)
  {
    |s| > 0 && forall i :: 0 <= i < |s| ==> IsAsciiDigit(s[i])
  }

  function DigitsValue(s: string): nat
    requires IsDigits(s)
    decreases |s|
  {
    if |s| == 1 then s[0] as int - '0' as int
    else DigitsValue(s[..|s| - 1]) * 10 + (s[|s| - 1] as int - '0' as int)
  }

  /** Reading back what `NatToString` wrote gives the number. */
  lemma {:induction false} DigitsValueOfNat(n: nat)
    ensures IsDigits(NatToString(n)) && DigitsValue(NatToString(n)) == n
    decreases n
  {
    if n >= 10 {
      DigitsValueOfNat(n / 10);
      var s := NatToString(n);
      assert s[..|s| - 1] == NatToString(n / 10);
    }
  }

  /** What `int(s)` accepts, restricted to ASCII digits: optional surrounding whitespace and sign. */
  predicate IsIntLiteral(s: string)
  {
    var t := Strip(s);
    IsDigits(t) || (|t| > 1 && (t[0] == '+' || t[0] == '-') && IsDigits(t[1..]))
  }

  /** `int(s)` */
  function ParseInt(s: string): int
    requires IsIntLiteral(s)
  {
    var t := Strip(s);
    var v: int := if IsDigits(t) then DigitsValue(t) else DigitsValue(t[1..]);
    if !IsDigits(t) && t[0] == '-' then -v else v
  }

  /** `int(str(n)) == n` */
  lemma ParseIntToString(n: int)
    ensures IsIntLiteral(IntToString(n)) && ParseInt(IntToString(n)) == n
  {
    DigitsValueOfNat(if n < 0 then -n else n);
    var s := IntToString(n);
    assert s != [] && !IsSpace(s[0]) && !IsSpace(s[|s| - 1]);
    if n < 0 {
      assert s[1..] == NatToString(-n);
      assert !IsDigits(s);
    }
  }
}
