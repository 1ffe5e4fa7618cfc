/**
 * The small pure text transforms of the converter: the output slug derived
 * from the law's abbreviation (lawdown.py:461-473), the title clean-up
 * (lawdown.py:368-371), the source-file slug (lawdown.py:483), the
 * heading-anchor link (lawdown.py:451-453) and the escape of a leading
 * ordered-list number (lawdown.py:66, 112).
 */
module Markup {
  import opened Strings
  import opened Emphasis

  // ---------------------------------------------------------------- store_filename

  /**
   * `\w` of a Python 3 `str` pattern: letters, digits and `_`.  Exact for the
   * characters up to U+00FF; above that every non-whitespace character counts.
   */
  predicate IsWordChar(c: char)
  {
    ('a' <= c <= 'z') || ('A' <= c <= 'Z') || ('0' <= c <= '9') || c == '_'
    || c == '\U{AA}' || c == '\U{B2}' || c == '\U{B3}' || c == '\U{B5}' || c == '\U{B9}' || c == '\U{BA}'
    || ('\U{BC}' <= c <= '\U{BE}')
    || ('\U{C0}' <= c <= '\U{FF}' && c != '\U{D7}' && c != '\U{F7}')
    || (c > '\U{FF}' && !IsSpace(c))
  }

  predicate IsUmlaut(c: char)
  {
    c == '\U{E4}' || c == '\U{F6}' || c == '\U{FC}' || c == '\U{DF}'
  }

  /** The four replacements ä → ae, ö → oe, ü → ue, ß → ss, in that order. */
  function ReplaceUmlauts(s: string): string
  {
    Replace(Replace(Replace(Replace(s, "\U{E4}", "ae"), "\U{F6}", "oe"), "\U{FC}", "ue"), "\U{DF}", "ss")
  }

  /** `re.sub('[^\w-]', '_', s)` */
  function FoldNonWord(s: string): (r: string)
    ensures |r| == |s|
    ensures forall i :: 0 <= i < |s| ==> r[i] == if IsWordChar(s[i]) || s[i] == '-' then s[i] else '_'
  {
    seq(|s|, i requires 0 <= i < |s| => if IsWordChar(s[i]) || s[i] == '-' then s[i] else '_')
  }

  /** The file name `store_filename` derives from the law's abbreviation. */
  function Slug(abk: string): string
  {
    FoldNonWord(ReplaceUmlauts(Strip(Lower(abk))))
  }

  /** The characters a slug is made of. */
  predicate SlugChar(c: char)
  {
    (IsWordChar(c) || c == '-') && !IsUmlaut(c) && LowerChar(c) == c
  }

  /** After the replacements no umlaut is left, and every other character comes from the input or is a plain letter. */
  lemma UmlautsGone(s: string, c: char)
    requires c in ReplaceUmlauts(s)
    ensures !IsUmlaut(c)
    ensures c in s || c in "aeous"
  {
    var s1 := Replace(s, "\U{E4}", "ae");
    var s2 := Replace(s1, "\U{F6}", "oe");
    var s3 := Replace(s2, "\U{FC}", "ue");
    ReplaceCharGone(s, '\U{E4}', "ae");
    ReplaceCharGone(s1, '\U{F6}', "oe");
    ReplaceCharGone(s2, '\U{FC}', "ue");
    ReplaceCharGone(s3, '\U{DF}', "ss");
    ReplaceChars(s3, "\U{DF}", "ss", c);
    if c in s3 {
      ReplaceChars(s2, "\U{FC}", "ue", c);
      if c in s2 {
        ReplaceChars(s1, "\U{F6}", "oe", c);
        if c in s1 {
          ReplaceChars(s, "\U{E4}", "ae", c);
        }
      }
    }
  }

  lemma LowerFixed(s: string, c: char)
    requires c in Strip(Lower(s))
    ensures LowerChar(c) == c
  {
    StripFacts(Lower(s));
    LowerAt(s);
    var j :| 0 <= j < |Lower(s)| && Lower(s)[j] == c;
    LowerCharIdempotent(s[j]);
  }

  lemma SlugCharNoSpace(c: char)
    requires SlugChar(c)
    ensures !IsSpace(c)
  {
  }

  /** A slug holds only lower-case word characters and `-`, no whitespace and no umlaut. */
  lemma SlugChars(abk: string)
    ensures forall i :: 0 <= i < |Slug(abk)| ==> SlugChar(Slug(abk)[i])
    ensures forall i :: 0 <= i < |Slug(abk)| ==> !IsSpace(Slug(abk)[i])
  {
    var t := Strip(Lower(abk));
    var u := ReplaceUmlauts(t);
    var r := FoldNonWord(u);
    forall i | 0 <= i < |r|
      ensures SlugChar(r[i]) && !IsSpace(r[i])
    {
      if r[i] != '_' {
        assert r[i] == u[i];
        UmlautsGone(t, u[i]);
        if u[i] in t {
          LowerFixed(abk, u[i]);
        }
      }
      SlugCharNoSpace(r[i]);
    }
  }

  /** Deriving the slug of a slug changes nothing. */
  lemma SlugIdempotent(abk: string)
    ensures Slug(Slug(abk)) == Slug(abk)
  {
    var y := Slug(abk);
    assert Lower(y) == y by {
      SlugChars(abk);
      LowerAt(y);
    }
    assert Strip(y) == y by {
      SlugChars(abk);
      StripFacts(y);
    }
    assert ReplaceUmlauts(y) == y by {
      SlugChars(abk);
      forall c | IsUmlaut(c) ensures !Contains(y, [c]) {
        ContainsChar(y, c);
      }
      ReplaceAbsent(y, "\U{E4}", "ae");
      ReplaceAbsent(y, "\U{F6}", "oe");
      ReplaceAbsent(y, "\U{FC}", "ue");
      ReplaceAbsent(y, "\U{DF}", "ss");
    }
    assert FoldNonWord(y) == y by {
      SlugChars(abk);
    }
  }

  // ---------------------------------------------------------------- clean_title

  /** Drops the escaped footnote marker ` \*)`, strips, and turns every `\*` back into `*`. */
  function CleanTitle(title: string): string
  {
    Replace(Strip(Replace(title, " \\*)", "")), "\\*", "*")
  }

  /** A replacement whose pattern starts with a character the text lacks leaves it alone. */
  lemma ReplaceWithoutFirst(s: string, pat: string, rep: string)
    requires pat != [] && pat[0] !in s
    ensures Replace(s, pat, rep) == s
  {
    if Contains(s, pat) {
      FindFirst(s, pat);
      var i := Find(s, pat);
    }
    ReplaceAbsent(s, pat, rep);
  }

  /** A stripped title without backslashes is left as it is. */
  lemma CleanTitleUnchanged(title: string)
    requires '\\' !in title
    requires Strip(title) == title
    ensures CleanTitle(title) == title
  {
    assert Replace(title, " \\*)", "") == title by {
      assert " \\*)"[1] == '\\';
      if Contains(title, " \\*)") {
        FindFirst(title, " \\*)");
        var i := Find(title, " \\*)");
      }
      ReplaceAbsent(title, " \\*)", "");
    }
    ReplaceWithoutFirst(title, "\\*", "*");
  }

  /** Replacing `\*` by `*` undoes the emphasis escaping of a text without backslashes and underscores. */
  lemma {:induction false} UnescapeStars(s: string, t: string)
    requires Inserted(s, t)
    requires forall i :: 0 <= i < |s| ==> s[i] != '\\' && s[i] != '_'
    ensures Replace(t, "\\*", "*") == s
    decreases |t|
  {
    if t == [] {
    } else if s != [] && t[0] == s[0] && Inserted(s[1..], t[1..]) {
      UnescapeStars(s[1..], t[1..]);
      if |t| >= 2 {
        ReplaceStep(t, "\\*", "*");
      }
    } else {
      UnescapeStars(s[1..], t[2..]);
      ReplaceStep(t, "\\*", "*");
      assert t[..2] == "\\*";
    }
  }

  /** One step of a left-to-right replacement: either the pattern starts here or the first character is kept. */
  lemma ReplaceStep(s: string, pat: string, rep: string)
    requires pat != [] && |s| >= |pat|
    ensures StartsWith(s, pat) ==> Replace(s, pat, rep) == rep + Replace(s[|pat|..], pat, rep)
    ensures !StartsWith(s, pat) ==> Replace(s, pat, rep) == [s[0]] + Replace(s[1..], pat, rep)
  {
    if StartsWith(s, pat) {
      JoinCons([], Split(s[|pat|..], pat), rep);
    } else {
      JoinFirstChar(s[0], Split(s[1..], pat), rep);
    }
  }

  /** The title clean-up gives back an escaped title without backslashes, underscores or footnote marker. */
  lemma CleanTitleOfEscaped(s: string)
    requires forall i :: 0 <= i < |s| ==> s[i] != '\\' && s[i] != '_'
    requires !Contains(EscapeAsWritten(s), " \\*)")
    requires Strip(EscapeAsWritten(s)) == EscapeAsWritten(s)
    ensures CleanTitle(EscapeAsWritten(s)) == s
  {
    EscapeInserts(s, false);
    ReplaceAbsent(EscapeAsWritten(s), " \\*)", "");
    UnescapeStars(s, EscapeAsWritten(s));
  }

  // ---------------------------------------------------------------- orig_slug

  /** The file name of `path` up to its first dot (lawdown.py:483). */
  function OrigSlug(path: string): string
  {
    var parts := Split(path, "/");
    Split(parts[|parts| - 1], ".")[0]
  }

  /** Splitting at a one-character separator distributes over an occurrence of it. */
  lemma {:induction false} SplitAppendSep(a: string, c: char, b: string)
    ensures Split(a + [c] + b, [c]) == Split(a, [c]) + Split(b, [c])
    decreases |a|
  {
    var s := a + [c] + b;
    if a == [] {
      assert s == [c] + b && s[1..] == b;
      SplitCharHead(s, c);
    } else {
      var pa, pb := Split(a[1..], [c]), Split(b, [c]);
      assert s[0] == a[0] && s[1..] == a[1..] + [c] + b;
      assert Split(s[1..], [c]) == pa + pb by {
        SplitAppendSep(a[1..], c, b);
      }
      SplitCharHead(s, c);
      SplitCharHead(a, c);
      if a[0] == c {
        assert [[]] + (pa + pb) == ([[]] + pa) + pb;
      } else {
        PiecesRegroup([a[0]], pa, pb);
      }
    }
  }

  /** Extending the first piece of `pa + pb` is extending the first piece of `pa`, then appending `pb`. */
  lemma PiecesRegroup(x: string, pa: seq<string>, pb: seq<string>)
    requires |pa| >= 1
    ensures [x + (pa + pb)[0]] + (pa + pb)[1..] == ([x + pa[0]] + pa[1..]) + pb
  {
    assert (pa + pb)[1..] == pa[1..] + pb;
  }

  /** `dir/base.ext` yields `base` when `base` holds neither `/` nor `.` and `ext` no `/`. */
  lemma OrigSlugOfPath(dir: string, base: string, ext: string)
    requires '/' !in base && '.' !in base && '/' !in ext
    ensures OrigSlug(dir + "/" + base + "." + ext) == base
  {
    var rest := base + "." + ext;
    assert dir + "/" + base + "." + ext == dir + ['/'] + rest;
    SplitAppendSep(dir, '/', rest);
    ContainsChar(rest, '/');
    SplitNoSep(rest, "/");
    assert base + "." + ext == base + ['.'] + ext;
    SplitAppendSep(base, '.', ext);
    ContainsChar(base, '.');
    SplitNoSep(base, ".");
  }

  // ---------------------------------------------------------------- heading anchor

  function LeadingX(s: string): (n: nat)
    ensures n <= |s|
    ensures forall i :: 0 <= i < n ==> s[i] == 'X'
    ensures n < |s| ==> s[n] != 'X'
  {
    if s != [] && s[0] == 'X' then 1 + LeadingX(s[1..]) else 0
  }

  /** `re.sub('\(X+\)', '', s)`: removes every parenthesised run of `X`. */
  function RemoveXParens(s: string): (r: string)
    ensures |r| <= |s|
    decreases |s|
  {
    if s == [] then []
    else
      var n := LeadingX(s[1..]);
      if s[0] == '(' && n >= 1 && n + 1 < |s| && s[n + 1] == ')' then RemoveXParens(s[n + 2..])
      else [s[0]] + RemoveXParens(s[1..])
  }

  /** Text without an opening parenthesis keeps its placeholders. */
  lemma {:induction false} RemoveXParensNoParen(s: string)
    requires '(' !in s
    ensures RemoveXParens(s) == s
    decreases |s|
  {
    if s != [] {
      RemoveXParensNoParen(s[1..]);
    }
  }

  /** The link suffix of an anchored heading: placeholders removed, stripped, `§` spelt `P`. */
  function HeadingLink(link: string): string
  {
    " [" + Replace(Strip(RemoveXParens(link)), "\U{A7}", "P") + "]"
  }

  // ---------------------------------------------------------------- list numbers

  function LeadingDigits(s: string): (n: nat)
    ensures n <= |s|
    ensures forall i :: 0 <= i < n ==> IsAsciiDigit(s[i])
    ensures n < |s| ==> !IsAsciiDigit(s[n])
  {
    if s != [] && IsAsciiDigit(s[0]) then 1 + LeadingDigits(s[1..]) else 0
  }

  /** The line starts with `digits.`, which Markdown would read as an ordered-list item. */
  predicate StartsNumbered(s: string)
  {
    var n := LeadingDigits(s);
    n >= 1 && n < |s| && s[n] == '.'
  }

  /** `re.sub('^(\d+)\.', '\\1\\.', line)` */
  function EscapeListStart(line: string): string
  {
    var n := LeadingDigits(line);
    if StartsNumbered(line) then line[..n] + "\\." + line[n + 1..] else line
  }

  lemma {:induction false} LeadingDigitsPrefix(a: string, b: string)
    requires forall i :: 0 <= i < |a| ==> IsAsciiDigit(a[i])
    requires b == [] || !IsAsciiDigit(b[0])
    ensures LeadingDigits(a + b) == |a|
    decreases |a|
  {
    if a == [] {
      assert a + b == b;
    } else {
      LeadingDigitsPrefix(a[1..], b);
      assert (a + b)[1..] == a[1..] + b;
    }
  }

  /** The escaped line no longer starts with `digits.`, and dropping the inserted backslash gives the line back. */
  lemma EscapeListStartMeaning(line: string)
    ensures !StartsNumbered(EscapeListStart(line))
    ensures StartsNumbered(line) ==>
      var n := LeadingDigits(line);
      var r := EscapeListStart(line);
      |r| == |line| + 1 && r[n] == '\\' && r[..n] + r[n + 1..] == line
    ensures !StartsNumbered(line) ==> EscapeListStart(line) == line
  {
    if StartsNumbered(line) {
      EscapedAt(line, LeadingDigits(line));
    }
  }

  /** Putting a backslash before the `.` that ends the leading digits at `n`. */
  lemma EscapedAt(line: string, n: nat)
    requires 1 <= n < |line| && line[n] == '.'
    requires forall i :: 0 <= i < n ==> IsAsciiDigit(line[i])
    ensures var r := line[..n] + "\\." + line[n + 1..];
      LeadingDigits(r) == n && |r| == |line| + 1 && r[n] == '\\' && r[..n] + r[n + 1..] == line
  {
    var head, rest := line[..n], "\\." + line[n + 1..];
    var r := line[..n] + "\\." + line[n + 1..];
    LeadingDigitsPrefix(head, rest);
    assert r == head + rest;
    assert r[..n] == head;
    assert r[n + 1..] == line[n..] by {
      assert r[n + 1..] == rest[1..];
    }
    assert line == head + line[n..];
  }
}
