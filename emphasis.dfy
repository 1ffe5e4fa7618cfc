/**
 * The Markdown-emphasis escaping that the converter applies to every chunk of
 * character data (lawdown.py:62-65, 355-356): two regular-expression
 * substitutions, each putting a backslash in front of a `*` or `_`.
 *
 * Both substitutions are written here as the left-to-right, non-overlapping
 * scans that Python's `re.sub` performs.  The second pattern is written in the
 * source as a non-raw string, so its first character class excludes a
 * backslash and the letter `s` rather than a backslash and whitespace;
 * `EscapeAsWritten` models that, `Escape` the evidently intended class.
 */
module Emphasis {
  import opened Strings

  predicate IsEmph(c: char)
  {
    c == '*' || c == '_'
  }

  /**
   * The first substitution, pattern `(\S?|^)([\*_])(\S)`: at each position it
   * first tries a non-space, an emphasis character and a non-space; failing
   * that, an emphasis character followed by a non-space.
   */
  function EscapeLeading(s: string): (r: string)
    ensures |r| >= |s|
    decreases |s|
  {
    if |s| >= 3 && !IsSpace(s[0]) && IsEmph(s[1]) && !IsSpace(s[2]) then
      [s[0], '\\', s[1], s[2]] + EscapeLeading(s[3..])
    else if |s| >= 2 && IsEmph(s[0]) && !IsSpace(s[1]) then
      ['\\', s[0], s[1]] + EscapeLeading(s[2..])
    else if s == [] then []
    else [s[0]] + EscapeLeading(s[1..])
  }

  /** The class `[^\\s]` the second pattern has as written: anything but a backslash and `s`. */
  predicate AsWrittenBefore(c: char)
  {
    c != '\\' && c != 's'
  }

  /** The class `[^\\\s]` the second pattern was meant to have: anything but a backslash and whitespace. */
  predicate IntendedBefore(c: char)
  {
    c != '\\' && !IsSpace(c)
  }

  predicate Before(c: char, intended: bool)
  {
    if intended then IntendedBefore(c) else AsWrittenBefore(c)
  }

  /**
   * The second substitution, pattern `(C)([\*_])(\S?|$)` with `C` the class
   * chosen by `intended`: the optional third group takes a following
   * non-space when there is one.
   */
  function EscapeTrailing(s: string, intended: bool): (r: string)
    ensures |r| >= |s|
    decreases |s|
  {
    if |s| >= 2 && Before(s[0], intended) && IsEmph(s[1]) then
      if |s| >= 3 && !IsSpace(s[2]) then [s[0], '\\', s[1], s[2]] + EscapeTrailing(s[3..], intended)
      else [s[0], '\\', s[1]] + EscapeTrailing(s[2..], intended)
    else if s == [] then []
    else [s[0]] + EscapeTrailing(s[1..], intended)
  }

  /** The escaping of lawdown.py:355-356 as written; the converter model uses this one. */
  function EscapeAsWritten(s: string): string
  {
    EscapeTrailing(EscapeLeading(s), false)
  }

  /** The escaping with the second pattern's class as intended (whitespace instead of the letter `s`). */
  function Escape(s: string): string
  {
    EscapeTrailing(EscapeLeading(s), true)
  }

  // ---------------------------------------------------------------- what the escaping may do

  /** `t` is `s` with backslashes inserted, each directly before a `*` or `_` of `s`. */
  predicate Inserted(s: string, t: string)
    decreases |t|
  {
    if t == [] then s == []
    else
      (s != [] && t[0] == s[0] && Inserted(s[1..], t[1..]))
      || (|t| >= 2 && s != [] && t[0] == '\\' && IsEmph(s[0]) && t[1] == s[0] && Inserted(s[1..], t[2..]))
  }

  /**
   * As `Inserted`, and in addition every inserted backslash follows a
   * character that is not itself a backslash; `ok` says whether that holds of
   * the character before `t`.
   */
  predicate InsertedAfter(ok: bool, s: string, t: string)
    decreases |t|
  {
    if t == [] then s == []
    else
      (s != [] && t[0] == s[0] && InsertedAfter(s[0] != '\\', s[1..], t[1..]))
      || (ok && |t| >= 2 && s != [] && t[0] == '\\' && IsEmph(s[0]) && t[1] == s[0]
          && InsertedAfter(true, s[1..], t[2..]))
  }

  /** The first substitution only inserts backslashes before emphasis characters. */
  lemma {:induction false} LeadingInserts(s: string)
    ensures Inserted(s, EscapeLeading(s))
    decreases |s|
  {
    var r := EscapeLeading(s);
    if |s| >= 3 && !IsSpace(s[0]) && IsEmph(s[1]) && !IsSpace(s[2]) {
      LeadingInserts(s[3..]);
      assert r[1..][2..] == [s[2]] + EscapeLeading(s[3..]);
      assert s[1..][1..] == s[2..] && s[2..][1..] == s[3..];
      assert Inserted(s[2..], [s[2]] + EscapeLeading(s[3..]));
    } else if |s| >= 2 && IsEmph(s[0]) && !IsSpace(s[1]) {
      LeadingInserts(s[2..]);
      assert r[2..] == [s[1]] + EscapeLeading(s[2..]);
      assert s[1..][1..] == s[2..];
    } else if s != [] {
      LeadingInserts(s[1..]);
    }
  }

  /** The second substitution never inserts at the start of its input, and never after a backslash. */
  lemma {:induction false} TrailingInserts(ok: bool, s: string, intended: bool)
    ensures InsertedAfter(ok, s, EscapeTrailing(s, intended))
    decreases |s|
  {
    var r := EscapeTrailing(s, intended);
    if |s| >= 2 && Before(s[0], intended) && IsEmph(s[1]) {
      assert s[1..][1..] == s[2..];
      if |s| >= 3 && !IsSpace(s[2]) {
        TrailingInserts(s[2] != '\\', s[3..], intended);
        assert s[2..][1..] == s[3..];
        assert r[1..][2..] == [s[2]] + EscapeTrailing(s[3..], intended);
        assert InsertedAfter(true, s[2..], [s[2]] + EscapeTrailing(s[3..], intended));
      } else {
        TrailingInserts(true, s[2..], intended);
        assert r[1..][2..] == EscapeTrailing(s[2..], intended);
      }
    } else if s != [] {
      TrailingInserts(s[0] != '\\', s[1..], intended);
    }
  }

  /** Insertions after insertions that never follow a backslash are still insertions. */
  lemma {:induction false} InsertedCompose(ok: bool, s: string, t: string, u: string)
    requires Inserted(s, t) && InsertedAfter(ok, t, u)
    ensures Inserted(s, u)
    decreases |u|
  {
    if u == [] {
    } else if t != [] && u[0] == t[0] && InsertedAfter(t[0] != '\\', t[1..], u[1..]) {
      if s != [] && t[0] == s[0] && Inserted(s[1..], t[1..]) {
        InsertedCompose(t[0] != '\\', s[1..], t[1..], u[1..]);
      } else {
        // t[0] is an inserted backslash, so u copies t[1] next
        assert t[1..][0] == s[0] && t[1..][1..] == t[2..];
        InsertedCompose(true, s[1..], t[2..], u[2..]);
      }
    } else {
      // u inserts a backslash before t[0], an emphasis character copied from s
      InsertedCompose(true, s[1..], t[1..], u[2..]);
    }
  }

  /** `Escape` (and the as-written variant) only insert backslashes, each directly before a `*` or `_`. */
  lemma EscapeInserts(s: string, intended: bool)
    ensures Inserted(s, EscapeTrailing(EscapeLeading(s), intended))
    ensures Inserted(s, Escape(s)) && Inserted(s, EscapeAsWritten(s))
  {
    LeadingInserts(s);
    TrailingInserts(false, EscapeLeading(s), intended);
    InsertedCompose(false, s, EscapeLeading(s), EscapeTrailing(EscapeLeading(s), intended));
    TrailingInserts(false, EscapeLeading(s), !intended);
    InsertedCompose(false, s, EscapeLeading(s), EscapeTrailing(EscapeLeading(s), !intended));
  }

  /** An insertion into text without `*` or `_` is the text itself. */
  lemma {:induction false} InsertedNoEmph(s: string, t: string)
    requires Inserted(s, t)
    requires forall i :: 0 <= i < |s| ==> !IsEmph(s[i])
    ensures t == s
    decreases |t|
  {
    if t != [] {
      InsertedNoEmph(s[1..], t[1..]);
    }
  }

  /** Text without `*` and `_` passes the escaping unchanged, as written and as intended. */
  lemma EscapeNoEmph(s: string)
    requires forall i :: 0 <= i < |s| ==> !IsEmph(s[i])
    ensures EscapeAsWritten(s) == s
    ensures Escape(s) == s
  {
    EscapeInserts(s, true);
    InsertedNoEmph(s, EscapeAsWritten(s));
    InsertedNoEmph(s, Escape(s));
  }

  // ---------------------------------------------------------------- isolated emphasis characters

  /** Every `*` and `_` has whitespace or a string edge on both sides. */
  predicate Isolated(s: string)
  {
    forall i :: 0 <= i < |s| && IsEmph(s[i]) ==>
      (i == 0 || IsSpace(s[i - 1])) && (i + 1 == |s| || IsSpace(s[i + 1]))
  }

  lemma IsolatedTail(s: string)
    requires s != [] && Isolated(s)
    ensures Isolated(s[1..])
  {
    forall i | 0 <= i < |s[1..]| && IsEmph(s[1..][i])
      ensures (i == 0 || IsSpace(s[1..][i - 1])) && (i + 1 == |s[1..]| || IsSpace(s[1..][i + 1]))
    {
      assert s[1..][i] == s[i + 1];
    }
  }

  lemma {:induction false} LeadingIsolated(s: string)
    requires Isolated(s)
    ensures EscapeLeading(s) == s
    decreases |s|
  {
    if s != [] {
      IsolatedTail(s);
      LeadingIsolated(s[1..]);
      if |s| >= 2 && IsEmph(s[0]) {
        assert IsSpace(s[1]);
      }
    }
  }

  lemma {:induction false} TrailingIsolated(s: string)
    requires Isolated(s)
    ensures EscapeTrailing(s, true) == s
    decreases |s|
  {
    if s != [] {
      IsolatedTail(s);
      TrailingIsolated(s[1..]);
    }
  }

  /** A `*` or `_` with whitespace or a string edge on both sides stays unescaped. */
  lemma EscapeIsolated(s: string)
    requires Isolated(s)
    ensures Escape(s) == s
  {
    LeadingIsolated(s);
    TrailingIsolated(s);
  }

  /** As written, a lone ` * ` is escaped although it has whitespace on both sides. */
  lemma AsWrittenEscapesIsolated()
    ensures Isolated(" * ")
    ensures EscapeAsWritten(" * ") == " \\* "
    ensures Escape(" * ") == " * "
  {
    EscapeIsolated(" * ");
    assert EscapeLeading(" * ") == " * " by {
      LeadingIsolated(" * ");
    }
    assert " * "[2..] == " ";
  }

  /** As written, a `*` after the letter `s` is not escaped, while the same `*` after `a` is. */
  lemma AsWrittenSkipsLetterS()
    ensures EscapeAsWritten("s* ") == "s* "
    ensures EscapeAsWritten("a* ") == "a\\* "
    ensures Escape("s* ") == "s\\* "
  {
    assert EscapeLeading("s* ") == "s* " by {
      assert "s* "[1..] == "* " && "* "[1..] == " ";
    }
    assert EscapeLeading("a* ") == "a* " by {
      assert "a* "[1..] == "* " && "* "[1..] == " ";
    }
    assert "s* "[1..] == "* " && "s* "[2..] == " ";
    assert "a* "[2..] == " ";
  }
}
