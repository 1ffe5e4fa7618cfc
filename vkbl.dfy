/**
 * The text helpers of vkbl_scraper.py and the pure steps of its `scrape`:
 * `ctext` over an lxml element tree, `slugify`, the split of a table's
 * header into genre and edition, the split of its title cell into title
 * and description, the extra fields of its rows, the item key, and the
 * `items` dictionary that the tables fill.  Fetching the pages and the CSS
 * selection of the table cells are not modelled: a table arrives as the
 * text of its header cell, the element of its title cell and its rows
 * already classified.
 */
module VkblScraper {
  import opened Wrappers
  import opened Strings
  import Markup

  // ================================================================ ctext

  /** An lxml element: its tag, `text`, children in document order and `tail`. */
  datatype Elem = Elem(tag: string, text: Option<string>, children: seq<Elem>, tail: Option<string>)

  /** What `if x: result.append(x)` adds for an optional string. */
  function TextOf(o: Option<string>): string
  {
    if o.Some? then o.value else ""
  }

  /** `"".join(xs)` */
  function Concat(xs: seq<string>): string
  {
    if xs == [] then "" else Concat(xs[..|xs| - 1]) + xs[|xs| - 1]
  }

  /** The text `ctext` gives: the element's text, then per child its text, a newline after a `br`, and its tail. */
  function CTextOf(el: Elem): string
    decreases el, 1
  {
    TextOf(el.text) + ChildrenCText(el, |el.children|)
  }

  /** What the first `n` children of `el` add to `CTextOf(el)`. */
  function ChildrenCText(el: Elem, n: nat): string
    requires n <= |el.children|
    decreases el, 0, n
  {
    if n == 0 then ""
    else
      var child := el.children[n - 1];
      ChildrenCText(el, n - 1) + CTextOf(child) + (if child.tag == "br" then "\n" else "") + TextOf(child.tail)
  }

  /** lxml's `text_content()`: all text below the element in document order, without markup. */
  function TextContent(el: Elem): string
    decreases el, 1
  {
    TextOf(el.text) + ChildrenContent(el, |el.children|)
  }

  function ChildrenContent(el: Elem, n: nat): string
    requires n <= |el.children|
    decreases el, 0, n
  {
    if n == 0 then ""
    else
      var child := el.children[n - 1];
      ChildrenContent(el, n - 1) + TextContent(child) + TextOf(child.tail)
  }

  /** No `br` element anywhere below `el`. */
  predicate NoBreak(el: Elem)
    decreases el
  {
    forall i :: 0 <= i < |el.children| ==> el.children[i].tag != "br" && NoBreak(el.children[i])
  }

  /** `ctext(el)` (vkbl_scraper.py:35-47): collects the pieces in a list and joins them. */
  method CText(el: Elem) returns (r: string)
    ensures r == CTextOf(el)
    decreases el
  {
    var result: seq<string> := [];
    if el.text.Some? && |el.text.value| > 0 {
      ConcatSnoc(result, el.text.value);
      result := result + [el.text.value];
    }
    var i := 0;
    while i < |el.children|
      invariant i <= |el.children|
      invariant Concat(result) == TextOf(el.text) + ChildrenCText(el, i)
    {
      var sel := el.children[i];
      var inner := CText(sel);
      var pieces := [inner];
      if sel.tag == "br" {
        pieces := pieces + ["\n"];
      }
      ghost var br := if sel.tag == "br" then "\n" else "";
      assert Concat(pieces) == inner + br by {
        ConcatOne(inner);
        if sel.tag == "br" {
          ConcatSnoc([inner], "\n");
        } else {
          assert inner + br == inner;
        }
      }
      ghost var mid := pieces;
      if sel.tail.Some? && |sel.tail.value| > 0 {
        pieces := pieces + [sel.tail.value];
      }
      assert Concat(pieces) == inner + br + TextOf(sel.tail) by {
        if sel.tail.Some? && |sel.tail.value| > 0 {
          ConcatSnoc(mid, sel.tail.value);
        } else {
          assert inner + br + TextOf(sel.tail) == inner + br;
        }
      }
      ChildPieces(el, i, result, pieces);
      result := result + pieces;
      i := i + 1;
    }
    r := Concat(result);
  }

  /** Appending the pieces child `i` contributes extends the text by `ChildrenCText` one step. */
  lemma ChildPieces(el: Elem, i: nat, result: seq<string>, pieces: seq<string>)
    requires i < |el.children|
    requires Concat(result) == TextOf(el.text) + ChildrenCText(el, i)
    requires var c := el.children[i];
      Concat(pieces) == CTextOf(c) + (if c.tag == "br" then "\n" else "") + TextOf(c.tail)
    ensures Concat(result + pieces) == TextOf(el.text) + ChildrenCText(el, i + 1)
  {
    ConcatAppend(result, pieces);
    var c := el.children[i];
    Regroup(TextOf(el.text), ChildrenCText(el, i), CTextOf(c), if c.tag == "br" then "\n" else "", TextOf(c.tail));
  }

  lemma Regroup(a: string, b: string, c: string, d: string, e: string)
    ensures (a + b) + ((c + d) + e) == a + (((b + c) + d) + e)
  {
  }

  lemma {:induction false} ConcatAppend(xs: seq<string>, ys: seq<string>)
    ensures Concat(xs + ys) == Concat(xs) + Concat(ys)
    decreases |ys|
  {
    if ys != [] {
      var init := ys[..|ys| - 1];
      var last := ys[|ys| - 1];
      assert (xs + ys)[..|xs + ys| - 1] == xs + init;
      assert (xs + ys)[|xs + ys| - 1] == last;
      ConcatAppend(xs, init);
      assert ys == init + [last];
      assert Concat(ys) == Concat(init) + last;
      assert Concat(xs + ys) == (Concat(xs) + Concat(init)) + last;
    } else {
      assert xs + ys == xs;
    }
  }

  lemma ConcatOne(x: string)
    ensures Concat([x]) == x
  {
    assert [x][..0] == [];
  }

  lemma ConcatSnoc(xs: seq<string>, x: string)
    ensures Concat(xs + [x]) == Concat(xs) + x
  {
    assert (xs + [x])[..|xs|] == xs;
  }

  /** An element without children gives exactly its text; with no text either, `""`. */
  lemma CTextLeaf(el: Elem)
    requires el.children == []
    ensures CTextOf(el) == TextOf(el.text)
    ensures el.text.None? ==> CTextOf(el) == ""
  {
  }

  /** Where no `br` occurs, `ctext` and `text_content()` agree: the newlines are the only difference. */
  lemma {:induction false} CTextIsTextContent(el: Elem)
    requires NoBreak(el)
    ensures CTextOf(el) == TextContent(el)
    decreases el, 1
  {
    ChildrenAgree(el, |el.children|);
  }

  lemma {:induction false} ChildrenAgree(el: Elem, n: nat)
    requires NoBreak(el) && n <= |el.children|
    ensures ChildrenCText(el, n) == ChildrenContent(el, n)
    decreases el, 0, n
  {
    if n > 0 {
      ChildrenAgree(el, n - 1);
      CTextIsTextContent(el.children[n - 1]);
    }
  }

  /** `ctext` adds one `'\n'` per `br` below the element and otherwise keeps every character of `text_content()`. */
  lemma {:induction false} CTextLength(el: Elem)
    ensures |CTextOf(el)| == |TextContent(el)| + Breaks(el)
    decreases el, 1
  {
    ChildrenLength(el, |el.children|);
  }

  /** The number of `br` elements strictly below `el`. */
  function Breaks(el: Elem): nat
    decreases el, 1
  {
    ChildrenBreaks(el, |el.children|)
  }

  function ChildrenBreaks(el: Elem, n: nat): nat
    requires n <= |el.children|
    decreases el, 0, n
  {
    if n == 0 then 0
    else
      var child := el.children[n - 1];
      ChildrenBreaks(el, n - 1) + Breaks(child) + (if child.tag == "br" then 1 else 0)
  }

  lemma {:induction false} ChildrenLength(el: Elem, n: nat)
    requires n <= |el.children|
    ensures |ChildrenCText(el, n)| == |ChildrenContent(el, n)| + ChildrenBreaks(el, n)
    decreases el, 0, n
  {
    if n > 0 {
      ChildrenLength(el, n - 1);
      CTextLength(el.children[n - 1]);
    }
  }

  // ================================================================ slugify

  predicate IsSlugChar(c: char)
  {
    'a' <= c <= 'z'
  }

  predicate IsSlug(s: string)
  {
    forall i :: 0 <= i < |s| ==> IsSlugChar(s[i])
  }

  /** `re.sub('[^a-z]', '', s)` */
  function KeepSlugChars(s: string): string
  {
    if s == [] then [] else (if IsSlugChar(s[0]) then [s[0]] else []) + KeepSlugChars(s[1..])
  }

  /** `slugify(key)` (vkbl_scraper.py:50-54): the lower-cased key without the characters outside a–z. */
  function Slugify(key: string): string
  {
    KeepSlugChars(Lower(key))
  }

  lemma {:induction false} KeepSlugCharsFacts(s: string)
    ensures IsSlug(KeepSlugChars(s))
    ensures IsSlug(s) ==> KeepSlugChars(s) == s
    ensures forall c :: c in KeepSlugChars(s) ==> c in s
  {
    if s != [] {
      KeepSlugCharsFacts(s[1..]);
    }
  }

  lemma {:induction false} LowerSlug(s: string)
    requires IsSlug(s)
    ensures Lower(s) == s
  {
    if s != [] {
      LowerSlug(s[1..]);
    }
  }

  lemma {:induction false} KeepSlugCharsAppend(a: string, b: string)
    ensures KeepSlugChars(a + b) == KeepSlugChars(a) + KeepSlugChars(b)
  {
    if a != [] {
      KeepSlugCharsAppend(a[1..], b);
      assert (a + b)[1..] == a[1..] + b;
    } else {
      assert a + b == b;
    }
  }

  lemma {:induction false} LowerAppend(a: string, b: string)
    ensures Lower(a + b) == Lower(a) + Lower(b)
  {
    if a != [] {
      LowerAppend(a[1..], b);
      assert (a + b)[1..] == a[1..] + b;
    } else {
      assert a + b == b;
    }
  }

  /** A slug holds only a–z, and a slug is its own slug: `slugify(slugify(k)) == slugify(k)`. */
  lemma SlugifyFacts(key: string)
    ensures IsSlug(Slugify(key))
    ensures Slugify(Slugify(key)) == Slugify(key)
    ensures IsSlug(key) ==> Slugify(key) == key
  {
    KeepSlugCharsFacts(Lower(key));
    LowerSlug(Slugify(key));
    KeepSlugCharsFacts(Slugify(key));
    if IsSlug(key) {
      LowerSlug(key);
      KeepSlugCharsFacts(key);
    }
  }

  /** `slugify` works character by character: one letter is kept lower-cased, anything else is dropped. */
  lemma SlugifyByChar(a: string, b: string, c: char)
    ensures Slugify(a + b) == Slugify(a) + Slugify(b)
    ensures Slugify([c]) == if IsSlugChar(LowerChar(c)) then [LowerChar(c)] else []
  {
    LowerAppend(a, b);
    KeepSlugCharsAppend(Lower(a), Lower(b));
    var l := LowerChar(c);
    assert Lower([c]) == [l] + Lower([]);
    assert KeepSlugChars([l]) == (if IsSlugChar(l) then [l] else []) + KeepSlugChars([]);
  }

  // ================================================================ header

  /** The separator between genre and edition in a header cell. */
  const HeaderSep := "\U{A0} "

  /** What the header split needs so as not to raise: two parts force a third word in the second. */
  predicate HeaderOk(header: string)
  {
    var parts := Split(header, HeaderSep);
    |parts| == 2 ==> |Split(parts[1], " ")| >= 3
  }

  /**
   * `genre, edition = header.split('\xa0 '); edition = edition.split(' ')[2]`
   * with the `ValueError` of a split into other than two parts caught
   * (vkbl_scraper.py:84-91); the `IndexError` of a short edition is not
   * caught, hence the precondition.
   */
  function SplitHeader(header: string): (string, string)
    requires HeaderOk(header)
  {
    var parts := Split(header, HeaderSep);
    if |parts| == 2 then (parts[0], Split(parts[1], " ")[2]) else (header, "")
  }

  lemma {:induction false} ContainsHead(s: string, p: string)
    requires p != [] && Contains(s, p)
    ensures p[0] in s
    decreases |s|
  {
    if !StartsWith(s, p) {
      ContainsHead(s[1..], p);
    }
  }

  /** Splitting where the first piece cannot hold the separator's first character. */
  lemma {:induction false} SplitAfterFirst(a: string, sep: string, b: string)
    requires sep != [] && sep[0] !in a
    ensures Split(a + sep + b, sep) == [a] + Split(b, sep)
    decreases |a|
  {
    var s := a + sep + b;
    if a == [] {
      assert s[..|sep|] == sep;
      assert s[|sep|..] == b;
    } else {
      assert s[0] == a[0] && a[0] != sep[0];
      assert !StartsWith(s, sep) by {
        if |sep| <= |s| {
          assert s[..|sep|][0] == s[0];
        }
      }
      SplitAfterFirst(a[1..], sep, b);
      assert s[1..] == a[1..] + sep + b;
      assert [s[0]] + a[1..] == a;
    }
  }

  lemma SplitOneWord(w: string)
    requires ' ' !in w
    ensures Split(w, " ") == [w]
  {
    ContainsChar(w, ' ');
    SplitNoSep(w, " ");
  }

  /** The third space-separated word of an edition part. */
  lemma EditionWords(w0: string, w1: string, w2: string, rest: string)
    requires ' ' !in w0 && ' ' !in w1 && ' ' !in w2
    requires rest == [] || rest[0] == ' '
    ensures var e := w0 + " " + w1 + " " + w2 + rest;
      |Split(e, " ")| >= 3 && Split(e, " ")[2] == w2
  {
    var r2 := w2 + rest;
    var r1 := w1 + " " + r2;
    var e := w0 + " " + w1 + " " + w2 + rest;
    assert e == w0 + " " + r1;
    SplitAfterFirst(w0, " ", r1);
    SplitAfterFirst(w1, " ", r2);
    FirstWord(w2, rest);
    assert Split(e, " ") == [w0] + ([w1] + Split(r2, " "));
  }

  /** A word followed by nothing or by a space-led rest is the first piece of the split at spaces. */
  lemma FirstWord(w: string, rest: string)
    requires ' ' !in w
    requires rest == [] || rest[0] == ' '
    ensures Split(w + rest, " ")[0] == w
  {
    if rest == [] {
      assert w + rest == w;
      SplitOneWord(w);
    } else {
      assert w + rest == w + " " + rest[1..];
      SplitAfterFirst(w, " ", rest[1..]);
    }
  }

  /** A header `genre + '\xa0 ' + edition part` gives the genre and the third word of the edition part. */
  lemma HeaderWithEdition(genre: string, w0: string, w1: string, w2: string, rest: string)
    requires '\U{A0}' !in genre
    requires '\U{A0}' !in w0 + " " + w1 + " " + w2 + rest
    requires ' ' !in w0 && ' ' !in w1 && ' ' !in w2
    requires rest == [] || rest[0] == ' '
    ensures var h := genre + HeaderSep + (w0 + " " + w1 + " " + w2 + rest);
      HeaderOk(h) && SplitHeader(h) == (genre, w2)
  {
    var e := w0 + " " + w1 + " " + w2 + rest;
    SplitAfterFirst(genre, HeaderSep, e);
    if Contains(e, HeaderSep) {
      ContainsHead(e, HeaderSep);
    }
    SplitNoSep(e, HeaderSep);
    EditionWords(w0, w1, w2, rest);
  }

  /** A header without the separator is the genre, with an empty edition. */
  lemma HeaderWithoutSep(header: string)
    requires !Contains(header, HeaderSep)
    ensures HeaderOk(header) && SplitHeader(header) == (header, "")
  {
    SplitNoSep(header, HeaderSep);
  }

  /** A header with the separator twice is the genre too: the unpacking into two fails and is caught. */
  lemma HeaderWithTwoSeps(genre: string, middle: string, rest: string)
    requires '\U{A0}' !in genre && '\U{A0}' !in middle
    ensures var h := genre + HeaderSep + middle + HeaderSep + rest;
      HeaderOk(h) && SplitHeader(h) == (h, "")
  {
    var h := genre + HeaderSep + middle + HeaderSep + rest;
    SplitAfterFirst(middle, HeaderSep, rest);
    SplitAfterFirst(genre, HeaderSep, middle + HeaderSep + rest);
    assert h == genre + HeaderSep + (middle + HeaderSep + rest);
    assert |Split(h, HeaderSep)| >= 3;
  }

  // ================================================================ title

  predicate SingleLine(t: string)
  {
    forall j :: 0 <= j < |t| ==> !IsLineBoundary(t[j])
  }

  predicate SingleLines(lines: seq<string>)
  {
    forall k :: 0 <= k < |lines| ==> SingleLine(lines[k])
  }

  /** `[t.strip() for t in lines if t.strip()]` */
  function NonBlank(lines: seq<string>): seq<string>
  {
    if lines == [] then []
    else
      var t := Strip(lines[|lines| - 1]);
      NonBlank(lines[..|lines| - 1]) + (if t != [] then [t] else [])
  }

  /** The non-blank stripped lines of the title cell's text once every `Titel:` is removed. */
  function TitleLines(text: string): seq<string>
  {
    NonBlank(SplitLines(Strip(Replace(text, "Titel:", ""))))
  }

  /** `title[0]` raises on a cell without a non-blank line (vkbl_scraper.py:95). */
  predicate TitleOk(text: string)
  {
    |TitleLines(text)| > 0
  }

  /** `title, description = title[0], '\n'.join(title[1:])` (vkbl_scraper.py:92-95). */
  function SplitTitle(text: string): (string, string)
    requires TitleOk(text)
  {
    var ts := TitleLines(text);
    (ts[0], Join(ts[1..], "\n"))
  }

  /** A line `NonBlank` keeps: non-empty, already stripped, and without a line boundary. */
  predicate KeptLine(t: string)
  {
    t != [] && Strip(t) == t && SingleLine(t)
  }

  lemma StripKept(line: string)
    requires SingleLine(line) && Strip(line) != []
    ensures KeptLine(Strip(line))
  {
    var t := Strip(line);
    StripFacts(line);
    StripFacts(t);
    forall j | 0 <= j < |t|
      ensures !IsLineBoundary(t[j])
    {
      assert t[j] in line;
    }
  }

  lemma {:induction false} NonBlankFacts(lines: seq<string>)
    requires SingleLines(lines)
    ensures forall k :: 0 <= k < |NonBlank(lines)| ==> KeptLine(NonBlank(lines)[k])
    ensures |NonBlank(lines)| <= |lines|
  {
    if lines != [] {
      var init := lines[..|lines| - 1];
      var last := lines[|lines| - 1];
      assert SingleLines(init) by {
        forall k | 0 <= k < |init|
          ensures SingleLine(init[k])
        {
          assert init[k] == lines[k];
        }
      }
      NonBlankFacts(init);
      var t := Strip(last);
      if t != [] {
        assert SingleLine(last);
        StripKept(last);
        assert NonBlank(lines) == NonBlank(init) + [t];
      } else {
        assert NonBlank(lines) == NonBlank(init) + [];
      }
    }
  }

  /** Every title line is non-empty, stripped and a single line. */
  lemma TitleLinesFacts(text: string)
    ensures forall k :: 0 <= k < |TitleLines(text)| ==> KeptLine(TitleLines(text)[k])
  {
    var ls := SplitLines(Strip(Replace(text, "Titel:", "")));
    assert SingleLines(ls) by {
      forall k | 0 <= k < |ls|
        ensures SingleLine(ls[k])
      {
      }
    }
    NonBlankFacts(ls);
  }

  /**
   * The title is the first kept line; the description splits back at `'\n'`
   * into exactly the remaining kept lines, and is empty when there are none.
   */
  lemma SplitTitleFacts(text: string)
    requires TitleOk(text)
    ensures KeptLine(SplitTitle(text).0) && SplitTitle(text).0 == TitleLines(text)[0]
    ensures |TitleLines(text)| == 1 ==> SplitTitle(text).1 == ""
    ensures |TitleLines(text)| > 1 ==> Split(SplitTitle(text).1, "\n") == TitleLines(text)[1..]
  {
    var ts := TitleLines(text);
    TitleLinesFacts(text);
    assert KeptLine(ts[0]);
    if |ts| > 1 {
      var rest := ts[1..];
      forall i | 0 <= i < |rest|
        ensures '\n' !in rest[i]
      {
        assert KeptLine(ts[i + 1]);
      }
      SplitJoin(rest, '\n');
    }
  }

  // ================================================================ rows and items

  /**
   * A row after the title: two cells give a field (the texts of the key and
   * the value cell), one cell with the orange order image gives the order
   * link (the `href` of its first anchor); any other row is skipped.
   */
  datatype Row = Field(key: string, value: string) | Order(href: string) | Other

  /** The assignments to a dictionary, in program order. */
  type Writes<V> = seq<(string, V)>

  /** The dictionary the writes leave, starting from `{}`. */
  function Assign<V>(ws: Writes<V>): map<string, V>
  {
    if ws == [] then map[] else Assign(ws[..|ws| - 1])[ws[|ws| - 1].0 := ws[|ws| - 1].1]
  }

  lemma AssignSnoc<V>(ws: Writes<V>, k: string, v: V)
    ensures Assign(ws + [(k, v)]) == Assign(ws)[k := v]
  {
    assert (ws + [(k, v)])[..|ws|] == ws;
  }

  /** A key is in the dictionary exactly when some write names it. */
  lemma {:induction false} AssignKeys<V>(ws: Writes<V>, k: string)
    ensures k in Assign(ws) <==> exists i :: 0 <= i < |ws| && ws[i].0 == k
  {
    if ws != [] {
      var init := ws[..|ws| - 1];
      AssignKeys(init, k);
      if k in Assign(init) {
        var i :| 0 <= i < |init| && init[i].0 == k;
        assert ws[i].0 == k;
      }
      if exists i :: 0 <= i < |ws| && ws[i].0 == k {
        var i :| 0 <= i < |ws| && ws[i].0 == k;
        if i < |init| {
          assert init[i].0 == k;
        }
      }
    }
  }

  /** The value under a key is the one its last write gave: a later write replaces an earlier one. */
  lemma {:induction false} AssignLast<V>(ws: Writes<V>, j: nat)
    requires j < |ws|
    requires forall i :: j < i < |ws| ==> ws[i].0 != ws[j].0
    ensures ws[j].0 in Assign(ws) && Assign(ws)[ws[j].0] == ws[j].1
  {
    if j < |ws| - 1 {
      var init := ws[..|ws| - 1];
      assert init[j] == ws[j];
      forall i | j < i < |init|
        ensures init[i].0 != init[j].0
      {
        assert init[i] == ws[i];
      }
      AssignLast(init, j);
    }
  }

  /** `link.split('=')[-1]` */
  function LastPiece(s: string): string
  {
    var ps := Split(s, "=");
    ps[|ps| - 1]
  }

  /** The field name a key cell gives: `slugify(key.replace(':', '').strip())`. */
  function FieldName(key: string): string
  {
    Slugify(Strip(Replace(key, ":", "")))
  }

  /** The writes one row makes to `extra` (vkbl_scraper.py:98-111); price and page count are not modelled. */
  function RowWrites(row: Row): Writes<string>
  {
    match row
    case Field(key, value) => [(FieldName(key), Strip(value))]
    case Order(href) => [("link", href), ("vid", LastPiece(href))]
    case Other => []
  }

  function RowsWrites(rows: seq<Row>): Writes<string>
  {
    if rows == [] then [] else RowsWrites(rows[..|rows| - 1]) + RowWrites(rows[|rows| - 1])
  }

  lemma RowsWritesSnoc(rows: seq<Row>, i: nat)
    requires i < |rows|
    ensures RowsWrites(rows[..i + 1]) == RowsWrites(rows[..i]) + RowWrites(rows[i])
  {
    assert rows[..i + 1][..i] == rows[..i];
  }

  /** A table of the listing: the text of its header cell, its title cell, and its remaining rows. */
  datatype Table = Table(header: string, title: Elem, rows: seq<Row>)

  /** The table's header and title split without raising. */
  predicate TableOk(t: Table)
  {
    HeaderOk(Strip(t.header)) && TitleOk(CTextOf(t.title))
  }

  type Item = map<string, string>

  /** `data = dict(extra); data.update({...})` with the four fixed fields. */
  function WithFixed(extra: Item, genre: string, edition: string, title: string, description: string): Item
  {
    extra["genre" := genre]["edition" := edition]["title" := title]["description" := description]
  }

  /** The fixed fields override the extra ones; every other extra field is kept as it is. */
  lemma WithFixedFacts(extra: Item, genre: string, edition: string, title: string, description: string)
    ensures var d := WithFixed(extra, genre, edition, title, description);
      d.Keys == extra.Keys + {"genre", "edition", "title", "description"}
      && d["genre"] == genre && d["edition"] == edition && d["title"] == title && d["description"] == description
      && forall k :: k in extra && k !in {"genre", "edition", "title", "description"} ==> d[k] == extra[k]
  {
  }

  /** `data` of one table (vkbl_scraper.py:84-118). */
  function ItemOf(t: Table): Item
    requires TableOk(t)
  {
    var h := SplitHeader(Strip(t.header));
    var ti := SplitTitle(CTextOf(t.title));
    WithFixed(Assign(RowsWrites(t.rows)), h.0, h.1, ti.0, ti.1)
  }

  lemma {:induction false} RowsWritesSlugs(rows: seq<Row>)
    ensures forall i :: 0 <= i < |RowsWrites(rows)| ==> IsSlug(RowsWrites(rows)[i].0)
  {
    if rows != [] {
      RowsWritesSlugs(rows[..|rows| - 1]);
      match rows[|rows| - 1]
      case Field(key, _) =>
        SlugifyFacts(Strip(Replace(key, ":", "")));
      case Order(_) =>
      case Other =>
    }
  }

  /** Every key of an item is a slug, and the four fixed fields hold the header and title parts. */
  lemma ItemOfFacts(t: Table)
    requires TableOk(t)
    ensures forall k :: k in ItemOf(t) ==> IsSlug(k)
    ensures ItemOf(t)["genre"] == SplitHeader(Strip(t.header)).0
    ensures ItemOf(t)["edition"] == SplitHeader(Strip(t.header)).1
    ensures ItemOf(t)["title"] == SplitTitle(CTextOf(t.title)).0
    ensures ItemOf(t)["description"] == SplitTitle(CTextOf(t.title)).1
  {
    var ws := RowsWrites(t.rows);
    var h := SplitHeader(Strip(t.header));
    var ti := SplitTitle(CTextOf(t.title));
    assert ItemOf(t) == WithFixed(Assign(ws), h.0, h.1, ti.0, ti.1);
    WithFixedFacts(Assign(ws), h.0, h.1, ti.0, ti.1);
    RowsWritesSlugs(t.rows);
    AssignSlugs(ws);
    WithFixedSlugs(Assign(ws), h.0, h.1, ti.0, ti.1);
  }

  lemma AssignSlugs(ws: Writes<string>)
    requires forall i :: 0 <= i < |ws| ==> IsSlug(ws[i].0)
    ensures forall k :: k in Assign(ws) ==> IsSlug(k)
  {
    forall k | k in Assign(ws)
      ensures IsSlug(k)
    {
      AssignKeys(ws, k);
      var i :| 0 <= i < |ws| && ws[i].0 == k;
    }
  }

  lemma WithFixedSlugs(extra: Item, genre: string, edition: string, title: string, description: string)
    requires forall k :: k in extra ==> IsSlug(k)
    ensures forall k :: k in WithFixed(extra, genre, edition, title, description) ==> IsSlug(k)
  {
    assert IsSlug("genre") && IsSlug("edition") && IsSlug("title") && IsSlug("description");
  }

  /** An extra field comes from the last row that writes it, unless one of the four fixed fields covers it. */
  lemma ItemOfExtra(t: Table, j: nat)
    requires TableOk(t)
    requires j < |RowsWrites(t.rows)|
    requires forall i :: j < i < |RowsWrites(t.rows)| ==> RowsWrites(t.rows)[i].0 != RowsWrites(t.rows)[j].0
    requires RowsWrites(t.rows)[j].0 !in {"genre", "edition", "title", "description"}
    ensures RowsWrites(t.rows)[j].0 in ItemOf(t) && ItemOf(t)[RowsWrites(t.rows)[j].0] == RowsWrites(t.rows)[j].1
  {
    var ws := RowsWrites(t.rows);
    var h := SplitHeader(Strip(t.header));
    var ti := SplitTitle(CTextOf(t.title));
    assert ItemOf(t) == WithFixed(Assign(ws), h.0, h.1, ti.0, ti.1);
    WithFixedFacts(Assign(ws), h.0, h.1, ti.0, ti.1);
    AssignLast(ws, j);
  }

  /** `data.get(name, '')` */
  function Get(data: Item, name: string): string
  {
    if name in data then data[name] else ""
  }

  /** The four fields that identify an item. */
  function KeyFields(data: Item): seq<string>
  {
    [Get(data, "jahr"), Get(data, "vonummer"), Get(data, "seite"), Get(data, "aktenzeichen")]
  }

  /** `f"{year}.{vonnummer}.{seite}.{aktenzeichen}"` (vkbl_scraper.py:120-124). */
  function ItemKey(data: Item): string
  {
    Get(data, "jahr") + "." + Get(data, "vonummer") + "." + Get(data, "seite") + "." + Get(data, "aktenzeichen")
  }

  /** When no key field holds a dot, the key splits back into the four fields, missing ones as `''`. */
  lemma ItemKeyFields(data: Item)
    requires forall i :: 0 <= i < 4 ==> '.' !in KeyFields(data)[i]
    ensures Split(ItemKey(data), ".") == KeyFields(data)
  {
    var fs := KeyFields(data);
    JoinFour(fs[0], fs[1], fs[2], fs[3]);
    assert fs == [fs[0], fs[1], fs[2], fs[3]];
    SplitJoin(fs, '.');
  }

  lemma JoinFour(a: string, b: string, c: string, d: string)
    ensures Join([a, b, c, d], ".") == a + "." + b + "." + c + "." + d
  {
    assert Join([d], ".") == d;
    JoinCons(c, [d], ".");
    assert [c] + [d] == [c, d];
    JoinCons(b, [c, d], ".");
    assert [b] + [c, d] == [b, c, d];
    JoinCons(a, [b, c, d], ".");
    assert [a] + [b, c, d] == [a, b, c, d];
    AppendAfter(a + ".", b + ".", c + ".", d);
  }

  function KeyOf(t: Table): string
    requires TableOk(t)
  {
    ItemKey(ItemOf(t))
  }

  predicate AllOk(tables: seq<Table>)
  {
    forall i :: 0 <= i < |tables| ==> TableOk(tables[i])
  }

  /** The writes the tables make to `items`, in order. */
  function ItemWrites(tables: seq<Table>): Writes<Item>
    requires AllOk(tables)
  {
    if tables == [] then []
    else
      var t := tables[|tables| - 1];
      ItemWrites(tables[..|tables| - 1]) + [(KeyOf(t), ItemOf(t))]
  }

  lemma ItemWritesSnoc(tables: seq<Table>, i: nat)
    requires AllOk(tables) && i < |tables|
    ensures AllOk(tables[..i]) && AllOk(tables[..i + 1])
    ensures ItemWrites(tables[..i + 1]) == ItemWrites(tables[..i]) + [(KeyOf(tables[i]), ItemOf(tables[i]))]
  {
    assert tables[..i + 1][..i] == tables[..i];
  }

  lemma {:induction false} ItemWritesLength(tables: seq<Table>)
    requires AllOk(tables)
    ensures |ItemWrites(tables)| == |tables|
  {
    if tables != [] {
      ItemWritesLength(tables[..|tables| - 1]);
    }
  }

  lemma {:induction false} ItemWritesAt(tables: seq<Table>, i: nat)
    requires AllOk(tables) && i < |tables|
    ensures |ItemWrites(tables)| == |tables|
    ensures ItemWrites(tables)[i] == (KeyOf(tables[i]), ItemOf(tables[i]))
  {
    var init := tables[..|tables| - 1];
    ItemWritesLength(init);
    if i < |tables| - 1 {
      ItemWritesAt(init, i);
    }
  }

  /** The `items` dictionary `scrape` returns. */
  function Items(tables: seq<Table>): map<string, Item>
    requires AllOk(tables)
  {
    Assign(ItemWrites(tables))
  }

  /** An item is stored under a key exactly when some table has that key. */
  lemma ItemsKeys(tables: seq<Table>, k: string)
    requires AllOk(tables)
    ensures k in Items(tables) <==> exists i :: 0 <= i < |tables| && KeyOf(tables[i]) == k
  {
    var ws := ItemWrites(tables);
    AssignKeys(ws, k);
    ItemWritesLength(tables);
    if exists i :: 0 <= i < |tables| && KeyOf(tables[i]) == k {
      var i :| 0 <= i < |tables| && KeyOf(tables[i]) == k;
      ItemWritesAt(tables, i);
      assert ws[i].0 == k;
    }
    if exists i :: 0 <= i < |ws| && ws[i].0 == k {
      var i :| 0 <= i < |ws| && ws[i].0 == k;
      ItemWritesAt(tables, i);
      assert KeyOf(tables[i]) == k;
    }
  }

  /** A later table with the same key replaces the earlier one (vkbl_scraper.py:125). */
  lemma ItemsLast(tables: seq<Table>, j: nat)
    requires AllOk(tables) && j < |tables|
    requires forall i :: j < i < |tables| ==> KeyOf(tables[i]) != KeyOf(tables[j])
    ensures KeyOf(tables[j]) in Items(tables) && Items(tables)[KeyOf(tables[j])] == ItemOf(tables[j])
  {
    var ws := ItemWrites(tables);
    ItemWritesAt(tables, j);
    forall i | j < i < |ws|
      ensures ws[i].0 != ws[j].0
    {
      ItemWritesAt(tables, i);
    }
    AssignLast(ws, j);
  }

  /** The `extra` loop of `scrape` over the rows of one table (vkbl_scraper.py:97-111). */
  method ExtraFields(rows: seq<Row>) returns (extra: Item)
    ensures extra == Assign(RowsWrites(rows))
  {
    extra := map[];
    var i := 0;
    assert rows[..0] == [];
    while i < |rows|
      invariant i <= |rows|
      invariant extra == Assign(RowsWrites(rows[..i]))
    {
      RowsWritesSnoc(rows, i);
      extra := AddRow(extra, RowsWrites(rows[..i]), rows[i]);
      i := i + 1;
    }
    assert rows[..|rows|] == rows;
  }

  /** One pass of the `extra` loop: the writes of one row after the earlier writes `ws`. */
  method AddRow(extra: Item, ghost ws: Writes<string>, row: Row) returns (r: Item)
    requires extra == Assign(ws)
    ensures r == Assign(ws + RowWrites(row))
  {
    match row {
      case Field(key, value) =>
        AssignSnoc(ws, FieldName(key), Strip(value));
        r := extra[Slugify(Strip(Replace(key, ":", ""))) := Strip(value)];
      case Order(href) =>
        ghost var link := [("link", href)];
        AssignSnoc(ws, "link", href);
        r := extra["link" := href];
        assert r["link"] == href;
        AssignSnoc(ws + link, "vid", LastPiece(href));
        r := r["vid" := LastPiece(r["link"])];
        assert ws + link + [("vid", LastPiece(href))] == ws + RowWrites(row);
      case Other =>
        assert ws + [] == ws;
        r := extra;
    }
  }

  /** One table's item from its header, title and rows (vkbl_scraper.py:84-118). */
  method TableItem(t: Table) returns (data: Item)
    requires TableOk(t)
    ensures data == ItemOf(t)
  {
    var (genre, edition) := SplitHeader(Strip(t.header));
    var text := CText(t.title);
    var (title, description) := SplitTitle(text);
    var extra := ExtraFields(t.rows);
    data := WithFixed(extra, genre, edition, title, description);
  }

  /** The `items` loop of `scrape` over the tables of the listing, in order (vkbl_scraper.py:81-125). */
  method Scrape(tables: seq<Table>) returns (items: map<string, Item>)
    requires AllOk(tables)
    ensures items == Items(tables)
  {
    items := map[];
    var i := 0;
    assert tables[..0] == [];
    while i < |tables|
      invariant i <= |tables| && AllOk(tables[..i])
      invariant items == Assign(ItemWrites(tables[..i]))
    {
      ItemWritesSnoc(tables, i);
      var data := TableItem(tables[i]);
      AssignSnoc(ItemWrites(tables[..i]), ItemKey(data), data);
      items := items[ItemKey(data) := data];
      i := i + 1;
    }
    assert tables[..|tables|] == tables;
  }
}
