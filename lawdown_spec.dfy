/**
 * The `LawToMarkdown` SAX content handler of lawdown.py as a pure state
 * machine: one function per callback and helper, each taking the handler's
 * fields (`St`) to their new values.  The output file is the string `out`
 * that every write appends to.  `textwrap.wrap` and `yaml.safe_dump` are
 * given as the functions `wrap` and `dump` of the configuration.
 */
module LawDownSpec {
  import opened Wrappers
  import opened Strings
  import opened Emphasis
  import opened Markup

  /** The entries of the handler's `state` stack; `Root` is the `None` it starts with. */
  datatype Context = Root | Meta | Text | Footnotes | Table

  /** The SAX callbacks the parser makes. */
  datatype Event = Start(name: string, attrs: map<string, string>) | End(name: string) | Chars(data: string)

  /** The constructor arguments and the two library functions the handler calls. */
  datatype Config = Config(
    yamlHeader: map<string, string>,
    headingAnchor: bool,
    origSlug: string,
    wrap: string -> seq<string>,
    dump: map<string, string> -> string)

  /** The handler's fields (lawdown.py:46-61, 156, 180, 473) and the output written so far. */
  datatype St = St(
    state: seq<Context>,
    text: string,
    currentText: string,
    listIndex: string,
    firstMeta: bool,
    ignoreUntil: Option<string>,
    indentLevel: int,
    inListItem: int,
    inListIndex: bool,
    noTag: bool,
    lastListIndex: Option<string>,
    footnotes: set<string>,
    currentHeadingNum: int,
    currentFootnote: Option<string>,
    meta: map<string, seq<string>>,
    tableHeader: Option<string>,
    filename: Option<string>,
    out: string)

  const IndentBy := "    "
  /** The two-character line-break placeholder `\ ` the handler keeps in `text`. */
  const Placeholder := "\\ "
  /** The `enbez` of a table of contents. */
  const Toc := "Inhalts\U{FC}bersicht"

  /** A handler for one document, with the class attributes' initial values. */
  function Fresh(): (r: St)
    ensures Inv(r) && r.out == "" && r.footnotes == {} && r.ignoreUntil == None
  {
    St([Root], "", "", "", true, None, 0, 0, false, true, None, {}, 1, None, map[], None, None, "")
  }

  /**
   * What every callback keeps: the stack still holds its bottom entry and
   * the remembered heading depth is positive.
   */
  predicate Inv(st: St)
  {
    |st.state| >= 1 && st.state[0] == Root && st.currentHeadingNum >= 1
  }

  /** Every metadata key has at least one value (keys only appear by appending). */
  predicate MetaOk(meta: map<string, seq<string>>)
  {
    forall k :: k in meta ==> meta[k] != []
  }

  function Top(st: St): Context
    requires |st.state| >= 1
  {
    st.state[|st.state| - 1]
  }

  function Pop(st: St): St
    requires |st.state| >= 1
  {
    st.(state := st.state[..|st.state| - 1])
  }

  function Indent(n: int): string
  {
    Repeat(IndentBy, n)
  }

  function Out(st: St, content: string): St
  {
    st.(out := st.out + content)
  }

  /** `write`: the content and, unless `nobreak`, a newline. */
  function Write(st: St, content: string, nobreak: bool): St
  {
    st.(out := st.out + content + (if nobreak then "" else "\n"))
  }

  // ---------------------------------------------------------------- write_wrapped

  /** The offset of the first line after a list marker: a space and then up to four columns in all. */
  function FirstIndent(marker: string): (r: string)
    ensures |r| == 1 + if |marker| < 3 then 3 - |marker| else 0
    ensures forall i :: 0 <= i < |r| ==> r[i] == ' '
  {
    var spaceCount := if |IndentBy| - (|marker| + 1) > 0 then |IndentBy| - (|marker| + 1) else 0;
    " " + IndentBy[..spaceCount]
  }

  /** One line written by `write_wrapped`: after the marker offset, or indented with a leading number escaped. */
  function WrappedLine(first: bool, firstIndent: string, line: string, indent: int): string
  {
    if first && |firstIndent| > 0 then firstIndent + line + "\n"
    else Indent(indent) + EscapeListStart(line) + "\n"
  }

  /** The lines of `write_wrapped`'s loop, in order. */
  function WrappedText(lines: seq<string>, firstIndent: string, indent: int): string
    decreases |lines|
  {
    if lines == [] then ""
    else WrappedText(lines[..|lines| - 1], firstIndent, indent) + WrappedLine(|lines| == 1, firstIndent, lines[|lines| - 1], indent)
  }

  /** One more line of `write_wrapped`'s loop, written after `before`. */
  lemma WrappedTextStep(before: string, lines: seq<string>, i: nat, firstIndent: string, indent: int)
    requires i < |lines|
    ensures before + WrappedText(lines[..i + 1], firstIndent, indent)
         == before + WrappedText(lines[..i], firstIndent, indent) + WrappedLine(i == 0, firstIndent, lines[i], indent)
  {
    var l := lines[..i + 1];
    assert l[..|l| - 1] == lines[..i];
    assert l[|l| - 1] == lines[i] && (|l| == 1) == (i == 0);
    assert WrappedText(l, firstIndent, indent)
        == WrappedText(lines[..i], firstIndent, indent) + WrappedLine(i == 0, firstIndent, lines[i], indent);
  }

  /** `write_wrapped(text, nobreak=...)` at the current indentation. */
  function WriteWrapped(cfg: Config, st: St, text: string, nobreak: bool): (r: St)
    ensures r == st.(out := r.out, lastListIndex := None)
    ensures st.out <= r.out
  {
    var fi := if st.lastListIndex.Some? then FirstIndent(st.lastListIndex.value) else "";
    if nobreak then st.(lastListIndex := None, out := st.out + Indent(st.indentLevel) + text)
    else st.(lastListIndex := None, out := st.out + WrappedText(cfg.wrap(text), fi, st.indentLevel))
  }

  // ---------------------------------------------------------------- flush_text

  /**
   * `flush_text`: the buffered text split at its line-break placeholders; the
   * first block at the current indentation, the others one level deeper and
   * each followed by a newline.
   */
  function FlushText(cfg: Config, st: St, nobreak: bool): (r: St)
    ensures r == st.(text := "", out := r.out, lastListIndex := r.lastListIndex)
    decreases |st.text|, 1
  {
    var s1 := if |Split(st.text, Placeholder)| > 1 then FlushSplit(cfg, st, nobreak) else st;
    var s2 := if |Strip(s1.text)| > 0 then WriteWrapped(cfg, s1, s1.text, nobreak) else s1;
    s2.(text := "")
  }

  /** The blocks of a text whose last one has its placeholders undone and is stripped. */
  function Blocks(text: string): (bs: seq<string>)
    requires |Split(text, Placeholder)| > 1
    ensures |bs| == |Split(text, Placeholder)| && bs[0] == Split(text, Placeholder)[0]
    ensures forall i :: 0 <= i < |bs| ==> |bs[i]| < |text|
  {
    var blocks := Split(text, Placeholder);
    var last := blocks[|blocks| - 1];
    SplitPieceLength(text, Placeholder);
    ReplaceNoLonger(last, Placeholder, " ");
    blocks[|blocks| - 1 := Strip(Replace(last, Placeholder, " "))]
  }

  /** The branch of `flush_text` for a text holding a placeholder (lawdown.py:119-135). */
  function FlushSplit(cfg: Config, st: St, nobreak: bool): (r: St)
    requires |Split(st.text, Placeholder)| > 1
    ensures r == st.(text := "", out := r.out, lastListIndex := r.lastListIndex)
    decreases |st.text|, 0
  {
    var bs := Blocks(st.text);
    var s1 := FlushText(cfg, st.(text := bs[0]), nobreak);
    var deeper := |bs[0]| > 0;
    var s3 := FlushBlocks(cfg, Deeper(s1, deeper), bs, 1, nobreak, |st.text|);
    Shallower(s3, deeper)
  }

  /** After a non-empty first block: a newline, and the later blocks one level deeper. */
  function Deeper(st: St, nonEmpty: bool): (r: St)
    ensures r == st.(out := r.out, indentLevel := if nonEmpty then st.indentLevel + 1 else st.indentLevel)
    ensures st.out <= r.out
  {
    if nonEmpty then Write(st, "", false).(indentLevel := st.indentLevel + 1) else st
  }

  /** The indentation `Deeper` added, taken back. */
  function Shallower(st: St, nonEmpty: bool): (r: St)
    ensures r == st.(indentLevel := if nonEmpty then st.indentLevel - 1 else st.indentLevel)
  {
    if nonEmpty then st.(indentLevel := st.indentLevel - 1) else st
  }

  /** The loop over the blocks after the first (lawdown.py:129-132): blocks `k` and on. */
  function FlushBlocks(cfg: Config, st: St, bs: seq<string>, k: nat, nobreak: bool, bound: nat): (r: St)
    requires st.text == ""
    requires forall i :: 0 <= i < |bs| ==> |bs[i]| < bound
    ensures r == st.(out := r.out, lastListIndex := r.lastListIndex)
    decreases bound, 0, |bs| - k
  {
    if k >= |bs| then st
    else FlushBlocks(cfg, FlushBlock(cfg, st, bs[k], nobreak), bs, k + 1, nobreak, bound)
  }

  /** One block after the first: flushed on its own and followed by a newline. */
  function FlushBlock(cfg: Config, st: St, block: string, nobreak: bool): (r: St)
    ensures r == st.(text := "", out := r.out, lastListIndex := r.lastListIndex)
    decreases |block|, 2
  {
    Write(FlushText(cfg, st.(text := block), nobreak), "", false)
  }

  // ---------------------------------------------------------------- small helpers of the callbacks

  /** The buffer merge both element callbacks start with (lawdown.py:171-173, 248-250). */
  function Merge(st: St): St
  {
    st.(text := Strip(Replace(st.text + st.currentText, "\n", " ")), currentText := "")
  }

  /** `write_list_item`: the pending marker one level out, remembered for the next wrapped line. */
  function WriteListItem(st: St): St
  {
    st.(lastListIndex := Some(st.listIndex), out := st.out + Indent(st.indentLevel - 1) + st.listIndex, listIndex := "")
  }

  /** An anchor `[^ID]` and its newline, the first time the ID is seen. */
  function FootnoteRef(st: St, id: string): St
  {
    if id in st.footnotes then st
    else Write(st.(footnotes := st.footnotes + {id}), "[^" + id + "]", false)
  }

  /** Strips the part after the last `sep`, when there is one. */
  function StripLast(t: string, sep: string): string
    requires sep != []
  {
    var b := Split(t, sep);
    if |b| > 1 then Join(b[..|b| - 1] + [Strip(b[|b| - 1])], sep) else t
  }

  /** The text of a table cell at a `br` start (lawdown.py:193-200). */
  function TableBreak(t: string): string
  {
    StripLast(StripLast(t, "| "), Placeholder)
  }

  /** The text at a `br` close outside a table (lawdown.py:295-299). */
  function BreakText(t: string): string
  {
    var b := Split(t, " \\ ");
    var u := if |b| > 1 then Join(b[..|b| - 1] + [Strip(Replace(b[|b| - 1], Placeholder, " "))], " \\ ") else t;
    u + " \\ "
  }

  /** The text of a table cell at its close: line breaks become spaces (lawdown.py:309-312). */
  function CellText(t: string): string
  {
    var b := Split(t, Placeholder);
    if |b| > 1 then Join(b[..|b| - 1] + [Strip(b[|b| - 1])], " ") else t
  }

  /** The inline markup an element close puts around the element's text (lawdown.py:240-245). */
  function Decorate(name: string, cur: string): string
  {
    if name == "u" then " *" + Strip(cur) + "* "
    else if name == "f" then "*"
    else if name == "b" then " **" + Strip(cur) + "** "
    else cur
  }

  function AppendMeta(meta: map<string, seq<string>>, key: string, value: string): (r: map<string, seq<string>>)
    ensures r.Keys == meta.Keys + {key}
    ensures r[key] == (if key in meta then meta[key] else []) + [value]
    ensures forall k :: k in meta && k != key ==> r[k] == meta[k]
  {
    meta[key := (if key in meta then meta[key] else []) + [value]]
  }

  // ---------------------------------------------------------------- headers

  /** The fields of the document's front matter before the YAML options are applied (lawdown.py:378-383). */
  function HeaderFields(cfg: Config, title: string, jurabk: string): seq<(string, string)>
  {
    [("Title", title), ("origslug", cfg.origSlug), ("jurabk", jurabk), ("slug", Slug(jurabk))]
  }

  function FieldMap(fields: seq<(string, string)>): map<string, string>
  {
    if fields == [] then map[] else FieldMap(fields[..|fields| - 1])[fields[|fields| - 1].0 := fields[|fields| - 1].1]
  }

  /** `key: value`, without its newline. */
  function FieldLine(field: (string, string)): string
  {
    field.0 + ": " + field.1
  }

  /** `key: value` lines, in order. */
  function FieldLines(fields: seq<(string, string)>): string
  {
    if fields == [] then "" else FieldLines(fields[..|fields| - 1]) + FieldLine(fields[|fields| - 1]) + "\n"
  }

  /** One more field line, written after `before`. */
  lemma FieldLinesStep(before: string, fields: seq<(string, string)>, i: nat)
    requires i < |fields|
    ensures before + FieldLines(fields[..i + 1]) == before + FieldLines(fields[..i]) + FieldLine(fields[i]) + "\n"
  {
    var l := fields[..i + 1];
    assert l[..|l| - 1] == fields[..i] && l[|l| - 1] == fields[i];
    assert FieldLines(l) == FieldLines(fields[..i]) + FieldLine(fields[i]) + "\n";
  }

  /** The front matter: the YAML dump of the fields overridden by the options, or plain field lines without options. */
  function WriteFrontMatter(cfg: Config, st: St, title: string, jurabk: string): (r: St)
    ensures r == st.(out := r.out)
  {
    var fields := HeaderFields(cfg, title, jurabk);
    if |cfg.yamlHeader| > 0 then Write(Out(st, cfg.dump(FieldMap(fields) + cfg.yamlHeader)), "\n---", false)
    else Out(st, FieldLines(fields))
  }

  /** One `standkommentar` line without its last newline: `K durch` with `K` capitalised and a definition, or `Stand: …`. */
  function StandLine(t: string): string
  {
    var i := Find(t, " durch ");
    if i < 0 then "Stand: " + t
    else Capitalize(t[..i]) + " durch\n:   " + t[i + 7..] + "\n"
  }

  function StandLines(ts: seq<string>): string
  {
    if ts == [] then "" else StandLines(ts[..|ts| - 1]) + StandLine(ts[|ts| - 1]) + "\n"
  }

  /** One more comment line, written after `before`. */
  lemma StandLinesStep(before: string, ts: seq<string>, i: nat)
    requires i < |ts|
    ensures before + StandLines(ts[..i + 1]) == before + StandLines(ts[..i]) + StandLine(ts[i]) + "\n"
  {
    var l := ts[..i + 1];
    assert l[..|l| - 1] == ts[..i] && l[|l| - 1] == ts[i];
    assert StandLines(l) == StandLines(ts[..i]) + StandLine(ts[i]) + "\n";
    AppendAfter(before, StandLines(ts[..i]), StandLine(ts[i]), "\n");
  }

  /** The first value stored under `key` (every stored key has one). */
  function First(meta: map<string, seq<string>>, key: string): string
  {
    if key in meta && meta[key] != [] then meta[key][0] else ""
  }

  /** The document heading `# Title (ABK)` between blank lines. */
  function WriteTitleLines(st: St, title: string, jurabk: string): (r: St)
    ensures r == st.(out := r.out)
  {
    Write(Write(Write(st, "", false), "# " + title + " (" + jurabk + ")", false), "", false)
  }

  /** The optional `Ausfertigungsdatum` and `Fundstelle` definitions (lawdown.py:402-406). */
  function WriteDateLines(st: St): (r: St)
    ensures r == st.(out := r.out)
  {
    var meta := st.meta;
    var s1 := if "ausfertigung-datum" in meta
      then Write(st, "Ausfertigungsdatum\n:   " + First(meta, "ausfertigung-datum") + "\n", false) else st;
    if "periodikum" in meta && "zitstelle" in meta
    then Write(s1, "Fundstelle\n:   " + First(meta, "periodikum") + ": " + First(meta, "zitstelle") + "\n", false) else s1
  }

  /** The comment lines: the `standkommentar` values in order. */
  function Comments(meta: map<string, seq<string>>): seq<string>
  {
    if "standkommentar" in meta then meta["standkommentar"] else []
  }

  /** `write_big_header`: the slug is stored and the document header written, part by part. */
  function WriteBigHeader(cfg: Config, st: St): (r: St)
    requires "jurabk" in st.meta && "langue" in st.meta
    ensures r == st.(filename := r.filename, out := r.out, text := "")
  {
    var jurabk := First(st.meta, "jurabk");
    var title := CleanTitle(First(st.meta, "langue"));
    var s1 := st.(filename := Some(Slug(jurabk)));
    var s2 := WriteTitleLines(WriteFrontMatter(cfg, s1, title, jurabk), title, jurabk);
    var s3 := Out(WriteDateLines(s2), StandLines(Comments(st.meta)));
    s3.(text := "")
  }

  /** The title of a section heading (lawdown.py:425-445). */
  function NormTitle(meta: map<string, seq<string>>): string
  {
    var t1 := if "gliederungsbez" in meta then First(meta, "gliederungsbez") else "";
    var t2 := if "gliederungstitel" in meta then (if |t1| > 0 then t1 + " - " + First(meta, "gliederungstitel") else First(meta, "gliederungstitel")) else t1;
    var t3 := if "enbez" in meta then First(meta, "enbez") else t2;
    if "titel" in meta then (if |t3| > 0 then t3 + " " + First(meta, "titel") else First(meta, "titel")) else t3
  }

  /** The text a heading anchor is made from: the `enbez`, else the `gliederungsbez` (lawdown.py:426-437). */
  function NormLink(meta: map<string, seq<string>>): string
  {
    if "enbez" in meta then First(meta, "enbez") else if "gliederungsbez" in meta then First(meta, "gliederungsbez") else ""
  }

  /** The heading depth before capping: from the structure code, or one below the remembered depth. */
  function HeadingNum(st: St): int
  {
    if "gliederungskennzahl" in st.meta then |First(st.meta, "gliederungskennzahl")| / 3 + 1
    else st.currentHeadingNum + 1
  }

  /** The heading line of a section: at most six `#`, the title and, with anchors on, the anchor. */
  function HeadingLine(cfg: Config, depth: int, title: string, link: string): string
  {
    var l := if cfg.headingAnchor && |link| > 0 then HeadingLink(link) else "";
    Repeat("#", if depth < 6 then depth else 6) + " " + title + l
  }

  /** The heading line between blank lines. */
  function WriteHeading(cfg: Config, st: St, depth: int, title: string, link: string): (r: St)
    ensures r == st.(out := r.out)
  {
    Write(Write(Write(st, "", false), HeadingLine(cfg, depth, title, link), false), "", false)
  }

  /** `write_norm_header`: a section heading between blank lines for every later metadata block with a title. */
  function WriteNormHeader(cfg: Config, st: St): (r: St)
    ensures r == st.(currentHeadingNum := r.currentHeadingNum, out := r.out)
    ensures r.currentHeadingNum == st.currentHeadingNum || r.currentHeadingNum >= 1
  {
    var d := HeadingNum(st);
    var s1 := if "gliederungskennzahl" in st.meta then st.(currentHeadingNum := d) else st;
    if |NormTitle(st.meta)| == 0 then s1
    else WriteHeading(cfg, s1, d, NormTitle(st.meta), NormLink(st.meta))
  }

  // ---------------------------------------------------------------- startElement

  /** What `startElement` needs to find so as not to raise (`attrs['ID']`, `attrs['SRC']`, `self.table_header`). */
  predicate StartOk(st: St, rawName: string, attrs: map<string, string>)
    requires |st.state| >= 1
  {
    NamedStartOk(st, Lower(rawName), attrs)
  }

  predicate NamedStartOk(st: St, name: string, attrs: map<string, string>)
    requires |st.state| >= 1
  {
    st.ignoreUntil.Some? || ((name == "fnr" && Top(st) != Meta ==> "ID" in attrs) && OpenOk(st, name, attrs))
  }

  /** What a start past the footnote reference needs: the footnote's ID, the table header, the image source. */
  predicate OpenOk(st: St, name: string, attrs: map<string, string>)
    requires |st.state| >= 1
  {
    (name == "footnote" && Top(st) == Footnotes ==> "ID" in attrs)
    && ((name == "colspec" || name == "tbody") && Top(st) != Footnotes ==> st.tableHeader.Some?)
    && (name == "img" && Top(st) != Footnotes ==> "SRC" in attrs)
  }

  /** A table start: the text so far is flushed and the header row begun (lawdown.py:175-180). */
  function StartTable(cfg: Config, s: St): (r: St)
    requires Inv(s)
    ensures Inv(r) && Top(r) == Table
    ensures r.meta == s.meta && r.firstMeta == s.firstMeta
  {
    var f := FlushText(cfg, s.(text := s.text + " "), false);
    f.(currentText := "|", state := f.state + [Table], tableHeader := Some("|"))
  }

  /** A `row` or `dd` start (lawdown.py:201-210). */
  function StartRow(cfg: Config, s: St, name: string): (r: St)
    requires Inv(s)
    ensures Inv(r)
    ensures r.meta == s.meta && r.firstMeta == s.firstMeta
  {
    var s1 := if name == "row" then
        (if Top(s) == Table then FlushText(cfg, s, false)
         else WriteListItem(s.(indentLevel := s.indentLevel + 1, listIndex := "*")))
      else s;
    s1.(inListItem := s1.inListItem + 1)
  }

  /** An `entry` start: a cell separator in a table, a bulleted item elsewhere (lawdown.py:211-218). */
  function StartEntry(s: St): (r: St)
    requires Inv(s)
    ensures Inv(r)
    ensures r.meta == s.meta && r.firstMeta == s.firstMeta
  {
    if Top(s) == Table then s.(currentText := s.currentText + " | ")
    else WriteListItem(s.(indentLevel := s.indentLevel + 1, inListItem := s.inListItem + 1, listIndex := "*"))
  }

  /** An `img` start: the Markdown image, inline in a table (lawdown.py:219-224). */
  function StartImg(cfg: Config, s: St, attrs: map<string, string>): (r: St)
    requires Inv(s) && "SRC" in attrs
    ensures Inv(r)
    ensures r.meta == s.meta && r.firstMeta == s.firstMeta
  {
    if Top(s) == Table then s.(currentText := s.currentText + " " + Image(attrs) + " ")
    else Out(FlushText(cfg, s, false), Image(attrs))
  }

  /** The Markdown image `![ALT](SRC)`; the alternative text defaults to the source. */
  function Image(attrs: map<string, string>): string
    requires "SRC" in attrs
  {
    var src := attrs["SRC"];
    var alt := if "ALT" in attrs then attrs["ALT"] else src;
    "![" + alt + "](" + src + ")"
  }

  /** The element-specific part of `startElement` after the buffer merge (lawdown.py:175-230). */
  function StartDispatch(cfg: Config, s: St, name: string, attrs: map<string, string>): (r: St)
    requires Inv(s)
    requires (name == "colspec" || name == "tbody") ==> s.tableHeader.Some?
    requires name == "img" ==> "SRC" in attrs
    ensures Inv(r)
    ensures r.meta == s.meta && r.firstMeta == s.firstMeta
  {
    if name == "table" then StartTable(cfg, s)
    else if name == "colspec" then
      s.(currentText := s.currentText + "       |", tableHeader := Some(s.tableHeader.value + " :---: |"))
    else if name == "tbody" then StartBody(cfg, s)
    else if name == "dl" then StartList(cfg, s)
    else if name == "br" then
      if Top(s) == Table then s.(text := TableBreak(s.text)) else s
    else StartItem(cfg, s, name, attrs)
  }

  /** A `tbody` start: the text so far flushed, and the header row and its alignment row begun. */
  function StartBody(cfg: Config, s: St): (r: St)
    requires Inv(s) && s.tableHeader.Some?
    ensures Inv(r)
    ensures r.meta == s.meta && r.firstMeta == s.firstMeta
  {
    var f := FlushText(cfg, s, false);
    f.(currentText := f.currentText + s.tableHeader.value)
  }

  /** A `dl` start: the text so far flushed, a newline, one level deeper. */
  function StartList(cfg: Config, s: St): (r: St)
    requires Inv(s)
    ensures Inv(r)
    ensures r.meta == s.meta && r.firstMeta == s.firstMeta
  {
    var f := Write(FlushText(cfg, s, false), "", false);
    f.(indentLevel := f.indentLevel + 1)
  }

  /** The list items, images and inline elements of `startElement`, and the flush before any other element. */
  function StartItem(cfg: Config, s: St, name: string, attrs: map<string, string>): (r: St)
    requires Inv(s)
    requires name == "img" ==> "SRC" in attrs
    ensures Inv(r)
    ensures r.meta == s.meta && r.firstMeta == s.firstMeta
  {
    if name == "row" || name == "dd" then StartRow(cfg, s, name)
    else if name == "entry" then StartEntry(s)
    else if name == "img" then StartImg(cfg, s, attrs)
    else if name == "dt" then s.(inListIndex := true)
    else if name == "u" || name == "b" || name == "f" || name == "tgroup" then s
    else FlushText(cfg, s, false)
  }

  /** `startElement(name, attrs)` */
  function StartElement(cfg: Config, st: St, rawName: string, attrs: map<string, string>): (r: St)
    requires Inv(st) && StartOk(st, rawName, attrs)
    ensures Inv(r)
  {
    StartNamed(cfg, st, Lower(rawName), attrs)
  }

  /** `startElement` once the name is lower-cased. */
  function StartNamed(cfg: Config, st: St, name: string, attrs: map<string, string>): (r: St)
    requires Inv(st) && NamedStartOk(st, name, attrs)
    ensures Inv(r)
  {
    var s := st.(noTag := false);
    if s.ignoreUntil.Some? then s
    else if name == "fnr" && Top(s) == Meta then s.(ignoreUntil := Some("fnr"))
    else StartOpen(cfg, s, name, attrs)
  }

  /** A start that is neither ignored nor a footnote reference in metadata (lawdown.py:154-230). */
  function StartOpen(cfg: Config, s: St, name: string, attrs: map<string, string>): (r: St)
    requires Inv(s) && OpenOk(s, name, attrs)
    requires name == "fnr" ==> "ID" in attrs
    ensures Inv(r) && r.firstMeta == s.firstMeta
  {
    var s1 := if name == "fnr" then FootnoteRef(s, attrs["ID"]) else s;
    var s2 := if name == "fussnoten" then s1.(ignoreUntil := Some("fussnoten")) else s1;
    if name == "metadaten" then s2.(meta := map[], state := s2.state + [Meta])
    else StartContent(cfg, s2, name, attrs)
  }

  /** The pushes of `text` and `footnotes` on the stack; the text starts at the left margin. */
  function Enter(s: St, name: string): (r: St)
    requires Inv(s)
    ensures Inv(r) && r.meta == s.meta && r.tableHeader == s.tableHeader
    ensures r == s.(indentLevel := r.indentLevel, state := r.state)
    ensures name != "text" && name != "footnotes" ==> r == s
  {
    var s3 := if name == "text" then s.(indentLevel := 0, state := s.state + [Text]) else s;
    if name == "footnotes" then s3.(state := s3.state + [Footnotes]) else s3
  }

  /** `startElement` from the pushes of `text` and `footnotes` on (lawdown.py:159-230). */
  function StartContent(cfg: Config, s: St, name: string, attrs: map<string, string>): (r: St)
    requires Inv(s) && OpenOk(s, name, attrs)
    ensures Inv(r)
    ensures r.meta == s.meta && r.firstMeta == s.firstMeta
  {
    var s4 := Enter(s, name);
    if Top(s4) == Footnotes then
      if name == "footnote" then s4.(indentLevel := s4.indentLevel + 1, currentFootnote := Some(attrs["ID"])) else s4
    else StartDispatch(cfg, Merge(s4), name, attrs)
  }

  // ---------------------------------------------------------------- endElement

  /** What `endElement` needs so as not to raise: something to pop, and the title fields for the first header. */
  predicate EndOk(st: St, rawName: string)
    requires |st.state| >= 1
  {
    NamedEndOk(st, Lower(rawName))
  }

  predicate NamedEndOk(st: St, name: string)
    requires |st.state| >= 1
  {
    st.ignoreUntil.Some? || CloseOk(st, name)
  }

  /** What a close that is not ignored needs: something to pop, and the title fields for the first header. */
  predicate CloseOk(st: St, name: string)
    requires |st.state| >= 1
  {
    (name == "metadaten" ==> |st.state| >= 2 && (st.firstMeta ==> "jurabk" in st.meta && "langue" in st.meta))
    && (name == "text" ==> |st.state| >= 2)
    && (name == "table" && Top(st) != Meta && !st.inListIndex ==> |st.state| >= 2)
  }

  /** The close of `footnote` and `footnotes` inside the footnote section (lawdown.py:270-276). */
  function FootnotesClose(cfg: Config, s: St, name: string): (r: St)
    requires Inv(s) && Top(s) == Footnotes
    ensures Inv(r)
    ensures r.meta == s.meta && r.firstMeta == s.firstMeta
  {
    if name == "footnote" then
      var f := FlushText(cfg, s, false);
      f.(indentLevel := f.indentLevel - 1)
    else if name == "footnotes" then Write(Pop(s), "", false)
    else s
  }

  /** The text of a definition term collected as the next list marker (lawdown.py:281-289). */
  function ListIndexClose(s: St, name: string): (r: St)
    ensures Inv(s) ==> Inv(r)
    ensures r.meta == s.meta && r.firstMeta == s.firstMeta
  {
    var s1 := s.(listIndex := s.listIndex + s.text, text := "");
    if name == "dt" then WriteListItem(if |s1.listIndex| == 0 then s1.(listIndex := "*") else s1).(inListIndex := false)
    else s1
  }

  /** A `dd` or `entry` close: the cell text joined in a table, the item flushed elsewhere (lawdown.py:306-320). */
  function EndCell(cfg: Config, s: St, name: string): (r: St)
    requires Inv(s)
    ensures Inv(r)
    ensures r.meta == s.meta && r.firstMeta == s.firstMeta
  {
    if Top(s) == Table then s.(text := CellText(s.text)) else ItemClose(cfg, s, name)
  }

  /** A `dd` or `entry` close outside a table: the text flushed, the item left, an `entry` flushed once more. */
  function ItemClose(cfg: Config, s: St, name: string): (r: St)
    requires Inv(s)
    ensures Inv(r)
    ensures r.meta == s.meta && r.firstMeta == s.firstMeta
  {
    var f := FlushText(cfg, s, false);
    Write(ItemLeave(cfg, f.(inListItem := f.inListItem - 1), name), "", false)
  }

  /** The item left; an `entry` is flushed once more and dedented. */
  function ItemLeave(cfg: Config, g: St, name: string): (r: St)
    requires Inv(g)
    ensures Inv(r)
    ensures r.meta == g.meta && r.firstMeta == g.firstMeta
  {
    if name == "entry" then EntryFlush(cfg, g) else g
  }

  function EntryFlush(cfg: Config, g: St): (r: St)
    requires Inv(g)
    ensures Inv(r)
    ensures r.meta == g.meta && r.firstMeta == g.firstMeta
  {
    var k := FlushText(cfg, g, false);
    k.(indentLevel := k.indentLevel - 1)
  }

  /** An `la` or `row` close: a table row is written unwrapped, then the rest flushed (lawdown.py:321-333). */
  function EndRow(cfg: Config, s: St, name: string): (r: St)
    requires Inv(s)
    ensures Inv(r)
    ensures r.meta == s.meta && r.firstMeta == s.firstMeta
  {
    var s1 := TableRowFlush(cfg, s);
    RowLeave(FlushText(cfg, s1.(text := s1.text + " "), false), name)
  }

  /** In a table the row is closed with ` |` and written without wrapping. */
  function TableRowFlush(cfg: Config, s: St): (r: St)
    requires Inv(s)
    ensures Inv(r)
    ensures r.meta == s.meta && r.firstMeta == s.firstMeta
  {
    if Top(s) == Table then FlushText(cfg, s.(text := s.text + " |\n"), true) else s
  }

  /** A `row` outside a table also leaves its list item. */
  function RowLeave(s: St, name: string): (r: St)
    requires Inv(s)
    ensures Inv(r)
    ensures r.meta == s.meta && r.firstMeta == s.firstMeta
  {
    if name == "row" && Top(s) != Table then s.(indentLevel := s.indentLevel - 1, inListItem := s.inListItem - 1) else s
  }

  /** A paragraph or heading close: the text flushed and a blank line (lawdown.py:337-350). */
  function EndBlock(cfg: Config, s: St, prefix: string, suffix: string): (r: St)
    requires Inv(s)
    ensures Inv(r)
    ensures r.meta == s.meta && r.firstMeta == s.firstMeta
  {
    Write(FlushText(cfg, s.(text := prefix + s.text + suffix), false), "", false)
  }

  /** The element-specific part of `endElement` (lawdown.py:291-350). */
  function EndDispatch(cfg: Config, s: St, name: string): (r: St)
    requires Inv(s)
    requires name == "table" ==> |s.state| >= 2
    ensures Inv(r)
    ensures r.meta == s.meta && r.firstMeta == s.firstMeta
  {
    if name == "br" then
      if Top(s) == Table then s.(text := s.text + Placeholder) else s.(text := BreakText(s.text))
    else if name == "table" then Pop(Write(s, "", false))
    else if name == "dl" then Write(s.(indentLevel := s.indentLevel - 1), "", false)
    else if name == "dd" || name == "entry" then EndCell(cfg, s, name)
    else if name == "la" || name == "row" then EndRow(cfg, s, name)
    else EndText(cfg, s, name)
  }

  /** The closes of `nb`, `p`, `title` and `subtitle`, which flush the text (lawdown.py:334-350). */
  function EndText(cfg: Config, s: St, name: string): (r: St)
    requires Inv(s)
    ensures Inv(r)
    ensures r.meta == s.meta && r.firstMeta == s.firstMeta
  {
    if name == "nb" then
      if Top(s) != Table then FlushText(cfg, s, false) else s
    else if name == "p" then EndBlock(cfg, s, "", " ")
    else if name == "title" then EndBlock(cfg, s.(text := Replace(s.text, "\n", " ")), "## ", "")
    else if name == "subtitle" then EndBlock(cfg, s.(text := Replace(s.text, "\n", " ")), "### ", "")
    else s
  }

  /** A close with `'meta'` on top: the text is stored under the element's name, or a table of contents is skipped. */
  function MetaClose(s: St, name: string): (r: St)
    requires Inv(s)
    ensures Inv(r) && r.firstMeta == s.firstMeta
  {
    var s1 := if name == "enbez" && s.text == Toc then s.(ignoreUntil := Some("textdaten"))
      else s.(meta := AppendMeta(s.meta, name, s.text));
    s1.(text := "")
  }

  /** The label `[^ID]: ` of a pending footnote, written once (lawdown.py:277-279). */
  function FootnoteLabel(s: St): (r: St)
    ensures Inv(s) ==> Inv(r)
    ensures r.meta == s.meta && r.firstMeta == s.firstMeta
  {
    if s.currentFootnote.Some? && |s.currentFootnote.value| > 0
    then Out(s, "[^" + s.currentFootnote.value + "]: ").(currentFootnote := None) else s
  }

  /** A close outside metadata: footnote bookkeeping, list markers, then the element itself (lawdown.py:270-350). */
  function ContentClose(cfg: Config, s: St, name: string): (r: St)
    requires Inv(s)
    requires name == "table" && !s.inListIndex ==> |s.state| >= 2
    ensures Inv(r)
    ensures r.meta == s.meta && r.firstMeta == s.firstMeta
  {
    var s1 := if Top(s) == Footnotes then FootnotesClose(cfg, s, name) else s;
    var s2 := FootnoteLabel(s1);
    if s2.inListIndex then ListIndexClose(s2, name)
    else EndDispatch(cfg, s2, name)
  }

  /** The part of `endElement` after the metadata close and the stack pop of `text` (lawdown.py:263-350). */
  function EndBody(cfg: Config, s: St, name: string): (r: St)
    requires Inv(s)
    requires name == "table" && Top(s) != Meta && !s.inListIndex ==> |s.state| >= 2
    ensures Inv(r) && r.firstMeta == s.firstMeta
  {
    if Top(s) == Meta then MetaClose(s, name) else ContentClose(cfg, s, name)
  }

  /** `endElement(name)` */
  function EndElement(cfg: Config, st: St, rawName: string): (r: St)
    requires Inv(st) && EndOk(st, rawName)
    ensures Inv(r)
  {
    EndNamed(cfg, st, Lower(rawName))
  }

  /** `endElement` once the name is lower-cased. */
  function EndNamed(cfg: Config, st: St, name: string): (r: St)
    requires Inv(st) && NamedEndOk(st, name)
    ensures Inv(r)
  {
    var s := st.(noTag := false);
    if s.ignoreUntil.Some? then EndIgnored(s, name)
    else EndMerged(cfg, MergeClosing(s, name), name)
  }

  /** A close while ignoring: only the awaited element ends the ignoring. */
  function EndIgnored(s: St, name: string): (r: St)
    ensures r == s.(ignoreUntil := r.ignoreUntil)
    ensures r.ignoreUntil == if s.ignoreUntil == Some(name) then None else s.ignoreUntil
  {
    if s.ignoreUntil == Some(name) then s.(ignoreUntil := None) else s
  }

  /** The element's markup put around its text, and the buffers merged. */
  function MergeClosing(s: St, name: string): (r: St)
    ensures r == s.(text := r.text, currentText := "")
  {
    Merge(s.(currentText := Decorate(name, s.currentText)))
  }

  /** `endElement` after the decoration and the buffer merge (lawdown.py:246-350). */
  function EndMerged(cfg: Config, s: St, name: string): (r: St)
    requires Inv(s) && CloseOk(s, name)
    ensures Inv(r)
  {
    if name == "metadaten" then MetaEnd(cfg, Pop(s))
    else EndBody(cfg, if name == "text" then Pop(s) else s, name)
  }

  /** The close of a metadata block: the document header after the first one, a section heading after the others. */
  function MetaEnd(cfg: Config, s: St): (r: St)
    requires Inv(s) && (s.firstMeta ==> "jurabk" in s.meta && "langue" in s.meta)
    ensures Inv(r) && r.meta == s.meta && !r.firstMeta
  {
    var s3 := if s.firstMeta then WriteBigHeader(cfg, s.(firstMeta := false)) else WriteNormHeader(cfg, s);
    s3.(text := "")
  }

  // ---------------------------------------------------------------- characters and the event stream

  /** The chunk `characters` appends: escaped, newlines made spaces, stripped. */
  function Chunk(data: string): string
  {
    Strip(Replace(EscapeAsWritten(data), "\n", " "))
  }

  /** `characters(text)` */
  function Characters(st: St, data: string): (r: St)
    ensures Inv(st) ==> Inv(r)
  {
    if st.ignoreUntil.Some? then st
    else st.(currentText := st.currentText + Chunk(data), noTag := true)
  }

  predicate EventOk(st: St, ev: Event)
    requires |st.state| >= 1
  {
    match ev
    case Start(n, a) => StartOk(st, n, a)
    case End(n) => EndOk(st, n)
    case Chars(_) => true
  }

  function Step(cfg: Config, st: St, ev: Event): (r: St)
    requires Inv(st) && EventOk(st, ev)
    ensures Inv(r)
  {
    match ev
    case Start(n, a) => StartElement(cfg, st, n, a)
    case End(n) => EndElement(cfg, st, n)
    case Chars(d) => Characters(st, d)
  }

  /** No callback leaves a metadata key without a value: a key is only ever stored by appending to its list. */
  lemma StepMetaOk(cfg: Config, st: St, ev: Event)
    requires Inv(st) && EventOk(st, ev) && MetaOk(st.meta)
    ensures MetaOk(Step(cfg, st, ev).meta)
  {
    match ev
    case Start(n, a) => StartMetaOk(cfg, st, Lower(n), a);
    case End(n) => EndMetaOk(cfg, st, Lower(n));
    case Chars(d) =>
  }

  lemma StartMetaOk(cfg: Config, st: St, name: string, attrs: map<string, string>)
    requires Inv(st) && NamedStartOk(st, name, attrs) && MetaOk(st.meta)
    ensures MetaOk(StartNamed(cfg, st, name, attrs).meta)
  {
  }

  lemma EndMetaOk(cfg: Config, st: St, name: string)
    requires Inv(st) && NamedEndOk(st, name) && MetaOk(st.meta)
    ensures MetaOk(EndNamed(cfg, st, name).meta)
  {
    var s := st.(noTag := false);
    if s.ignoreUntil.None? {
      EndMergedMetaOk(cfg, MergeClosing(s, name), name);
    }
  }

  lemma EndMergedMetaOk(cfg: Config, s: St, name: string)
    requires Inv(s) && CloseOk(s, name) && MetaOk(s.meta)
    ensures MetaOk(EndMerged(cfg, s, name).meta)
  {
    if name != "metadaten" {
      EndBodyMetaOk(cfg, if name == "text" then Pop(s) else s, name);
    }
  }

  lemma EndBodyMetaOk(cfg: Config, b: St, name: string)
    requires Inv(b) && MetaOk(b.meta)
    requires name == "table" && Top(b) != Meta && !b.inListIndex ==> |b.state| >= 2
    ensures MetaOk(EndBody(cfg, b, name).meta)
  {
    if Top(b) == Meta {
      AppendMetaOk(b.meta, name, b.text);
    }
  }

  lemma AppendMetaOk(meta: map<string, seq<string>>, key: string, value: string)
    requires MetaOk(meta)
    ensures MetaOk(AppendMeta(meta, key, value))
  {
  }

  /** Every event of the stream finds what it needs, one after the other. */
  predicate RunOk(cfg: Config, st: St, evs: seq<Event>)
    requires Inv(st)
    decreases |evs|
  {
    evs == [] || (EventOk(st, evs[0]) && RunOk(cfg, Step(cfg, st, evs[0]), evs[1..]))
  }

  function Run(cfg: Config, st: St, evs: seq<Event>): (r: St)
    requires Inv(st) && RunOk(cfg, st, evs)
    ensures Inv(r)
    decreases |evs|
  {
    if evs == [] then st else Run(cfg, Step(cfg, st, evs[0]), evs[1..])
  }

  /** The options `law_to_markdown` creates the handler with. */
  function ConvertConfig(path: string, name: Option<string>, wrap: string -> seq<string>, dump: map<string, string> -> string): Config
  {
    Config(map["layout" := "default"], false, if name.Some? then name.value else OrigSlug(path), wrap, dump)
  }
}
