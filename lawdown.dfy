/**
 * The `LawToMarkdown` content handler of lawdown.py as a class whose fields
 * the callbacks update in place.  Every method is proved to take the fields,
 * read together as `Model()`, exactly where the corresponding function of
 * `LawDownSpec` takes them.
 */
module LawDown {
  import opened Wrappers
  import opened Strings
  import opened Emphasis
  import opened Markup
  import S = LawDownSpec

  class LawToMarkdown {
    const yamlHeader: map<string, string>
    const headingAnchor: bool
    const origSlug: string
    /** `textwrap.wrap` */
    const wrap: string -> seq<string>
    /** `yaml.safe_dump` with the options of lawdown.py:387-392 */
    const dump: map<string, string> -> string

    var state: seq<S.Context>
    var text: string
    var currentText: string
    var listIndex: string
    var firstMeta: bool
    var ignoreUntil: Option<string>
    var indentLevel: int
    var inListItem: int
    var inListIndex: bool
    var noTag: bool
    var lastListIndex: Option<string>
    var footnotes: set<string>
    var currentHeadingNum: int
    var currentFootnote: Option<string>
    var meta: map<string, seq<string>>
    var tableHeader: Option<string>
    var filename: Option<string>
    /** Everything written to `fileout` so far. */
    var out: string

    function Cfg(): S.Config
    {
      S.Config(yamlHeader, headingAnchor, origSlug, wrap, dump)
    }

    function Model(): S.St
      reads this
    {
      S.St(state, text, currentText, listIndex, firstMeta, ignoreUntil, indentLevel, inListItem, inListIndex,
           noTag, lastListIndex, footnotes, currentHeadingNum, currentFootnote, meta, tableHeader, filename, out)
    }

    /** The handler's own invariant, on its fields: the stack keeps its bottom entry and the heading depth is positive. */
    predicate Valid()
      reads this
    {
      |state| >= 1 && state[0] == S.Root && currentHeadingNum >= 1
    }

    constructor (yamlHeader: map<string, string>, headingAnchor: bool, origSlug: string,
                 wrap: string -> seq<string>, dump: map<string, string> -> string)
      ensures Valid() && Model() == S.Fresh()
      ensures this.yamlHeader == yamlHeader && this.headingAnchor == headingAnchor && this.origSlug == origSlug
      ensures this.wrap == wrap && this.dump == dump
    {
      this.yamlHeader := yamlHeader;
      this.headingAnchor := headingAnchor;
      this.origSlug := origSlug;
      this.wrap := wrap;
      this.dump := dump;
      state := [S.Root];
      text := "";
      currentText := "";
      listIndex := "";
      firstMeta := true;
      ignoreUntil := None;
      indentLevel := 0;
      inListItem := 0;
      inListIndex := false;
      noTag := true;
      lastListIndex := None;
      footnotes := {};
      currentHeadingNum := 1;
      currentFootnote := None;
      meta := map[];
      tableHeader := None;
      filename := None;
      out := "";
    }

    // ------------------------------------------------------------ output

    method Out(content: string)
      modifies this
      ensures Model() == S.Out(old(Model()), content)
    {
      out := out + content;
    }

    method Write(content: string, nobreak: bool)
      modifies this
      ensures Model() == S.Write(old(Model()), content, nobreak)
    {
      Out(content + (if nobreak then "" else "\n"));
    }

    method OutIndented(content: string, indent: int)
      modifies this
      ensures Model() == S.Out(old(Model()), S.Indent(indent) + content)
    {
      Out(S.Indent(indent));
      Out(content);
    }

    method WriteWrapped(t: string, nobreak: bool)
      modifies this
      ensures Model() == S.WriteWrapped(Cfg(), old(Model()), t, nobreak)
    {
      var indent := indentLevel;
      var firstIndent := "";
      if lastListIndex.Some? {
        firstIndent := S.FirstIndent(lastListIndex.value);
        lastListIndex := None;
      }
      if nobreak {
        Out(S.Indent(indent));
        Write(t, nobreak);
      } else {
        WriteLines(wrap(t), firstIndent, indent);
      }
    }

    /** The loop of `write_wrapped` over the wrapped lines. */
    method WriteLines(lines: seq<string>, firstIndent: string, indent: int)
      modifies this
      ensures Model() == old(Model()).(out := old(out) + S.WrappedText(lines, firstIndent, indent))
    {
      var pending := firstIndent;
      var i := 0;
      while i < |lines|
        invariant 0 <= i <= |lines|
        invariant pending == if i == 0 then firstIndent else ""
        invariant Model() == old(Model()).(out := old(out) + S.WrappedText(lines[..i], firstIndent, indent))
      {
        S.WrappedTextStep(old(out), lines, i, firstIndent, indent);
        assert S.WrappedLine(true, pending, lines[i], indent) == S.WrappedLine(i == 0, firstIndent, lines[i], indent);
        WriteLine(pending, lines[i], indent);
        pending := "";
        i := i + 1;
      }
      assert lines[..i] == lines;
    }

    /** One pass of that loop: the marker offset while it is pending, else the indentation and the escaped line. */
    method WriteLine(pending: string, line: string, indent: int)
      modifies this
      ensures Model() == old(Model()).(out := old(out) + S.WrappedLine(true, pending, line, indent))
    {
      var l := line;
      if |pending| > 0 {
        Out(pending);
      } else {
        Out(S.Indent(indent));
        l := EscapeListStart(l);
      }
      Write(l, false);
    }

    method FlushText(nobreak: bool)
      modifies this
      ensures Model() == S.FlushText(Cfg(), old(Model()), nobreak)
      decreases |text|, 2
    {
      ghost var m0 := Model();
      var blocks := Split(text, S.Placeholder);
      if |blocks| > 1 {
        FlushSplit(blocks, nobreak);
      }
      assert Model() == if |Split(m0.text, S.Placeholder)| > 1 then S.FlushSplit(Cfg(), m0, nobreak) else m0;
      if |Strip(text)| > 0 {
        WriteWrapped(text, nobreak);
      }
      ClearText();
    }

    /** The part of `flush_text` for a text with line-break placeholders: every block flushed on its own. */
    method FlushSplit(pieces: seq<string>, nobreak: bool)
      requires pieces == Split(text, S.Placeholder) && |pieces| > 1
      modifies this
      ensures Model() == S.FlushSplit(Cfg(), old(Model()), nobreak)
      decreases |text|, 1
    {
      var blocks := pieces[|pieces| - 1 := Strip(Replace(pieces[|pieces| - 1], S.Placeholder, " "))];
      assert blocks == S.Blocks(text);
      ghost var bound := |text|;
      FlushFirst(blocks[0], nobreak);
      var deeper := |blocks[0]| > 0;
      Deeper(deeper);
      FlushBlocks(blocks, 1, nobreak, bound);
      Shallower(deeper);
    }

    /** The first block, flushed at the current indentation. */
    method FlushFirst(block: string, nobreak: bool)
      modifies this
      ensures Model() == S.FlushText(Cfg(), old(Model()).(text := block), nobreak)
      decreases |block|, 3
    {
      SetText(block);
      FlushText(nobreak);
    }

    method Deeper(deeper: bool)
      modifies this
      ensures Model() == S.Deeper(old(Model()), deeper)
    {
      if deeper {
        Write("", false);
        Shift(1);
      }
    }

    method Shallower(deeper: bool)
      modifies this
      ensures Model() == S.Shallower(old(Model()), deeper)
    {
      if deeper {
        Shift(-1);
      }
    }

    /** The loop of `flush_text` over the blocks from the `k`-th on. */
    method FlushBlocks(blocks: seq<string>, k: nat, nobreak: bool, ghost bound: nat)
      requires text == ""
      requires forall i :: 0 <= i < |blocks| ==> |blocks[i]| < bound
      modifies this
      ensures Model() == S.FlushBlocks(Cfg(), old(Model()), blocks, k, nobreak, bound)
      decreases bound, 0
    {
      var i := k;
      while i < |blocks|
        invariant text == ""
        invariant S.FlushBlocks(Cfg(), Model(), blocks, i, nobreak, bound) == S.FlushBlocks(Cfg(), old(Model()), blocks, k, nobreak, bound)
        decreases |blocks| - i
      {
        FlushBlock(blocks[i], nobreak);
        i := i + 1;
      }
    }

    /** One block after the first: flushed on its own and followed by a newline. */
    method FlushBlock(block: string, nobreak: bool)
      modifies this
      ensures Model() == S.FlushBlock(Cfg(), old(Model()), block, nobreak)
      decreases |block|, 4
    {
      FlushFirst(block, nobreak);
      Write("", false);
    }

    // ------------------------------------------------------------ single-field updates

    method SetText(t: string)
      modifies this
      ensures Model() == old(Model()).(text := t)
    {
      text := t;
    }

    method ClearText()
      modifies this
      ensures Model() == old(Model()).(text := "")
    {
      text := "";
    }

    /** The text between a prefix and a suffix. */
    method Surround(prefix: string, suffix: string)
      modifies this
      ensures Model() == old(Model()).(text := prefix + old(text) + suffix)
    {
      text := prefix + text + suffix;
    }

    method Pad(suffix: string)
      modifies this
      ensures Model() == old(Model()).(text := old(text) + suffix)
    {
      text := text + suffix;
    }

    method Shift(d: int)
      modifies this
      ensures Model() == old(Model()).(indentLevel := old(indentLevel) + d)
    {
      indentLevel := indentLevel + d;
    }

    method CountItem(d: int)
      modifies this
      ensures Model() == old(Model()).(inListItem := old(inListItem) + d)
    {
      inListItem := inListItem + d;
    }

    method AppendCurrent(t: string)
      modifies this
      ensures Model() == old(Model()).(currentText := old(currentText) + t)
    {
      currentText := currentText + t;
    }

    method SetMeta(m: map<string, seq<string>>)
      modifies this
      ensures Model() == old(Model()).(meta := m)
    {
      meta := m;
    }

    /** A `colspec`: one more header cell and one more alignment cell. */
    method AddColumn()
      requires tableHeader.Some?
      modifies this
      ensures Model() == old(Model()).(currentText := old(currentText) + "       |", tableHeader := Some(old(tableHeader).value + " :---: |"))
    {
      currentText := currentText + "       |";
      tableHeader := Some(tableHeader.value + " :---: |");
    }

    method SetTag(b: bool)
      modifies this
      ensures Model() == old(Model()).(noTag := b)
    {
      noTag := b;
    }

    method IgnoreUntil(name: string)
      modifies this
      ensures Model() == old(Model()).(ignoreUntil := Some(name))
    {
      ignoreUntil := Some(name);
    }

    method PopState()
      requires |state| >= 1
      modifies this
      ensures Model() == S.Pop(old(Model()))
    {
      state := state[..|state| - 1];
    }

    method WriteListItem()
      modifies this
      ensures Model() == S.WriteListItem(old(Model()))
    {
      lastListIndex := Some(listIndex);
      OutIndented(listIndex, indentLevel - 1);
      listIndex := "";
    }

    // ------------------------------------------------------------ headers

    method StoreFilename(abk: string)
      modifies this
      ensures Model() == old(Model()).(filename := Some(Slug(abk)))
    {
      SetFilename(Some(Slug(abk)));
    }

    method SetFilename(f: Option<string>)
      modifies this
      ensures Model() == old(Model()).(filename := f)
    {
      filename := f;
    }

    method WriteBigHeader()
      requires S.MetaOk(meta) && "jurabk" in meta && "langue" in meta
      modifies this
      ensures Model() == S.WriteBigHeader(Cfg(), old(Model()))
    {
      var jurabk := meta["jurabk"][0];
      StoreFilename(jurabk);
      var title := CleanTitle(meta["langue"][0]);
      WriteTitleBlock(title, jurabk);
      WriteStatus();
      ClearText();
    }

    /** The front matter and the document heading. */
    method WriteTitleBlock(title: string, jurabk: string)
      modifies this
      ensures Model() == S.WriteTitleLines(S.WriteFrontMatter(Cfg(), old(Model()), title, jurabk), title, jurabk)
    {
      WriteFrontMatter(title, jurabk);
      WriteTitleLines(title, jurabk);
    }

    /** The dates and the status comments. */
    method WriteStatus()
      modifies this
      ensures Model() == S.Out(S.WriteDateLines(old(Model())), S.StandLines(S.Comments(meta)))
    {
      WriteDateLines();
      var comments := if "standkommentar" in meta then meta["standkommentar"] else [];
      WriteComments(comments);
    }

    /** The front matter: YAML when options are given, else one `key: value` line per field. */
    method WriteFrontMatter(title: string, jurabk: string)
      modifies this
      ensures Model() == S.WriteFrontMatter(Cfg(), old(Model()), title, jurabk)
    {
      var fields := S.HeaderFields(Cfg(), title, jurabk);
      if |yamlHeader| > 0 {
        Out(dump(S.FieldMap(fields) + yamlHeader));
        Write("\n---", false);
      } else {
        var i := 0;
        while i < |fields|
          invariant 0 <= i <= |fields|
          invariant Model() == old(Model()).(out := old(out) + S.FieldLines(fields[..i]))
        {
          S.FieldLinesStep(old(out), fields, i);
          Write(fields[i].0 + ": " + fields[i].1, false);
          i := i + 1;
        }
        assert fields[..i] == fields;
      }
    }

    method WriteTitleLines(title: string, jurabk: string)
      modifies this
      ensures Model() == S.WriteTitleLines(old(Model()), title, jurabk)
    {
      Write("", false);
      Write("# " + title + " (" + jurabk + ")", false);
      Write("", false);
    }

    method WriteDateLines()
      modifies this
      ensures Model() == S.WriteDateLines(old(Model()))
    {
      if "ausfertigung-datum" in meta {
        Write("Ausfertigungsdatum\n:   " + S.First(meta, "ausfertigung-datum") + "\n", false);
      }
      if "periodikum" in meta && "zitstelle" in meta {
        Write("Fundstelle\n:   " + S.First(meta, "periodikum") + ": " + S.First(meta, "zitstelle") + "\n", false);
      }
    }

    method WriteComments(comments: seq<string>)
      modifies this
      ensures Model() == S.Out(old(Model()), S.StandLines(comments))
    {
      var j := 0;
      while j < |comments|
        invariant 0 <= j <= |comments|
        invariant Model() == old(Model()).(out := old(out) + S.StandLines(comments[..j]))
      {
        S.StandLinesStep(old(out), comments, j);
        WriteComment(comments[j]);
        j := j + 1;
      }
      assert comments[..j] == comments;
    }

    /** A comment `K durch V` as a definition with `K` capitalised, anything else as `Stand: …`. */
    method WriteComment(c: string)
      modifies this
      ensures Model() == S.Write(old(Model()), S.StandLine(c), false)
    {
      var k := Find(c, " durch ");
      var line;
      if k < 0 {
        line := "Stand: " + c;
      } else {
        line := Capitalize(c[..k]) + " durch\n:   " + c[k + 7..] + "\n";
      }
      assert line == S.StandLine(c);
      Write(line, false);
    }

    method WriteNormHeader()
      requires S.MetaOk(meta)
      modifies this
      ensures Model() == S.WriteNormHeader(Cfg(), old(Model()))
    {
      var headingNum;
      if "gliederungskennzahl" in meta {
        headingNum := |meta["gliederungskennzahl"][0]| / 3 + 1;
        SetHeadingNum(headingNum);
      } else {
        headingNum := currentHeadingNum + 1;
      }
      var title, link := HeadingTitle(meta);
      if |title| == 0 {
        return;
      }
      WriteHeading(headingNum, title, link);
    }

    method SetHeadingNum(n: int)
      modifies this
      ensures Model() == old(Model()).(currentHeadingNum := n)
    {
      currentHeadingNum := n;
    }

    method WriteHeading(headingNum: int, title: string, link: string)
      modifies this
      ensures Model() == S.WriteHeading(Cfg(), old(Model()), headingNum, title, link)
    {
      var hn := Repeat("#", if headingNum < 6 then headingNum else 6);
      var anchor := link;
      if headingAnchor {
        if |anchor| > 0 {
          anchor := HeadingLink(anchor);
        }
      } else {
        anchor := "";
      }
      Write("", false);
      Write(hn + " " + title + anchor, false);
      Write("", false);
    }

    // ------------------------------------------------------------ startElement

    method Merge()
      modifies this
      ensures Model() == S.Merge(old(Model()))
    {
      SetMerged(Strip(Replace(text + currentText, "\n", " ")));
    }

    /** The merged text, with nothing left over in `currentText`. */
    method SetMerged(t: string)
      modifies this
      ensures Model() == old(Model()).(text := t, currentText := "")
    {
      text := t;
      currentText := "";
    }

    method StartElement(rawName: string, attrs: map<string, string>)
      requires Valid() && S.StartOk(Model(), rawName, attrs)
      modifies this
      ensures Model() == S.StartElement(Cfg(), old(Model()), rawName, attrs)
    {
      var name := Lower(rawName);
      StartNamed(name, attrs);
    }

    method StartNamed(name: string, attrs: map<string, string>)
      requires Valid() && S.NamedStartOk(Model(), name, attrs)
      modifies this
      ensures Model() == S.StartNamed(Cfg(), old(Model()), name, attrs)
    {
      SetTag(false);
      if ignoreUntil.Some? {
        return;
      }
      if name == "fnr" && S.Top(Model()) == S.Meta {
        IgnoreUntil("fnr");
        return;
      }
      StartOpen(name, attrs);
    }

    method StartOpen(name: string, attrs: map<string, string>)
      requires Valid() && S.OpenOk(Model(), name, attrs)
      requires name == "fnr" ==> "ID" in attrs
      modifies this
      ensures Model() == S.StartOpen(Cfg(), old(Model()), name, attrs)
    {
      if name == "fnr" {
        FootnoteRef(attrs["ID"]);
      }
      if name == "fussnoten" {
        IgnoreUntil("fussnoten");
      }
      if name == "metadaten" {
        OpenMeta();
        return;
      }
      StartContent(name, attrs);
    }

    /** A metadata block starts with no fields. */
    method OpenMeta()
      modifies this
      ensures Model() == old(Model()).(meta := map[], state := old(state) + [S.Meta])
    {
      meta := map[];
      state := state + [S.Meta];
    }

    /** An anchor for a footnote reference, written the first time the ID is seen. */
    method FootnoteRef(id: string)
      modifies this
      ensures Model() == S.FootnoteRef(old(Model()), id)
    {
      if id !in footnotes {
        footnotes := footnotes + {id};
        Write("[^" + id + "]", false);
      }
    }

    method Enter(name: string)
      requires Valid()
      modifies this
      ensures Model() == S.Enter(old(Model()), name)
    {
      if name == "text" {
        indentLevel := 0;
        state := state + [S.Text];
      }
      if name == "footnotes" {
        state := state + [S.Footnotes];
      }
    }

    method StartContent(name: string, attrs: map<string, string>)
      requires Valid() && S.OpenOk(Model(), name, attrs)
      modifies this
      ensures Model() == S.StartContent(Cfg(), old(Model()), name, attrs)
    {
      Enter(name);
      if S.Top(Model()) == S.Footnotes {
        if name == "footnote" {
          OpenFootnote(attrs["ID"]);
        }
        return;
      }
      Merge();
      StartDispatch(name, attrs);
    }

    /** A footnote body: one level deeper, its label pending. */
    method OpenFootnote(id: string)
      modifies this
      ensures Model() == old(Model()).(indentLevel := old(indentLevel) + 1, currentFootnote := Some(id))
    {
      indentLevel := indentLevel + 1;
      currentFootnote := Some(id);
    }

    method StartDispatch(name: string, attrs: map<string, string>)
      requires Valid()
      requires (name == "colspec" || name == "tbody") ==> tableHeader.Some?
      requires name == "img" ==> "SRC" in attrs
      modifies this
      ensures Model() == S.StartDispatch(Cfg(), old(Model()), name, attrs)
    {
      if name == "table" {
        StartTable();
      } else if name == "colspec" {
        AddColumn();
      } else if name == "tbody" {
        StartBody();
      } else if name == "dl" {
        StartList();
      } else if name == "br" {
        if S.Top(Model()) == S.Table {
          SetText(S.TableBreak(text));
        }
      } else {
        StartItem(name, attrs);
      }
    }

    method StartItem(name: string, attrs: map<string, string>)
      requires Valid()
      requires name == "img" ==> "SRC" in attrs
      modifies this
      ensures Model() == S.StartItem(Cfg(), old(Model()), name, attrs)
    {
      if name == "row" || name == "dd" {
        StartRow(name);
      } else if name == "entry" {
        StartEntry();
      } else if name == "img" {
        StartImg(attrs);
      } else if name == "dt" {
        SetListIndex(true);
      } else if name == "u" || name == "b" || name == "f" || name == "tgroup" {
      } else {
        FlushText(false);
      }
    }

    method StartBody()
      requires Valid() && tableHeader.Some?
      modifies this
      ensures Model() == S.StartBody(Cfg(), old(Model()))
    {
      var header := tableHeader.value;
      FlushText(false);
      AppendCurrent(header);
    }

    method StartTable()
      requires Valid()
      modifies this
      ensures Model() == S.StartTable(Cfg(), old(Model()))
    {
      Pad(" ");
      FlushText(false);
      OpenTable();
    }

    /** The header row begun and the table pushed. */
    method OpenTable()
      modifies this
      ensures Model() == old(Model()).(currentText := "|", state := old(state) + [S.Table], tableHeader := Some("|"))
    {
      currentText := "|";
      state := state + [S.Table];
      tableHeader := Some("|");
    }

    method StartList()
      requires Valid()
      modifies this
      ensures Model() == S.StartList(Cfg(), old(Model()))
    {
      FlushText(false);
      Write("", false);
      Shift(1);
    }

    method StartRow(name: string)
      requires Valid()
      modifies this
      ensures Model() == S.StartRow(Cfg(), old(Model()), name)
    {
      if name == "row" {
        RowOpen();
      }
      CountItem(1);
    }

    /** A `row` start: the row flushed in a table, a bulleted item elsewhere. */
    method RowOpen()
      requires Valid()
      modifies this
      ensures Model() == if S.Top(old(Model())) == S.Table then S.FlushText(Cfg(), old(Model()), false)
        else S.WriteListItem(old(Model()).(indentLevel := old(indentLevel) + 1, listIndex := "*"))
    {
      if S.Top(Model()) == S.Table {
        FlushText(false);
      } else {
        OpenBullet();
        WriteListItem();
      }
    }

    /** A bulleted item: one level deeper, with a `*` marker. */
    method OpenBullet()
      modifies this
      ensures Model() == old(Model()).(indentLevel := old(indentLevel) + 1, listIndex := "*")
    {
      indentLevel := indentLevel + 1;
      listIndex := "*";
    }

    method StartEntry()
      requires Valid()
      modifies this
      ensures Model() == S.StartEntry(old(Model()))
    {
      if S.Top(Model()) == S.Table {
        currentText := currentText + " | ";
      } else {
        CountItem(1);
        OpenBullet();
        WriteListItem();
      }
    }

    method StartImg(attrs: map<string, string>)
      requires Valid() && "SRC" in attrs
      modifies this
      ensures Model() == S.StartImg(Cfg(), old(Model()), attrs)
    {
      var image := S.Image(attrs);
      if S.Top(Model()) == S.Table {
        AppendCurrent(" " + image + " ");
      } else {
        FlushText(false);
        Out(image);
      }
    }

    // ------------------------------------------------------------ endElement

    method EndElement(rawName: string)
      requires Valid() && S.MetaOk(meta) && S.EndOk(Model(), rawName)
      modifies this
      ensures Model() == S.EndElement(Cfg(), old(Model()), rawName)
    {
      var name := Lower(rawName);
      EndNamed(name);
    }

    method EndNamed(name: string)
      requires Valid() && S.MetaOk(meta) && S.NamedEndOk(Model(), name)
      modifies this
      ensures Model() == S.EndNamed(Cfg(), old(Model()), name)
    {
      SetTag(false);
      if ignoreUntil.Some? {
        EndIgnored(name);
        return;
      }
      MergeClosing(name);
      EndMerged(name);
    }

    method EndIgnored(name: string)
      modifies this
      ensures Model() == S.EndIgnored(old(Model()), name)
    {
      if ignoreUntil == Some(name) {
        ignoreUntil := None;
      }
    }

    method MergeClosing(name: string)
      modifies this
      ensures Model() == S.MergeClosing(old(Model()), name)
    {
      SetCurrent(S.Decorate(name, currentText));
      Merge();
    }

    method SetCurrent(t: string)
      modifies this
      ensures Model() == old(Model()).(currentText := t)
    {
      currentText := t;
    }

    method EndMerged(name: string)
      requires Valid() && S.MetaOk(meta) && S.CloseOk(Model(), name)
      modifies this
      ensures Model() == S.EndMerged(Cfg(), old(Model()), name)
    {
      if name == "metadaten" {
        PopState();
        MetaEnd();
        return;
      }
      if name == "text" {
        PopState();
      }
      EndBody(name);
    }

    /** The close of a metadata block: the document header after the first one, a section heading after the others. */
    method MetaEnd()
      requires Valid() && S.MetaOk(meta) && (firstMeta ==> "jurabk" in meta && "langue" in meta)
      modifies this
      ensures Model() == S.MetaEnd(Cfg(), old(Model()))
    {
      if firstMeta {
        ClearFirst();
        WriteBigHeader();
      } else {
        WriteNormHeader();
      }
      ClearText();
    }

    method ClearFirst()
      modifies this
      ensures Model() == old(Model()).(firstMeta := false)
    {
      firstMeta := false;
    }

    method EndBody(name: string)
      requires Valid()
      requires name == "table" && S.Top(Model()) != S.Meta && !inListIndex ==> |state| >= 2
      modifies this
      ensures Model() == S.EndBody(Cfg(), old(Model()), name)
    {
      if S.Top(Model()) == S.Meta {
        MetaClose(name);
      } else {
        ContentClose(name);
      }
    }

    /** A close inside metadata: the text stored under the element's name, or a table of contents skipped. */
    method MetaClose(name: string)
      requires Valid()
      modifies this
      ensures Model() == S.MetaClose(old(Model()), name)
    {
      if name == "enbez" && text == S.Toc {
        IgnoreUntil("textdaten");
      } else {
        SetMeta(S.AppendMeta(meta, name, text));
      }
      ClearText();
    }

    method ContentClose(name: string)
      requires Valid()
      requires name == "table" && !inListIndex ==> |state| >= 2
      modifies this
      ensures Model() == S.ContentClose(Cfg(), old(Model()), name)
    {
      if S.Top(Model()) == S.Footnotes {
        FootnotesClose(name);
      }
      FootnoteLabel();
      if inListIndex {
        ListIndexClose(name);
        return;
      }
      EndDispatch(name);
    }

    method FootnotesClose(name: string)
      requires Valid() && S.Top(Model()) == S.Footnotes
      modifies this
      ensures Model() == S.FootnotesClose(Cfg(), old(Model()), name)
    {
      if name == "footnote" {
        FlushText(false);
        Shift(-1);
      }
      if name == "footnotes" {
        PopState();
        Write("", false);
      }
    }

    method FootnoteLabel()
      modifies this
      ensures Model() == S.FootnoteLabel(old(Model()))
    {
      if currentFootnote.Some? && |currentFootnote.value| > 0 {
        Out("[^" + currentFootnote.value + "]: ");
        ClearFootnote();
      }
    }

    method ClearFootnote()
      modifies this
      ensures Model() == old(Model()).(currentFootnote := None)
    {
      currentFootnote := None;
    }

    method ListIndexClose(name: string)
      modifies this
      ensures Model() == S.ListIndexClose(old(Model()), name)
    {
      TakeListIndex();
      if name == "dt" {
        DefaultMarker();
        WriteListItem();
        SetListIndex(false);
      }
    }

    /** The text becomes part of the next list marker. */
    method TakeListIndex()
      modifies this
      ensures Model() == old(Model()).(listIndex := old(listIndex) + old(text), text := "")
    {
      listIndex := listIndex + text;
      text := "";
    }

    /** An empty marker becomes a bullet. */
    method DefaultMarker()
      modifies this
      ensures Model() == if |old(listIndex)| == 0 then old(Model()).(listIndex := "*") else old(Model())
    {
      if |listIndex| == 0 {
        listIndex := "*";
      }
    }

    method SetListIndex(b: bool)
      modifies this
      ensures Model() == old(Model()).(inListIndex := b)
    {
      inListIndex := b;
    }

    method EndDispatch(name: string)
      requires Valid()
      requires name == "table" ==> |state| >= 2
      modifies this
      ensures Model() == S.EndDispatch(Cfg(), old(Model()), name)
    {
      if name == "br" {
        if S.Top(Model()) == S.Table {
          Pad(S.Placeholder);
        } else {
          SetText(S.BreakText(text));
        }
      } else if name == "table" {
        Write("", false);
        PopState();
      } else if name == "dl" {
        Shift(-1);
        Write("", false);
      } else if name == "dd" || name == "entry" {
        EndCell(name);
      } else if name == "la" || name == "row" {
        EndRow(name);
      } else {
        EndText(name);
      }
    }

    method EndText(name: string)
      requires Valid()
      modifies this
      ensures Model() == S.EndText(Cfg(), old(Model()), name)
    {
      if name == "nb" {
        if S.Top(Model()) != S.Table {
          FlushText(false);
        }
      } else if name == "p" {
        EndBlock("", " ");
      } else if name == "title" || name == "subtitle" {
        SetText(Replace(text, "\n", " "));
        EndBlock(if name == "title" then "## " else "### ", "");
      }
    }

    /** A paragraph or heading close: the decorated text flushed, then a blank line. */
    method EndBlock(prefix: string, suffix: string)
      requires Valid()
      modifies this
      ensures Model() == S.EndBlock(Cfg(), old(Model()), prefix, suffix)
    {
      Surround(prefix, suffix);
      FlushText(false);
      Write("", false);
    }

    method EndCell(name: string)
      requires Valid()
      modifies this
      ensures Model() == S.EndCell(Cfg(), old(Model()), name)
    {
      if S.Top(Model()) == S.Table {
        SetText(S.CellText(text));
        return;
      }
      ItemClose(name);
    }

    method ItemClose(name: string)
      requires Valid()
      modifies this
      ensures Model() == S.ItemClose(Cfg(), old(Model()), name)
    {
      FlushText(false);
      CountItem(-1);
      ItemLeave(name);
      Write("", false);
    }

    method ItemLeave(name: string)
      requires Valid()
      modifies this
      ensures Model() == S.ItemLeave(Cfg(), old(Model()), name)
    {
      if name == "entry" {
        EntryFlush();
      }
    }

    method EntryFlush()
      requires Valid()
      modifies this
      ensures Model() == S.EntryFlush(Cfg(), old(Model()))
    {
      FlushText(false);
      Shift(-1);
    }

    method EndRow(name: string)
      requires Valid()
      modifies this
      ensures Model() == S.EndRow(Cfg(), old(Model()), name)
    {
      TableRowFlush();
      Pad(" ");
      FlushText(false);
      RowLeave(name);
    }

    method TableRowFlush()
      requires Valid()
      modifies this
      ensures Model() == S.TableRowFlush(Cfg(), old(Model()))
    {
      if S.Top(Model()) == S.Table {
        Pad(" |\n");
        FlushText(true);
      }
    }

    method RowLeave(name: string)
      requires Valid()
      modifies this
      ensures Model() == S.RowLeave(old(Model()), name)
    {
      if name == "row" && S.Top(Model()) != S.Table {
        indentLevel := indentLevel - 1;
        inListItem := inListItem - 1;
      }
    }

    // ------------------------------------------------------------ characters

    method Characters(data: string)
      modifies this
      ensures Model() == S.Characters(old(Model()), data)
    {
      if ignoreUntil.Some? {
        return;
      }
      var t := EscapeAsWritten(data);
      AppendCurrent(Strip(Replace(t, "\n", " ")));
      SetTag(true);
    }

    method Dispatch(ev: S.Event)
      requires Valid() && S.MetaOk(meta) && S.EventOk(Model(), ev)
      modifies this
      ensures Model() == S.Step(Cfg(), old(Model()), ev)
    {
      match ev
      case Start(n, a) => StartElement(n, a);
      case End(n) => EndElement(n);
      case Chars(d) => Characters(d);
    }
  }

  /**
   * The title of a section heading and the text of its anchor, as `write_norm_header`
   * assembles them field by field.
   */
  method HeadingTitle(meta: map<string, seq<string>>) returns (title: string, link: string)
    requires S.MetaOk(meta)
    ensures title == S.NormTitle(meta) && link == S.NormLink(meta)
  {
    title := "";
    link := "";
    if "gliederungsbez" in meta {
      title := meta["gliederungsbez"][0];
      link := title;
    }
    if "gliederungstitel" in meta {
      if |title| > 0 {
        title := title + " - " + meta["gliederungstitel"][0];
      } else {
        title := meta["gliederungstitel"][0];
      }
    }
    if "enbez" in meta {
      title := meta["enbez"][0];
      link := title;
    }
    if "titel" in meta {
      if |title| > 0 {
        title := title + " " + meta["titel"][0];
      } else {
        title := meta["titel"][0];
      }
    }
  }

  /**
   * `law_to_markdown`: a fresh handler fed the document's events; the Markdown
   * text and the slug it stored.  Without a name the source-file slug of the
   * path is the `origslug`.
   */
  method ConvertLaw(events: seq<S.Event>, path: string, name: Option<string>,
                    wrap: string -> seq<string>, dump: map<string, string> -> string)
    returns (markdown: string, filename: Option<string>)
    requires S.RunOk(S.ConvertConfig(path, name, wrap, dump), S.Fresh(), events)
    ensures markdown == S.Run(S.ConvertConfig(path, name, wrap, dump), S.Fresh(), events).out
    ensures filename == S.Run(S.ConvertConfig(path, name, wrap, dump), S.Fresh(), events).filename
  {
    var origSlug := if name.None? then OrigSlug(path) else name.value;
    var handler := new LawToMarkdown(map["layout" := "default"], false, origSlug, wrap, dump);
    ghost var cfg := handler.Cfg();
    assert cfg == S.ConvertConfig(path, name, wrap, dump);
    var i := 0;
    while i < |events|
      invariant 0 <= i <= |events|
      invariant handler.Valid() && S.MetaOk(handler.meta) && S.RunOk(cfg, handler.Model(), events[i..])
      invariant S.Run(cfg, handler.Model(), events[i..]) == S.Run(cfg, S.Fresh(), events)
    {
      S.StepMetaOk(cfg, handler.Model(), events[i]);
      handler.Dispatch(events[i]);
      assert events[i..][1..] == events[i + 1..];
      i := i + 1;
    }
    markdown := handler.out;
    filename := handler.filename;
  }
}
