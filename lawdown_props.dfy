/**
 * Properties of the `LawToMarkdown` state machine that relate several
 * callbacks or describe one callback as a whole: ignore spans, footnote
 * anchors, metadata blocks, section headings, flushing and the chunks
 * `characters` collects.
 */
module LawDownProps {
  import opened Wrappers
  import opened Strings
  import opened Emphasis
  import opened Markup
  import opened LawDownSpec

  // ---------------------------------------------------------------- ignore spans

  /** While an ignore span is open a start changes nothing but `no_tag`. */
  lemma IgnoredStart(cfg: Config, st: St, rawName: string, attrs: map<string, string>)
    requires Inv(st) && st.ignoreUntil.Some?
    ensures StartOk(st, rawName, attrs)
    ensures StartElement(cfg, st, rawName, attrs) == st.(noTag := false)
  {
  }

  /** While an ignore span is open text is dropped. */
  lemma IgnoredChars(st: St, data: string)
    requires st.ignoreUntil.Some?
    ensures Characters(st, data) == st
  {
  }

  /** While an ignore span is open a close only ends the span, and only when it closes the awaited element. */
  lemma IgnoredEnd(cfg: Config, st: St, rawName: string)
    requires Inv(st) && st.ignoreUntil.Some?
    ensures EndOk(st, rawName)
    ensures EndElement(cfg, st, rawName)
      == st.(noTag := false, ignoreUntil := if st.ignoreUntil == Some(Lower(rawName)) then None else st.ignoreUntil)
  {
  }

  /** The same for a lower-cased name. */
  lemma IgnoredEndNamed(cfg: Config, st: St, name: string)
    requires Inv(st) && st.ignoreUntil.Some?
    ensures NamedEndOk(st, name)
    ensures EndNamed(cfg, st, name) == EndIgnored(st.(noTag := false), name)
  {
  }

  // ---------------------------------------------------------------- output only grows

  lemma PrefixTrans(a: string, b: string, c: string)
    requires a <= b && b <= c
    ensures a <= c
  {
    assert c[..|a|] == c[..|b|][..|a|];
  }

  /** `flush_text` only ever appends to the output. */
  lemma {:induction false} FlushTextGrows(cfg: Config, st: St, nobreak: bool)
    ensures st.out <= FlushText(cfg, st, nobreak).out
    decreases |st.text|, 1
  {
    var s1 := if |Split(st.text, Placeholder)| > 1 then FlushSplit(cfg, st, nobreak) else st;
    if |Split(st.text, Placeholder)| > 1 {
      FlushSplitGrows(cfg, st, nobreak);
    }
    if |Strip(s1.text)| > 0 {
      PrefixTrans(st.out, s1.out, WriteWrapped(cfg, s1, s1.text, nobreak).out);
    }
  }

  lemma {:induction false} FlushSplitGrows(cfg: Config, st: St, nobreak: bool)
    requires |Split(st.text, Placeholder)| > 1
    ensures st.out <= FlushSplit(cfg, st, nobreak).out
    decreases |st.text|, 0
  {
    var bs := Blocks(st.text);
    var s1 := FlushText(cfg, st.(text := bs[0]), nobreak);
    FlushTextGrows(cfg, st.(text := bs[0]), nobreak);
    var s2 := Deeper(s1, |bs[0]| > 0);
    PrefixTrans(st.out, s1.out, s2.out);
    FlushBlocksGrows(cfg, s2, bs, 1, nobreak, |st.text|);
    PrefixTrans(st.out, s2.out, FlushBlocks(cfg, s2, bs, 1, nobreak, |st.text|).out);
  }

  lemma {:induction false} FlushBlocksGrows(cfg: Config, st: St, bs: seq<string>, k: nat, nobreak: bool, bound: nat)
    requires st.text == ""
    requires forall i :: 0 <= i < |bs| ==> |bs[i]| < bound
    ensures st.out <= FlushBlocks(cfg, st, bs, k, nobreak, bound).out
    decreases bound, 0, |bs| - k
  {
    if k < |bs| {
      var s1 := FlushBlock(cfg, st, bs[k], nobreak);
      FlushBlockGrows(cfg, st, bs[k], nobreak);
      FlushBlocksGrows(cfg, s1, bs, k + 1, nobreak, bound);
      PrefixTrans(st.out, s1.out, FlushBlocks(cfg, s1, bs, k + 1, nobreak, bound).out);
    }
  }

  lemma {:induction false} FlushBlockGrows(cfg: Config, st: St, block: string, nobreak: bool)
    ensures st.out <= FlushBlock(cfg, st, block, nobreak).out
    decreases |block|, 2
  {
    var f := FlushText(cfg, st.(text := block), nobreak);
    var w := Write(f, "", false);
    assert FlushBlock(cfg, st, block, nobreak) == w;
    FlushTextGrows(cfg, st.(text := block), nobreak);
    assert f.out <= w.out by {
      assert w.out[..|f.out|] == f.out;
    }
    PrefixTrans(st.out, f.out, w.out);
  }

  // ---------------------------------------------------------------- flush_text

  /** Text without a line-break placeholder that is only whitespace writes nothing. */
  lemma FlushBlank(cfg: Config, st: St, nobreak: bool)
    requires !Contains(st.text, Placeholder)
    requires forall i :: 0 <= i < |st.text| ==> IsSpace(st.text[i])
    ensures FlushText(cfg, st, nobreak) == st.(text := "")
  {
    SplitNoSep(st.text, Placeholder);
    StripFacts(st.text);
  }

  /** Every line after the first is indented and has a leading `digits.` escaped. */
  lemma WrappedLaterLines(lines: seq<string>, firstIndent: string, indent: int, i: nat)
    requires 1 <= i < |lines|
    ensures WrappedText(lines[..i + 1], firstIndent, indent)
      == WrappedText(lines[..i], firstIndent, indent) + Indent(indent) + EscapeListStart(lines[i]) + "\n"
  {
    WrappedTextStep("", lines, i, firstIndent, indent);
    assert "" + WrappedText(lines[..i + 1], firstIndent, indent) == WrappedText(lines[..i + 1], firstIndent, indent);
    assert "" + WrappedText(lines[..i], firstIndent, indent) == WrappedText(lines[..i], firstIndent, indent);
    AppendAfter(WrappedText(lines[..i], firstIndent, indent), Indent(indent), EscapeListStart(lines[i]), "\n");
  }

  /** With a pending marker the first line starts at the marker offset, unescaped; without one it is indented like the rest. */
  lemma WrappedFirstLine(lines: seq<string>, firstIndent: string, indent: int)
    requires |lines| >= 1
    ensures |firstIndent| > 0 ==> WrappedText(lines[..1], firstIndent, indent) == firstIndent + lines[0] + "\n"
    ensures |firstIndent| == 0 ==> WrappedText(lines[..1], firstIndent, indent) == Indent(indent) + EscapeListStart(lines[0]) + "\n"
  {
    var l := lines[..1];
    assert l[..|l| - 1] == [] && l[|l| - 1] == lines[0];
  }

  // ---------------------------------------------------------------- footnote references

  /** A footnote reference inside metadata opens an ignore span up to the next `fnr` close. */
  lemma FnrInMeta(cfg: Config, st: St, attrs: map<string, string>)
    requires Inv(st) && st.ignoreUntil.None? && Top(st) == Meta
    ensures NamedStartOk(st, "fnr", attrs)
    ensures StartNamed(cfg, st, "fnr", attrs) == st.(noTag := false, ignoreUntil := Some("fnr"))
    ensures EndNamed(cfg, StartNamed(cfg, st, "fnr", attrs), "fnr").ignoreUntil == None
  {
    FnrMetaStart(cfg, st, attrs);
    IgnoredEndNamed(cfg, StartNamed(cfg, st, "fnr", attrs), "fnr");
  }

  lemma FnrMetaStart(cfg: Config, st: St, attrs: map<string, string>)
    requires Inv(st) && st.ignoreUntil.None? && Top(st) == Meta
    ensures NamedStartOk(st, "fnr", attrs)
    ensures StartNamed(cfg, st, "fnr", attrs) == st.(noTag := false, ignoreUntil := Some("fnr"))
  {
    assert Top(st.(noTag := false)) == Meta;
  }

  /**
   * A footnote reference elsewhere registers its ID and, the first time the
   * ID is seen, writes the anchor `[^ID]` and a newline before anything the
   * element's own flush writes.
   */
  lemma FnrAnchor(cfg: Config, st: St, attrs: map<string, string>)
    requires Inv(st) && st.ignoreUntil.None? && Top(st) != Meta && "ID" in attrs
    ensures NamedStartOk(st, "fnr", attrs)
    ensures StartNamed(cfg, st, "fnr", attrs).footnotes == st.footnotes + {attrs["ID"]}
    ensures attrs["ID"] !in st.footnotes ==> st.out + "[^" + attrs["ID"] + "]\n" <= StartNamed(cfg, st, "fnr", attrs).out
    ensures attrs["ID"] in st.footnotes ==>
      StartNamed(cfg, st, "fnr", attrs) == StartContent(cfg, st.(noTag := false), "fnr", attrs)
  {
    var s := st.(noTag := false);
    var s1 := FootnoteRef(s, attrs["ID"]);
    FnrOpen(cfg, st, attrs);
    FootnoteRefFacts(s, attrs["ID"]);
    FnrContent(cfg, s1, attrs);
    if Top(s1) != Footnotes {
      FlushTextGrows(cfg, Merge(s1), false);
    }
  }

  /** Past the ignore checks an `fnr` registers its ID, with the anchor on first sight, and goes on to the flush. */
  lemma FnrOpen(cfg: Config, st: St, attrs: map<string, string>)
    requires Inv(st) && st.ignoreUntil.None? && Top(st) != Meta && "ID" in attrs
    ensures NamedStartOk(st, "fnr", attrs)
    ensures StartNamed(cfg, st, "fnr", attrs) == StartContent(cfg, FootnoteRef(st.(noTag := false), attrs["ID"]), "fnr", attrs)
  {
    var s := st.(noTag := false);
    FnrIsPlain();
    assert Top(s) == Top(st);
    assert NamedStartOk(st, "fnr", attrs);
    assert StartNamed(cfg, st, "fnr", attrs) == StartOpen(cfg, s, "fnr", attrs);
    FnrRef(cfg, s, attrs);
  }

  /** The anchor is written and the ID registered only when the ID is new. */
  lemma FootnoteRefFacts(s: St, id: string)
    ensures FootnoteRef(s, id).footnotes == s.footnotes + {id}
    ensures id in s.footnotes ==> FootnoteRef(s, id) == s
    ensures id !in s.footnotes ==> FootnoteRef(s, id) == s.(footnotes := s.footnotes + {id}, out := s.out + "[^" + id + "]\n")
  {
  }

  lemma FnrRef(cfg: Config, s: St, attrs: map<string, string>)
    requires Inv(s) && "ID" in attrs
    ensures OpenOk(s, "fnr", attrs)
    ensures StartOpen(cfg, s, "fnr", attrs) == StartContent(cfg, FootnoteRef(s, attrs["ID"]), "fnr", attrs)
  {
    FnrIsPlain();
  }

  /** `fnr` is none of the names `startElement` treats specially. */
  lemma FnrIsPlain()
    ensures "fnr" != "fussnoten" && "fnr" != "metadaten" && "fnr" != "text" && "fnr" != "footnotes"
    ensures "fnr" != "table" && "fnr" != "colspec" && "fnr" != "tbody" && "fnr" != "dl" && "fnr" != "br"
    ensures "fnr" != "row" && "fnr" != "dd" && "fnr" != "entry" && "fnr" != "img" && "fnr" != "dt"
    ensures "fnr" != "u" && "fnr" != "b" && "fnr" != "f" && "fnr" != "tgroup" && "fnr" != "footnote"
  {
    assert "fnr"[1] == 'n';
  }

  /** The rest of `startElement` for an `fnr`: the pending text is flushed, outside the footnote section. */
  lemma FnrContent(cfg: Config, s: St, attrs: map<string, string>)
    requires Inv(s)
    ensures OpenOk(s, "fnr", attrs)
    ensures StartContent(cfg, s, "fnr", attrs) == if Top(s) == Footnotes then s else FlushText(cfg, Merge(s), false)
  {
    assert Enter(s, "fnr") == s;
    FnrIsPlain();
    if Top(s) != Footnotes {
      var m := Merge(s);
      assert StartDispatch(cfg, m, "fnr", attrs) == StartItem(cfg, m, "fnr", attrs);
    }
  }

  // ---------------------------------------------------------------- metadata blocks

  /** A close outside an ignore span decorates and merges the buffers, then acts on the element. */
  lemma EndNamedOpen(cfg: Config, st: St, name: string)
    requires Inv(st) && st.ignoreUntil.None? && CloseOk(st, name)
    ensures NamedEndOk(st, name)
    ensures Inv(MergeClosing(st.(noTag := false), name)) && CloseOk(MergeClosing(st.(noTag := false), name), name)
    ensures EndNamed(cfg, st, name) == EndMerged(cfg, MergeClosing(st.(noTag := false), name), name)
  {
    var s := st.(noTag := false);
    assert s.ignoreUntil.None? && Inv(s);
    assert CloseOk(MergeClosing(s, name), name);
  }

  /**
   * A `metadaten` close pops the stack and clears `first_meta`: the first one
   * writes the big header, every later one a section heading.
   */
  lemma MetadatenClose(cfg: Config, st: St)
    requires Inv(st) && st.ignoreUntil.None? && CloseOk(st, "metadaten")
    ensures var r := EndNamed(cfg, st, "metadaten");
      var m := Pop(MergeClosing(st.(noTag := false), "metadaten"));
      && !r.firstMeta && r.text == "" && r.state == st.state[..|st.state| - 1]
      && (st.firstMeta ==> r == WriteBigHeader(cfg, m.(firstMeta := false)).(text := ""))
      && (!st.firstMeta ==> r == WriteNormHeader(cfg, m).(text := ""))
  {
    EndNamedOpen(cfg, st, "metadaten");
    var m := MergeClosing(st.(noTag := false), "metadaten");
    assert EndMerged(cfg, m, "metadaten") == MetaEnd(cfg, Pop(m));
  }

  /** The event is a `metadaten` close the handler acts on, one not swallowed by an ignore span. */
  predicate ClosesMeta(st: St, ev: Event)
  {
    ev.End? && Lower(ev.name) == "metadaten" && st.ignoreUntil.None?
  }

  /** No start touches `first_meta`. */
  lemma StartFirstMeta(cfg: Config, st: St, name: string, attrs: map<string, string>)
    requires Inv(st) && NamedStartOk(st, name, attrs)
    ensures StartNamed(cfg, st, name, attrs).firstMeta == st.firstMeta
  {
  }

  /** Only a `metadaten` close that is not ignored clears `first_meta`; no close sets it. */
  lemma EndFirstMeta(cfg: Config, st: St, name: string)
    requires Inv(st) && NamedEndOk(st, name)
    ensures EndNamed(cfg, st, name).firstMeta == (st.firstMeta && !(st.ignoreUntil.None? && name == "metadaten"))
  {
    var s := st.(noTag := false);
    if s.ignoreUntil.None? {
      var m := MergeClosing(s, name);
      assert m.firstMeta == st.firstMeta;
      if name != "metadaten" {
        var b := if name == "text" then Pop(m) else m;
        assert EndMerged(cfg, m, name) == EndBody(cfg, b, name);
      }
    }
  }

  /**
   * `first_meta` is cleared by an acted-on `metadaten` close and by no other
   * event, and no event sets it again.
   */
  lemma StepFirstMeta(cfg: Config, st: St, ev: Event)
    requires Inv(st) && EventOk(st, ev)
    ensures Step(cfg, st, ev).firstMeta == (st.firstMeta && !ClosesMeta(st, ev))
  {
    match ev
    case Start(n, a) => StartFirstMeta(cfg, st, Lower(n), a);
    case End(n) => EndFirstMeta(cfg, st, Lower(n));
    case Chars(d) =>
  }

  // ---------------------------------------------------------------- whole runs

  /** The handler's state before each event of a stream, and after the last. */
  function Trace(cfg: Config, st: St, evs: seq<Event>): (t: seq<St>)
    requires Inv(st) && RunOk(cfg, st, evs)
    ensures |t| == |evs| + 1 && t[0] == st
    decreases |evs|
  {
    if evs == [] then [st] else [st] + Trace(cfg, Step(cfg, st, evs[0]), evs[1..])
  }

  /** Each state of the trace is the one before it stepped by the event between them, and the last one is `Run`. */
  lemma {:induction false} TraceStep(cfg: Config, st: St, evs: seq<Event>, i: nat)
    requires Inv(st) && RunOk(cfg, st, evs) && i <= |evs|
    ensures Inv(Trace(cfg, st, evs)[i])
    ensures i == |evs| ==> Trace(cfg, st, evs)[i] == Run(cfg, st, evs)
    ensures i < |evs| ==>
      EventOk(Trace(cfg, st, evs)[i], evs[i]) && Trace(cfg, st, evs)[i + 1] == Step(cfg, Trace(cfg, st, evs)[i], evs[i])
    decreases i
  {
    if i > 0 {
      var s1 := Step(cfg, st, evs[0]);
      TraceStep(cfg, s1, evs[1..], i - 1);
      assert Trace(cfg, st, evs)[i] == Trace(cfg, s1, evs[1..])[i - 1];
      assert i < |evs| ==> evs[1..][i - 1] == evs[i] && Trace(cfg, st, evs)[i + 1] == Trace(cfg, s1, evs[1..])[i];
    }
  }

  /** One step of the trace clears `first_meta` exactly at an acted-on `metadaten` close. */
  lemma TraceFirstMetaStep(cfg: Config, st: St, evs: seq<Event>, i: nat)
    requires Inv(st) && RunOk(cfg, st, evs) && i < |evs|
    ensures var t := Trace(cfg, st, evs);
      Inv(t[i]) && t[i + 1].firstMeta == (t[i].firstMeta && !ClosesMeta(t[i], evs[i]))
  {
    var t := Trace(cfg, st, evs);
    TraceStep(cfg, st, evs, i);
    StepFirstMeta(cfg, t[i], evs[i]);
  }

  /** Before event `i`, `first_meta` holds exactly when it held at the start and no earlier event closed a metadata block. */
  lemma {:induction false} TraceFirstMeta(cfg: Config, st: St, evs: seq<Event>, i: nat)
    requires Inv(st) && RunOk(cfg, st, evs) && i <= |evs|
    ensures var t := Trace(cfg, st, evs);
      t[i].firstMeta <==> st.firstMeta && forall j :: 0 <= j < i ==> !ClosesMeta(t[j], evs[j])
    decreases i
  {
    if i > 0 {
      var t := Trace(cfg, st, evs);
      TraceFirstMeta(cfg, st, evs, i - 1);
      TraceFirstMetaStep(cfg, st, evs, i - 1);
      assert (forall j :: 0 <= j < i ==> !ClosesMeta(t[j], evs[j]))
        <==> (forall j :: 0 <= j < i - 1 ==> !ClosesMeta(t[j], evs[j])) && !ClosesMeta(t[i - 1], evs[i - 1]);
    }
  }

  /** An acted-on `metadaten` close, stepped: the close `MetadatenClose` describes. */
  lemma MetadatenStep(cfg: Config, st: St, ev: Event)
    requires Inv(st) && EventOk(st, ev) && ClosesMeta(st, ev)
    ensures CloseOk(st, "metadaten") && Step(cfg, st, ev) == EndNamed(cfg, st, "metadaten")
  {
  }

  /** An acted-on `metadaten` close at event `i` of a trace. */
  lemma TraceMetaClose(cfg: Config, st: St, evs: seq<Event>, i: nat)
    requires Inv(st) && RunOk(cfg, st, evs) && i < |evs| && ClosesMeta(Trace(cfg, st, evs)[i], evs[i])
    ensures var t := Trace(cfg, st, evs);
      Inv(t[i]) && CloseOk(t[i], "metadaten") && t[i + 1] == EndNamed(cfg, t[i], "metadaten")
  {
    var t := Trace(cfg, st, evs);
    TraceStep(cfg, st, evs, i);
    MetadatenStep(cfg, t[i], evs[i]);
  }

  /** A `metadaten` close the handler acts on, at event `i` of a run from a fresh handler. */
  predicate MetaCloseAt(cfg: Config, evs: seq<Event>, i: int)
    requires RunOk(cfg, Fresh(), evs)
  {
    0 <= i < |evs| && ClosesMeta(Trace(cfg, Fresh(), evs)[i], evs[i])
  }

  /** The state a `metadaten` close hands to the header writers: merged, popped, `no_tag` cleared. */
  function MetaClosing(st: St): St
    requires |st.state| >= 1
  {
    Pop(MergeClosing(st.(noTag := false), "metadaten"))
  }

  /** The first acted-on `metadaten` close of a document writes the big header and clears `first_meta`. */
  lemma FirstMetadatenBigHeader(cfg: Config, evs: seq<Event>, i: nat)
    requires RunOk(cfg, Fresh(), evs) && MetaCloseAt(cfg, evs, i)
    requires forall j :: 0 <= j < i ==> !MetaCloseAt(cfg, evs, j)
    ensures Inv(Trace(cfg, Fresh(), evs)[i]) && Trace(cfg, Fresh(), evs)[i].firstMeta
    ensures CloseOk(Trace(cfg, Fresh(), evs)[i], "metadaten") && !Trace(cfg, Fresh(), evs)[i + 1].firstMeta
    ensures Trace(cfg, Fresh(), evs)[i + 1] == WriteBigHeader(cfg, MetaClosing(Trace(cfg, Fresh(), evs)[i]).(firstMeta := false)).(text := "")
  {
    var t := Trace(cfg, Fresh(), evs);
    forall j | 0 <= j < i
      ensures !ClosesMeta(t[j], evs[j])
    {
      assert !MetaCloseAt(cfg, evs, j);
    }
    TraceFirstMeta(cfg, Fresh(), evs, i);
    assert t[i].firstMeta;
    TraceMetaClose(cfg, Fresh(), evs, i);
    MetadatenClose(cfg, t[i]);
  }

  /** Every later acted-on `metadaten` close of a document writes a section heading instead. */
  lemma LaterMetadatenNormHeader(cfg: Config, evs: seq<Event>, i: nat, k: nat)
    requires RunOk(cfg, Fresh(), evs) && i < k && MetaCloseAt(cfg, evs, i) && MetaCloseAt(cfg, evs, k)
    ensures Inv(Trace(cfg, Fresh(), evs)[k]) && !Trace(cfg, Fresh(), evs)[k].firstMeta
    ensures Trace(cfg, Fresh(), evs)[k + 1] == WriteNormHeader(cfg, MetaClosing(Trace(cfg, Fresh(), evs)[k])).(text := "")
  {
    var t := Trace(cfg, Fresh(), evs);
    TraceFirstMeta(cfg, Fresh(), evs, k);
    TraceMetaClose(cfg, Fresh(), evs, k);
    MetadatenClose(cfg, t[k]);
  }

  /**
   * Any other close with `'meta'` on top stores the merged text under the
   * element's name; an `enbez` holding the table-of-contents title stores
   * nothing and ignores up to the `textdaten` close.
   */
  lemma MetaFieldClose(cfg: Config, st: St, name: string)
    requires Inv(st) && st.ignoreUntil.None? && Top(st) == Meta && name != "metadaten" && name != "text"
    ensures var r := EndNamed(cfg, st, name);
      var t := MergeClosing(st.(noTag := false), name).text;
      && r.text == "" && r.state == st.state
      && (name == "enbez" && t == Toc ==> r.meta == st.meta && r.ignoreUntil == Some("textdaten"))
      && (!(name == "enbez" && t == Toc) ==> r.meta == AppendMeta(st.meta, name, t) && r.ignoreUntil == None)
  {
    var m := MergeClosing(st.(noTag := false), name);
    MetaFieldEnd(cfg, st, name);
    MetaCloseFacts(m, name);
  }

  /** Outside an ignored span and with `'meta'` on top, a field close is the metadata branch after the merge. */
  lemma MetaFieldEnd(cfg: Config, st: St, name: string)
    requires Inv(st) && st.ignoreUntil.None? && Top(st) == Meta && name != "metadaten" && name != "text"
    ensures Inv(MergeClosing(st.(noTag := false), name))
    ensures MergeClosing(st.(noTag := false), name).state == st.state
    ensures EndNamed(cfg, st, name) == MetaClose(MergeClosing(st.(noTag := false), name), name)
  {
    var m := MergeClosing(st.(noTag := false), name);
    assert m.state == st.state;
    assert Top(m) == Meta;
    assert CloseOk(st, name);
    EndNamedOpen(cfg, st, name);
    MetaFieldMerged(cfg, m, name);
  }

  lemma MetaCloseFacts(m: St, name: string)
    requires Inv(m)
    ensures var r := MetaClose(m, name);
      && r.text == "" && r.state == m.state
      && (name == "enbez" && m.text == Toc ==> r.meta == m.meta && r.ignoreUntil == Some("textdaten"))
      && (!(name == "enbez" && m.text == Toc) ==> r.meta == AppendMeta(m.meta, name, m.text) && r.ignoreUntil == m.ignoreUntil)
  {
  }

  lemma MetaFieldMerged(cfg: Config, m: St, name: string)
    requires Inv(m) && Top(m) == Meta && name != "metadaten" && name != "text"
    ensures CloseOk(m, name)
    ensures EndMerged(cfg, m, name) == MetaClose(m, name)
  {
    assert EndMerged(cfg, m, name) == EndBody(cfg, m, name);
  }

  /**
   * Inside the ignore span a table-of-contents `enbez` opens (see
   * `MetaFieldClose`), the `metadaten` close is swallowed: the `'meta'`
   * entry stays on the stack and the span goes on.
   */
  lemma TocSwallowsMetadaten(cfg: Config, st: St)
    requires Inv(st) && st.ignoreUntil == Some("textdaten")
    ensures EndNamed(cfg, st, "metadaten").state == st.state
    ensures EndNamed(cfg, st, "metadaten").ignoreUntil == Some("textdaten")
  {
    IgnoredEndNamed(cfg, st, "metadaten");
    assert "textdaten" != "metadaten";
  }

  // ---------------------------------------------------------------- section headings

  /** The depth from the structure code is remembered; without a code it is one below the remembered one. */
  lemma NormHeaderDepth(cfg: Config, st: St)
    requires Inv(st)
    ensures var r := WriteNormHeader(cfg, st);
      && ("gliederungskennzahl" in st.meta ==>
            r.currentHeadingNum == |First(st.meta, "gliederungskennzahl")| / 3 + 1 && HeadingNum(st) == r.currentHeadingNum)
      && ("gliederungskennzahl" !in st.meta ==> r.currentHeadingNum == st.currentHeadingNum && HeadingNum(st) == st.currentHeadingNum + 1)
      && HeadingNum(st) >= 1
  {
  }

  /** Without a title nothing is written; otherwise the heading between blank lines. */
  lemma NormHeaderOutput(cfg: Config, st: St)
    requires Inv(st)
    ensures var r := WriteNormHeader(cfg, st);
      && (|NormTitle(st.meta)| == 0 ==> r.out == st.out)
      && (|NormTitle(st.meta)| > 0 ==>
            r.out == st.out + "\n" + HeadingLine(cfg, HeadingNum(st), NormTitle(st.meta), NormLink(st.meta)) + "\n\n")
  {
  }

  /** A heading line starts with one to six `#` and a space. */
  lemma HeadingHashes(cfg: Config, depth: int, title: string, link: string)
    requires depth >= 1
    ensures var k := if depth < 6 then depth else 6;
      var line := HeadingLine(cfg, depth, title, link);
      && 1 <= k <= 6 && |line| > k && line[k] == ' '
      && forall i :: 0 <= i < k ==> line[i] == '#'
  {
    var k := if depth < 6 then depth else 6;
    var l := if cfg.headingAnchor && |link| > 0 then HeadingLink(link) else "";
    RepeatChar('#', k);
    HashesThenBlank(Repeat("#", k), title, l);
  }

  lemma HashesThenBlank(hashes: string, title: string, l: string)
    requires forall i :: 0 <= i < |hashes| ==> hashes[i] == '#'
    ensures var line := hashes + " " + title + l;
      |line| > |hashes| && line[|hashes|] == ' ' && forall i :: 0 <= i < |hashes| ==> line[i] == '#'
  {
  }

  /** `enbez` replaces a structure title, and `titel` follows after a space. */
  lemma NormTitleParts(meta: map<string, seq<string>>)
    ensures "enbez" in meta && "titel" !in meta ==> NormTitle(meta) == First(meta, "enbez")
    ensures "enbez" in meta && "titel" in meta && |First(meta, "enbez")| > 0 ==>
      NormTitle(meta) == First(meta, "enbez") + " " + First(meta, "titel")
    ensures ("enbez" !in meta && "titel" !in meta && "gliederungsbez" in meta && "gliederungstitel" in meta
      && |First(meta, "gliederungsbez")| > 0) ==>
      NormTitle(meta) == First(meta, "gliederungsbez") + " - " + First(meta, "gliederungstitel")
    ensures |NormTitle(meta)| == 0 ==> ("titel" !in meta || |First(meta, "titel")| == 0)
  {
  }

  // ---------------------------------------------------------------- characters

  /** The chunk `characters` appends is stripped and holds no newline; text without `*` or `_` is only stripped. */
  lemma ChunkClean(data: string)
    ensures '\n' !in Chunk(data)
    ensures Strip(Chunk(data)) == Chunk(data)
    ensures (forall i :: 0 <= i < |data| ==> !IsEmph(data[i])) ==> Chunk(data) == Strip(Replace(data, "\n", " "))
  {
    var t := Replace(EscapeAsWritten(data), "\n", " ");
    ReplaceCharGone(EscapeAsWritten(data), '\n', " ");
    StripFacts(t);
    StripFacts(Strip(t));
    if forall i :: 0 <= i < |data| ==> !IsEmph(data[i]) {
      EscapeNoEmph(data);
    }
  }

  /** No event stream leaves a metadata key without a value. */
  lemma {:induction false} RunMetaOk(cfg: Config, st: St, evs: seq<Event>)
    requires Inv(st) && RunOk(cfg, st, evs) && MetaOk(st.meta)
    ensures MetaOk(Run(cfg, st, evs).meta)
    decreases |evs|
  {
    if evs != [] {
      StepMetaOk(cfg, st, evs[0]);
      RunMetaOk(cfg, Step(cfg, st, evs[0]), evs[1..]);
    }
  }
}
