# gesetze-tools core, modelled in Dafny

This project models the core of the German federal law tools (gesetze-tools).
The tools turn the XML of German federal laws into Markdown and commit changed
laws to git branches named after the official gazette that published the change.
It covers three pieces.

* **The converter** (`lawdown.py`, class `LawToMarkdown`). This is a SAX
  content handler: `startElement`, `endElement` and `characters` mutate a
  handler object, which buffers text and writes Markdown.
  - The handler's state is the class `LawDown.LawToMarkdown`. Its fields are
    those of the Python object plus the output written so far (`out`).
  - Each method is proved against a pure function of the state in module
    `LawDownSpec`: its `ensures` is `Model() == S.F(Cfg(), old(Model()), …)`.
  - The properties of the conversion are proved on those functions, in
    `LawDownSpec` and `LawDownProps`.
  - Escaping of emphasis characters (`Emphasis`), the filename slug, title
    cleaning, heading links and list-start escaping (`Markup`) are pure
    functions with their own lemmas.
  - The converter escapes emphasis characters as the code is written
    (`EscapeAsWritten`, lawdown.py:64). The escaping with the intended
    character class (`Escape`) appears only as the corrected half of the
    finding below.
* **The change-source matcher** (`lawgit.py`), module `LawGit`.
  - Each of the three gazette indexes (BGBl, BAnz, VkBl) loads its data and
    finds the entries a diff cites. A diff line that cites an entry and
    carries a note that the change is not yet incorporated ("noch nicht berücksichtigt", and for BGBl and VkBl
    also "noch nicht abschließend bearbeitet") makes the whole search yield
    nothing.
  - `determine_source` picks the latest candidate.
  - `prepare_commits` groups the kept changes by branch and by entry. Within
    a branch the entries keep the order in which their first change was met.
  - The index classes keep their loaded data in fields. Their loops are
    proved against `ScanBGBl`, `ScanBAnz`, `ScanVkbl`, `FindIn`, `Determine`
    and `Prepare`.
* **The VkBl scraper's pure parts** (`vkbl_scraper.py`), module `VkblScraper`.
  - `ctext`, the text of an element with `<br>` turned into newlines, is
    written as a loop and also as a recursive definition.
  - `slugify`.
  - The splitting of a result table's header into genre and edition, and of
    its title cell into title and description.
  - The key/value pairs collected from the table rows, and the item key
    `jahr.vonummer.seite.aktenzeichen`.

Python `str` operations (strip, split, join, replace, splitlines, lower,
capitalize, find, int parsing and formatting) are written out once in module
`Strings`, with Python's whitespace set. `Wrappers` holds `Option`.

## Model

| member | source | states |
|---|---|---|
| Emphasis.LeadingInserts | lawdown.py:63 | The first emphasis substitution changes its input only by inserting backslashes, each one directly before a `*` or `_`. |
| Emphasis.TrailingInserts | lawdown.py:64 | The second substitution likewise only inserts backslashes before `*` or `_`, for both the written and the intended character class. |
| Emphasis.EscapeInserts | lawdown.py:355-356 | Running both substitutions in order only inserts backslashes before emphasis characters; this holds for the code as written and as intended. |
| Emphasis.EscapeNoEmph | lawdown.py:355-356 | Text with no `*` or `_` is left unchanged, both by the escaping as written and by the one with the intended class. |
| Emphasis.EscapeIsolated | lawdown.py:62-65 | With the intended class, an emphasis character with whitespace or a text edge on both sides is never escaped. |
| Emphasis.AsWrittenEscapesIsolated | lawdown.py:64 | As written, `" * "` becomes `" \* "`, although the star has blanks on both sides. |
| Emphasis.AsWrittenSkipsLetterS | lawdown.py:64 | As written, a star after the letter `s` is not escaped while one after `a` is; the intended class escapes both. |
| Markup.UmlautsGone | lawdown.py:464-471 | After the umlaut replacements no ä, ö, ü or ß is left, and each remaining character came from the input or from the replacement letters. |
| Markup.SlugChars | lawdown.py:461-473 | Every character of the stored filename slug is a lower-case word character or `-`; none is whitespace. |
| Markup.SlugIdempotent | lawdown.py:461-473 | Slugging a slug gives the same slug. |
| Markup.CleanTitleUnchanged | lawdown.py:368-371 | A stripped title without backslashes passes through `clean_title` unchanged. |
| Markup.CleanTitleOfEscaped | lawdown.py:368-371 | `clean_title` undoes the emphasis escaping as written, the one the converter applies, of a title that has only `*` to escape and no `" \*)"` sequence. |
| Markup.OrigSlugOfPath | lawdown.py:483 | For a path `dir/base.ext` the fallback slug is `base`. |
| Markup.RemoveXParensNoParen | lawdown.py:451 | Removing `(X…)` groups leaves a link without parentheses unchanged. |
| Markup.EscapeListStartMeaning | lawdown.py:112 | After escaping, no wrapped line starts with digits followed by `.`; a line that did has exactly one backslash inserted after its leading digits, and any other line is unchanged. |
| LawDownSpec.Fresh | lawdown.py:46-61 | A new handler has the root state only, no output, no footnotes seen and nothing ignored. |
| LawDownSpec.FirstIndent | lawdown.py:99-102 | The first-line indent of a list item is blanks only: one blank plus enough to fill the marker to three characters. |
| LawDownSpec.WriteWrapped | lawdown.py:95-114 | `write_wrapped` only appends to the output and clears the pending list marker; nothing else changes. |
| LawDownSpec.FlushText | lawdown.py:116-138 | Flushing empties the text buffer and changes only the output and the list marker. |
| LawDownSpec.Blocks | lawdown.py:118-120 | There is one block per placeholder-separated piece, the first piece is kept as is, and every block is shorter than the buffer. |
| LawDownSpec.FlushSplit | lawdown.py:119-135 | Flushing a buffer with placeholders changes only the text buffer, the output and the list marker. |
| LawDownSpec.Deeper | lawdown.py:121-127 | The indent grows by one exactly when the first block is non-empty, and output is only appended. |
| LawDownSpec.Shallower | lawdown.py:134-135 | The indent shrinks by one exactly when the first block was non-empty; nothing else changes. |
| LawDownSpec.FlushBlocks | lawdown.py:129-132 | Flushing the later blocks changes only the output and the list marker. |
| LawDownSpec.FlushBlock | lawdown.py:130-132 | Flushing one block changes only the buffer, the output and the list marker. |
| LawDownSpec.AppendMeta | lawdown.py:267 | A metadata field's value is appended to that key's list; the key set gains the key and every other key's list is unchanged. |
| LawDownSpec.WriteFrontMatter | lawdown.py:385-397 | Writing the YAML front matter changes only the output. |
| LawDownSpec.WriteTitleLines | lawdown.py:398-401 | Writing the title block changes only the output. |
| LawDownSpec.WriteDateLines | lawdown.py:402-406 | Writing the date line changes only the output. |
| LawDownSpec.WriteBigHeader | lawdown.py:373-416 | The law's header changes only the stored filename, the output and the text buffer, which it empties. |
| LawDownSpec.WriteHeading | lawdown.py:456-459 | A heading changes only the output. |
| LawDownSpec.WriteNormHeader | lawdown.py:418-459 | A norm heading changes only the output and the current heading depth, which is kept or becomes at least 1. |
| LawDownSpec.StartTable | lawdown.py:175-180 | Opening a table pushes the table state, keeps the handler invariant and leaves the metadata alone. |
| LawDownSpec.StartRow | lawdown.py:201-210 | Opening a row or a list item keeps the invariant and the metadata. |
| LawDownSpec.StartEntry | lawdown.py:211-218 | Opening a table cell keeps the invariant and the metadata. |
| LawDownSpec.StartImg | lawdown.py:219-224 | An image writes its Markdown link and keeps the invariant and the metadata. |
| LawDownSpec.StartDispatch | lawdown.py:175-230 | The tag dispatch of `startElement` keeps the invariant and the metadata. |
| LawDownSpec.StartBody | lawdown.py:184-186 | `tbody` keeps the invariant and the metadata. |
| LawDownSpec.StartList | lawdown.py:187-190 | A definition list keeps the invariant and the metadata. |
| LawDownSpec.StartItem | lawdown.py:201-230 | The row, item and remaining tags keep the invariant and the metadata. |
| LawDownSpec.StartElement | lawdown.py:140-230 | Any allowed `startElement` keeps the handler invariant: the state stack is non-empty with the root at the bottom. |
| LawDownSpec.StartNamed | lawdown.py:142-230 | The same, once the tag name is lower-cased. |
| LawDownSpec.StartOpen | lawdown.py:149-230 | The same, outside an ignored span. |
| LawDownSpec.Enter | lawdown.py:159-163 | `text` and `footnotes` push their state; `text` also resets the indent. Only the indent and the stack change, and other tags change nothing. |
| LawDownSpec.StartContent | lawdown.py:159-230 | After the state pushes, the start handler keeps the invariant and the metadata. |
| LawDownSpec.FootnotesClose | lawdown.py:270-276 | Closing a footnote or the footnote list keeps the invariant and the metadata. |
| LawDownSpec.ListIndexClose | lawdown.py:281-289 | Closing a tag inside a list-item label keeps the invariant and the metadata. |
| LawDownSpec.EndCell | lawdown.py:306-313 | Closing a cell or a list-item body keeps the invariant and the metadata. |
| LawDownSpec.ItemClose | lawdown.py:314-320 | Closing a `dd`/`entry` keeps the invariant and the metadata. |
| LawDownSpec.ItemLeave | lawdown.py:317-320 | Leaving a list item keeps the invariant and the metadata. |
| LawDownSpec.EntryFlush | lawdown.py:317-319 | Flushing a cell keeps the invariant and the metadata. |
| LawDownSpec.EndRow | lawdown.py:321-333 | Closing a row keeps the invariant and the metadata. |
| LawDownSpec.TableRowFlush | lawdown.py:322-327 | Writing a table row keeps the invariant and the metadata. |
| LawDownSpec.RowLeave | lawdown.py:328-333 | Leaving a `row` outside a table moves the indent and the list-item depth back one level; the invariant and the metadata are kept. |
| LawDownSpec.EndBlock | lawdown.py:337-350 | Closing a paragraph or a title keeps the invariant and the metadata. |
| LawDownSpec.EndDispatch | lawdown.py:291-350 | The tag dispatch of `endElement` keeps the invariant and the metadata. |
| LawDownSpec.EndText | lawdown.py:334-350 | Closing `nb`, `p`, `title` or `subtitle` keeps the invariant and the metadata. |
| LawDownSpec.MetaClose | lawdown.py:263-269 | Closing a metadata field keeps the invariant. |
| LawDownSpec.FootnoteLabel | lawdown.py:277-279 | Writing a pending footnote label keeps the invariant and the metadata. |
| LawDownSpec.ContentClose | lawdown.py:270-350 | Closing a tag outside the metadata keeps the invariant and the metadata. |
| LawDownSpec.EndBody | lawdown.py:261-350 | Every branch after the merge keeps the invariant. |
| LawDownSpec.EndElement | lawdown.py:232-350 | Any allowed `endElement` keeps the handler invariant. |
| LawDownSpec.EndNamed | lawdown.py:233-350 | The same, once the tag name is lower-cased. |
| LawDownSpec.EndIgnored | lawdown.py:235-238 | Inside an ignored span only the ignore marker can change; it is cleared exactly when the closing tag is the awaited one. |
| LawDownSpec.MergeClosing | lawdown.py:240-250 | Closing a tag moves the pending characters into the buffer and changes nothing else. |
| LawDownSpec.EndMerged | lawdown.py:252-350 | Everything after the merge keeps the invariant. |
| LawDownSpec.MetaEnd | lawdown.py:252-260 | Closing `metadaten` keeps the invariant and the metadata. |
| LawDownSpec.Characters | lawdown.py:352-358 | Character data, escaped as written, keeps the invariant. |
| LawDownSpec.Step | lawdown.py:489 | Each parser callback keeps the invariant. |
| LawDownSpec.StepMetaOk | lawdown.py:156 | Each callback keeps every metadata list non-empty, so the headers' `[0]` reads are defined. |
| LawDownSpec.AppendMetaOk | lawdown.py:267 | Appending a field keeps every metadata list non-empty. |
| LawDownSpec.Run | lawdown.py:481-489 | Parsing a document keeps the invariant. |
| LawDownProps.IgnoredStart | lawdown.py:141-144 | Inside an ignored span a start tag only clears `no_tag`. |
| LawDownProps.IgnoredChars | lawdown.py:353-354 | Inside an ignored span character data changes nothing. |
| LawDownProps.IgnoredEnd | lawdown.py:233-238 | Inside an ignored span an end tag only clears `no_tag` and, when it is the awaited tag, the ignore marker. |
| LawDownProps.IgnoredEndNamed | lawdown.py:235-238 | The same for the lower-cased name. |
| LawDownProps.FlushTextGrows | lawdown.py:116-138 | Flushing only appends to the output. |
| LawDownProps.FlushSplitGrows | lawdown.py:119-135 | Flushing placeholder blocks only appends to the output. |
| LawDownProps.FlushBlocksGrows | lawdown.py:129-132 | Flushing the later blocks only appends to the output. |
| LawDownProps.FlushBlockGrows | lawdown.py:130-132 | Flushing one block only appends to the output. |
| LawDownProps.FlushBlank | lawdown.py:136-138 | A buffer that is all whitespace and has no placeholder is discarded without output. |
| LawDownProps.WrappedFirstLine | lawdown.py:98-114 | The first wrapped line of a list item gets the item indent and is not escaped; without a marker it gets the level indent and the list-start escape. |
| LawDownProps.WrappedLaterLines | lawdown.py:107-114 | Every later wrapped line is written at the level indent, with its leading `N.` escaped, and ends in a newline. |
| LawDownProps.FnrInMeta | lawdown.py:145-148 | A footnote reference inside metadata starts an ignored span that its own end tag closes. |
| LawDownProps.FnrMetaStart | lawdown.py:145-148 | Inside metadata, opening `fnr` only clears `no_tag` and sets the ignore marker. |
| LawDownProps.FnrAnchor | lawdown.py:149-152 | Outside metadata, the reference's ID joins the set of footnotes seen. A new ID is written as `[^ID]` on its own line; a known one writes nothing extra. |
| LawDownProps.FnrOpen | lawdown.py:149-230 | Outside metadata, `fnr` first writes the reference and then goes through the usual start handling. |
| LawDownProps.FootnoteRefFacts | lawdown.py:150-152 | The footnote set gains the ID; only a new ID is written, and a known ID changes nothing. |
| LawDownProps.FnrRef | lawdown.py:149-230 | Opening `fnr` in an open span is the reference followed by the usual start handling. |
| LawDownProps.FnrContent | lawdown.py:164-230 | A reference inside footnotes changes nothing more; elsewhere it merges the characters and flushes the buffer. |
| LawDownProps.EndNamedOpen | lawdown.py:240-350 | Outside an ignored span, closing a tag is the merge of pending characters followed by the tag's branch. |
| LawDownProps.MetadatenClose | lawdown.py:252-260 | One `metadaten` close, on its own: it pops the state and empties the buffer, and writes the law's header when `first_meta` is still set and a norm heading otherwise. |
| LawDownProps.StepFirstMeta | lawdown.py:252-256 | One event clears `first_meta` exactly when it is a `metadaten` close that is acted on; no event sets it again. |
| LawDownProps.TraceStep | lawdown.py:140-358 | Each state of a document's run of states is reached from the one before by that event's callback, and the last state is the end of the run. |
| LawDownProps.TraceFirstMeta | lawdown.py:252-256 | Partway through a document, `first_meta` is set exactly when it was set at the start and no `metadaten` close has been acted on since. |
| LawDownProps.FirstMetadatenBigHeader | lawdown.py:252-260 | In a document, the first `metadaten` close acted on writes the law's header and clears `first_meta`. |
| LawDownProps.LaterMetadatenNormHeader | lawdown.py:252-260 | Every later `metadaten` close acted on writes a norm heading, never the law's header again. |
| LawDownProps.MetaFieldClose | lawdown.py:263-269 | A metadata field is appended to its key and the buffer cleared; an `enbez` equal to `Inhaltsübersicht` instead starts ignoring up to `textdaten`. |
| LawDownProps.MetaFieldMerged | lawdown.py:263-269 | After the merge, a field close in metadata is exactly the metadata branch. |
| LawDownProps.TocSwallowsMetadaten | lawdown.py:264-265 | Once the table of contents is ignored, the following `metadaten` close neither pops the state nor ends the span. |
| LawDownProps.NormHeaderDepth | lawdown.py:419-424 | The heading depth is `len(gliederungskennzahl)/3 + 1`, which is stored; without that field it is one more than the stored depth, which is kept. The depth is always at least 1. |
| LawDownProps.NormHeaderOutput | lawdown.py:446-459 | Without a title nothing is written; otherwise a blank line, the heading line and a blank line. |
| LawDownProps.HeadingHashes | lawdown.py:448 | A heading line starts with `min(depth, 6)` hashes followed by a blank. |
| LawDownProps.NormTitleParts | lawdown.py:425-445 | The title is `enbez titel`, or `enbez` alone, or `gliederungsbez - gliederungstitel`; it is empty only when there is no non-empty `titel`. |
| LawDownProps.ChunkClean | lawdown.py:352-357 | Each character chunk, escaped as written, has no newline and no surrounding whitespace; without emphasis characters it is the stripped text with newlines as blanks. |
| LawDownProps.RunMetaOk | lawdown.py:263-269 | Over a whole document every metadata list stays non-empty. |
| LawDown.LawToMarkdown.constructor | lawdown.py:68-75 | The new handler's state is the fresh state, and its options are those given. |
| LawDown.LawToMarkdown.Out | lawdown.py:77-83 | Appends the content to the output. |
| LawDown.LawToMarkdown.OutIndented | lawdown.py:85-89 | Appends the indent and then the content. |
| LawDown.LawToMarkdown.Write | lawdown.py:91-93 | Appends the content and, unless `nobreak`, a newline. |
| LawDown.LawToMarkdown.WriteWrapped | lawdown.py:95-114 | The new state is `WriteWrapped` of the old one: the wrapped lines are written and the list marker is cleared. |
| LawDown.LawToMarkdown.WriteLines | lawdown.py:103-114 | The loop over the wrapped lines writes exactly `WrappedText` of them. |
| LawDown.LawToMarkdown.FlushText | lawdown.py:116-138 | The new state is `FlushText` of the old one. |
| LawDown.LawToMarkdown.FlushSplit | lawdown.py:119-135 | The new state is `FlushSplit` of the old one. |
| LawDown.LawToMarkdown.FlushBlocks | lawdown.py:129-132 | The loop over the later blocks reaches `FlushBlocks`. |
| LawDown.LawToMarkdown.WriteListItem | lawdown.py:363-366 | The new state is `WriteListItem` of the old one. |
| LawDown.LawToMarkdown.StoreFilename | lawdown.py:461-473 | The stored filename is the slug of the abbreviation. |
| LawDown.LawToMarkdown.WriteBigHeader | lawdown.py:373-416 | The new state is `WriteBigHeader` of the old one. |
| LawDown.LawToMarkdown.WriteFrontMatter | lawdown.py:385-397 | The loop over the header fields reaches `WriteFrontMatter`. |
| LawDown.LawToMarkdown.WriteTitleLines | lawdown.py:398-401 | The new state is `WriteTitleLines` of the old one. |
| LawDown.LawToMarkdown.WriteDateLines | lawdown.py:402-406 | The new state is `WriteDateLines` of the old one. |
| LawDown.LawToMarkdown.WriteComments | lawdown.py:408-415 | The loop over the status comments writes exactly `StandLines` of them. |
| LawDown.LawToMarkdown.WriteNormHeader | lawdown.py:418-459 | The new state is `WriteNormHeader` of the old one. |
| LawDown.LawToMarkdown.WriteHeading | lawdown.py:448-459 | The new state is `WriteHeading` of the old one. |
| LawDown.LawToMarkdown.StartElement | lawdown.py:140-230 | The new state is `StartElement` of the old one. |
| LawDown.LawToMarkdown.StartNamed | lawdown.py:142-230 | The new state is `StartNamed` of the old one. |
| LawDown.LawToMarkdown.StartOpen | lawdown.py:149-230 | The new state is `StartOpen` of the old one. |
| LawDown.LawToMarkdown.FootnoteRef | lawdown.py:150-152 | The new state is `FootnoteRef` of the old one. |
| LawDown.LawToMarkdown.Enter | lawdown.py:159-163 | The new state is `Enter` of the old one. |
| LawDown.LawToMarkdown.StartContent | lawdown.py:159-230 | The new state is `StartContent` of the old one. |
| LawDown.LawToMarkdown.StartDispatch | lawdown.py:175-230 | The new state is `StartDispatch` of the old one. |
| LawDown.LawToMarkdown.StartItem | lawdown.py:201-230 | The new state is `StartItem` of the old one. |
| LawDown.LawToMarkdown.StartTable | lawdown.py:175-180 | The new state is `StartTable` of the old one. |
| LawDown.LawToMarkdown.StartBody | lawdown.py:184-186 | The new state is `StartBody` of the old one. |
| LawDown.LawToMarkdown.StartList | lawdown.py:187-190 | The new state is `StartList` of the old one. |
| LawDown.LawToMarkdown.StartRow | lawdown.py:201-210 | The new state is `StartRow` of the old one. |
| LawDown.LawToMarkdown.StartEntry | lawdown.py:211-218 | The new state is `StartEntry` of the old one. |
| LawDown.LawToMarkdown.StartImg | lawdown.py:219-224 | The new state is `StartImg` of the old one. |
| LawDown.LawToMarkdown.EndElement | lawdown.py:232-350 | The new state is `EndElement` of the old one. |
| LawDown.LawToMarkdown.EndNamed | lawdown.py:233-350 | The new state is `EndNamed` of the old one. |
| LawDown.LawToMarkdown.EndIgnored | lawdown.py:235-238 | The new state is `EndIgnored` of the old one. |
| LawDown.LawToMarkdown.MergeClosing | lawdown.py:240-250 | The new state is `MergeClosing` of the old one. |
| LawDown.LawToMarkdown.EndMerged | lawdown.py:252-350 | The new state is `EndMerged` of the old one. |
| LawDown.LawToMarkdown.MetaEnd | lawdown.py:252-260 | The new state is `MetaEnd` of the old one. |
| LawDown.LawToMarkdown.EndBody | lawdown.py:261-350 | The new state is `EndBody` of the old one. |
| LawDown.LawToMarkdown.MetaClose | lawdown.py:263-269 | The new state is `MetaClose` of the old one. |
| LawDown.LawToMarkdown.ContentClose | lawdown.py:270-350 | The new state is `ContentClose` of the old one. |
| LawDown.LawToMarkdown.FootnotesClose | lawdown.py:270-276 | The new state is `FootnotesClose` of the old one. |
| LawDown.LawToMarkdown.FootnoteLabel | lawdown.py:277-279 | The new state is `FootnoteLabel` of the old one. |
| LawDown.LawToMarkdown.ListIndexClose | lawdown.py:281-289 | The new state is `ListIndexClose` of the old one. |
| LawDown.LawToMarkdown.EndDispatch | lawdown.py:291-350 | The new state is `EndDispatch` of the old one. |
| LawDown.LawToMarkdown.EndCell | lawdown.py:306-313 | The new state is `EndCell` of the old one. |
| LawDown.LawToMarkdown.ItemClose | lawdown.py:314-320 | The new state is `ItemClose` of the old one. |
| LawDown.LawToMarkdown.EndRow | lawdown.py:321-333 | The new state is `EndRow` of the old one. |
| LawDown.LawToMarkdown.TableRowFlush | lawdown.py:322-327 | The new state is `TableRowFlush` of the old one. |
| LawDown.LawToMarkdown.RowLeave | lawdown.py:328-333 | The new state is `RowLeave` of the old one. |
| LawDown.LawToMarkdown.EndText | lawdown.py:334-350 | The new state is `EndText` of the old one. |
| LawDown.LawToMarkdown.EndBlock | lawdown.py:337-350 | The new state is `EndBlock` of the old one. |
| LawDown.LawToMarkdown.Characters | lawdown.py:352-358 | The new state is `Characters` of the old one, so the buffered chunk is escaped as written. |
| LawDown.LawToMarkdown.Dispatch | lawdown.py:489 | One parser event is one `Step` of the model. |
| LawDown.HeadingTitle | lawdown.py:425-445 | Computes, by sequential updates, the same title and link as `NormTitle` and `NormLink`. |
| LawDown.ConvertLaw | lawdown.py:476-492 | A fresh handler fed the document's events returns the output and filename of `Run` from the fresh state, with emphasis escaped as written. Without a name, the slug comes from the path. A `filename` of `None` marks a document in which no `metadaten` close was acted on. |
| LawGit.LoadTocFacts | lawgit.py:70-75 | Loading one year's table of contents keeps the keys already there, adds the key of every non-`meta` entry and no other key, and keeps every stored entry non-`meta`, under its own key and with `part_i` spelt out. Which entry a key holds is stated by `LawGit.LoadEntriesLast`. |
| LawGit.LoadBGBlMeaning | lawgit.py:67-75 | The loaded BGBl map has exactly the keys of the non-`meta` entries of all years. Every stored entry is non-`meta`, under its own key and with `part_i` spelt out. |
| LawGit.LoadTocAppend | lawgit.py:70-75 | Loading two runs of entries one after the other is loading their concatenation. |
| LawGit.LoadBGBlFlat | lawgit.py:67-75 | Loading year by year is loading all years' entries in one run, in order. |
| LawGit.LoadEntriesLast | lawgit.py:70-75 | Loading a run of entries holds a key exactly when some non-`meta` entry has it, and stores under it the last such entry with `part_i` set. |
| LawGit.LoadBGBlLast | lawgit.py:67-75 | The loaded BGBl map holds a key exactly when some non-`meta` entry of some year has it, and stores under it the last such entry over all years in order, with `part_i` set. |
| LawGit.BGBlKeysMeaning | lawgit.py:85-92 | A key is collected from a line's matches exactly when some match names it and the index knows it. |
| LawGit.ScanBGBlMeaning | lawgit.py:77-97 | The scan is transient exactly when some line has a match and carries a not-yet-incorporated note; otherwise the keys found are exactly the known keys cited by some line. |
| LawGit.BGBlTransientLine | lawgit.py:81-83 | A line with a match and a not-yet-incorporated note makes the scan transient. |
| LawGit.BGBlBranchParts | lawgit.py:106-108 | The BGBl branch name splits at `/` into `bgbl`, the year and `part-number`. |
| LawGit.BGBlSource.constructor | lawgit.py:61-62 | The loaded data is `LoadBGBl` of the JSON, and the change pattern is the one given. |
| LawGit.BGBlSource.Load | lawgit.py:67-75 | The nested loops store exactly `LoadBGBl` of the JSON. |
| LawGit.BGBlSource.FindCandidates | lawgit.py:77-97 | The loops return exactly `ScanBGBl` of the diff lines. |
| LawGit.KeepCitedMeaning | lawgit.py:135 | The character filter keeps exactly the characters of the citation alphabet, and leaves text made only of them unchanged. |
| LawGit.DropYearsChars | lawgit.py:136 | Dropping years only removes characters. |
| LawGit.DropYearsNoDigit | lawgit.py:136 | Text without digits keeps no year to drop. |
| LawGit.CleanLineChars | lawgit.py:135-136 | A cleaned line has only citation characters from the line, and a line without digits that is already clean is unchanged. |
| LawGit.BAnzKeysMeaning | lawgit.py:137-141 | An index key is collected from a cleaned line exactly when it occurs in it. |
| LawGit.ScanBAnzTransient | lawgit.py:137-140 | The BAnz scan is transient exactly when some line cites a known key and "noch nicht berücksichtigt". |
| LawGit.ScanBAnzKeys | lawgit.py:132-142 | Otherwise a key is found exactly when it is in the index order and some cleaned line mentions it. |
| LawGit.DateBranchOf | lawgit.py:151-154 | A date `dd.mm.yyyy` gives the branch `prefix/yyyy/mm-dd`. |
| LawGit.BAnzSource.constructor | lawgit.py:123-130 | The source holds the index order and the data, whose keys are exactly the order's. |
| LawGit.BAnzSource.FindCandidates | lawgit.py:132-142 | The loops return exactly `ScanBAnz` of the diff lines. |
| LawGit.BAnzSource.TransientLine | lawgit.py:139-140 | A line citing a known key and "noch nicht berücksichtigt" makes the scan transient. |
| LawGit.LoadVkblStored | lawgit.py:191-195 | Every stored VkBl entry has a year and a page, sits under the key made of them, and has `date` set from its publication. |
| LawGit.LoadVkblLast | lawgit.py:189-195 | The loaded VkBl map holds a key exactly when some entry with a year and a page has it, and stores under it the last such entry, with `date` set from `verffentlichtam`. Entries without a year or a page are dropped. |
| LawGit.LastDatedMeaning | lawgit.py:191-195 | `LastDated(json, i, k)`, the "last writer" of key `k` that `LoadVkblLast` refers to, holds exactly when entry `i` has a year and a page, its `(int(jahr), int(seite))` is `k`, and no later entry with a year and a page has that key. |
| LawGit.LoadVkblKeyed | lawgit.py:189-195 | Loading VkBl is filling a dict key by key, in input order, from each entry's key (none for undated entries) and the entry with `date` set. |
| LawGit.LoadVkblKeeps | lawgit.py:191-195 | Every dated entry's key is present after loading. |
| LawGit.VkblKeysMeaning | lawgit.py:205-210 | A (year, page) key is collected exactly when a match names it and the index knows it. |
| LawGit.ScanVkblMeaning | lawgit.py:197-211 | The VkBl scan is transient exactly when a line with a match carries a not-yet-incorporated note; otherwise its keys are exactly the known cited ones. |
| LawGit.VkblTransientLine | lawgit.py:201-203 | A line with a match and a not-yet-incorporated note makes the scan transient. |
| LawGit.VkblSource.constructor | lawgit.py:178-183 | The loaded data is `LoadVkbl` of the JSON, and the change pattern is the one given. |
| LawGit.VkblSource.Load | lawgit.py:188-195 | The loop stores exactly `LoadVkbl` of the JSON. |
| LawGit.VkblSource.FindCandidates | lawgit.py:197-211 | The loops return exactly `ScanVkbl` of the diff lines. |
| LawGit.FindIn | lawgit.py:331-339 | Every candidate found is a key of its source's index. |
| LawGit.FindInTransient | lawgit.py:333-337 | If any source sees a pending citation, no candidate is returned. |
| LawGit.FindInCites | lawgit.py:331-339 | Otherwise a candidate is returned exactly when its source's scan finds it. |
| LawGit.FindInOrder | lawgit.py:333-336 | BGBl candidates come first, then BAnz, then VkBl. |
| LawGit.LastMax | lawgit.py:329 | Picks the index of the largest order key; ties go to the last one, as `sorted(...)[-1]` does. |
| LawGit.LastMaxUnique | lawgit.py:329 | That index is the only one with those two properties. |
| LawGit.DetermineNone | lawgit.py:319-328 | Candidates come from the diff when it cites any, otherwise from the whole file. There is no source exactly when neither cites one. |
| LawGit.DetermineLatest | lawgit.py:319-329 | The chosen source is a candidate with the largest order key, and no later candidate has an equal key. |
| LawGit.DatedBranchName | lawgit.py:151-154 | BAnz and VkBl candidates dated `dd.mm.yyyy` go to `banz/yyyy/mm-dd` and `vkbl/yyyy/mm-dd`. |
| LawGit.Kept | lawgit.py:275-282 | A kept change has a determined source; changes that are too old or have none are dropped. |
| LawGit.KeptCommitsMeaning | lawgit.py:274-282 | A (law, source) pair is kept exactly when that law's change determines that source and survives the age filter. |
| LawGit.SelectedMeaning | lawgit.py:285-286 | The commits under a branch and identifier are exactly those placed there. |
| LawGit.AddToFacts | lawgit.py:285-286 | `setdefault` then `append` adds a new identifier after the existing ones and grows only that identifier's commits. |
| LawGit.GroupMeaning | lawgit.py:285-286 | The grouping lists a branch and identifier exactly when some commit is placed there, and holds those commits in order. |
| LawGit.SelectedPlaced | lawgit.py:285-286 | Some commit is selected for a branch and identifier exactly when some position places one there. |
| LawGit.GroupDistinct | lawgit.py:285-286 | Within a branch no identifier is listed twice. |
| LawGit.GroupOrder | lawgit.py:285-286 | Within a branch the identifiers are listed in the order of their first placed commits; `commit_branch` walks them in this order (lawgit.py:360). |
| LawGit.KeptCommitsOnePerLaw | lawgit.py:274-286 | The laws are the keys of a dict, so no two kept commits belong to the same law. |
| LawGit.GroupNoEmptyBranch | lawgit.py:285-286 | No branch in the grouping is empty. |
| LawGit.PrepareStep | lawgit.py:274-286 | Handling one more law extends the grouping by that law's commit, if it has one. |
| LawGit.KeptCommitsPrefix | lawgit.py:274-286 | The commits kept from the first laws are a prefix of those kept from all laws. |
| LawGit.LawGit.constructor | lawgit.py:259-269 | The tool holds the three sources, the options and the changed laws given. |
| LawGit.LawGit.FindInSources | lawgit.py:331-339 | Returns exactly `FindIn` of the lines. |
| LawGit.LawGit.DetermineSource | lawgit.py:319-329 | Returns exactly `Determine` of the law's change. |
| LawGit.LawGit.PrepareCommits | lawgit.py:271-287 | The loop over the distinct laws returns exactly `Prepare`: branches mapped to their identifiers in first-seen order, each with its commits in law order. |
| LawGit.LawGit.CommitLaw | lawgit.py:275-286 | Handling one law is exactly `Enter`. |
| VkblScraper.CText | vkbl_scraper.py:35-47 | The loop-and-recursion text extraction returns exactly `CTextOf` of the element. |
| VkblScraper.CTextLeaf | vkbl_scraper.py:36-47 | An element without children yields its text, or nothing when the text is missing. |
| VkblScraper.CTextIsTextContent | vkbl_scraper.py:35-47 | Without `<br>` elements the result is the element's plain text content. |
| VkblScraper.CTextLength | vkbl_scraper.py:39-46 | The result is the plain text content plus one newline per `<br>`. |
| VkblScraper.SlugifyFacts | vkbl_scraper.py:50-54 | A slug has only the letters a–z; slugging is idempotent and leaves such keys unchanged. |
| VkblScraper.SlugifyByChar | vkbl_scraper.py:50-54 | Slugging works character by character: a character is kept, lower-cased, exactly when that gives a letter a–z. |
| VkblScraper.HeaderWithEdition | vkbl_scraper.py:84-88 | A header `genre` + `"\xa0 "` + words gives the genre and the third word as the edition. |
| VkblScraper.HeaderWithoutSep | vkbl_scraper.py:86-91 | A header that does not contain the separator `"\xa0 "` is all genre with an empty edition. |
| VkblScraper.HeaderWithTwoSeps | vkbl_scraper.py:86-91 | A header with the separator twice does not unpack into two parts: it is all genre with an empty edition. |
| VkblScraper.TitleLinesFacts | vkbl_scraper.py:92-94 | Every kept title line is non-empty and stripped. |
| VkblScraper.SplitTitleFacts | vkbl_scraper.py:92-95 | The title is the first kept line and the description is the remaining lines joined by newlines. |
| VkblScraper.WithFixedFacts | vkbl_scraper.py:112-118 | The item holds genre, edition, title and description as computed, over the extra fields, and nothing else changes. |
| VkblScraper.ItemOfFacts | vkbl_scraper.py:84-118 | Every key of an item is a slug, and its fixed fields are the header and title parts. |
| VkblScraper.ItemOfExtra | vkbl_scraper.py:96-118 | A row field that is not overwritten later holds its last value in the item. |
| VkblScraper.ItemKeyFields | vkbl_scraper.py:120-124 | The item key splits at `.` back into the `jahr`, `vonummer`, `seite` and `aktenzeichen` fields (empty when missing), provided none of them holds a dot. |
| VkblScraper.ItemsKeys | vkbl_scraper.py:120-125 | The result has exactly the keys of the scraped tables. |
| VkblScraper.ItemsLast | vkbl_scraper.py:125 | A key's item is that of the last table with that key. |
| VkblScraper.ExtraFields | vkbl_scraper.py:96-111 | The loop over the rows returns exactly the assignments the rows make, applied in order. |
| VkblScraper.AddRow | vkbl_scraper.py:97-111 | One row extends the assignments by that row's writes. |
| VkblScraper.TableItem | vkbl_scraper.py:84-118 | One table's item is exactly `ItemOf` the table. |
| VkblScraper.Scrape | vkbl_scraper.py:81-125 | The loop over the result tables returns exactly `Items` of them. |

## Left out

- XML parsing is not modelled: the SAX parser, its external-entity setting and `endDocument` (a no-op). The converter receives the document as a sequence of start, end and character events.
- `textwrap.wrap` and `yaml.safe_dump` are parameters of the model (`wrap`, `dump`) and are not modelled.
- The Python 2 encoding shim in `out`, and the command-line `main` of each script, are not modelled.
- The class attributes `state` and `footnotes` are shared between handler instances in Python. The model gives each handler its own, so it describes one document per process.
- Input the code would reject with an exception becomes a precondition. Examples: a missing `ID` or `SRC` attribute, an empty state stack, a header without `jurabk`, an edition with fewer than three words, an empty title.
- `get_message` of the three sources, `collect_laws`, `commit_branch` and `autocommit` (commit messages and git plumbing) are not modelled.
- JSON and file reading, `datetime.now()` and `strptime` are parameters: parsed entries, `Options.readFile`, `Options.now` and `Options.dateOf`.
- The change-matching regular expressions are given as a capture function (`changeRe`).
- In the VkBl scraper, fetching pages is not modelled: the network session and its retry loop, HTML parsing and CSS selection. Rows arrive already classified.
- The scraper's price and page-count float parsing is not modelled.
- `str.lower` is modelled for ASCII and Latin-1 only, and `\w` is approximated above U+00FF.
- Markup.LeadingDigits: reads `\d` as the ASCII digits 0-9, while the pattern `^(\d+)\.` at lawdown.py:66 also matches other Unicode decimal digits; Markup.EscapeListStart inherits this.
- LawGit.YearAt: reads `\d` in `' \d{4} '` (lawgit.py:136) as the ASCII digits only; LawGit.DropYears inherits this.
- Strings.Capitalize: upper-cases the first character only up to U+00FF and only where its upper case is one character, so a leading `ß` stays `ß` where Python's `str.capitalize` (lawdown.py:414) gives `Ss`; Strings.UpperChar is the same.
- Strings.IsIntLiteral: accepts optional surrounding whitespace, an optional sign and ASCII digits only; `int()` also accepts `_` between digits and other Unicode digits, so LawGit.VkblJsonOk demands more of the VkBl data than lawgit.py:193 does.
- `LawToMarkdown.entry_count` is never read, and the special case for one norm title at lawdown.py:438-440 does nothing; neither is modelled.
- LawDown.ConvertLaw: covers only the call without `fileout`, and differs from it in one case. If no `metadaten` close is acted on, `store_filename` never runs, so `fileout.filename = handler.filename` (lawdown.py:491) raises `AttributeError`; the model instead returns the Markdown with `filename == None`. When the caller passes a `fileout`, the source writes the same text to it and returns `None` (lawdown.py:478-479, 490-492); the model always returns the text.
- LawGit.BGBlBranchParts: proves how the branch name splits into year and part-number, but not that parsing those parts gives the numbers back.
- The heading depth uses Python 2 integer division. Since `floor(x + 1) = floor(x) + 1`, the later truncation makes this equal to integer division for Python 3 floats as well.
- Where the converter's documented behaviour differs from the code, the model follows the code:
  - table columns are always centred (`:---:`);
  - a nested ignored span is not rejected; the inner start tag simply does nothing;
  - table header rows are wrapped like other text, and column counts are not checked.

## Findings

| source | as written | input that shows it | evidently intended | confidence | as-written member | corrected member |
|---|---|---|---|---|---|---|
| lawdown.py:64 | The non-raw literal `'([^\\\s])…'` becomes the class `[^\\s]`, which excludes a backslash and the letter `s`, not whitespace. | `" * "` is escaped to `" \* "`; in `"s* "` the star stays unescaped. | Escape a `*` or `_` that follows any character other than a backslash or whitespace. | not executed | Emphasis.AsWrittenSkipsLetterS | Emphasis.EscapeIsolated |
