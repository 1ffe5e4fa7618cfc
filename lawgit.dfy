/**
 * The change-source matching of lawgit.py: the three gazette sources (BGBl,
 * BAnz, VkBl) loaded from their index data, the candidate citations each
 * finds in the changed lines of a law, and the selection and grouping of
 * the commits.  The regular expressions `change_re` are given as the
 * function `changeRe` from a line to the captures of all its matches,
 * `datetime.strptime(…, '%d.%m.%Y')` as `dateOf` (a day number), and the
 * reading of a law's file as `readFile`.
 */
module LawGit {
  import opened Wrappers
  import opened Strings
  import Markup

  /** The two notes that mark a change as not yet incorporated (lawgit.py:56-59, 173-176). */
  const Pending := "noch nicht ber\U{FC}cksichtigt"
  const Unfinished := "noch nicht abschlie\U{DF}end bearbeitet"

  /** `any(t in line for t in self.transient)` */
  predicate IsTransient(line: string)
  {
    Contains(line, Pending) || Contains(line, Unfinished)
  }

  /** What `find_candidates` gives: the keys it collected, or the `TransientState` it raised. */
  datatype Found<K> = Transient | Found(keys: seq<K>)

  // ================================================================ BGBl

  /** The named groups of one BGBl match, `year` and `page` as `int(…)` reads them. */
  datatype BGBlMatch = BGBlMatch(year: int, page: int, part: string)

  /** One table-of-contents entry of the BGBl index; `page` is `None` where the index has none. */
  datatype BGBlEntry = BGBlEntry(
    kind: string, year: int, page: Option<int>, part: int, number: int,
    date: string, href: string, name: string, partI: string)

  type BGBlKey = (int, Option<int>, int)

  function EntryKey(e: BGBlEntry): BGBlKey
  {
    (e.year, e.page, e.part)
  }

  /** The key a match looks up: year, page and the number of `I`s of the part. */
  function MatchKey(m: BGBlMatch): BGBlKey
  {
    (m.year, Some(m.page), |m.part|)
  }

  /** The entry as `load` stores it, with `part_i` set. */
  function Stored(e: BGBlEntry): BGBlEntry
  {
    e.(partI := Repeat("I", e.part))
  }

  /** The inner loop of `load`: the entries of one table of contents stored after `data`. */
  function LoadToc(data: map<BGBlKey, BGBlEntry>, toc: seq<BGBlEntry>): map<BGBlKey, BGBlEntry>
    decreases |toc|
  {
    if toc == [] then data
    else
      var d := LoadToc(data, toc[..|toc| - 1]);
      var e := toc[|toc| - 1];
      if e.kind == "meta" then d else d[EntryKey(e) := Stored(e)]
  }

  /** `load` on the parsed index: every table of contents in order. */
  function LoadBGBl(json: seq<(string, seq<BGBlEntry>)>): map<BGBlKey, BGBlEntry>
    decreases |json|
  {
    if json == [] then map[] else LoadToc(LoadBGBl(json[..|json| - 1]), json[|json| - 1].1)
  }

  /** Every stored entry is a non-meta entry under its own key, with `part_i` spelt out. */
  predicate WellStored(data: map<BGBlKey, BGBlEntry>)
  {
    forall k :: k in data ==>
      data[k].kind != "meta" && EntryKey(data[k]) == k && data[k].partI == Repeat("I", data[k].part)
  }

  lemma {:induction false} LoadTocFacts(data: map<BGBlKey, BGBlEntry>, toc: seq<BGBlEntry>)
    requires WellStored(data)
    ensures WellStored(LoadToc(data, toc))
    ensures data.Keys <= LoadToc(data, toc).Keys
    ensures forall j :: 0 <= j < |toc| && toc[j].kind != "meta" ==> EntryKey(toc[j]) in LoadToc(data, toc)
    ensures forall k :: k in LoadToc(data, toc) && k !in data ==>
      exists j :: 0 <= j < |toc| && toc[j].kind != "meta" && EntryKey(toc[j]) == k
    decreases |toc|
  {
    if toc != [] {
      var p := toc[..|toc| - 1];
      LoadTocFacts(data, p);
      var d := LoadToc(data, p);
      var r := LoadToc(data, toc);
      forall j | 0 <= j < |toc| && toc[j].kind != "meta"
        ensures EntryKey(toc[j]) in r
      {
        if j < |toc| - 1 {
          assert toc[j] == p[j];
        }
      }
      forall k | k in r && k !in data
        ensures exists j :: 0 <= j < |toc| && toc[j].kind != "meta" && EntryKey(toc[j]) == k
      {
        if k in d {
          var j :| 0 <= j < |p| && p[j].kind != "meta" && EntryKey(p[j]) == k;
          assert toc[j] == p[j];
        } else {
          assert toc[|toc| - 1].kind != "meta" && EntryKey(toc[|toc| - 1]) == k;
        }
      }
    }
  }

  /**
   * `load` drops the meta entries and stores every other one under
   * `(year, page, part)` with `part_i` set; every stored key comes from an entry.
   */
  lemma {:induction false} LoadBGBlMeaning(json: seq<(string, seq<BGBlEntry>)>)
    ensures WellStored(LoadBGBl(json))
    ensures forall i, j :: 0 <= i < |json| && 0 <= j < |json[i].1| && json[i].1[j].kind != "meta" ==>
      EntryKey(json[i].1[j]) in LoadBGBl(json)
    ensures forall k :: k in LoadBGBl(json) ==>
      exists i, j :: 0 <= i < |json| && 0 <= j < |json[i].1| && json[i].1[j].kind != "meta" && EntryKey(json[i].1[j]) == k
    decreases |json|
  {
    if json != [] {
      var p := json[..|json| - 1];
      var last := json[|json| - 1].1;
      LoadBGBlMeaning(p);
      LoadTocFacts(LoadBGBl(p), last);
      var r := LoadBGBl(json);
      forall i, j | 0 <= i < |json| && 0 <= j < |json[i].1| && json[i].1[j].kind != "meta"
        ensures EntryKey(json[i].1[j]) in r
      {
        if i < |json| - 1 {
          assert json[i] == p[i];
        }
      }
      forall k | k in r
        ensures exists i, j :: 0 <= i < |json| && 0 <= j < |json[i].1| && json[i].1[j].kind != "meta" && EntryKey(json[i].1[j]) == k
      {
        if k in LoadBGBl(p) {
          var i, j :| 0 <= i < |p| && 0 <= j < |p[i].1| && p[i].1[j].kind != "meta" && EntryKey(p[i].1[j]) == k;
          assert json[i] == p[i];
        } else {
          var j :| 0 <= j < |last| && last[j].kind != "meta" && EntryKey(last[j]) == k;
          assert json[|json| - 1].1[j] == last[j];
        }
      }
    }
  }

  /** The entries of the index, table of contents after table of contents, as the loops of `load` visit them. */
  function Entries(json: seq<(string, seq<BGBlEntry>)>): seq<BGBlEntry>
    decreases |json|
  {
    if json == [] then [] else Entries(json[..|json| - 1]) + json[|json| - 1].1
  }

  /** Storing two runs of entries one after the other is storing them together. */
  lemma {:induction false} LoadTocAppend(data: map<BGBlKey, BGBlEntry>, a: seq<BGBlEntry>, b: seq<BGBlEntry>)
    ensures LoadToc(data, a + b) == LoadToc(LoadToc(data, a), b)
    decreases |b|
  {
    if b == [] {
      assert a + b == a;
    } else {
      var b' := b[..|b| - 1];
      LoadTocAppend(data, a, b');
      assert (a + b)[..|a + b| - 1] == a + b' && (a + b)[|a + b| - 1] == b[|b| - 1];
    }
  }

  /** `load` stores the flattened entries one by one. */
  lemma {:induction false} LoadBGBlFlat(json: seq<(string, seq<BGBlEntry>)>)
    ensures LoadBGBl(json) == LoadToc(map[], Entries(json))
    decreases |json|
  {
    if json != [] {
      var p := json[..|json| - 1];
      LoadBGBlFlat(p);
      LoadTocAppend(map[], Entries(p), json[|json| - 1].1);
    }
  }

  /** Entry `j` is the last non-meta entry of `es` with key `k`. */
  predicate LastWith(es: seq<BGBlEntry>, j: int, k: BGBlKey)
  {
    0 <= j < |es| && es[j].kind != "meta" && EntryKey(es[j]) == k
    && forall l :: j < l < |es| && es[l].kind != "meta" ==> EntryKey(es[l]) != k
  }

  /** Storing entries from nothing keeps a key exactly when a non-meta entry has it, and the last such entry wins. */
  lemma {:induction false} LoadEntriesLast(es: seq<BGBlEntry>, k: BGBlKey)
    ensures k in LoadToc(map[], es) <==> exists j :: LastWith(es, j, k)
    ensures forall j :: LastWith(es, j, k) ==> k in LoadToc(map[], es) && LoadToc(map[], es)[k] == Stored(es[j])
    decreases |es|
  {
    if es != [] {
      var p := es[..|es| - 1];
      var e := es[|es| - 1];
      LoadEntriesLast(p, k);
      assert forall l :: 0 <= l < |p| ==> p[l] == es[l];
      if e.kind != "meta" && EntryKey(e) == k {
        assert LastWith(es, |es| - 1, k);
        forall j | LastWith(es, j, k)
          ensures j == |es| - 1
        {
        }
      } else {
        forall j | LastWith(p, j, k)
          ensures LastWith(es, j, k)
        {
        }
        forall j | LastWith(es, j, k)
          ensures LastWith(p, j, k)
        {
        }
      }
    }
  }

  /**
   * `load` keeps a key exactly when some non-meta entry has it, and stores under
   * it the last such entry, with `part_i` set: later entries overwrite earlier ones.
   */
  lemma LoadBGBlLast(json: seq<(string, seq<BGBlEntry>)>, k: BGBlKey)
    ensures k in LoadBGBl(json) <==> exists j :: LastWith(Entries(json), j, k)
    ensures forall j :: LastWith(Entries(json), j, k) ==> k in LoadBGBl(json) && LoadBGBl(json)[k] == Stored(Entries(json)[j])
  {
    LoadBGBlFlat(json);
    LoadEntriesLast(Entries(json), k);
  }

  /** The keys of the matches of one line that the index holds, in match order. */
  function BGBlKeys(data: map<BGBlKey, BGBlEntry>, ms: seq<BGBlMatch>): (r: seq<BGBlKey>)
    ensures forall k :: k in r ==> k in data
    decreases |ms|
  {
    if ms == [] then []
    else
      var k := MatchKey(ms[|ms| - 1]);
      BGBlKeys(data, ms[..|ms| - 1]) + (if k in data then [k] else [])
  }

  /** `find_candidates` of the BGBl source: a transient line with a match raises, else the known keys in order. */
  function ScanBGBl(changeRe: string -> seq<BGBlMatch>, data: map<BGBlKey, BGBlEntry>, lines: seq<string>): (r: Found<BGBlKey>)
    ensures r.Found? ==> forall k :: k in r.keys ==> k in data
    decreases |lines|
  {
    if lines == [] then Found([])
    else
      var before := ScanBGBl(changeRe, data, lines[..|lines| - 1]);
      var line := lines[|lines| - 1];
      if before.Transient? || (|changeRe(line)| > 0 && IsTransient(line)) then Transient
      else Found(before.keys + BGBlKeys(data, changeRe(line)))
  }

  /** A key comes out of a line's matches exactly when a match builds it and the index holds it. */
  lemma {:induction false} BGBlKeysMeaning(data: map<BGBlKey, BGBlEntry>, ms: seq<BGBlMatch>, k: BGBlKey)
    ensures k in BGBlKeys(data, ms) <==> k in data && exists m :: m in ms && MatchKey(m) == k
    decreases |ms|
  {
    if ms != [] {
      var p := ms[..|ms| - 1];
      BGBlKeysMeaning(data, p, k);
      if exists m :: m in ms && MatchKey(m) == k {
        var m :| m in ms && MatchKey(m) == k;
        if m != ms[|ms| - 1] {
          assert m in p;
        }
      }
      assert forall m :: m in p ==> m in ms;
    }
  }

  /**
   * The BGBl scan raises exactly when some line has a match and a transient
   * note; otherwise it returns exactly the keys that the lines' matches build
   * and the index holds.
   */
  lemma {:induction false} ScanBGBlMeaning(changeRe: string -> seq<BGBlMatch>, data: map<BGBlKey, BGBlEntry>, lines: seq<string>)
    ensures ScanBGBl(changeRe, data, lines).Transient? <==>
      exists i :: 0 <= i < |lines| && |changeRe(lines[i])| > 0 && IsTransient(lines[i])
    ensures ScanBGBl(changeRe, data, lines).Found? ==> forall k ::
      k in ScanBGBl(changeRe, data, lines).keys <==>
        k in data && exists i, m :: 0 <= i < |lines| && m in changeRe(lines[i]) && MatchKey(m) == k
    decreases |lines|
  {
    if lines != [] {
      var p := lines[..|lines| - 1];
      var line := lines[|lines| - 1];
      ScanBGBlMeaning(changeRe, data, p);
      assert forall i :: 0 <= i < |p| ==> p[i] == lines[i];
      var r := ScanBGBl(changeRe, data, lines);
      if r.Found? {
        forall k
          ensures k in r.keys <==> k in data && exists i, m :: 0 <= i < |lines| && m in changeRe(lines[i]) && MatchKey(m) == k
        {
          BGBlKeysMeaning(data, changeRe(line), k);
          if exists i, m :: 0 <= i < |lines| && m in changeRe(lines[i]) && MatchKey(m) == k {
            var i, m :| 0 <= i < |lines| && m in changeRe(lines[i]) && MatchKey(m) == k;
            if i < |lines| - 1 {
              assert m in changeRe(p[i]);
            }
          }
        }
      }
    }
  }

  /** A transient line with a match makes the whole BGBl scan transient. */
  lemma BGBlTransientLine(changeRe: string -> seq<BGBlMatch>, data: map<BGBlKey, BGBlEntry>, lines: seq<string>, i: nat)
    requires i < |lines| && |changeRe(lines[i])| > 0 && IsTransient(lines[i])
    ensures ScanBGBl(changeRe, data, lines).Transient?
  {
    ScanBGBlMeaning(changeRe, data, lines);
  }

  /** A line that is not transient, or has no match, extends the scan by the keys of its matches. */
  lemma ScanBGBlStep(changeRe: string -> seq<BGBlMatch>, data: map<BGBlKey, BGBlEntry>, lines: seq<string>, i: nat, keys: seq<BGBlKey>)
    requires i < |lines| && ScanBGBl(changeRe, data, lines[..i]) == Found(keys)
    requires |changeRe(lines[i])| == 0 || !IsTransient(lines[i])
    ensures ScanBGBl(changeRe, data, lines[..i + 1]) == Found(keys + BGBlKeys(data, changeRe(lines[i])))
  {
    assert lines[..i + 1][..i] == lines[..i];
  }

  /** `get_branch_name` of the BGBl source. */
  function BGBlBranch(e: BGBlEntry): string
  {
    "bgbl/" + IntToString(e.year) + "/" + IntToString(e.part) + "-" + IntToString(e.number)
  }

  lemma {:induction false} NatToStringChars(n: nat)
    ensures '/' !in NatToString(n) && '-' !in NatToString(n)
    decreases n
  {
    var s := NatToString(n);
    assert forall i :: 0 <= i < |s| ==> IsAsciiDigit(s[i]);
  }

  /** Three pieces without the separator joined by it split back into the three. */
  lemma SplitThree(a: string, b: string, c: string, sep: char)
    requires sep !in a && sep !in b && sep !in c
    ensures Split(a + [sep] + b + [sep] + c, [sep]) == [a, b, c]
  {
    assert a + [sep] + b + [sep] + c == a + [sep] + (b + [sep] + c);
    Markup.SplitAppendSep(a, sep, b + [sep] + c);
    Markup.SplitAppendSep(b, sep, c);
    ContainsChar(a, sep);
    ContainsChar(b, sep);
    ContainsChar(c, sep);
    SplitNoSep(a, [sep]);
    SplitNoSep(b, [sep]);
    SplitNoSep(c, [sep]);
  }

  lemma IntToStringNoSlash(n: int)
    ensures '/' !in IntToString(n)
  {
    NatToStringChars(if n < 0 then -n else n);
  }

  /** The BGBl branch name splits at `/` into the prefix, the year and `part-number`. */
  lemma BGBlBranchParts(e: BGBlEntry)
    ensures Split(BGBlBranch(e), "/") == ["bgbl", IntToString(e.year), IntToString(e.part) + "-" + IntToString(e.number)]
  {
    var y, p, n := IntToString(e.year), IntToString(e.part), IntToString(e.number);
    var rest := p + "-" + n;
    IntToStringNoSlash(e.year);
    IntToStringNoSlash(e.part);
    IntToStringNoSlash(e.number);
    assert '/' !in rest by {
      assert rest == p + ("-" + n);
    }
    assert '/' !in "bgbl";
    assert BGBlBranch(e) == "bgbl" + ['/'] + y + ['/'] + rest;
    SplitThree("bgbl", y, rest, '/');
  }

  /** The BGBl source: its matchers and the index it loads (lawgit.py:40-117). */
  class BGBlSource {
    /** The captures of all `change_re` patterns on a line, pattern by pattern, each left to right. */
    const changeRe: string -> seq<BGBlMatch>
    var data: map<BGBlKey, BGBlEntry>

    constructor (json: seq<(string, seq<BGBlEntry>)>, changeRe: string -> seq<BGBlMatch>)
      ensures this.changeRe == changeRe && data == LoadBGBl(json)
    {
      this.changeRe := changeRe;
      data := map[];
      new;
      Load(json);
    }

    /** `load`: the entries stored under their keys, table of contents by table of contents. */
    method Load(json: seq<(string, seq<BGBlEntry>)>)
      modifies this
      ensures data == LoadBGBl(json)
    {
      data := map[];
      var i := 0;
      while i < |json|
        invariant 0 <= i <= |json|
        invariant data == LoadBGBl(json[..i])
      {
        var toc := json[i].1;
        ghost var before := data;
        var j := 0;
        while j < |toc|
          invariant 0 <= j <= |toc|
          invariant data == LoadToc(before, toc[..j])
        {
          var e := toc[j];
          if e.kind != "meta" {
            data := data[EntryKey(e) := Stored(e)];
          }
          assert toc[..j + 1][..j] == toc[..j];
          j := j + 1;
        }
        assert toc[..j] == toc;
        assert json[..i + 1][..i] == json[..i];
        i := i + 1;
      }
      assert json[..i] == json;
    }

    /** `find_candidates`: the known keys of the lines' matches, or `Transient`. */
    method FindCandidates(lines: seq<string>) returns (r: Found<BGBlKey>)
      ensures r == ScanBGBl(changeRe, data, lines)
    {
      var candidates := [];
      var i := 0;
      while i < |lines|
        invariant 0 <= i <= |lines|
        invariant ScanBGBl(changeRe, data, lines[..i]) == Found(candidates)
      {
        var line := lines[i];
        var ms := changeRe(line);
        ghost var before := candidates;
        var j := 0;
        while j < |ms|
          invariant 0 <= j <= |ms|
          invariant j > 0 ==> !IsTransient(line)
          invariant candidates == before + BGBlKeys(data, ms[..j])
        {
          if IsTransient(line) {
            BGBlTransientLine(changeRe, data, lines, i);
            return Transient;
          }
          var key := MatchKey(ms[j]);
          if key in data {
            candidates := candidates + [key];
          }
          assert ms[..j + 1][..j] == ms[..j];
          j := j + 1;
        }
        assert ms[..j] == ms;
        ScanBGBlStep(changeRe, data, lines, i, before);
        i := i + 1;
      }
      assert lines[..i] == lines;
      return Found(candidates);
    }
  }

  // ================================================================ BAnz

  /** One entry of the BAnz index; only its date is read here. */
  datatype BAnzEntry = BAnzEntry(date: string, name: string)

  /** The characters `[^\w \.]` does not remove: word characters, space and dot. */
  predicate Cited(c: char)
  {
    Markup.IsWordChar(c) || c == ' ' || c == '.'
  }

  /** `re.sub(r'[^\w \.]', '', line)` */
  function KeepCited(s: string): string
    decreases |s|
  {
    if s == [] then []
    else
      var t := KeepCited(s[1..]);
      if Cited(s[0]) then [s[0]] + t else t
  }

  /** Exactly the cited characters are kept, and a line made of them is unchanged. */
  lemma {:induction false} KeepCitedMeaning(s: string)
    ensures forall c :: c in KeepCited(s) <==> c in s && Cited(c)
    ensures (forall i :: 0 <= i < |s| ==> Cited(s[i])) ==> KeepCited(s) == s
    decreases |s|
  {
    if s != [] {
      KeepCitedMeaning(s[1..]);
      assert s == [s[0]] + s[1..];
      assert forall i :: 1 <= i < |s| ==> s[i] == s[1..][i - 1];
    }
  }

  /** Four ASCII digits between two spaces start here. */
  predicate YearAt(s: string)
  {
    |s| >= 6 && s[0] == ' ' && IsAsciiDigit(s[1]) && IsAsciiDigit(s[2]) && IsAsciiDigit(s[3])
    && IsAsciiDigit(s[4]) && s[5] == ' '
  }

  /** `re.sub(r' \d{4} ', ' ', line)`: each such run, found left to right without overlap, becomes one space. */
  function DropYears(s: string): string
    decreases |s|
  {
    if s == [] then []
    else if YearAt(s) then " " + DropYears(s[6..])
    else [s[0]] + DropYears(s[1..])
  }

  /** Dropping years only shortens the line and adds no character. */
  lemma {:induction false} DropYearsChars(s: string)
    ensures |DropYears(s)| <= |s|
    ensures forall c :: c in DropYears(s) ==> c in s
    decreases |s|
  {
    if s != [] {
      if YearAt(s) {
        DropYearsChars(s[6..]);
        assert forall c :: c in s[6..] ==> c in s;
      } else {
        DropYearsChars(s[1..]);
        assert forall c :: c in s[1..] ==> c in s;
      }
    }
  }

  /** Text without a digit is left as it is. */
  lemma {:induction false} DropYearsNoDigit(s: string)
    requires forall i :: 0 <= i < |s| ==> !IsAsciiDigit(s[i])
    ensures DropYears(s) == s
    decreases |s|
  {
    if s != [] {
      DropYearsNoDigit(s[1..]);
    }
  }

  /** The line `find_candidates` of the BAnz source searches: only cited characters, year numbers dropped. */
  function CleanLine(line: string): string
  {
    DropYears(KeepCited(line))
  }

  /** A cleaned line holds only cited characters of the line, and a line without digits or uncited characters is its own cleaning. */
  lemma CleanLineChars(line: string)
    ensures forall c :: c in CleanLine(line) ==> Cited(c) && c in line
    ensures (forall i :: 0 <= i < |line| ==> Cited(line[i]) && !IsAsciiDigit(line[i])) ==> CleanLine(line) == line
  {
    KeepCitedMeaning(line);
    DropYearsChars(KeepCited(line));
    if forall i :: 0 <= i < |line| ==> Cited(line[i]) && !IsAsciiDigit(line[i]) {
      DropYearsNoDigit(line);
    }
  }

  /** The index keys found in a cleaned line, in index order. */
  function BAnzKeys(order: seq<string>, clean: string): (r: seq<string>)
    ensures forall k :: k in r ==> k in order
    decreases |order|
  {
    if order == [] then []
    else
      var k := order[|order| - 1];
      BAnzKeys(order[..|order| - 1], clean) + (if Contains(clean, k) then [k] else [])
  }

  /** A line that names an index key and says the change is still pending. */
  predicate PendingLine(order: seq<string>, line: string)
  {
    var clean := CleanLine(line);
    |BAnzKeys(order, clean)| > 0 && Contains(clean, Pending)
  }

  /** `find_candidates` of the BAnz source: a line with a key and the pending note raises, else all keys found. */
  function ScanBAnz(order: seq<string>, lines: seq<string>): (r: Found<string>)
    ensures r.Found? ==> forall k :: k in r.keys ==> k in order
    decreases |lines|
  {
    if lines == [] then Found([])
    else
      var before := ScanBAnz(order, lines[..|lines| - 1]);
      if before.Transient? || PendingLine(order, lines[|lines| - 1]) then Transient
      else Found(before.keys + BAnzKeys(order, CleanLine(lines[|lines| - 1])))
  }

  lemma {:induction false} BAnzKeysMeaning(order: seq<string>, clean: string, k: string)
    ensures k in BAnzKeys(order, clean) <==> k in order && Contains(clean, k)
    decreases |order|
  {
    if order != [] {
      var p := order[..|order| - 1];
      BAnzKeysMeaning(p, clean, k);
      if k in order && k != order[|order| - 1] {
        assert k in p;
      }
    }
  }

  /** The BAnz scan raises exactly when some cleaned line holds a key and the pending note. */
  lemma ScanBAnzTransient(order: seq<string>, lines: seq<string>)
    ensures ScanBAnz(order, lines).Transient? <==>
      exists i :: 0 <= i < |lines| && PendingLine(order, lines[i])
  {
    if ScanBAnz(order, lines).Transient? {
      var i := PendingWitness(order, lines);
    } else {
      forall i | 0 <= i < |lines|
        ensures !PendingLine(order, lines[i])
      {
        NoPendingBefore(order, lines, i);
      }
    }
  }

  /** A transient scan has a pending line. */
  lemma {:induction false} PendingWitness(order: seq<string>, lines: seq<string>) returns (i: nat)
    requires ScanBAnz(order, lines).Transient?
    ensures i < |lines| && PendingLine(order, lines[i])
    decreases |lines|
  {
    var p := lines[..|lines| - 1];
    if PendingLine(order, lines[|lines| - 1]) {
      i := |lines| - 1;
    } else {
      i := PendingWitness(order, p);
      assert p[i] == lines[i];
    }
  }

  /** A scan that finds keys has no pending line. */
  lemma {:induction false} NoPendingBefore(order: seq<string>, lines: seq<string>, i: nat)
    requires ScanBAnz(order, lines).Found? && i < |lines|
    ensures !PendingLine(order, lines[i])
    decreases |lines|
  {
    var p := lines[..|lines| - 1];
    if i < |p| {
      NoPendingBefore(order, p, i);
      assert p[i] == lines[i];
    }
  }

  /** Otherwise it finds exactly the index keys that some cleaned line holds. */
  lemma ScanBAnzKeys(order: seq<string>, lines: seq<string>, k: string)
    requires ScanBAnz(order, lines).Found?
    ensures k in ScanBAnz(order, lines).keys <==>
      k in order && exists i :: 0 <= i < |lines| && Mentions(lines[i], k)
  {
    if k in ScanBAnz(order, lines).keys {
      var i := KeyWitness(order, lines, k);
    }
    if k in order && exists i :: 0 <= i < |lines| && Mentions(lines[i], k) {
      var i :| 0 <= i < |lines| && Mentions(lines[i], k);
      KeyFound(order, lines, k, i);
    }
  }

  /** The cleaned line mentions the key. */
  predicate Mentions(line: string, k: string)
  {
    Contains(CleanLine(line), k)
  }

  /** A scan that finds keys found them in the lines before the last one and in the last one. */
  lemma ScanBAnzLast(order: seq<string>, lines: seq<string>)
    requires |lines| > 0 && ScanBAnz(order, lines).Found?
    ensures ScanBAnz(order, lines[..|lines| - 1]).Found?
    ensures ScanBAnz(order, lines).keys
      == ScanBAnz(order, lines[..|lines| - 1]).keys + BAnzKeys(order, CleanLine(lines[|lines| - 1]))
  {
  }

  /** A key the scan finds is mentioned by some line. */
  lemma {:induction false} KeyWitness(order: seq<string>, lines: seq<string>, k: string) returns (i: nat)
    requires ScanBAnz(order, lines).Found? && k in ScanBAnz(order, lines).keys
    ensures i < |lines| && Mentions(lines[i], k)
    decreases |lines|
  {
    var p := lines[..|lines| - 1];
    var last := lines[|lines| - 1];
    ScanBAnzLast(order, lines);
    if k in ScanBAnz(order, p).keys {
      i := KeyWitness(order, p, k);
      assert p[i] == lines[i];
    } else {
      BAnzKeysMeaning(order, CleanLine(last), k);
      i := |lines| - 1;
    }
  }

  /** A key of the index that some line mentions is found. */
  lemma {:induction false} KeyFound(order: seq<string>, lines: seq<string>, k: string, i: nat)
    requires ScanBAnz(order, lines).Found? && k in order && i < |lines| && Mentions(lines[i], k)
    ensures k in ScanBAnz(order, lines).keys
    decreases |lines|
  {
    var p := lines[..|lines| - 1];
    var last := lines[|lines| - 1];
    ScanBAnzLast(order, lines);
    var before := ScanBAnz(order, p).keys;
    var here := BAnzKeys(order, CleanLine(last));
    if i < |p| {
      assert p[i] == lines[i];
      KeyFound(order, p, k, i);
      assert k in before;
    } else {
      assert lines[i] == last;
      BAnzKeysMeaning(order, CleanLine(last), k);
      assert k in here;
    }
    assert ScanBAnz(order, lines).keys == before + here;
  }

  /** `banz/YYYY/MM-DD` and `vkbl/YYYY/MM-DD` from a date `DD.MM.YYYY` (lawgit.py:153-154, 222-223). */
  function DateBranch(prefix: string, date: string): string
    requires |Split(date, ".")| >= 3
  {
    var parts := Split(date, ".");
    prefix + "/" + parts[2] + "/" + parts[1] + "-" + parts[0]
  }

  /** A date `DD.MM.YYYY` gives the branch `prefix/YYYY/MM-DD`. */
  lemma DateBranchOf(prefix: string, dd: string, mm: string, yyyy: string)
    requires '.' !in dd && '.' !in mm && '.' !in yyyy
    ensures |Split(dd + "." + mm + "." + yyyy, ".")| >= 3
    ensures DateBranch(prefix, dd + "." + mm + "." + yyyy) == prefix + "/" + yyyy + "/" + mm + "-" + dd
  {
    var date := dd + "." + mm + "." + yyyy;
    assert date == dd + ['.'] + mm + ['.'] + yyyy;
    SplitThree(dd, mm, yyyy, '.');
    assert Split(date, ".") == [dd, mm, yyyy];
  }

  /** The BAnz source: the index as `json.load` gives it, keys in file order (lawgit.py:120-167). */
  class BAnzSource {
    /** The keys of the index in dictionary order. */
    var order: seq<string>
    var data: map<string, BAnzEntry>

    /** A dictionary: every key once, and the keys are those of `data`. */
    ghost predicate Valid()
      reads this
    {
      (forall i, j :: 0 <= i < j < |order| ==> order[i] != order[j])
      && (forall k :: k in data <==> k in order)
    }

    constructor (order: seq<string>, data: map<string, BAnzEntry>)
      requires forall i, j :: 0 <= i < j < |order| ==> order[i] != order[j]
      requires forall k :: k in data <==> k in order
      ensures Valid() && this.order == order && this.data == data
    {
      this.order := order;
      this.data := data;
    }

    /** `find_candidates`: every index key contained in a cleaned line, or `Transient`. */
    method FindCandidates(lines: seq<string>) returns (r: Found<string>)
      ensures r == ScanBAnz(order, lines)
    {
      var candidates := [];
      var i := 0;
      while i < |lines|
        invariant 0 <= i <= |lines|
        invariant ScanBAnz(order, lines[..i]) == Found(candidates)
      {
        var line := CleanLine(lines[i]);
        ghost var before := candidates;
        var j := 0;
        while j < |order|
          invariant 0 <= j <= |order|
          invariant |BAnzKeys(order[..j], line)| > 0 ==> !Contains(line, Pending)
          invariant candidates == before + BAnzKeys(order[..j], line)
        {
          var key := order[j];
          assert order[..j + 1][..j] == order[..j];
          if Contains(line, key) {
            if Contains(line, Pending) {
              TransientLine(lines, i, j);
              return Transient;
            }
            candidates := candidates + [key];
          }
          j := j + 1;
        }
        assert order[..j] == order;
        assert lines[..i + 1][..i] == lines[..i];
        i := i + 1;
      }
      assert lines[..i] == lines;
      return Found(candidates);
    }

    /** A line holding a key and the pending note makes the whole scan transient. */
    lemma TransientLine(lines: seq<string>, i: nat, j: nat)
      requires i < |lines| && j < |order|
      requires Contains(CleanLine(lines[i]), order[j]) && Contains(CleanLine(lines[i]), Pending)
      ensures ScanBAnz(order, lines).Transient?
    {
      BAnzKeysMeaning(order, CleanLine(lines[i]), order[j]);
      ScanBAnzTransient(order, lines);
    }
  }

  // ================================================================ VkBl

  /** The named groups of one VkBl match, as `int(…)` reads them. */
  datatype VkblMatch = VkblMatch(year: int, page: int)

  /** One entry of the VkBl index, with the fields the source reads and the `date` that `load` sets. */
  datatype VkblEntry = VkblEntry(jahr: string, seite: string, verffentlichtam: string, date: string)

  type VkblKey = (int, int)

  /** An entry `load` keeps: a year and a page. */
  predicate Dated(v: VkblEntry)
  {
    |v.jahr| > 0 && |v.seite| > 0
  }

  /** Year and page are readable by `int`. */
  predicate Readable(v: VkblEntry)
  {
    IsIntLiteral(v.jahr) && IsIntLiteral(v.seite)
  }

  /** Every entry `load` keeps has a year and a page readable by `int`. */
  predicate VkblJsonOk(json: seq<(string, VkblEntry)>)
  {
    forall i :: 0 <= i < |json| && Dated(json[i].1) ==> Readable(json[i].1)
  }

  function VkblKeyOf(v: VkblEntry): VkblKey
    requires Readable(v)
  {
    (ParseInt(v.jahr), ParseInt(v.seite))
  }

  /** `load` of the VkBl source: entries with a year and a page, keyed by both, dated by their publication. */
  function LoadVkbl(json: seq<(string, VkblEntry)>): map<VkblKey, VkblEntry>
    requires VkblJsonOk(json)
    decreases |json|
  {
    if json == [] then map[]
    else
      var p := json[..|json| - 1];
      assert forall i :: 0 <= i < |p| ==> p[i] == json[i];
      var d := LoadVkbl(p);
      var v := json[|json| - 1].1;
      if Dated(v) then d[VkblKeyOf(v) := v.(date := v.verffentlichtam)] else d
  }

  /** Loading one more entry stores it if it has a year and a page. */
  lemma LoadVkblStep(json: seq<(string, VkblEntry)>, i: nat)
    requires VkblJsonOk(json) && i < |json|
    ensures VkblJsonOk(json[..i]) && VkblJsonOk(json[..i + 1])
    ensures Dated(json[i].1) ==> Readable(json[i].1)
    ensures var v := json[i].1;
      LoadVkbl(json[..i + 1]) == if Dated(v) then LoadVkbl(json[..i])[VkblKeyOf(v) := v.(date := v.verffentlichtam)] else LoadVkbl(json[..i])
  {
    assert json[..i + 1][..i] == json[..i];
    assert forall j :: 0 <= j <= i ==> json[..i + 1][j] == json[j];
  }

  /** The entry stored under `k`: it has a year and a page, `k` is made of them, and it is dated by its publication. */
  predicate StoredAs(k: VkblKey, v: VkblEntry)
  {
    Dated(v) && Readable(v) && VkblKeyOf(v) == k && v.date == v.verffentlichtam
  }

  /** Every stored VkBl entry is stored under its year and page and dated by its publication. */
  lemma {:induction false} LoadVkblStored(json: seq<(string, VkblEntry)>)
    requires VkblJsonOk(json)
    ensures forall k :: k in LoadVkbl(json) ==> StoredAs(k, LoadVkbl(json)[k])
    decreases |json|
  {
    if json != [] {
      var p := json[..|json| - 1];
      assert forall i :: 0 <= i < |p| ==> p[i] == json[i];
      LoadVkblStored(p);
    }
  }

  /** Per entry, the key `load` stores it under, or `None` for an entry it skips. */
  function DatedKeys(json: seq<(string, VkblEntry)>): (ks: seq<Option<VkblKey>>)
    requires VkblJsonOk(json)
    ensures |ks| == |json|
    decreases |json|
  {
    if json == [] then []
    else
      var p := json[..|json| - 1];
      assert forall l :: 0 <= l < |p| ==> p[l] == json[l];
      var v := json[|json| - 1].1;
      DatedKeys(p) + [if Dated(v) then Some(VkblKeyOf(v)) else None]
  }

  /** Entry `l`'s key in the key view. */
  lemma {:induction false} DatedKeyAt(json: seq<(string, VkblEntry)>, l: int)
    requires VkblJsonOk(json) && 0 <= l < |json|
    ensures Dated(json[l].1) ==> Readable(json[l].1)
    ensures DatedKeys(json)[l] == if Dated(json[l].1) then Some(VkblKeyOf(json[l].1)) else None
    decreases |json|
  {
    var p := json[..|json| - 1];
    forall m | 0 <= m < |p| && Dated(p[m].1)
      ensures Readable(p[m].1)
    {
      assert p[m] == json[m];
    }
    if l < |p| {
      assert p[l] == json[l];
      DatedKeyAt(p, l);
    }
  }

  /** Among the first `n` keys, `ks[i]` is the last one equal to `Some(k)`. */
  predicate LastSome(ks: seq<Option<VkblKey>>, n: int, i: int, k: VkblKey)
    requires n <= |ks|
  {
    0 <= i < n && ks[i] == Some(k) && forall l :: i < l < n ==> ks[l] != Some(k)
  }

  /** Entry `i` is the last one with a year and a page whose key is `k`. */
  predicate LastDated(json: seq<(string, VkblEntry)>, i: int, k: VkblKey)
    requires VkblJsonOk(json)
  {
    LastSome(DatedKeys(json), |json|, i, k)
  }

  /** `LastDated` in the entries' own terms: entry `i` is dated with key `k`, and no later dated entry has key `k`. */
  lemma LastDatedMeaning(json: seq<(string, VkblEntry)>, i: int, k: VkblKey)
    requires VkblJsonOk(json)
    ensures LastDated(json, i, k) <==>
      0 <= i < |json| && Dated(json[i].1) && VkblKeyOf(json[i].1) == k &&
      forall l :: i < l < |json| && Dated(json[l].1) ==> VkblKeyOf(json[l].1) != k
  {
    forall l | 0 <= l < |json|
      ensures DatedKeys(json)[l] == if Dated(json[l].1) then Some(VkblKeyOf(json[l].1)) else None
    {
      DatedKeyAt(json, l);
    }
  }

  /** Key `n - 1` is `k`: it is the last such among the first `n`, and no other is. */
  lemma LastSomeHit(ks: seq<Option<VkblKey>>, n: int, k: VkblKey)
    requires 1 <= n <= |ks| && ks[n - 1] == Some(k)
    ensures LastSome(ks, n, n - 1, k)
    ensures forall i :: LastSome(ks, n, i, k) ==> i == n - 1
  {
  }

  /** Key `n - 1` is not `k`: the last key `k` is the same among the first `n - 1`. */
  lemma LastSomeMiss(ks: seq<Option<VkblKey>>, n: int, i: int, k: VkblKey)
    requires 1 <= n <= |ks| && ks[n - 1] != Some(k)
    ensures LastSome(ks, n, i, k) <==> LastSome(ks, n - 1, i, k)
  {
  }

  /** The entries as `load` stores them: each with `date` set to its publication. */
  function Stamps(json: seq<(string, VkblEntry)>): (vs: seq<VkblEntry>)
    ensures |vs| == |json|
  {
    seq(|json|, l requires 0 <= l < |json| => json[l].1.(date := json[l].1.verffentlichtam))
  }

  /** Storing `vs[l]` under `ks[l]`, in order, skipping `None`: a dict filled by key. */
  function LoadKeyed(ks: seq<Option<VkblKey>>, vs: seq<VkblEntry>): map<VkblKey, VkblEntry>
    requires |ks| == |vs|
    decreases |ks|
  {
    if ks == [] then map[]
    else
      var d := LoadKeyed(ks[..|ks| - 1], vs[..|vs| - 1]);
      if ks[|ks| - 1].Some? then d[ks[|ks| - 1].value := vs[|vs| - 1]] else d
  }

  /** `load` is `LoadKeyed` over the entries' keys and dated entries. */
  lemma {:induction false} LoadVkblKeyed(json: seq<(string, VkblEntry)>)
    requires VkblJsonOk(json)
    ensures LoadVkbl(json) == LoadKeyed(DatedKeys(json), Stamps(json))
    decreases |json|
  {
    if json != [] {
      var n := |json|;
      var p := json[..n - 1];
      assert forall l :: 0 <= l < |p| ==> p[l] == json[l];
      LoadVkblKeyed(p);
      var ks, vs := DatedKeys(json), Stamps(json);
      assert ks[..n - 1] == DatedKeys(p);
      assert vs[..n - 1] == Stamps(p);
      var v := json[n - 1].1;
      var d := LoadVkbl(p);
      assert ks[..n] == ks && vs[..n] == vs;
      LoadKeyedStep(ks, vs, n);
      DatedKeyAt(json, n - 1);
      if Dated(v) {
        assert LoadVkbl(json) == d[VkblKeyOf(v) := vs[n - 1]];
      } else {
        assert LoadVkbl(json) == d;
      }
    }
  }

  /** Filling the first `n` keys is filling the first `n - 1`, then storing entry `n - 1` or skipping it. */
  lemma LoadKeyedStep(ks: seq<Option<VkblKey>>, vs: seq<VkblEntry>, n: int)
    requires |ks| == |vs| && 1 <= n <= |ks|
    ensures LoadKeyed(ks[..n], vs[..n]) ==
      if ks[n - 1].Some? then LoadKeyed(ks[..n - 1], vs[..n - 1])[ks[n - 1].value := vs[n - 1]]
      else LoadKeyed(ks[..n - 1], vs[..n - 1])
  {
    assert ks[..n][..n - 1] == ks[..n - 1];
    assert vs[..n][..n - 1] == vs[..n - 1];
  }

  /** Among the first `n` keys, the last one equal to `k` gives what is stored under `k`. */
  lemma {:induction false} LoadKeyedLastValue(ks: seq<Option<VkblKey>>, vs: seq<VkblEntry>, n: nat, i: int, k: VkblKey)
    requires |ks| == |vs| && n <= |ks| && LastSome(ks, n, i, k)
    ensures k in LoadKeyed(ks[..n], vs[..n]) && LoadKeyed(ks[..n], vs[..n])[k] == vs[i]
    decreases n
  {
    LoadKeyedStep(ks, vs, n);
    if i < n - 1 {
      LastSomeMiss(ks, n, i, k);
      LoadKeyedLastValue(ks, vs, n - 1, i, k);
    }
  }

  /** Filling the first `n` keys stores `k` only if one of them is `k`. */
  lemma {:induction false} LoadKeyedLastKey(ks: seq<Option<VkblKey>>, vs: seq<VkblEntry>, n: nat, k: VkblKey)
    requires |ks| == |vs| && n <= |ks|
    ensures k in LoadKeyed(ks[..n], vs[..n]) ==> exists i :: LastSome(ks, n, i, k)
    decreases n
  {
    if n == 0 {
      assert ks[..0] == [];
    } else {
      LoadKeyedStep(ks, vs, n);
      if ks[n - 1] == Some(k) {
        LastSomeHit(ks, n, k);
      } else if k in LoadKeyed(ks[..n], vs[..n]) {
        LoadKeyedLastKey(ks, vs, n - 1, k);
        var i :| LastSome(ks, n - 1, i, k);
        LastSomeMiss(ks, n, i, k);
      }
    }
  }

  /** `load` keeps key `k` exactly when some dated entry has it, and stores the last such entry, dated. */
  lemma LoadVkblLast(json: seq<(string, VkblEntry)>, k: VkblKey)
    requires VkblJsonOk(json)
    ensures k in LoadVkbl(json) <==> exists i :: LastDated(json, i, k)
    ensures forall i :: LastDated(json, i, k) ==>
      k in LoadVkbl(json) && LoadVkbl(json)[k] == json[i].1.(date := json[i].1.verffentlichtam)
  {
    var ks, vs := DatedKeys(json), Stamps(json);
    LoadVkblKeyed(json);
    assert ks[..|json|] == ks && vs[..|json|] == vs;
    LoadKeyedLastKey(ks, vs, |json|, k);
    if k in LoadVkbl(json) {
      var i :| LastSome(ks, |json|, i, k);
      assert LastDated(json, i, k);
    }
    forall i | LastDated(json, i, k)
      ensures k in LoadVkbl(json) && LoadVkbl(json)[k] == json[i].1.(date := json[i].1.verffentlichtam)
    {
      LoadKeyedLastValue(ks, vs, |json|, i, k);
    }
  }

  /** `load` keeps every entry with a year and a page, under `(int(jahr), int(seite))`. */
  lemma {:induction false} LoadVkblKeeps(json: seq<(string, VkblEntry)>, i: nat)
    requires VkblJsonOk(json) && i < |json| && Dated(json[i].1)
    ensures VkblKeyOf(json[i].1) in LoadVkbl(json)
    decreases |json|
  {
    var p := json[..|json| - 1];
    assert forall j :: 0 <= j < |p| ==> p[j] == json[j];
    if i < |p| {
      LoadVkblKeeps(p, i);
    }
  }

  /** The keys of the matches of one line that the index holds, in match order. */
  function VkblKeys(data: map<VkblKey, VkblEntry>, ms: seq<VkblMatch>): (r: seq<VkblKey>)
    ensures forall k :: k in r ==> k in data
    decreases |ms|
  {
    if ms == [] then []
    else
      var m := ms[|ms| - 1];
      VkblKeys(data, ms[..|ms| - 1]) + (if (m.year, m.page) in data then [(m.year, m.page)] else [])
  }

  /** `find_candidates` of the VkBl source. */
  function ScanVkbl(changeRe: string -> seq<VkblMatch>, data: map<VkblKey, VkblEntry>, lines: seq<string>): (r: Found<VkblKey>)
    ensures r.Found? ==> forall k :: k in r.keys ==> k in data
    decreases |lines|
  {
    if lines == [] then Found([])
    else
      var before := ScanVkbl(changeRe, data, lines[..|lines| - 1]);
      var line := lines[|lines| - 1];
      if before.Transient? || (|changeRe(line)| > 0 && IsTransient(line)) then Transient
      else Found(before.keys + VkblKeys(data, changeRe(line)))
  }

  lemma {:induction false} VkblKeysMeaning(data: map<VkblKey, VkblEntry>, ms: seq<VkblMatch>, k: VkblKey)
    ensures k in VkblKeys(data, ms) <==> k in data && exists m :: m in ms && (m.year, m.page) == k
    decreases |ms|
  {
    if ms != [] {
      var p := ms[..|ms| - 1];
      VkblKeysMeaning(data, p, k);
      if exists m :: m in ms && (m.year, m.page) == k {
        var m :| m in ms && (m.year, m.page) == k;
        if m != ms[|ms| - 1] {
          assert m in p;
        }
      }
      assert forall m :: m in p ==> m in ms;
    }
  }

  /** The VkBl scan raises exactly for a transient line with a match; otherwise it finds exactly the known keys of the matches. */
  lemma {:induction false} ScanVkblMeaning(changeRe: string -> seq<VkblMatch>, data: map<VkblKey, VkblEntry>, lines: seq<string>)
    ensures ScanVkbl(changeRe, data, lines).Transient? <==>
      exists i :: 0 <= i < |lines| && |changeRe(lines[i])| > 0 && IsTransient(lines[i])
    ensures ScanVkbl(changeRe, data, lines).Found? ==> forall k ::
      k in ScanVkbl(changeRe, data, lines).keys <==>
        k in data && exists i, m :: 0 <= i < |lines| && m in changeRe(lines[i]) && (m.year, m.page) == k
    decreases |lines|
  {
    if lines != [] {
      var p := lines[..|lines| - 1];
      var line := lines[|lines| - 1];
      ScanVkblMeaning(changeRe, data, p);
      assert forall i :: 0 <= i < |p| ==> p[i] == lines[i];
      var r := ScanVkbl(changeRe, data, lines);
      if r.Found? {
        forall k
          ensures k in r.keys <==> k in data && exists i, m :: 0 <= i < |lines| && m in changeRe(lines[i]) && (m.year, m.page) == k
        {
          VkblKeysMeaning(data, changeRe(line), k);
          if exists i, m :: 0 <= i < |lines| && m in changeRe(lines[i]) && (m.year, m.page) == k {
            var i, m :| 0 <= i < |lines| && m in changeRe(lines[i]) && (m.year, m.page) == k;
            if i < |lines| - 1 {
              assert m in changeRe(p[i]);
            }
          }
        }
      }
    }
  }

  /** A transient line with a match makes the whole VkBl scan transient. */
  lemma VkblTransientLine(changeRe: string -> seq<VkblMatch>, data: map<VkblKey, VkblEntry>, lines: seq<string>, i: nat)
    requires i < |lines| && |changeRe(lines[i])| > 0 && IsTransient(lines[i])
    ensures ScanVkbl(changeRe, data, lines).Transient?
  {
    ScanVkblMeaning(changeRe, data, lines);
  }

  /** The VkBl source: its matcher and the index it loads (lawgit.py:170-251). */
  class VkblSource {
    const changeRe: string -> seq<VkblMatch>
    var data: map<VkblKey, VkblEntry>

    constructor (json: seq<(string, VkblEntry)>, changeRe: string -> seq<VkblMatch>)
      requires VkblJsonOk(json)
      ensures this.changeRe == changeRe && data == LoadVkbl(json)
    {
      this.changeRe := changeRe;
      data := map[];
      new;
      Load(json);
    }

    /** `load`: the entries with a year and a page stored under both. */
    method Load(json: seq<(string, VkblEntry)>)
      requires VkblJsonOk(json)
      modifies this
      ensures data == LoadVkbl(json)
    {
      data := map[];
      var i := 0;
      while i < |json|
        invariant 0 <= i <= |json|
        invariant VkblJsonOk(json[..i]) && data == LoadVkbl(json[..i])
      {
        LoadVkblStep(json, i);
        var value := json[i].1;
        if Dated(value) {
          var ident := (ParseInt(value.jahr), ParseInt(value.seite));
          data := data[ident := value.(date := value.verffentlichtam)];
        }
        i := i + 1;
      }
      assert json[..i] == json;
    }

    /** `find_candidates`: the known keys of the lines' matches, or `Transient`. */
    method FindCandidates(lines: seq<string>) returns (r: Found<VkblKey>)
      ensures r == ScanVkbl(changeRe, data, lines)
    {
      var candidates := [];
      var i := 0;
      while i < |lines|
        invariant 0 <= i <= |lines|
        invariant ScanVkbl(changeRe, data, lines[..i]) == Found(candidates)
      {
        var line := lines[i];
        var ms := changeRe(line);
        ghost var before := candidates;
        var j := 0;
        while j < |ms|
          invariant 0 <= j <= |ms|
          invariant j > 0 ==> !IsTransient(line)
          invariant candidates == before + VkblKeys(data, ms[..j])
        {
          if IsTransient(line) {
            VkblTransientLine(changeRe, data, lines, i);
            return Transient;
          }
          var key := (ms[j].year, ms[j].page);
          if key in data {
            candidates := candidates + [key];
          }
          assert ms[..j + 1][..j] == ms[..j];
          j := j + 1;
        }
        assert ms[..j] == ms;
        assert lines[..i + 1][..i] == lines[..i];
        i := i + 1;
      }
      assert lines[..i] == lines;
      return Found(candidates);
    }
  }

  // ================================================================ LawGit

  /** A `(source, key)` pair of `find_in_sources`: the source is the constructor. */
  datatype Candidate = FromBGBl(bkey: BGBlKey) | FromBAnz(akey: string) | FromVkbl(vkey: VkblKey)

  /** What `get_ident` returns: the BGBl `href` or the BAnz key, or the VkBl `(year, page)`. */
  datatype Ident = Text(text: string) | Pair(year: int, page: int)

  /** The state of the three sources that `find_in_sources` reads, in source order. */
  datatype SourceData = SourceData(
    bgblRe: string -> seq<BGBlMatch>, bgbl: map<BGBlKey, BGBlEntry>,
    banzOrder: seq<string>, banz: map<string, BAnzEntry>,
    vkblRe: string -> seq<VkblMatch>, vkbl: map<VkblKey, VkblEntry>)

  /**
   * The parts of the environment the grouping reads: `--consider-old`, the
   * current time in seconds since the epoch, `strptime(…, '%d.%m.%Y')` as a day
   * number, and the text of a file.
   */
  datatype Options = Options(considerOld: bool, now: int, dateOf: string -> int, readFile: string -> string)

  /** One change of a law as `collect_laws` records it: new file, diff or file text, path of `index.md`. */
  datatype Change = Change(newFile: bool, diff: string, filename: string)

  /** One commit to make: `(law, source, key)`. */
  datatype Commit = Commit(law: string, cand: Candidate)

  /** Every key of the BAnz order is a key of the BAnz index. */
  predicate SourcesOk(s: SourceData)
  {
    forall k :: k in s.banzOrder ==> k in s.banz
  }

  /** The candidate's key is in its source's index. */
  predicate Known(s: SourceData, c: Candidate)
  {
    match c
    case FromBGBl(k) => k in s.bgbl
    case FromBAnz(k) => k in s.banz
    case FromVkbl(k) => k in s.vkbl
  }

  function TagBGBl(ks: seq<BGBlKey>): (r: seq<Candidate>)
    ensures |r| == |ks| && forall i :: 0 <= i < |ks| ==> r[i] == FromBGBl(ks[i])
  {
    seq(|ks|, i requires 0 <= i < |ks| => FromBGBl(ks[i]))
  }

  function TagBAnz(ks: seq<string>): (r: seq<Candidate>)
    ensures |r| == |ks| && forall i :: 0 <= i < |ks| ==> r[i] == FromBAnz(ks[i])
  {
    seq(|ks|, i requires 0 <= i < |ks| => FromBAnz(ks[i]))
  }

  function TagVkbl(ks: seq<VkblKey>): (r: seq<Candidate>)
    ensures |r| == |ks| && forall i :: 0 <= i < |ks| ==> r[i] == FromVkbl(ks[i])
  {
    seq(|ks|, i requires 0 <= i < |ks| => FromVkbl(ks[i]))
  }

  /** `find_in_sources`: no candidate at all once a source raises, else all of them in source order. */
  function FindIn(s: SourceData, lines: seq<string>): (r: seq<Candidate>)
    requires SourcesOk(s)
    ensures forall c :: c in r ==> Known(s, c)
  {
    var a := ScanBGBl(s.bgblRe, s.bgbl, lines);
    var b := ScanBAnz(s.banzOrder, lines);
    var v := ScanVkbl(s.vkblRe, s.vkbl, lines);
    if a.Transient? || b.Transient? || v.Transient? then []
    else TagBGBl(a.keys) + TagBAnz(b.keys) + TagVkbl(v.keys)
  }

  /** Some line makes one of the three sources raise `TransientState`. */
  predicate AnyTransient(s: SourceData, lines: seq<string>)
  {
    exists i :: 0 <= i < |lines| &&
      ((|s.bgblRe(lines[i])| > 0 && IsTransient(lines[i]))
       || PendingLine(s.banzOrder, lines[i])
       || (|s.vkblRe(lines[i])| > 0 && IsTransient(lines[i])))
  }

  /** The lines cite the candidate in the way its source recognises. */
  predicate Cites(s: SourceData, lines: seq<string>, c: Candidate)
  {
    match c
    case FromBGBl(k) => k in s.bgbl && exists i, m :: 0 <= i < |lines| && m in s.bgblRe(lines[i]) && MatchKey(m) == k
    case FromBAnz(k) => k in s.banzOrder && exists i :: 0 <= i < |lines| && Mentions(lines[i], k)
    case FromVkbl(k) => k in s.vkbl && exists i, m :: 0 <= i < |lines| && m in s.vkblRe(lines[i]) && (m.year, m.page) == k
  }

  /** `find_in_sources` yields nothing when any source raises, even after an earlier one found keys. */
  lemma FindInTransient(s: SourceData, lines: seq<string>)
    requires SourcesOk(s)
    ensures AnyTransient(s, lines) ==> FindIn(s, lines) == []
  {
    if AnyTransient(s, lines) {
      var i :| 0 <= i < |lines| &&
        ((|s.bgblRe(lines[i])| > 0 && IsTransient(lines[i]))
         || PendingLine(s.banzOrder, lines[i])
         || (|s.vkblRe(lines[i])| > 0 && IsTransient(lines[i])));
      if |s.bgblRe(lines[i])| > 0 && IsTransient(lines[i]) {
        ScanBGBlMeaning(s.bgblRe, s.bgbl, lines);
      } else if PendingLine(s.banzOrder, lines[i]) {
        ScanBAnzTransient(s.banzOrder, lines);
      } else {
        ScanVkblMeaning(s.vkblRe, s.vkbl, lines);
      }
    }
  }

  /** Without a transient line every source finds its keys. */
  lemma NoTransientFound(s: SourceData, lines: seq<string>)
    requires !AnyTransient(s, lines)
    ensures ScanBGBl(s.bgblRe, s.bgbl, lines).Found?
    ensures ScanBAnz(s.banzOrder, lines).Found?
    ensures ScanVkbl(s.vkblRe, s.vkbl, lines).Found?
  {
    ScanBGBlMeaning(s.bgblRe, s.bgbl, lines);
    ScanBAnzTransient(s.banzOrder, lines);
    ScanVkblMeaning(s.vkblRe, s.vkbl, lines);
  }

  /** Otherwise `find_in_sources` yields exactly the candidates the lines cite. */
  lemma FindInCites(s: SourceData, lines: seq<string>, c: Candidate)
    requires SourcesOk(s) && !AnyTransient(s, lines)
    ensures c in FindIn(s, lines) <==> Cites(s, lines, c)
  {
    NoTransientFound(s, lines);
    var r := FindIn(s, lines);
    var a := ScanBGBl(s.bgblRe, s.bgbl, lines).keys;
    var b := ScanBAnz(s.banzOrder, lines).keys;
    var v := ScanVkbl(s.vkblRe, s.vkbl, lines).keys;
    assert r == TagBGBl(a) + TagBAnz(b) + TagVkbl(v);
    match c
    case FromBGBl(k) => {
      ScanBGBlMeaning(s.bgblRe, s.bgbl, lines);
      assert c in r <==> k in a;
    }
    case FromBAnz(k) => {
      ScanBAnzKeys(s.banzOrder, lines, k);
      assert c in r <==> k in b;
    }
    case FromVkbl(k) => {
      ScanVkblMeaning(s.vkblRe, s.vkbl, lines);
      assert c in r <==> k in v;
    }
  }

  /** The rank of a candidate's source in `self.sources`. */
  function Rank(c: Candidate): nat
  {
    match c
    case FromBGBl(_) => 0
    case FromBAnz(_) => 1
    case FromVkbl(_) => 2
  }

  /** The candidates come in source order: BGBl, then BAnz, then VkBl. */
  lemma FindInOrder(s: SourceData, lines: seq<string>)
    requires SourcesOk(s)
    ensures forall i, j :: 0 <= i < j < |FindIn(s, lines)| ==> Rank(FindIn(s, lines)[i]) <= Rank(FindIn(s, lines)[j])
  {
    var r := FindIn(s, lines);
    if |r| > 0 {
      var a := ScanBGBl(s.bgblRe, s.bgbl, lines).keys;
      var b := ScanBAnz(s.banzOrder, lines).keys;
      forall i | 0 <= i < |r|
        ensures Rank(r[i]) == if i < |a| then 0 else if i < |a| + |b| then 1 else 2
      {
      }
    }
  }

  /** The date string `get_date` parses: `date` for BGBl and BAnz, `verffentlichtam` for VkBl. */
  function DateOf(s: SourceData, c: Candidate): string
    requires Known(s, c)
  {
    match c
    case FromBGBl(k) => s.bgbl[k].date
    case FromBAnz(k) => s.banz[k].date
    case FromVkbl(k) => s.vkbl[k].verffentlichtam
  }

  /** `get_order_key`, which is `get_date`. */
  function OrderKey(s: SourceData, o: Options, c: Candidate): int
    requires Known(s, c)
  {
    o.dateOf(DateOf(s, c))
  }

  function OrderKeys(s: SourceData, o: Options, cs: seq<Candidate>): (r: seq<int>)
    requires forall c :: c in cs ==> Known(s, c)
    ensures |r| == |cs| && forall i :: 0 <= i < |cs| ==> r[i] == OrderKey(s, o, cs[i])
  {
    seq(|cs|, i requires 0 <= i < |cs| => OrderKey(s, o, cs[i]))
  }

  /**
   * `sorted(…, key=…)[-1]`: the position of the element a stable sort puts
   * last, a maximal key with no equal key after it.
   */
  function LastMax(ks: seq<int>): (i: nat)
    requires |ks| > 0
    ensures i < |ks|
    ensures forall j :: 0 <= j < |ks| ==> ks[j] <= ks[i]
    ensures forall j :: i < j < |ks| ==> ks[j] < ks[i]
    decreases |ks|
  {
    if |ks| == 1 then 0
    else
      var p := ks[..|ks| - 1];
      var i := LastMax(p);
      assert forall j :: 0 <= j < |p| ==> p[j] == ks[j];
      if ks[|ks| - 1] >= ks[i] then |ks| - 1 else i
  }

  /** The two conditions on `LastMax` single out one position. */
  lemma LastMaxUnique(ks: seq<int>, i: nat)
    requires i < |ks|
    requires forall j :: 0 <= j < |ks| ==> ks[j] <= ks[i]
    requires forall j :: i < j < |ks| ==> ks[j] < ks[i]
    ensures i == LastMax(ks)
  {
  }

  /** The candidates of `determine_source`: those of the diff, or failing that those of the whole file. */
  function Candidates(s: SourceData, o: Options, ch: Change): (r: seq<Candidate>)
    requires SourcesOk(s)
    ensures forall c :: c in r ==> Known(s, c)
  {
    var fromDiff := FindIn(s, SplitLines(ch.diff));
    if |fromDiff| > 0 then fromDiff else FindIn(s, SplitLines(o.readFile(ch.filename)))
  }

  /** `determine_source`: `None` without candidates, else the last candidate with the latest date. */
  function Determine(s: SourceData, o: Options, ch: Change): (r: Option<Candidate>)
    requires SourcesOk(s)
    ensures r.Some? ==> Known(s, r.value)
  {
    var cs := Candidates(s, o, ch);
    if |cs| == 0 then None else Some(cs[LastMax(OrderKeys(s, o, cs))])
  }

  /** The file is read only when the diff cites nothing, and there is no source only when neither cites anything. */
  lemma DetermineNone(s: SourceData, o: Options, ch: Change)
    requires SourcesOk(s)
    ensures |FindIn(s, SplitLines(ch.diff))| > 0 ==> Candidates(s, o, ch) == FindIn(s, SplitLines(ch.diff))
    ensures Determine(s, o, ch).None? <==>
      |FindIn(s, SplitLines(ch.diff))| == 0 && |FindIn(s, SplitLines(o.readFile(ch.filename)))| == 0
  {
  }

  /** The chosen candidate has the latest date, and every candidate after it an earlier one. */
  lemma DetermineLatest(s: SourceData, o: Options, ch: Change) returns (i: nat)
    requires SourcesOk(s) && Determine(s, o, ch).Some?
    ensures var cs := Candidates(s, o, ch);
      i < |cs| && cs[i] == Determine(s, o, ch).value
      && (forall j :: 0 <= j < |cs| ==> OrderKey(s, o, cs[j]) <= OrderKey(s, o, cs[i]))
      && (forall j :: i < j < |cs| ==> OrderKey(s, o, cs[j]) < OrderKey(s, o, cs[i]))
  {
    var cs := Candidates(s, o, ch);
    var ks := OrderKeys(s, o, cs);
    i := LastMax(ks);
  }

  /** `get_branch_name` of the BAnz and VkBl sources can split their date. */
  predicate BranchOk(s: SourceData, c: Candidate)
    requires Known(s, c)
  {
    match c
    case FromBGBl(_) => true
    case FromBAnz(_) => |Split(DateOf(s, c), ".")| >= 3
    case FromVkbl(_) => |Split(DateOf(s, c), ".")| >= 3
  }

  /** `get_branch_name` of the candidate's source. */
  function BranchName(s: SourceData, c: Candidate): string
    requires Known(s, c) && BranchOk(s, c)
  {
    match c
    case FromBGBl(k) => BGBlBranch(s.bgbl[k])
    case FromBAnz(_) => DateBranch("banz", DateOf(s, c))
    case FromVkbl(_) => DateBranch("vkbl", DateOf(s, c))
  }

  /** A BAnz or VkBl entry dated `DD.MM.YYYY` goes to the branch `banz/YYYY/MM-DD` or `vkbl/YYYY/MM-DD`. */
  lemma DatedBranchName(s: SourceData, c: Candidate, dd: string, mm: string, yyyy: string)
    requires Known(s, c) && !c.FromBGBl?
    requires '.' !in dd && '.' !in mm && '.' !in yyyy
    requires DateOf(s, c) == dd + "." + mm + "." + yyyy
    ensures BranchOk(s, c)
    ensures BranchName(s, c) == (if c.FromBAnz? then "banz" else "vkbl") + "/" + yyyy + "/" + mm + "-" + dd
  {
    DateBranchOf(if c.FromBAnz? then "banz" else "vkbl", dd, mm, yyyy);
  }

  /** `get_ident`: the BGBl `href`, the BAnz key, the VkBl `(year, page)`. */
  function IdentOf(s: SourceData, c: Candidate): Ident
    requires Known(s, c)
  {
    match c
    case FromBGBl(k) => Text(s.bgbl[k].href)
    case FromBAnz(k) => Text(k)
    case FromVkbl(k) => Pair(k.0, k.1)
  }

  /** A date `d` (days) plus 360 days lies before the time `now` (seconds). */
  predicate TooOld(o: Options, d: int)
  {
    (d + 360) * 86400 < o.now
  }

  /** The candidate `prepare_commits` keeps for one change: a source, and recent enough or `--consider-old`. */
  function Kept(s: SourceData, o: Options, ch: Change): (r: Option<Candidate>)
    requires SourcesOk(s)
    ensures r.Some? ==> Known(s, r.value) && Determine(s, o, ch) == r
  {
    var d := Determine(s, o, ch);
    if d.None? then None
    else if !o.considerOld && TooOld(o, OrderKey(s, o, d.value)) then None
    else d
  }

  /** The commits `prepare_commits` makes, in law order: one per law with a kept candidate. */
  function KeptCommits(s: SourceData, o: Options, laws: seq<string>, changes: map<string, Change>): (r: seq<Commit>)
    requires SourcesOk(s) && forall i :: 0 <= i < |laws| ==> laws[i] in changes
    ensures forall x :: x in r ==> Known(s, x.cand)
    decreases |laws|
  {
    if laws == [] then []
    else
      var p := laws[..|laws| - 1];
      var law := laws[|laws| - 1];
      assert forall i :: 0 <= i < |p| ==> p[i] == laws[i];
      var k := Kept(s, o, changes[law]);
      KeptCommits(s, o, p, changes) + (if k.Some? then [Commit(law, k.value)] else [])
  }

  /** A commit is made exactly for a law whose change has a kept candidate, with that candidate. */
  lemma {:induction false} KeptCommitsMeaning(s: SourceData, o: Options, laws: seq<string>, changes: map<string, Change>, x: Commit)
    requires SourcesOk(s) && forall i :: 0 <= i < |laws| ==> laws[i] in changes
    ensures x in KeptCommits(s, o, laws, changes) <==>
      x.law in laws && x.law in changes && Kept(s, o, changes[x.law]) == Some(x.cand)
    decreases |laws|
  {
    if laws != [] {
      var p := laws[..|laws| - 1];
      assert forall i :: 0 <= i < |p| ==> p[i] == laws[i];
      KeptCommitsMeaning(s, o, p, changes, x);
      assert x.law in laws <==> x.law in p || x.law == laws[|laws| - 1];
    }
  }

  /** Every candidate of the commits has a branch name. */
  predicate Named(s: SourceData, commits: seq<Commit>)
  {
    forall i :: 0 <= i < |commits| ==> Known(s, commits[i].cand) && BranchOk(s, commits[i].cand)
  }

  /** A commit with the branch name and the ident of its candidate. */
  datatype Placed = Placed(branch: string, ident: Ident, commit: Commit)

  /** `get_branch_name` and `get_ident` of each commit's candidate. */
  function Place(s: SourceData, commits: seq<Commit>): (r: seq<Placed>)
    requires Named(s, commits)
    ensures |r| == |commits|
    ensures forall i :: 0 <= i < |commits| ==>
      r[i] == Placed(BranchName(s, commits[i].cand), IdentOf(s, commits[i].cand), commits[i])
  {
    seq(|commits|, i requires 0 <= i < |commits| =>
      Placed(BranchName(s, commits[i].cand), IdentOf(s, commits[i].cand), commits[i]))
  }

  /**
   * The commits of one branch by ident: the dict `branches[b]` as its
   * (ident, commits) pairs in insertion order, the order `commit_branch`
   * walks them in (lawgit.py:360).
   */
  type Groups = seq<(Ident, seq<Commit>)>

  /** The idents of a branch, in insertion order. */
  function Idents(g: Groups): seq<Ident>
  {
    if g == [] then [] else [g[0].0] + Idents(g[1..])
  }

  /** `g[id]` when the ident is present, and no commits otherwise. */
  function GroupOf(g: Groups, id: Ident): seq<Commit>
  {
    if g == [] then [] else if g[0].0 == id then g[0].1 else GroupOf(g[1..], id)
  }

  /** `g.setdefault(id, []).append(x)` */
  function AddTo(g: Groups, id: Ident, x: Commit): Groups
  {
    if g == [] then [(id, [x])]
    else if g[0].0 == id then [(id, g[0].1 + [x])] + g[1..]
    else [g[0]] + AddTo(g[1..], id, x)
  }

  /** `setdefault` then `append`: a new ident goes last, and only the ident's own commits grow. */
  lemma {:induction false} AddToFacts(g: Groups, id: Ident, x: Commit)
    ensures Idents(AddTo(g, id, x)) == if id in Idents(g) then Idents(g) else Idents(g) + [id]
    ensures forall j :: GroupOf(AddTo(g, id, x), j) == if j == id then GroupOf(g, id) + [x] else GroupOf(g, j)
    decreases |g|
  {
    if g != [] && g[0].0 != id {
      AddToFacts(g[1..], id, x);
      assert AddTo(g, id, x)[1..] == AddTo(g[1..], id, x);
    }
  }

  /** `branches[b].setdefault(id, []).append(x)` */
  function AddCommit(m: map<string, Groups>, b: string, id: Ident, x: Commit): map<string, Groups>
  {
    var inner := if b in m then m[b] else [];
    m[b := AddTo(inner, id, x)]
  }

  /** The grouping of `prepare_commits` by branch name, then by ident, from the last commit back. */
  function Group(ps: seq<Placed>): map<string, Groups>
    decreases |ps|
  {
    if ps == [] then map[]
    else
      var x := ps[|ps| - 1];
      AddCommit(Group(ps[..|ps| - 1]), x.branch, x.ident, x.commit)
  }

  /** The commits, in their order, placed on branch `b` under ident `id`. */
  function Selected(ps: seq<Placed>, b: string, id: Ident): (r: seq<Commit>)
    ensures forall x :: x in r ==> Placed(b, id, x) in ps
    decreases |ps|
  {
    if ps == [] then []
    else
      var p := ps[..|ps| - 1];
      var x := ps[|ps| - 1];
      var r := Selected(p, b, id);
      assert forall y :: y in p ==> y in ps;
      r + (if x.branch == b && x.ident == id then [x.commit] else [])
  }

  /** A commit is selected for `(b, id)` exactly when it is placed there. */
  lemma {:induction false} SelectedMeaning(ps: seq<Placed>, b: string, id: Ident, x: Commit)
    ensures x in Selected(ps, b, id) <==> Placed(b, id, x) in ps
    decreases |ps|
  {
    if ps != [] {
      var p := ps[..|ps| - 1];
      SelectedMeaning(p, b, id, x);
      assert ps == p + [ps[|ps| - 1]];
    }
  }

  /**
   * The grouping lists ident `id` on branch `b` exactly when some commit is
   * placed there, and holds under it those commits in their order.
   */
  lemma {:induction false} GroupMeaning(ps: seq<Placed>, b: string, id: Ident)
    ensures (b in Group(ps) && id in Idents(Group(ps)[b])) <==> |Selected(ps, b, id)| > 0
    ensures b in Group(ps) ==> GroupOf(Group(ps)[b], id) == Selected(ps, b, id)
    decreases |ps|
  {
    if ps != [] {
      var p := ps[..|ps| - 1];
      var x := ps[|ps| - 1];
      GroupMeaning(p, b, id);
      if x.branch == b {
        AddToFacts(if b in Group(p) then Group(p)[b] else [], x.ident, x.commit);
      }
    }
  }

  /** No branch of the grouping is empty. */
  lemma {:induction false} GroupNoEmptyBranch(ps: seq<Placed>, b: string)
    ensures b in Group(ps) ==> |Group(ps)[b]| > 0
    decreases |ps|
  {
    if ps != [] {
      GroupNoEmptyBranch(ps[..|ps| - 1], b);
    }
  }

  /** Commit `i` is placed on branch `b` under ident `id`. */
  predicate PlacedAt(ps: seq<Placed>, i: int, b: string, id: Ident)
  {
    0 <= i < |ps| && ps[i].branch == b && ps[i].ident == id
  }

  /** Commit `i` is the first one placed on branch `b` under ident `id`. */
  predicate FirstPlaced(ps: seq<Placed>, i: int, b: string, id: Ident)
  {
    PlacedAt(ps, i, b, id) && forall j :: 0 <= j < i ==> !PlacedAt(ps, j, b, id)
  }

  /** Something is selected for `(b, id)` exactly when some commit is placed there. */
  lemma {:induction false} SelectedPlaced(ps: seq<Placed>, b: string, id: Ident)
    ensures |Selected(ps, b, id)| > 0 <==> exists i :: PlacedAt(ps, i, b, id)
    decreases |ps|
  {
    if ps != [] {
      var p := ps[..|ps| - 1];
      var x := ps[|ps| - 1];
      SelectedPlaced(p, b, id);
      if |Selected(p, b, id)| > 0 {
        var i :| PlacedAt(p, i, b, id);
        assert PlacedAt(ps, i, b, id);
      } else if x.branch == b && x.ident == id {
        assert PlacedAt(ps, |p|, b, id);
      } else {
        assert |Selected(ps, b, id)| == 0;
        forall i | 0 <= i < |ps|
          ensures !PlacedAt(ps, i, b, id)
        {
          if i < |p| {
            assert ps[i] == p[i];
            assert !PlacedAt(p, i, b, id);
          }
        }
      }
    }
  }

  /** An ident already placed before the last commit has its first placement there. */
  lemma FirstPlacedEarlier(ps: seq<Placed>, b: string, id: Ident, i: int)
    requires ps != [] && |Selected(ps[..|ps| - 1], b, id)| > 0 && FirstPlaced(ps, i, b, id)
    ensures i < |ps| - 1 && FirstPlaced(ps[..|ps| - 1], i, b, id)
  {
    var p := ps[..|ps| - 1];
    SelectedPlaced(p, b, id);
    var i0 :| PlacedAt(p, i0, b, id);
    assert PlacedAt(ps, i0, b, id);
    assert i0 >= i;
    forall j | 0 <= j < i
      ensures !PlacedAt(p, j, b, id)
    {
      assert !PlacedAt(ps, j, b, id);
      assert p[j] == ps[j];
    }
  }

  /** An ident not placed before the last commit is first placed by it. */
  lemma FirstPlacedLast(ps: seq<Placed>, b: string, id: Ident, j: int)
    requires ps != [] && |Selected(ps[..|ps| - 1], b, id)| == 0 && FirstPlaced(ps, j, b, id)
    ensures j == |ps| - 1
  {
    var p := ps[..|ps| - 1];
    SelectedPlaced(p, b, id);
    if j < |p| {
      assert PlacedAt(p, j, b, id);
    }
  }

  /** No ident is listed twice. */
  predicate DistinctIdents(ids: seq<Ident>)
  {
    forall k, l :: 0 <= k < l < |ids| ==> ids[k] != ids[l]
  }

  /** Within a branch no ident is listed twice, so each ident gets one git commit. */
  lemma {:induction false} GroupDistinct(ps: seq<Placed>, b: string)
    requires b in Group(ps)
    ensures DistinctIdents(Idents(Group(ps)[b]))
    decreases |ps|
  {
    var p := ps[..|ps| - 1];
    var x := ps[|ps| - 1];
    if b in Group(p) {
      GroupDistinct(p, b);
    }
    if x.branch == b {
      AddToFacts(if b in Group(p) then Group(p)[b] else [], x.ident, x.commit);
    }
  }

  /** The idents of `ids` are listed in the order of their first placements on `b`. */
  ghost predicate FirstOrder(ps: seq<Placed>, b: string, ids: seq<Ident>)
  {
    forall k, l, i, j :: 0 <= k < l < |ids| && FirstPlaced(ps, i, b, ids[k]) && FirstPlaced(ps, j, b, ids[l]) ==> i < j
  }

  /** One step of `GroupOrder`: adding the last commit keeps the idents in first-placement order. */
  lemma GroupOrderStep(ps: seq<Placed>, b: string, oldIds: seq<Ident>, ids: seq<Ident>)
    requires ps != [] && FirstOrder(ps[..|ps| - 1], b, oldIds)
    requires forall id :: id in oldIds ==> |Selected(ps[..|ps| - 1], b, id)| > 0
    requires ids == oldIds || (ids == oldIds + [ps[|ps| - 1].ident] && |Selected(ps[..|ps| - 1], b, ps[|ps| - 1].ident)| == 0)
    ensures FirstOrder(ps, b, ids)
  {
    forall k, l, i, j | 0 <= k < l < |ids| && FirstPlaced(ps, i, b, ids[k]) && FirstPlaced(ps, j, b, ids[l])
      ensures i < j
    {
      assert ids[k] == oldIds[k] && oldIds[k] in oldIds;
      FirstPlacedEarlier(ps, b, ids[k], i);
      if l < |oldIds| {
        assert ids[l] == oldIds[l] && oldIds[l] in oldIds;
        FirstPlacedEarlier(ps, b, ids[l], j);
      } else {
        FirstPlacedLast(ps, b, ids[l], j);
      }
    }
  }

  /**
   * Within a branch the idents are listed in the order of their first
   * commits: the order in which `commit_branch` makes one git commit per ident.
   */
  lemma {:induction false} GroupOrder(ps: seq<Placed>, b: string)
    requires b in Group(ps)
    ensures FirstOrder(ps, b, Idents(Group(ps)[b]))
    decreases |ps|
  {
    var p := ps[..|ps| - 1];
    var x := ps[|ps| - 1];
    var inner := if b in Group(p) then Group(p)[b] else [];
    var oldIds := Idents(inner);
    if b in Group(p) {
      GroupOrder(p, b);
    }
    forall id | id in oldIds
      ensures |Selected(p, b, id)| > 0
    {
      GroupMeaning(p, b, id);
    }
    if x.branch == b {
      AddToFacts(inner, x.ident, x.commit);
      GroupMeaning(p, b, x.ident);
    }
    GroupOrderStep(ps, b, oldIds, Idents(Group(ps)[b]));
  }

  /** The laws of `collect_laws` are the keys of a dict, so no law appears twice. */
  predicate DistinctLaws(laws: seq<string>)
  {
    forall i, j :: 0 <= i < j < |laws| ==> laws[i] != laws[j]
  }

  /** Distinct laws give at most one commit per law. */
  lemma {:induction false} KeptCommitsOnePerLaw(s: SourceData, o: Options, laws: seq<string>, changes: map<string, Change>)
    requires SourcesOk(s) && (forall i :: 0 <= i < |laws| ==> laws[i] in changes) && DistinctLaws(laws)
    ensures var r := KeptCommits(s, o, laws, changes);
      forall i, j :: 0 <= i < j < |r| ==> r[i].law != r[j].law
    decreases |laws|
  {
    if laws != [] {
      var p := laws[..|laws| - 1];
      var law := laws[|laws| - 1];
      assert forall i :: 0 <= i < |p| ==> p[i] == laws[i];
      KeptCommitsOnePerLaw(s, o, p, changes);
      var r0 := KeptCommits(s, o, p, changes);
      forall i | 0 <= i < |r0|
        ensures r0[i].law != law
      {
        KeptCommitsMeaning(s, o, p, changes, r0[i]);
      }
    }
  }

  /** Every law has a recorded change, the laws are distinct, and every kept candidate has a branch name. */
  predicate PrepareOk(s: SourceData, o: Options, laws: seq<string>, changes: map<string, Change>)
  {
    SourcesOk(s) && (forall i :: 0 <= i < |laws| ==> laws[i] in changes) && DistinctLaws(laws)
    && Named(s, KeptCommits(s, o, laws, changes))
  }

  /** `prepare_commits`: the kept commits grouped by branch name, then by ident. */
  function Prepare(s: SourceData, o: Options, laws: seq<string>, changes: map<string, Change>): map<string, Groups>
    requires PrepareOk(s, o, laws, changes)
  {
    Group(Place(s, KeptCommits(s, o, laws, changes)))
  }

  /** `LawGit` with its three sources, its options and the laws `collect_laws` found (lawgit.py:254-339). */
  class LawGit {
    const bgbl: BGBlSource
    const banz: BAnzSource
    const vkbl: VkblSource
    const options: Options
    /** The changed laws, in the order `collect_laws` met them. */
    var laws: seq<string>
    var lawChanges: map<string, Change>

    constructor (bgbl: BGBlSource, banz: BAnzSource, vkbl: VkblSource, options: Options,
                 laws: seq<string>, lawChanges: map<string, Change>)
      ensures this.bgbl == bgbl && this.banz == banz && this.vkbl == vkbl && this.options == options
      ensures this.laws == laws && this.lawChanges == lawChanges
    {
      this.bgbl := bgbl;
      this.banz := banz;
      this.vkbl := vkbl;
      this.options := options;
      this.laws := laws;
      this.lawChanges := lawChanges;
    }

    /** What the three sources hold. */
    function Data(): SourceData
      reads bgbl, banz, vkbl
    {
      SourceData(bgbl.changeRe, bgbl.data, banz.order, banz.data, vkbl.changeRe, vkbl.data)
    }

    /** `find_in_sources`: asks the sources in order and gives up at the first `TransientState`. */
    method FindInSources(lines: seq<string>) returns (r: seq<Candidate>)
      requires SourcesOk(Data())
      ensures r == FindIn(Data(), lines)
    {
      var a := bgbl.FindCandidates(lines);
      if a.Transient? {
        return [];
      }
      var b := banz.FindCandidates(lines);
      if b.Transient? {
        return [];
      }
      var v := vkbl.FindCandidates(lines);
      if v.Transient? {
        return [];
      }
      return TagBGBl(a.keys) + TagBAnz(b.keys) + TagVkbl(v.keys);
    }

    /** `determine_source` */
    method DetermineSource(law: string) returns (r: Option<Candidate>)
      requires SourcesOk(Data()) && law in lawChanges
      ensures r == Determine(Data(), options, lawChanges[law])
    {
      var change := lawChanges[law];
      var candidates := FindInSources(SplitLines(change.diff));
      if |candidates| == 0 {
        var more := FindInSources(SplitLines(options.readFile(change.filename)));
        candidates := candidates + more;
      }
      assert candidates == Candidates(Data(), options, change);
      if |candidates| == 0 {
        return None;
      }
      var keys := OrderKeys(Data(), options, candidates);
      return Some(candidates[LastMax(keys)]);
    }

    /** `prepare_commits`: the kept laws grouped by branch name, then by ident. */
    method PrepareCommits() returns (branches: map<string, Groups>)
      requires PrepareOk(Data(), options, laws, lawChanges)
      ensures branches == Prepare(Data(), options, laws, lawChanges)
    {
      branches := map[];
      var i := 0;
      while i < |laws|
        invariant 0 <= i <= |laws|
        invariant Named(Data(), KeptCommits(Data(), options, laws[..i], lawChanges))
        invariant branches == Group(Place(Data(), KeptCommits(Data(), options, laws[..i], lawChanges)))
      {
        PrepareStep(Data(), options, laws, lawChanges, i);
        branches := CommitLaw(branches, laws[i]);
        i := i + 1;
      }
      assert laws[..i] == laws;
    }

    /** The body of the loop of `prepare_commits` for one law. */
    method CommitLaw(branches: map<string, Groups>, law: string) returns (r: map<string, Groups>)
      requires SourcesOk(Data()) && law in lawChanges && EnterOk(Data(), options, lawChanges[law])
      ensures r == Enter(Data(), options, branches, law, lawChanges[law])
    {
      var result := DetermineSource(law);
      if result.None? {
        return branches;
      }
      var source := result.value;
      var date := OrderKey(Data(), options, source);
      if !options.considerOld && TooOld(options, date) {
        return branches;
      }
      var branchName := BranchName(Data(), source);
      var ident := IdentOf(Data(), source);
      return AddCommit(branches, branchName, ident, Commit(law, source));
    }
  }

  /** The kept candidate of a change, if any, has a branch name. */
  predicate EnterOk(s: SourceData, o: Options, ch: Change)
    requires SourcesOk(s)
  {
    Kept(s, o, ch).Some? ==> BranchOk(s, Kept(s, o, ch).value)
  }

  /** The commit of one law added to the grouping, if the law has a kept candidate. */
  function Enter(s: SourceData, o: Options, m: map<string, Groups>, law: string, ch: Change): map<string, Groups>
    requires SourcesOk(s) && EnterOk(s, o, ch)
  {
    var k := Kept(s, o, ch);
    if k.None? then m else AddCommit(m, BranchName(s, k.value), IdentOf(s, k.value), Commit(law, k.value))
  }

  /** What one more law adds to the grouping of `prepare_commits`. */
  lemma PrepareStep(s: SourceData, o: Options, laws: seq<string>, changes: map<string, Change>, i: nat)
    requires PrepareOk(s, o, laws, changes) && i < |laws|
    ensures Named(s, KeptCommits(s, o, laws[..i], changes))
    ensures Named(s, KeptCommits(s, o, laws[..i + 1], changes))
    ensures laws[i] in changes && EnterOk(s, o, changes[laws[i]])
    ensures Group(Place(s, KeptCommits(s, o, laws[..i + 1], changes)))
      == Enter(s, o, Group(Place(s, KeptCommits(s, o, laws[..i], changes))), laws[i], changes[laws[i]])
  {
    var all := KeptCommits(s, o, laws, changes);
    var before := KeptCommits(s, o, laws[..i], changes);
    var after := KeptCommits(s, o, laws[..i + 1], changes);
    KeptCommitsStep(s, o, laws, changes, i);
    KeptCommitsPrefix(s, o, laws, changes, i);
    KeptCommitsPrefix(s, o, laws, changes, i + 1);
    NamedPrefix(s, before, all);
    NamedPrefix(s, after, all);
    var k := Kept(s, o, changes[laws[i]]);
    var m := Group(Place(s, before));
    if k.Some? {
      var x := Commit(laws[i], k.value);
      assert after == before + [x];
      assert after[|before|] == x;
      PlaceStep(s, before, x);
      GroupStep(Place(s, before), Placed(BranchName(s, k.value), IdentOf(s, k.value), x));
      assert Enter(s, o, m, laws[i], changes[laws[i]]) == AddCommit(m, BranchName(s, k.value), IdentOf(s, k.value), x);
    } else {
      assert after == before;
      assert Enter(s, o, m, laws[i], changes[laws[i]]) == m;
    }
  }

  /** One more law adds its commit, if it has a kept candidate, after those of the laws before it. */
  lemma KeptCommitsStep(s: SourceData, o: Options, laws: seq<string>, changes: map<string, Change>, i: nat)
    requires SourcesOk(s) && (forall j :: 0 <= j < |laws| ==> laws[j] in changes) && i < |laws|
    ensures var k := Kept(s, o, changes[laws[i]]);
      KeptCommits(s, o, laws[..i + 1], changes)
        == KeptCommits(s, o, laws[..i], changes) + (if k.Some? then [Commit(laws[i], k.value)] else [])
  {
    var q := laws[..i + 1];
    assert q[..|q| - 1] == laws[..i];
    assert q[|q| - 1] == laws[i];
  }

  /** A prefix of named commits is named. */
  lemma NamedPrefix(s: SourceData, a: seq<Commit>, b: seq<Commit>)
    requires Named(s, b) && a <= b
    ensures Named(s, a)
  {
    assert forall i :: 0 <= i < |a| ==> a[i] == b[i];
  }

  /** Placing one more commit adds it after the others. */
  lemma PlaceStep(s: SourceData, commits: seq<Commit>, x: Commit)
    requires Named(s, commits + [x])
    ensures Named(s, commits) && Known(s, x.cand) && BranchOk(s, x.cand)
    ensures Place(s, commits + [x]) == Place(s, commits) + [Placed(BranchName(s, x.cand), IdentOf(s, x.cand), x)]
  {
    assert forall i :: 0 <= i < |commits| ==> (commits + [x])[i] == commits[i];
    assert (commits + [x])[|commits|] == x;
  }

  /** Grouping one more commit adds it to its group. */
  lemma GroupStep(ps: seq<Placed>, x: Placed)
    ensures Group(ps + [x]) == AddCommit(Group(ps), x.branch, x.ident, x.commit)
  {
    assert (ps + [x])[..|ps|] == ps;
  }

  /** The commits of a prefix of the laws are a prefix of the commits of all of them. */
  lemma {:induction false} KeptCommitsPrefix(s: SourceData, o: Options, laws: seq<string>, changes: map<string, Change>, n: nat)
    requires SourcesOk(s) && (forall i :: 0 <= i < |laws| ==> laws[i] in changes) && n <= |laws|
    ensures KeptCommits(s, o, laws[..n], changes) <= KeptCommits(s, o, laws, changes)
    decreases |laws|
  {
    if n < |laws| {
      var p := laws[..|laws| - 1];
      assert forall i :: 0 <= i < |p| ==> p[i] == laws[i];
      KeptCommitsPrefix(s, o, p, changes, n);
      assert p[..n] == laws[..n];
    } else {
      assert laws[..n] == laws;
    }
  }
}
