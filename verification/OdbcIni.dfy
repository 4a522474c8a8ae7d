/** The odbc.ini reader and writer of scripts/irods/database_connect.py.
    A Python dictionary is a sequence in insertion order with distinct keys. */
module OdbcIni {

  import opened Common

  datatype Error = DuplicateSection | EntryBeforeSection | DuplicateEntry | InvalidLine
  datatype Result<T> = Ok(value: T) | Err(error: Error)

  datatype Entry = Entry(key: string, value: Option<string>)
  datatype Section = Section(name: string, entries: seq<Entry>)

  // ---------------------------------------------------------------- characters

  /** Python's str.isspace */
  predicate IsSpace(c: char) {
    || '\t' <= c <= '\r'
    || '\U{1c}' <= c <= ' '
    || c == '\U{85}' || c == '\U{a0}' || c == '\U{1680}'
    || '\U{2000}' <= c <= '\U{200a}'
    || c == '\U{2028}' || c == '\U{2029}' || c == '\U{202f}' || c == '\U{205f}' || c == '\U{3000}'
  }

  predicate IsEol(c: char) {
    c == '\n' || c == '\r'
  }

  predicate OneLine(s: string) {
    forall i | 0 <= i < |s| :: !IsEol(s[i])
  }

  function StripLeft(s: string): string {
    if s != [] && IsSpace(s[0]) then StripLeft(s[1..]) else s
  }

  function StripRight(s: string): string {
    if s != [] && IsSpace(s[|s| - 1]) then StripRight(s[..|s| - 1]) else s
  }

  function Strip(s: string): string {
    StripRight(StripLeft(s))
  }

  predicate Stripped(s: string) {
    s == [] || (!IsSpace(s[0]) && !IsSpace(s[|s| - 1]))
  }

  predicate BracketForm(s: string) {
    s != [] && s[0] == '[' && s[|s| - 1] == ']'
  }

  // --------------------------------------------------------------------- lines

  function EolAt(s: string): (i: nat)
    ensures i <= |s|
    ensures i < |s| ==> IsEol(s[i])
    ensures OneLine(s[..i])
  {
    if s == [] || IsEol(s[0]) then 0 else
      var i := 1 + EolAt(s[1..]);
      assert s[..i] == [s[0]] + s[1..][..i - 1];
      i
  }

  /** The lines a text file yields, with "\n", "\r\n" and "\r" as line ends.
      The ends themselves are dropped here; strip() would remove them. */
  function FileLines(text: string): seq<string>
    decreases |text|
  {
    if text == [] then [] else
      var i := EolAt(text);
      if i == |text| then [text]
      else if text[i] == '\r' && i + 1 < |text| && text[i + 1] == '\n' then [text[..i]] + FileLines(text[i + 2..])
      else [text[..i]] + FileLines(text[i + 1..])
  }

  function Unlines(lines: seq<string>): string {
    if lines == [] then "" else lines[0] + "\n" + Unlines(lines[1..])
  }

  // -------------------------------------------------------------- reading a line

  datatype Line = Blank | Header(name: string) | Pair(key: string, value: string) | Bad

  function Classify(raw: string): Line {
    var line := Strip(raw);
    if line == [] then Blank
    else if BracketForm(line) then Header(line[1..|line| - 1])
    else if '=' in line then
      FindExists(line, '=');
      var i := Find(line, '=');
      Pair(Strip(line[..i]), Strip(line[i + 1..]))
    else Bad
  }

  // ------------------------------------------------------------------- loading

  predicate HasSection(d: seq<Section>, name: string) {
    exists i | 0 <= i < |d| :: d[i].name == name
  }

  predicate HasKey(es: seq<Entry>, key: string) {
    exists i | 0 <= i < |es| :: es[i].key == key
  }

  /** What a Python dictionary of dictionaries always satisfies. */
  predicate DistinctNames(d: seq<Section>) {
    forall i, j | 0 <= i < j < |d| :: d[i].name != d[j].name
  }

  predicate DistinctKeys(es: seq<Entry>) {
    forall i, j | 0 <= i < j < |es| :: es[i].key != es[j].key
  }

  predicate IsDict(d: seq<Section>) {
    DistinctNames(d) && forall i | 0 <= i < |d| :: DistinctKeys(d[i].entries)
  }

  /** `d` with one more entry in its last section. */
  function AddEntry(d: seq<Section>, e: Entry): seq<Section>
    requires d != []
  {
    var last := d[|d| - 1];
    d[|d| - 1 := Section(last.name, last.entries + [e])]
  }

  /** What one line makes of a dictionary whose last section is the open one. */
  function Take(line: Line, d: seq<Section>): Result<seq<Section>> {
    match line
    case Blank => Ok(d)
    case Header(name) => if HasSection(d, name) then Err(DuplicateSection) else Ok(d + [Section(name, [])])
    case Pair(key, value) =>
      if d == [] then Err(EntryBeforeSection)
      else if HasKey(d[|d| - 1].entries, key) then Err(DuplicateEntry)
      else Ok(AddEntry(d, Entry(key, Some(value))))
    case Bad => if d == [] then Err(EntryBeforeSection) else Err(InvalidLine)
  }

  /** Reading on from such a dictionary. */
  function LoadLines(lines: seq<string>, d: seq<Section>): Result<seq<Section>>
    decreases |lines|
  {
    if lines == [] then Ok(d) else
      match Take(Classify(lines[0]), d)
      case Err(e) => Err(e)
      case Ok(next) => LoadLines(lines[1..], next)
  }

  function Load(text: string): Result<seq<Section>> {
    LoadLines(FileLines(text), [])
  }

  /** The position of a section, as a dictionary look-up finds it. */
  method FindSection(d: seq<Section>, name: string) returns (i: nat)
    requires HasSection(d, name)
    ensures i < |d| && d[i].name == name
  {
    i := 0;
    while d[i].name != name
      invariant i < |d| && forall j | 0 <= j < i :: d[j].name != name
      decreases |d| - i
    {
      i := i + 1;
    }
  }

  lemma AddKeepsDict(d: seq<Section>, e: Entry)
    requires d != [] && IsDict(d) && !HasKey(d[|d| - 1].entries, e.key)
    ensures IsDict(AddEntry(d, e))
  {
  }

  lemma HeaderKeepsDict(d: seq<Section>, name: string)
    requires IsDict(d) && !HasSection(d, name)
    ensures IsDict(d + [Section(name, [])])
  {
  }

  lemma OpenSectionIsLast(d: seq<Section>, i: nat)
    requires IsDict(d) && i < |d| && d[i].name == d[|d| - 1].name
    ensures i == |d| - 1
  {
  }

  /** An assignment into the open section's dictionary. */
  method StoreEntry(d: seq<Section>, section: string, key: string, value: string) returns (r: Result<seq<Section>>)
    requires IsDict(d) && d != [] && d[|d| - 1].name == section
    ensures r == if HasKey(d[|d| - 1].entries, key) then Err(DuplicateEntry)
                 else Ok(AddEntry(d, Entry(key, Some(value))))
    ensures r.Ok? ==> IsDict(r.value)
  {
    var i := FindSection(d, section);
    OpenSectionIsLast(d, i);
    if HasKey(d[i].entries, key) {
      return Err(DuplicateEntry);
    }
    AddKeepsDict(d, Entry(key, Some(value)));
    return Ok(d[i := Section(section, d[i].entries + [Entry(key, Some(value))])]);
  }

  /** The name of the open section, once there is one. */
  function Open(d: seq<Section>): Option<string> {
    if d == [] then None else Some(d[|d| - 1].name)
  }

  /** The loop's body for a stripped line that is not empty. */
  method TakeLine(line: string, odbcDict: seq<Section>, section: Option<string>) returns (r: Result<seq<Section>>)
    requires line != [] && Strip(line) == line && IsDict(odbcDict) && section == Open(odbcDict)
    ensures r == Take(Classify(line), odbcDict)
    ensures r.Ok? ==> IsDict(r.value)
  {
    if line[0] == '[' && line[|line| - 1] == ']' {
      var name := line[1..|line| - 1];
      if HasSection(odbcDict, name) {
        return Err(DuplicateSection);
      }
      HeaderKeepsDict(odbcDict, name);
      return Ok(odbcDict + [Section(name, [])]);
    } else if section.None? {
      return Err(EntryBeforeSection);
    } else if '=' in line {
      FindExists(line, '=');
      var i := Find(line, '=');
      r := StoreEntry(odbcDict, section.value, Strip(line[..i]), Strip(line[i + 1..]));
    } else {
      return Err(InvalidLine);
    }
  }

  method LoadOdbcIni(lines: seq<string>) returns (r: Result<seq<Section>>)
    ensures r == LoadLines(lines, [])
    ensures r.Ok? ==> IsDict(r.value)
  {
    var odbcDict: seq<Section> := [];
    var section: Option<string> := None;
    assert lines[0..] == lines;
    for n := 0 to |lines|
      invariant IsDict(odbcDict) && section == Open(odbcDict)
      invariant LoadLines(lines[n..], odbcDict) == LoadLines(lines, [])
    {
      DropOne(lines, n);
      StripTwice(lines[n]);
      var line := Strip(lines[n]);
      if line == [] {
        continue;
      }
      var taken := TakeLine(line, odbcDict, section);
      if taken.Err? {
        return taken;
      }
      odbcDict := taken.value;
      section := Open(odbcDict);
    }
    return Ok(odbcDict);
  }

  lemma StripTwice(s: string)
    ensures Strip(Strip(s)) == Strip(s) && Classify(Strip(s)) == Classify(s)
  {
    StripFacts(s);
    StripOfStripped(Strip(s));
  }

  // ------------------------------------------------------------------- dumping

  function EntryLines(es: seq<Entry>): (r: seq<string>)
    requires forall i | 0 <= i < |es| :: es[i].value.Some?
    ensures |r| == |es|
  {
    if es == [] then [] else [es[0].key + "=" + es[0].value.value] + EntryLines(es[1..])
  }

  predicate Complete(d: seq<Section>) {
    forall i, j | 0 <= i < |d| && 0 <= j < |d[i].entries| :: d[i].entries[j].value.Some?
  }

  function SectionLines(s: Section): seq<string>
    requires forall i | 0 <= i < |s.entries| :: s.entries[i].value.Some?
  {
    ["[" + s.name + "]"] + EntryLines(s.entries) + [""]
  }

  function DictLines(d: seq<Section>): seq<string>
    requires Complete(d)
  {
    if d == [] then [] else SectionLines(d[0]) + DictLines(d[1..])
  }

  function Dump(d: seq<Section>): string
    requires Complete(d)
  {
    Unlines(DictLines(d))
  }

  lemma {:induction false} UnlinesConcat(a: seq<string>, b: seq<string>)
    ensures Unlines(a + b) == Unlines(a) + Unlines(b)
  {
    if a == [] {
      assert a + b == b;
    } else {
      assert (a + b)[1..] == a[1..] + b;
      UnlinesConcat(a[1..], b);
    }
  }

  lemma {:induction false} DictLinesSnoc(d: seq<Section>, s: Section)
    requires Complete(d + [s])
    ensures Complete(d) && forall i | 0 <= i < |s.entries| :: s.entries[i].value.Some?
    ensures DictLines(d + [s]) == DictLines(d) + SectionLines(s)
  {
    assert (d + [s])[|d|] == s;
    assert forall i | 0 <= i < |d| :: (d + [s])[i] == d[i];
    if d == [] {
      assert d + [s] == [s] && [s][1..] == [];
    } else {
      assert (d + [s])[1..] == d[1..] + [s];
      DictLinesSnoc(d[1..], s);
      Associates(SectionLines(d[0]), DictLines(d[1..]), SectionLines(s));
    }
  }

  lemma {:induction false} EntryLinesSnoc(es: seq<Entry>, e: Entry)
    requires e.value.Some? && forall i | 0 <= i < |es| :: es[i].value.Some?
    ensures EntryLines(es + [e]) == EntryLines(es) + [e.key + "=" + e.value.value]
  {
    if es == [] {
      assert es + [e] == [e];
    } else {
      assert (es + [e])[1..] == es[1..] + [e];
      EntryLinesSnoc(es[1..], e);
    }
  }

  /** The text written before entry j of section i is found to have no value. */
  ghost predicate StoppedAt(d: seq<Section>, text: string, key: string, i: nat, j: nat) {
    && i < |d| && j < |d[i].entries| && d[i].entries[j] == Entry(key, None)
    && Complete(d[..i])
    && (forall k | 0 <= k < j :: d[i].entries[k].value.Some?)
    && text == Dump(d[..i]) + "[" + d[i].name + "]" + "\n" + Unlines(EntryLines(d[i].entries[..j]))
  }

  /** Writes the file; a missing value stops it with part of the text written. */
  method DumpOdbcIni(d: seq<Section>) returns (text: string, missing: Option<string>)
    ensures missing.None? <==> Complete(d)
    ensures Complete(d) ==> text == Dump(d)
    ensures missing.Some? ==> exists i, j :: StoppedAt(d, text, missing.value, i, j)
  {
    text, missing := "", None;
    for i := 0 to |d|
      invariant Complete(d[..i]) && missing.None?
      invariant text == Dump(d[..i])
    {
      var es := d[i].entries;
      text := text + "[" + d[i].name + "]" + "\n";
      ghost var before := text;
      for j := 0 to |es|
        invariant forall k | 0 <= k < j :: es[k].value.Some?
        invariant text == before + Unlines(EntryLines(es[..j]))
      {
        if es[j].value.None? {
          missing := Some(es[j].key);
          assert StoppedAt(d, text, missing.value, i, j);
          return;
        }
        EntryDumpStep(es, j);
        text := text + es[j].key + "=" + es[j].value.value + "\n";
      }
      text := text + "" + "\n";
      DumpStep(d, i);
    }
    assert d[..|d|] == d;
  }

  lemma EntryDumpStep(es: seq<Entry>, j: nat)
    requires j < |es| && forall k | 0 <= k <= j :: es[k].value.Some?
    ensures Unlines(EntryLines(es[..j + 1]))
         == Unlines(EntryLines(es[..j])) + es[j].key + "=" + es[j].value.value + "\n"
  {
    EntryLinesSnoc(es[..j], es[j]);
    assert es[..j + 1] == es[..j] + [es[j]];
    var line := es[j].key + "=" + es[j].value.value;
    UnlinesConcat(EntryLines(es[..j]), [line]);
    assert Unlines([line]) == line + "\n";
  }

  lemma DumpStep(d: seq<Section>, i: nat)
    requires i < |d| && Complete(d[..i]) && forall k | 0 <= k < |d[i].entries| :: d[i].entries[k].value.Some?
    ensures Complete(d[..i + 1])
    ensures Dump(d[..i + 1]) == Dump(d[..i]) + "[" + d[i].name + "]" + "\n"
                                + Unlines(EntryLines(d[i].entries[..|d[i].entries|])) + "\n"
  {
    assert d[..i + 1] == d[..i] + [d[i]];
    DictLinesSnoc(d[..i], d[i]);
    UnlinesConcat(DictLines(d[..i]), SectionLines(d[i]));
    UnlinesConcat(["[" + d[i].name + "]"] + EntryLines(d[i].entries), [""]);
    UnlinesConcat(["[" + d[i].name + "]"], EntryLines(d[i].entries));
    assert d[i].entries[..|d[i].entries|] == d[i].entries;
  }

  // ------------------------------------------------------ exactly what round-trips

  predicate WellFormedEntry(e: Entry) {
    && e.value.Some?
    && OneLine(e.key) && OneLine(e.value.value)
    && Stripped(e.key) && Stripped(e.value.value)
    && '=' !in e.key
    && !(e.key != [] && e.key[0] == '[' && e.value.value != [] && e.value.value[|e.value.value| - 1] == ']')
  }

  predicate WellFormedEntries(es: seq<Entry>) {
    forall i | 0 <= i < |es| :: WellFormedEntry(es[i])
  }

  predicate WellFormed(d: seq<Section>) {
    forall i | 0 <= i < |d| :: OneLine(d[i].name) && WellFormedEntries(d[i].entries)
  }

  lemma {:induction false} StripLeftFacts(s: string)
    ensures StripLeft(s) == [] || !IsSpace(StripLeft(s)[0])
    ensures |StripLeft(s)| <= |s| && StripLeft(s) == s[|s| - |StripLeft(s)|..]
  {
    if s != [] && IsSpace(s[0]) { StripLeftFacts(s[1..]); }
  }

  lemma {:induction false} StripRightFacts(s: string)
    ensures StripRight(s) == [] || !IsSpace(StripRight(s)[|StripRight(s)| - 1])
    ensures StripRight(s) <= s
  {
    if s != [] && IsSpace(s[|s| - 1]) { StripRightFacts(s[..|s| - 1]); }
  }

  lemma StripFacts(s: string)
    ensures Stripped(Strip(s))
    ensures OneLine(s) ==> OneLine(Strip(s))
    ensures forall c :: c !in s ==> c !in Strip(s)
  {
    StripLeftFacts(s);
    StripRightFacts(StripLeft(s));
  }

  lemma StripOfStripped(s: string)
    requires Stripped(s)
    ensures Strip(s) == s
  {
  }

  lemma {:induction false} StripRightKeepsFirst(s: string)
    requires s != [] && !IsSpace(s[0])
    ensures StripRight(s) != [] && StripRight(s)[0] == s[0]
  {
    if IsSpace(s[|s| - 1]) { StripRightKeepsFirst(s[..|s| - 1]); }
  }

  lemma {:induction false} StripLeftKeepsLast(s: string)
    requires s != [] && !IsSpace(s[|s| - 1])
    ensures StripLeft(s) != [] && StripLeft(s)[|StripLeft(s)| - 1] == s[|s| - 1]
  {
    if IsSpace(s[0]) { StripLeftKeepsLast(s[1..]); }
  }

  /** A line that is read as an entry yields a well-formed one. */
  lemma ReadEntryWellFormed(raw: string)
    requires OneLine(raw) && Classify(raw).Pair?
    ensures WellFormedEntry(Entry(Classify(raw).key, Some(Classify(raw).value)))
  {
    var line := Strip(raw);
    StripFacts(raw);
    FindExists(line, '=');
    var i := Find(line, '=');
    var a, b := line[..i], line[i + 1..];
    assert OneLine(a) && OneLine(b);
    StripFacts(a);
    StripFacts(b);
    ReadEntryNotBracketed(line, i);
  }

  lemma ReadEntryNotBracketed(line: string, i: nat)
    requires Stripped(line) && !BracketForm(line) && i < |line| && line[i] == '='
    ensures var k, v := Strip(line[..i]), Strip(line[i + 1..]);
            !(k != [] && k[0] == '[' && v != [] && v[|v| - 1] == ']')
  {
    if i > 0 {
      StripRightKeepsFirst(line[..i]);
    }
    if i + 1 < |line| {
      var b := line[i + 1..];
      StripLeftKeepsLast(b);
      StripLeftFacts(b);
      StripRightFacts(StripLeft(b));
      assert StripRight(StripLeft(b)) == StripLeft(b);
    }
  }

  lemma ReadHeaderOneLine(raw: string)
    requires OneLine(raw) && Classify(raw).Header?
    ensures OneLine(Classify(raw).name)
  {
    StripFacts(raw);
  }

  lemma {:induction false} FileLinesOneLine(text: string)
    ensures forall i | 0 <= i < |FileLines(text)| :: OneLine(FileLines(text)[i])
    decreases |text|
  {
    if text != [] {
      var i := EolAt(text);
      if i == |text| {
        assert text[..i] == text;
      } else if text[i] == '\r' && i + 1 < |text| && text[i + 1] == '\n' {
        FileLinesOneLine(text[i + 2..]);
      } else {
        FileLinesOneLine(text[i + 1..]);
      }
    }
  }

  lemma AddKeepsWellFormed(d: seq<Section>, e: Entry)
    requires d != [] && WellFormed(d) && WellFormedEntry(e)
    ensures WellFormed(AddEntry(d, e))
  {
  }

  lemma TakenWellFormed(line: string, d: seq<Section>)
    requires WellFormed(d) && OneLine(line) && Take(Classify(line), d).Ok?
    ensures WellFormed(Take(Classify(line), d).value)
  {
    match Classify(line)
    case Blank =>
    case Header(name) =>
      ReadHeaderOneLine(line);
    case Pair(key, value) =>
      ReadEntryWellFormed(line);
      AddKeepsWellFormed(d, Entry(key, Some(value)));
  }

  lemma {:induction false} LoadedWellFormed(lines: seq<string>, d: seq<Section>)
    requires WellFormed(d) && forall i | 0 <= i < |lines| :: OneLine(lines[i])
    requires LoadLines(lines, d).Ok?
    ensures WellFormed(LoadLines(lines, d).value)
    decreases |lines|
  {
    if lines != [] {
      TakenWellFormed(lines[0], d);
      LoadedWellFormed(lines[1..], Take(Classify(lines[0]), d).value);
    }
  }

  lemma {:induction false} EolAtFirst(a: string, rest: string)
    requires OneLine(a)
    ensures EolAt(a + "\n" + rest) == |a|
  {
    var t := a + "\n" + rest;
    if a == [] {
      assert t[0] == '\n';
    } else {
      assert t[0] == a[0] && t[1..] == a[1..] + "\n" + rest;
      EolAtFirst(a[1..], rest);
    }
  }

  lemma {:induction false} LinesReadBack(lines: seq<string>)
    requires forall i | 0 <= i < |lines| :: OneLine(lines[i])
    ensures FileLines(Unlines(lines)) == lines
  {
    if lines != [] {
      var rest := Unlines(lines[1..]);
      var t := Unlines(lines);
      EolAtFirst(lines[0], rest);
      assert t[|lines[0]|] == '\n' && t[..|lines[0]|] == lines[0] && t[|lines[0]| + 1..] == rest;
      LinesReadBack(lines[1..]);
    }
  }

  lemma ClassifyHeader(name: string)
    ensures Classify("[" + name + "]") == Header(name)
  {
    var line := "[" + name + "]";
    StripOfStripped(line);
    assert line[1..|line| - 1] == name;
  }

  lemma ClassifyEntry(e: Entry)
    requires WellFormedEntry(e)
    ensures Classify(e.key + "=" + e.value.value) == Pair(e.key, e.value.value)
  {
    var k, v := e.key, e.value.value;
    var line := k + "=" + v;
    assert Stripped(line);
    StripOfStripped(line);
    FindFirst(k, '=', v);
    assert line == k + ['='] + v;
    assert line[|k|] == '=' && line[..|k|] == k && line[|k| + 1..] == v;
    StripOfStripped(k);
    StripOfStripped(v);
  }

  lemma EntryReadsBack(acc: seq<Section>, name: string, done: seq<Entry>, e: Entry, rest: seq<string>)
    requires WellFormedEntry(e) && !HasKey(done, e.key)
    ensures LoadLines([e.key + "=" + e.value.value] + rest, acc + [Section(name, done)])
         == LoadLines(rest, acc + [Section(name, done + [e])])
  {
    var lines := [e.key + "=" + e.value.value] + rest;
    ClassifyEntry(e);
    assert lines[1..] == rest;
    assert AddEntry(acc + [Section(name, done)], e) == acc + [Section(name, done + [e])];
  }

  lemma EntryLinesCons(es: seq<Entry>, rest: seq<string>)
    requires es != [] && forall i | 0 <= i < |es| :: es[i].value.Some?
    ensures EntryLines(es) + rest == [es[0].key + "=" + es[0].value.value] + (EntryLines(es[1..]) + rest)
  {
    Associates([es[0].key + "=" + es[0].value.value], EntryLines(es[1..]), rest);
  }

  lemma FirstToDone(done: seq<Entry>, es: seq<Entry>)
    requires es != []
    ensures (done + [es[0]]) + es[1..] == done + es
  {
  }

  lemma {:induction false} EntriesReadBack(acc: seq<Section>, name: string, done: seq<Entry>, es: seq<Entry>,
                                           rest: seq<string>)
    requires WellFormedEntries(es) && DistinctKeys(done + es)
    ensures LoadLines(EntryLines(es) + rest, acc + [Section(name, done)])
         == LoadLines(rest, acc + [Section(name, done + es)])
    decreases |es|
  {
    if es == [] {
      assert EntryLines(es) + rest == rest && done + es == done;
    } else {
      var e, later := es[0], es[1..];
      var tail := EntryLines(later) + rest;
      EntryLinesCons(es, rest);
      NewKey(done, es);
      EntryReadsBack(acc, name, done, e, tail);
      FirstToDone(done, es);
      EntriesReadBack(acc, name, done + [e], later, rest);
    }
  }

  lemma NewKey(done: seq<Entry>, es: seq<Entry>)
    requires es != [] && DistinctKeys(done + es)
    ensures !HasKey(done, es[0].key)
  {
    var all := done + es;
    assert all[|done|] == es[0];
    assert forall i | 0 <= i < |done| :: all[i] == done[i];
  }

  lemma SectionReadsBack(s: Section, d: seq<Section>, rest: seq<string>)
    requires OneLine(s.name) && WellFormedEntries(s.entries) && DistinctKeys(s.entries)
    requires !HasSection(d, s.name)
    ensures LoadLines(SectionLines(s) + rest, d) == LoadLines(rest, d + [s])
  {
    var header, blank := "[" + s.name + "]", [""] + rest;
    var body := EntryLines(s.entries) + blank;
    assert SectionLines(s) + rest == [header] + body;
    HeaderReadsBack(s.name, d, body);
    assert [] + s.entries == s.entries;
    EntriesReadBack(d, s.name, [], s.entries, blank);
    assert Section(s.name, s.entries) == s;
    BlankSkipped(rest, d + [s]);
  }

  lemma HeaderReadsBack(name: string, d: seq<Section>, body: seq<string>)
    requires !HasSection(d, name)
    ensures LoadLines(["[" + name + "]"] + body, d) == LoadLines(body, d + [Section(name, [])])
  {
    var lines := ["[" + name + "]"] + body;
    ClassifyHeader(name);
    assert lines[1..] == body;
  }

  lemma BlankSkipped(rest: seq<string>, d: seq<Section>)
    ensures LoadLines([""] + rest, d) == LoadLines(rest, d)
  {
    var lines := [""] + rest;
    assert lines[1..] == rest && Classify("") == Blank;
  }

  lemma {:induction false} DictReadsBack(d: seq<Section>, acc: seq<Section>)
    requires WellFormed(d) && IsDict(acc + d)
    ensures Complete(d)
    ensures LoadLines(DictLines(d), acc) == Ok(acc + d)
    decreases |d|
  {
    if d == [] {
      assert acc + d == acc;
    } else {
      assert (acc + d)[|acc|] == d[0];
      assert forall i | 0 <= i < |acc| :: (acc + d)[i] == acc[i];
      assert acc + d == (acc + [d[0]]) + d[1..];
      DictReadsBack(d[1..], acc + [d[0]]);
      SectionReadsBack(d[0], acc, DictLines(d[1..]));
    }
  }

  lemma {:induction false} DictLinesOneLine(d: seq<Section>)
    requires WellFormed(d)
    ensures Complete(d)
    ensures forall i | 0 <= i < |DictLines(d)| :: OneLine(DictLines(d)[i])
  {
    if d != [] {
      EntryLinesOneLine(d[0].entries);
      DictLinesOneLine(d[1..]);
    }
  }

  lemma {:induction false} EntryLinesOneLine(es: seq<Entry>)
    requires WellFormedEntries(es)
    ensures forall i | 0 <= i < |EntryLines(es)| :: OneLine(EntryLines(es)[i])
  {
    if es != [] { EntryLinesOneLine(es[1..]); }
  }

  /** A dictionary is read back from its own dump exactly when it is well formed. */
  lemma RoundTrip(d: seq<Section>)
    requires IsDict(d)
    ensures (Complete(d) && Load(Dump(d)) == Ok(d)) <==> WellFormed(d)
  {
    if WellFormed(d) {
      DictLinesOneLine(d);
      LinesReadBack(DictLines(d));
      assert [] + d == d;
      DictReadsBack(d, []);
    }
    if Complete(d) && Load(Dump(d)) == Ok(d) {
      FileLinesOneLine(Dump(d));
      LoadedWellFormed(FileLines(Dump(d)), []);
    }
  }

  lemma TakenIsDict(line: Line, d: seq<Section>)
    requires IsDict(d) && Take(line, d).Ok?
    ensures IsDict(Take(line, d).value)
  {
    match line
    case Blank =>
    case Header(name) =>
      HeaderKeepsDict(d, name);
    case Pair(key, value) =>
      AddKeepsDict(d, Entry(key, Some(value)));
  }

  lemma {:induction false} LoadedIsDict(lines: seq<string>, d: seq<Section>)
    requires IsDict(d) && LoadLines(lines, d).Ok?
    ensures IsDict(LoadLines(lines, d).value)
    decreases |lines|
  {
    if lines != [] {
      TakenIsDict(Classify(lines[0]), d);
      LoadedIsDict(lines[1..], Take(Classify(lines[0]), d).value);
    }
  }

  /** Loading, dumping and loading again changes nothing, for every text that
      loads at all. */
  lemma LoadNormalises(text: string)
    requires Load(text).Ok?
    ensures Complete(Load(text).value)
    ensures Load(Dump(Load(text).value)) == Load(text)
  {
    FileLinesOneLine(text);
    LoadedWellFormed(FileLines(text), []);
    LoadedIsDict(FileLines(text), []);
    RoundTrip(Load(text).value);
  }
}
