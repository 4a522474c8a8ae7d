/** The `name{context};name{context}` strings that list a resource's children:
    how they are written, the regular-expression reader of the catalog upgrade
    (scripts/irods/database_upgrade.py) and irods::children_parser. */
module ChildStrings {

  import opened Common

  datatype Child = Child(name: string, context: string)

  // -------------------------------------------------------------------- writing

  function EntryText(c: Child): string {
    c.name + "{" + c.context + "}"
  }

  /** children_parser::str, and the strings build_child_list puts together. */
  function Write(l: seq<Child>): string {
    if l == [] then ""
    else if |l| == 1 then EntryText(l[0])
    else EntryText(l[0]) + ";" + Write(l[1..])
  }

  // ------------------------------------------------------------------ splitting

  /** s.split(';') */
  function Pieces(s: string): seq<string>
    decreases |s|
  {
    var k := Find(s, ';');
    if k == |s| then [s] else [s[..k]] + Pieces(s[k + 1..])
  }

  // ----------------------------------------------------- the regular-expression reader

  predicate IsBrace(c: char) {
    c == '{' || c == '}'
  }

  predicate NoBrace(s: string) {
    forall i | 0 <= i < |s| :: !IsBrace(s[i])
  }

  function BraceAt(s: string): (k: nat)
    ensures k <= |s|
    ensures k < |s| ==> IsBrace(s[k])
    ensures NoBrace(s[..k])
  {
    if s == [] || IsBrace(s[0]) then 0 else
      var k := 1 + BraceAt(s[1..]);
      assert s[..k] == [s[0]] + s[1..][..k - 1];
      k
  }

  /** re.match('^([^{}]*)\{([^{}]*)\}', s) */
  function MatchEntry(s: string): Option<Child> {
    var i := BraceAt(s);
    if i == |s| || s[i] != '{' then None else
      var rest := s[i + 1..];
      var j := BraceAt(rest);
      if j == |rest| || rest[j] != '}' then None else Some(Child(s[..i], rest[..j]))
  }

  function Matches(pieces: seq<string>): seq<Child> {
    if pieces == [] then [] else
      var m := MatchEntry(pieces[0]);
      (if m.Some? then [m.value] else []) + Matches(pieces[1..])
  }

  function RegexRead(s: string): seq<Child> {
    Matches(Pieces(s))
  }

  // ---------------------------------------------------------- exactly what reads back

  predicate Plain(s: string) {
    NoBrace(s) && ';' !in s
  }

  predicate AllPlain(l: seq<Child>) {
    forall i | 0 <= i < |l| :: Plain(l[i].name) && Plain(l[i].context)
  }

  lemma {:induction false} BraceFirst(a: string, c: char, b: string)
    requires NoBrace(a) && IsBrace(c)
    ensures BraceAt(a + [c] + b) == |a|
  {
    var s := a + [c] + b;
    if a != [] {
      assert s[1..] == a[1..] + [c] + b;
      BraceFirst(a[1..], c, b);
    }
  }

  lemma EntryMatches(c: Child)
    requires Plain(c.name) && Plain(c.context)
    ensures MatchEntry(EntryText(c)) == Some(c)
  {
    var s := EntryText(c);
    var rest := c.context + "}";
    assert s == c.name + ['{'] + rest;
    BraceFirst(c.name, '{', rest);
    assert s[..|c.name|] == c.name && s[|c.name| + 1..] == rest;
    assert rest == c.context + ['}'] + "";
    BraceFirst(c.context, '}', "");
    assert rest[..|c.context|] == c.context;
  }

  lemma PiecesOfEntry(c: Child, rest: string)
    requires Plain(c.name) && Plain(c.context)
    ensures Pieces(EntryText(c) + ";" + rest) == [EntryText(c)] + Pieces(rest)
    ensures Pieces(EntryText(c)) == [EntryText(c)]
  {
    var e := EntryText(c);
    var s := e + ";" + rest;
    FindFirst(e, ';', rest);
    assert s == e + [';'] + rest && s[..|e|] == e && s[|e| + 1..] == rest;
    FindNone(e, ';');
  }

  lemma EntryReadsBack(c: Child, rest: string)
    requires Plain(c.name) && Plain(c.context)
    ensures RegexRead(EntryText(c) + ";" + rest) == [c] + RegexRead(rest)
    ensures RegexRead(EntryText(c)) == [c]
  {
    EntryMatches(c);
    PiecesOfEntry(c, rest);
    var one, more := [EntryText(c)], Pieces(rest);
    assert (one + more)[0] == EntryText(c) && (one + more)[1..] == more;
    assert one[1..] == [] && [c] + Matches([]) == [c];
  }

  lemma {:induction false} PlainReadsBack(l: seq<Child>)
    requires AllPlain(l)
    ensures RegexRead(Write(l)) == l
  {
    if l == [] {
      assert MatchEntry("") == None;
      assert [""][1..] == [];
    } else if |l| == 1 {
      EntryReadsBack(l[0], "");
    } else {
      EntryReadsBack(l[0], Write(l[1..]));
      PlainReadsBack(l[1..]);
    }
  }

  lemma {:induction false} PiecesPlain(s: string)
    ensures forall i | 0 <= i < |Pieces(s)| :: ';' !in Pieces(s)[i]
    decreases |s|
  {
    var k := Find(s, ';');
    if k == |s| {
      assert s[..k] == s;
    } else {
      PiecesPlain(s[k + 1..]);
    }
  }

  lemma {:induction false} MatchesPlain(pieces: seq<string>)
    requires forall i | 0 <= i < |pieces| :: ';' !in pieces[i]
    ensures AllPlain(Matches(pieces))
  {
    if pieces != [] {
      MatchesPlain(pieces[1..]);
    }
  }

  /** A list of children is recovered from its string exactly when no name and
      no context contains one of the three marks. */
  lemma ReadsBackExactly(l: seq<Child>)
    ensures RegexRead(Write(l)) == l <==> AllPlain(l)
  {
    if AllPlain(l) {
      PlainReadsBack(l);
    }
    PiecesPlain(Write(l));
    MatchesPlain(Pieces(Write(l)));
  }

  // ----------------------------------------------------------- irods::children_parser

  /** std::string's operator<, on code points */
  predicate Less(a: string, b: string) {
    b != [] && (a == [] || a[0] < b[0] || (a[0] == b[0] && Less(a[1..], b[1..])))
  }

  lemma {:induction false} LessTotal(a: string, b: string)
    ensures Less(a, b) || a == b || Less(b, a)
    ensures !(Less(a, b) && Less(b, a)) && !Less(a, a)
  {
    if a != [] && b != [] && a[0] == b[0] {
      LessTotal(a[1..], b[1..]);
      assert a == [a[0]] + a[1..] && b == [b[0]] + b[1..];
    }
    if a != [] { LessTotal(a[1..], a[1..]); }
  }

  lemma {:induction false} LessTransitive(a: string, b: string, c: string)
    requires Less(a, b) && Less(b, c)
    ensures Less(a, c)
  {
    if a != [] && a[0] == b[0] && b[0] == c[0] {
      LessTransitive(a[1..], b[1..], c[1..]);
    }
  }

  /** A std::map is its entries in key order. */
  ghost predicate Sorted(m: seq<Child>) {
    forall i, j | 0 <= i < j < |m| :: Less(m[i].name, m[j].name)
  }

  /** m[name] = context */
  function Put(m: seq<Child>, c: Child): seq<Child> {
    if m == [] || Less(c.name, m[0].name) then [c] + m
    else if m[0].name == c.name then [c] + m[1..]
    else [m[0]] + Put(m[1..], c)
  }

  function Names(m: seq<Child>): (r: seq<string>)
    ensures |r| == |m| && forall i | 0 <= i < |m| :: r[i] == m[i].name
  {
    seq(|m|, i requires 0 <= i < |m| => m[i].name)
  }

  lemma {:induction false} PutSorted(m: seq<Child>, c: Child)
    requires Sorted(m)
    ensures Sorted(Put(m, c))
    ensures forall x :: x in Names(Put(m, c)) <==> x == c.name || x in Names(m)
  {
    if m == [] {
      assert Names([c] + m) == [c.name];
    } else if Less(c.name, m[0].name) {
      PutInFront(m, c);
    } else if m[0].name == c.name {
      assert Names([c] + m[1..]) == Names(m);
    } else {
      LessTotal(c.name, m[0].name);
      PutSorted(m[1..], c);
      PutBehind(m, c, Put(m[1..], c));
    }
  }

  lemma PutBehind(m: seq<Child>, c: Child, r: seq<Child>)
    requires Sorted(m) && m != [] && Less(m[0].name, c.name) && Sorted(r)
    requires forall x :: x in Names(r) <==> x == c.name || x in Names(m[1..])
    ensures Sorted([m[0]] + r)
    ensures forall x :: x in Names([m[0]] + r) <==> x == c.name || x in Names(m)
  {
    assert Names(m) == [m[0].name] + Names(m[1..]) && Names([m[0]] + r) == [m[0].name] + Names(r);
    forall j | 0 <= j < |r|
      ensures Less(m[0].name, r[j].name)
    {
      assert Names(r)[j] in Names(r);
      if r[j].name != c.name {
        var i :| 0 <= i < |m[1..]| && Names(m[1..])[i] == r[j].name;
        assert m[1..][i] == m[i + 1];
      }
    }
  }

  lemma PutInFront(m: seq<Child>, c: Child)
    requires Sorted(m) && m != [] && Less(c.name, m[0].name)
    ensures Sorted([c] + m)
    ensures Names([c] + m) == [c.name] + Names(m)
  {
    forall j | 0 < j < |m|
      ensures Less(c.name, m[j].name)
    {
      LessTransitive(c.name, m[0].name, m[j].name);
    }
  }

  /** One entry of the string: all of it is the name when there is no '{', and
      a '{' without a later '}' is an error. */
  function ParseChild(s: string): Option<Child> {
    var i := Find(s, '{');
    if i == |s| then Some(Child(s, "")) else
      var rest := s[i + 1..];
      var j := Find(rest, '}');
      if j == |rest| then None else Some(Child(s[..i], rest[..j]))
  }

  /** The entries of a child string in turn; an error ends them, and
      printRescTree does not look at the error. */
  function Entries(s: string): seq<Child>
    decreases |s|
  {
    if s == "" then [] else
      var k := Find(s, ';');
      var c := ParseChild(s[..k]);
      if c.None? then [] else [c.value] + if k < |s| then Entries(s[k + 1..]) else []
  }

  /** The map after these assignments, one after the other. */
  function PutAll(l: seq<Child>): seq<Child> {
    if l == [] then [] else Put(PutAll(l[..|l| - 1]), l[|l| - 1])
  }

  /** What set_string leaves in the map. */
  function Parsed(s: string): seq<Child> {
    PutAll(Entries(s))
  }

  lemma {:induction false} PutAllSorted(l: seq<Child>)
    ensures Sorted(PutAll(l))
    ensures forall x :: x in Names(PutAll(l)) <==> x in Names(l)
    decreases |l|
  {
    if l != [] {
      var front, c := l[..|l| - 1], l[|l| - 1];
      PutAllSorted(front);
      PutSorted(PutAll(front), c);
      assert Names(l) == Names(front) + [c.name];
    }
  }

  /** Whatever the string, the map is in strict key order and holds the names of
      its entries. */
  lemma ParseSorted(s: string)
    ensures Sorted(Parsed(s))
    ensures forall x :: x in Names(Parsed(s)) <==> x in Names(Entries(s))
  {
    PutAllSorted(Entries(s));
  }

  /** children_parser::set_string, begin() to end() */
  method SetString(str: string) returns (children: seq<Child>)
    ensures children == Parsed(str)
  {
    children := [];
    var currentPos := 0;
    ghost var done: seq<Child> := [];
    assert str[0..] == str && [] + Entries(str) == Entries(str);
    while currentPos < |str|
      invariant currentPos <= |str| && children == PutAll(done) && Entries(str) == done + Entries(str[currentPos..])
      decreases |str| - currentPos
    {
      var rest := str[currentPos..];
      var length := Find(rest, ';');
      var child := ParseChild(rest[..length]);
      if child.None? {
        assert done + [] == done;
        return;
      }
      children := Put(children, child.value);
      PutNext(done, child.value);
      if length == |rest| {
        EntriesEnd(rest, child.value);
        done := done + [child.value];
        return;
      }
      EntriesGoOn(str, currentPos, length, child.value);
      Associates(done, [child.value], Entries(str[currentPos + length + 1..]));
      done := done + [child.value];
      currentPos := currentPos + length + 1;
    }
    assert str[currentPos..] == "" && done + [] == done;
  }

  lemma PutNext(done: seq<Child>, c: Child)
    ensures PutAll(done + [c]) == Put(PutAll(done), c)
  {
    assert (done + [c])[..|done|] == done;
  }

  lemma EntriesEnd(s: string, c: Child)
    requires s != "" && Find(s, ';') == |s| && ParseChild(s[..|s|]) == Some(c)
    ensures Entries(s) == [c]
  {
  }

  lemma EntriesGoOn(s: string, i: nat, k: nat, c: Child)
    requires i < |s| && Find(s[i..], ';') == k < |s| - i && ParseChild(s[i..][..k]) == Some(c)
    ensures Entries(s[i..]) == [c] + Entries(s[i + k + 1..])
  {
    assert s[i..][k + 1..] == s[i + k + 1..];
  }

  /** The entry is the bare name, or begins with the name and the context between
      the first pair of braces. */
  ghost predicate IsEntry(s: string, c: Child) {
    && '{' !in c.name
    && ((s == c.name && c.context == "") || ('}' !in c.context && exists rest :: s == Braced(c, rest)))
  }

  function Braced(c: Child, rest: string): string {
    c.name + "{" + c.context + "}" + rest
  }

  /** The first brace opens a context that no brace closes. */
  ghost predicate Unclosed(s: string) {
    exists k | 0 <= k < |s| :: s[k] == '{' && '{' !in s[..k] && '}' !in s[k + 1..]
  }

  /** Every string is an entry in exactly one way, or its context is unclosed;
      set_string finds which. */
  lemma ParsesExactly(s: string, c: Child)
    ensures ParseChild(s) == Some(c) <==> IsEntry(s, c)
    ensures ParseChild(s) == None <==> Unclosed(s)
  {
    if ParseChild(s) == Some(c) {
      ParsedIsEntry(s, c);
    }
    if IsEntry(s, c) {
      EntryIsParsed(s, c);
    }
    FailsExactly(s);
  }

  lemma FailsExactly(s: string)
    ensures ParseChild(s) == None <==> Unclosed(s)
  {
    if k :| 0 <= k < |s| && s[k] == '{' && '{' !in s[..k] && '}' !in s[k + 1..] {
      assert s == s[..k] + ['{'] + s[k + 1..];
      FindFirst(s[..k], '{', s[k + 1..]);
      FindNone(s[k + 1..], '}');
    }
    if ParseChild(s).None? {
      var i := Find(s, '{');
      FindExists(s[i + 1..], '}');
    }
  }

  lemma ParsedIsEntry(s: string, c: Child)
    requires ParseChild(s) == Some(c)
    ensures IsEntry(s, c)
  {
    var i := Find(s, '{');
    if i == |s| {
      assert s[..i] == s;
    } else {
      var rest := s[i + 1..];
      var j := Find(rest, '}');
      BracedAt(s, i, j, c);
      assert s == Braced(c, rest[j + 1..]);
    }
  }

  lemma BracedAt(s: string, i: nat, j: nat, c: Child)
    requires i < |s| && s[i] == '{' && j < |s[i + 1..]| && s[i + 1..][j] == '}'
    requires c == Child(s[..i], s[i + 1..][..j])
    ensures s == Braced(c, s[i + 1..][j + 1..])
  {
    var rest := s[i + 1..];
    assert s == c.name + (['{'] + rest) && rest == c.context + (['}'] + rest[j + 1..]);
    Associates(c.name, ['{'], rest);
    Associates(c.name + ['{'], c.context, ['}'] + rest[j + 1..]);
    Associates(c.name + ['{'] + c.context, ['}'], rest[j + 1..]);
  }

  lemma EntryIsParsed(s: string, c: Child)
    requires IsEntry(s, c)
    ensures ParseChild(s) == Some(c)
  {
    if s == c.name && c.context == "" {
      FindNone(s, '{');
    } else {
      var rest :| s == Braced(c, rest);
      var inner := c.context + ['}'] + rest;
      assert s == c.name + ['{'] + inner;
      FindFirst(c.name, '{', inner);
      assert s[..|c.name|] == c.name && s[|c.name| + 1..] == inner;
      FindFirst(c.context, '}', rest);
      assert inner[..|c.context|] == c.context;
    }
  }

  predicate ParsesBack(c: Child) {
    '{' !in c.name && ';' !in c.name && '}' !in c.context && ';' !in c.context
  }

  lemma EntryParses(c: Child)
    requires ParsesBack(c)
    ensures ParseChild(EntryText(c)) == Some(c) && ';' !in EntryText(c)
  {
    assert EntryText(c) == Braced(c, "");
    EntryIsParsed(EntryText(c), c);
  }

  /** A written list is read entry by entry as it was. */
  lemma {:induction false} ParsesWritten(l: seq<Child>)
    requires forall i | 0 <= i < |l| :: ParsesBack(l[i])
    ensures Entries(Write(l)) == l
    decreases |l|
  {
    if l != [] {
      if |l| == 1 {
        OneEntry(l[0]);
        assert l == [l[0]];
      } else {
        EntryParses(l[0]);
        EntryThenMore(EntryText(l[0]), Write(l[1..]), l[0]);
        ParsesWritten(l[1..]);
        assert l == [l[0]] + l[1..];
      }
    }
  }

  lemma OneEntry(c: Child)
    requires ParsesBack(c)
    ensures Entries(EntryText(c)) == [c]
  {
    var e := EntryText(c);
    EntryParses(c);
    FindNone(e, ';');
    assert e[..|e|] == e;
    EntriesEnd(e, c);
  }

  lemma EntryThenMore(e: string, rest: string, c: Child)
    requires ';' !in e && ParseChild(e) == Some(c)
    ensures Entries(e + ";" + rest) == [c] + Entries(rest)
  {
    var s := e + ";" + rest;
    FindFirst(e, ';', rest);
    assert s == e + [';'] + rest && s[0..] == s;
    assert s[..|e|] == e && s[|e| + 1..] == rest;
    EntriesGoOn(s, 0, |e|, c);
  }

  /** The parser yields exactly the names that were written, in key order. */
  lemma ParserRecoversNames(l: seq<Child>)
    requires forall i | 0 <= i < |l| :: ParsesBack(l[i])
    ensures Sorted(Parsed(Write(l)))
    ensures forall x :: x in Names(Parsed(Write(l))) <==> x in Names(l)
  {
    ParsesWritten(l);
    PutAllSorted(l);
  }
}
