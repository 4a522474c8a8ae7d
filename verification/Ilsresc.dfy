/** ilsresc from the query rows to the drawing: which resources are shown. */
module Ilsresc {

  import opened ChildStrings
  import opened ResourceListing
  import opened ResourceForest
  import opened TreeDrawing

  /** The names printRescTree finds in a row's child string, in its order. */
  function ChildNames(st: State, j: nat): seq<string>
    requires Consistent(st)
  {
    Names(Parsed(Write(KidsAmong(st, |st.names|, j))))
  }

  function GraphOf(st: State): Graph
    requires Consistent(st)
  {
    map x | x in st.index :: ChildNames(st, st.index[x])
  }

  /** Names and ids are unique, and no name holds a mark of the child strings. */
  ghost predicate Distinguishable(st: State)
    requires Consistent(st)
  {
    && (forall i, j | 0 <= i < j < |st.names| :: st.names[i] != st.names[j])
    && (forall i, j | 0 <= i < j < |st.ids| :: st.ids[i] != st.ids[j])
    && (forall i | 0 <= i < |st.names| :: '{' !in st.names[i] && ';' !in st.names[i])
  }

  /** Row j is the parent of row i. */
  predicate IsParent(st: State, j: nat, i: nat)
    requires Consistent(st) && j < |st.names| && i < |st.names|
  {
    st.parents[i] != "" && st.parents[i] == st.ids[j]
  }

  lemma IndexOfName(st: State, i: nat)
    requires Consistent(st) && Distinguishable(st) && i < |st.names|
    ensures st.names[i] in st.index && st.index[st.names[i]] == i
  {
  }

  lemma PositionOfParent(st: State, i: nat, j: nat)
    requires Consistent(st) && Distinguishable(st) && i < |st.names| && j < |st.names|
    ensures Position(st.ids, st.parents[i]) == j <==> st.parents[i] == st.ids[j]
  {
  }

  ghost predicate IsKid(st: State, n: nat, j: nat, x: string)
    requires Consistent(st) && n <= |st.names| && j < |st.names|
  {
    exists i | 0 <= i < n :: st.names[i] == x && IsParent(st, j, i)
  }

  lemma KidsStep(st: State, n: nat, j: nat)
    requires Consistent(st) && Distinguishable(st) && 0 < n <= |st.names| && j < |st.names|
    ensures KidsAmong(st, n, j)
         == KidsAmong(st, n - 1, j) + if IsParent(st, j, n - 1) then [Child(st.names[n - 1], "")] else []
  {
    PositionOfParent(st, n - 1, j);
    assert KidsAmong(st, n - 1, j) + [] == KidsAmong(st, n - 1, j);
  }

  lemma IsKidStep(st: State, n: nat, j: nat, x: string)
    requires Consistent(st) && 0 < n <= |st.names| && j < |st.names|
    ensures IsKid(st, n, j, x) <==> IsKid(st, n - 1, j, x) || (st.names[n - 1] == x && IsParent(st, j, n - 1))
  {
  }

  lemma {:induction false} KidsAmongAre(st: State, n: nat, j: nat, x: string)
    requires Consistent(st) && Distinguishable(st) && n <= |st.names| && j < |st.names|
    ensures x in Names(KidsAmong(st, n, j)) <==> IsKid(st, n, j, x)
    decreases n
  {
    if n > 0 {
      KidsAmongAre(st, n - 1, j, x);
      KidsStep(st, n, j);
      IsKidStep(st, n, j, x);
      if IsParent(st, j, n - 1) { NamesSnoc(KidsAmong(st, n - 1, j), Child(st.names[n - 1], "")); }
    }
  }

  lemma {:induction false} KidsParseBack(st: State, n: nat, j: nat)
    requires Consistent(st) && Distinguishable(st) && n <= |st.names| && j < |st.names|
    ensures forall i | 0 <= i < |KidsAmong(st, n, j)| :: ParsesBack(KidsAmong(st, n, j)[i])
    decreases n
  {
    if n > 0 {
      KidsParseBack(st, n - 1, j);
      KidsStep(st, n, j);
    }
  }

  lemma NamesSnoc(l: seq<Child>, c: Child)
    ensures Names(l + [c]) == Names(l) + [c.name]
  {
  }

  /** The catalog upgrade's reader, too, gets each row's children back from its
      child string, in row order and with empty contexts. */
  lemma ChildStringReadsBack(st: State, j: nat)
    requires Consistent(st) && forall i | 0 <= i < |st.names| :: Plain(st.names[i])
    ensures RegexRead(Write(KidsAmong(st, |st.names|, j))) == KidsAmong(st, |st.names|, j)
  {
    KidsArePlain(st, |st.names|, j);
    ReadsBackExactly(KidsAmong(st, |st.names|, j));
  }

  lemma {:induction false} KidsArePlain(st: State, n: nat, j: nat)
    requires Consistent(st) && n <= |st.names| && forall i | 0 <= i < |st.names| :: Plain(st.names[i])
    ensures AllPlain(KidsAmong(st, n, j))
    decreases n
  {
    if n > 0 { KidsArePlain(st, n - 1, j); }
  }

  /** The names found below row j are those of its children. */
  lemma ChildNamesAre(st: State, j: nat, x: string)
    requires Consistent(st) && Distinguishable(st) && j < |st.names|
    ensures x in ChildNames(st, j) <==> IsKid(st, |st.names|, j, x)
    ensures Distinct(ChildNames(st, j))
  {
    var l := KidsAmong(st, |st.names|, j);
    KidsAmongAre(st, |st.names|, j, x);
    KidsParseBack(st, |st.names|, j);
    ParserRecoversNames(l);
    SortedDistinct(Parsed(Write(l)));
  }

  lemma SortedDistinct(m: seq<Child>)
    requires Sorted(m)
    ensures Distinct(Names(m))
  {
    forall i, j | 0 <= i < j < |m|
      ensures m[i].name != m[j].name
    {
      LessTotal(m[i].name, m[j].name);
    }
  }

  lemma GraphAt(st: State, j: nat, x: string)
    requires Consistent(st) && Distinguishable(st) && j < |st.names|
    ensures st.names[j] in GraphOf(st)
    ensures x in GraphOf(st)[st.names[j]] <==> IsKid(st, |st.names|, j, x)
  {
    IndexOfName(st, j);
    ChildNamesAre(st, j, x);
  }

  lemma GraphIsClosed(st: State)
    requires Consistent(st) && Distinguishable(st)
    ensures Closed(GraphOf(st))
  {
    var g := GraphOf(st);
    forall x, i | x in g && 0 <= i < |g[x]|
      ensures g[x][i] in g
    {
      ChildNamesAre(st, st.index[x], g[x][i]);
      var k :| 0 <= k < |st.names| && st.names[k] == g[x][i] && IsParent(st, st.index[x], k);
    }
  }

  lemma GraphSingleParent(st: State)
    requires Consistent(st) && Distinguishable(st)
    ensures SingleParent(GraphOf(st))
  {
    var g := GraphOf(st);
    forall x, y, i, j | x in g && y in g && 0 <= i < |g[x]| && 0 <= j < |g[y]| && g[x][i] == g[y][j]
      ensures x == y && i == j
    {
      var a, b, c := st.index[x], st.index[y], g[x][i];
      ChildNamesAre(st, a, c);
      ChildNamesAre(st, b, c);
      var k :| 0 <= k < |st.names| && st.names[k] == c && IsParent(st, a, k);
      var l :| 0 <= l < |st.names| && st.names[l] == c && IsParent(st, b, l);
      assert k == l;
      assert st.ids[a] == st.ids[b];
      assert a == b;
      assert st.names[a] == x && st.names[b] == y;
    }
  }

  /** Drawing from one named resource ends exactly when the resource is not among
      its own descendants. */
  lemma NamedDrawingEnds(st: State, x: string)
    requires Consistent(st) && Distinguishable(st) && x in st.index
    ensures var g := GraphOf(st);
            && (Draw(g, x, "", |g|).Done? <==> !OnCycle(g, x))
            && (OnCycle(g, x) ==> forall fuel :: !Draw(g, x, "", fuel).Done?)
  {
    var g := GraphOf(st);
    GraphIsClosed(st);
    GraphSingleParent(st);
    EndsExactly(g, x);
    DrawsTree(g, x, "", |g|);
    forall fuel
      ensures Draw(g, x, "", fuel).Done? <==> Unfold(g, x, fuel).Done?
    {
      DrawsTree(g, x, "", fuel);
    }
  }

  // ----------------------------------------------------------- drawing from the roots

  /** Row numbers leading from a row without a parent down to another row, each
      the parent of the next. */
  ghost predicate ChainFromRoot(st: State, c: seq<nat>)
    requires Consistent(st)
  {
    && c != [] && (forall k | 0 <= k < |c| :: c[k] < |st.names|)
    && st.parents[c[0]] == ""
    && forall k | 0 <= k < |c| - 1 :: IsParent(st, c[k], c[k + 1])
  }

  /** The parent chain of resource y reaches a root. */
  ghost predicate Rooted(st: State, y: string)
    requires Consistent(st)
  {
    exists c :: ChainFromRoot(st, c) && st.names[c[|c| - 1]] == y
  }

  ghost predicate RootsListed(st: State)
    requires Consistent(st)
  {
    && Distinct(st.roots)
    && forall x :: x in st.roots <==> exists i | 0 <= i < |st.names| :: st.names[i] == x && st.parents[i] == ""
  }

  lemma RootsAreRoots(st: State)
    requires Consistent(st) && Distinguishable(st) && RootsListed(st)
    ensures forall r | r in st.roots :: IsRoot(GraphOf(st), r)
  {
    forall r | r in st.roots
      ensures IsRoot(GraphOf(st), r)
    {
      var i :| 0 <= i < |st.names| && st.names[i] == r && st.parents[i] == "";
      RowWithoutParent(st, i);
    }
  }

  lemma RowWithoutParent(st: State, i: nat)
    requires Consistent(st) && Distinguishable(st) && i < |st.names| && st.parents[i] == ""
    ensures IsRoot(GraphOf(st), st.names[i])
  {
    forall x | x in GraphOf(st)
      ensures st.names[i] !in GraphOf(st)[x]
    {
      assert st.names[st.index[x]] == x;
      StepIsParent(st, st.index[x], i);
    }
  }

  /** One step down in the graph is one step from parent row to child row. */
  lemma StepIsParent(st: State, i: nat, j: nat)
    requires Consistent(st) && Distinguishable(st) && i < |st.names| && j < |st.names|
    ensures st.names[i] in GraphOf(st)
    ensures st.names[j] in GraphOf(st)[st.names[i]] <==> IsParent(st, i, j)
  {
    GraphAt(st, i, st.names[j]);
    KidIsRow(st, i, j);
  }

  lemma KidIsRow(st: State, i: nat, j: nat)
    requires Consistent(st) && Distinguishable(st) && i < |st.names| && j < |st.names|
    ensures IsKid(st, |st.names|, i, st.names[j]) <==> IsParent(st, i, j)
  {
    if k :| 0 <= k < |st.names| && st.names[k] == st.names[j] && IsParent(st, i, k) {
      assert k == j;
    }
  }

  ghost function ChainNames(st: State, c: seq<nat>): (p: seq<string>)
    requires Consistent(st) && ChainFromRoot(st, c)
    ensures |p| == |c| && forall k | 0 <= k < |p| :: p[k] == st.names[c[k]]
  {
    seq(|c|, k requires 0 <= k < |c| => st.names[c[k]])
  }

  lemma ChainSteps(st: State, c: seq<nat>)
    requires Consistent(st) && Distinguishable(st) && ChainFromRoot(st, c)
    ensures Path(GraphOf(st), ChainNames(st, c))
  {
    var p := ChainNames(st, c);
    forall k | 0 <= k < |p| - 1
      ensures p[k] in GraphOf(st) && p[k + 1] in GraphOf(st)[p[k]]
    {
      StepIsParent(st, c[k], c[k + 1]);
    }
  }

  lemma ChainIsPath(st: State, c: seq<nat>)
    requires Consistent(st) && Distinguishable(st) && RootsListed(st) && ChainFromRoot(st, c)
    ensures st.names[c[0]] in st.roots && Reaches(GraphOf(st), st.names[c[0]], st.names[c[|c| - 1]])
  {
    var p := ChainNames(st, c);
    ChainSteps(st, c);
    assert PathFrom(GraphOf(st), st.names[c[0]], p, st.names[c[|c| - 1]]);
  }

  lemma PathIsChain(st: State, r: string, p: seq<string>, y: string)
    requires Consistent(st) && Distinguishable(st) && RootsListed(st)
    requires r in st.roots && PathFrom(GraphOf(st), r, p, y)
    ensures Rooted(st, y)
  {
    var g := GraphOf(st);
    GraphIsClosed(st);
    PathInGraph(g, p, st);
    var c: seq<nat> := seq(|p|, k requires 0 <= k < |p| => st.index[p[k]]);
    forall k | 0 <= k < |c| - 1
      ensures IsParent(st, c[k], c[k + 1])
    {
      assert p[k + 1] in g[p[k]];
      StepIsParent(st, c[k], c[k + 1]);
    }
    var i :| 0 <= i < |st.names| && st.names[i] == r && st.parents[i] == "";
    IndexOfName(st, i);
    assert ChainFromRoot(st, c) && st.names[c[|c| - 1]] == y;
  }

  lemma PathInGraph(g: Graph, p: seq<string>, st: State)
    requires Consistent(st) && g.Keys == st.index.Keys && Closed(g) && Path(g, p) && p[0] in g
    ensures forall k | 0 <= k < |p| :: p[k] in st.index
  {
    forall k | 0 <= k < |p|
      ensures p[k] in g
    {
      if k > 0 { assert p[(k - 1) + 1] in g[p[k - 1]]; }
    }
  }

  /** ilsresc shows each resource whose parent chain reaches a root once, and no
      other, whatever dangling parents and cycles the listing holds. */
  lemma ForestIsShown(st: State)
    requires Consistent(st) && Distinguishable(st) && RootsListed(st)
    ensures var g := GraphOf(st);
            var drawn := DrawRoots(g, st.roots, |g|);
            && drawn.Done?
            && Distinct(NamesOf(drawn.value))
            && forall y :: y in NamesOf(drawn.value) <==> Rooted(st, y)
  {
    var g := GraphOf(st);
    GraphIsClosed(st);
    GraphSingleParent(st);
    RootsAreRoots(st);
    ForestIsPrinted(g, st.roots);
    DrawsForest(g, st.roots, |g|);
    ForestLineNames(UnfoldAll(g, st.roots, |g|).value);
    forall y
      ensures Rooted(st, y) <==> exists r | r in st.roots :: Reaches(g, r, y)
    {
      ReachedIsRooted(st, y);
    }
  }

  lemma ReachedIsRooted(st: State, y: string)
    requires Consistent(st) && Distinguishable(st) && RootsListed(st)
    ensures Rooted(st, y) <==> exists r | r in st.roots :: Reaches(GraphOf(st), r, y)
  {
    if Rooted(st, y) {
      var c :| ChainFromRoot(st, c) && st.names[c[|c| - 1]] == y;
      ChainIsPath(st, c);
    }
    if r :| r in st.roots && Reaches(GraphOf(st), r, y) {
      var p :| PathFrom(GraphOf(st), r, p, y);
      PathIsChain(st, r, p, y);
    }
  }

  // ------------------------------------------------------ names the catalog admits

  predicate IsWord(c: char) {
    'a' <= c <= 'z' || 'A' <= c <= 'Z' || '0' <= c <= '9' || c == '_'
  }

  /** What validate_resource_name in db_plugin.cpp demands of the characters: words
      joined by dashes. */
  predicate Admitted(name: string) {
    name != "" && IsWord(name[0]) && forall i | 0 <= i < |name| :: IsWord(name[i]) || name[i] == '-'
  }

  /** No piece of the drawing begins like an admitted name. */
  predicate Foreign(style: Style) {
    && style.pipe != "" && style.indent != "" && style.middle != "" && style.last != ""
    && !IsWord(style.pipe[0]) && !IsWord(style.indent[0]) && !IsWord(style.middle[0]) && !IsWord(style.last[0])
  }

  lemma BothStylesForeign()
    ensures Foreign(ASCII) && Foreign(UNICODE)
  {
  }

  /** Admitted names meet every condition on names in this model. */
  lemma AdmittedNames(style: Style, types: string -> string, line: Line)
    requires Foreign(style) && Admitted(line.name) && '\n' !in types(line.name)
    ensures Printable(style, types, line) && Plain(line.name)
  {
    var tag := line.name + ":" + types(line.name);
    assert tag[0] == line.name[0];
    if |tag| >= 4 { assert tag[..4][0] == tag[0]; }
  }

  // ---------------------------------------------------------------- from the rows on

  function RootNames(rows: seq<Row>): seq<string> {
    if rows == [] then [] else (if rows[0].parent == "" then [rows[0].name] else []) + RootNames(rows[1..])
  }

  lemma {:induction false} RootsCollected(st: State, rows: seq<Row>)
    requires AllNamed(rows)
    ensures AddRows(st, rows).roots == st.roots + RootNames(rows)
    decreases |rows|
  {
    if rows != [] {
      var next := AddRow(st, rows[0]);
      RootsCollected(next, rows[1..]);
      var first := if rows[0].parent == "" then [rows[0].name] else [];
      assert next.roots == st.roots + first;
      assert RootNames(rows) == first + RootNames(rows[1..]);
      assert AddRows(st, rows).roots == AddRows(next, rows[1..]).roots == (st.roots + first) + RootNames(rows[1..]);
    }
  }

  lemma {:induction false} RootNamesAre(rows: seq<Row>, x: string)
    ensures x in RootNames(rows) <==> exists i | 0 <= i < |rows| :: rows[i].name == x && rows[i].parent == ""
  {
    if rows != [] {
      RootNamesAre(rows[1..], x);
      assert forall i | 1 <= i < |rows| :: rows[i] == rows[1..][i - 1];
      if i :| 0 <= i < |rows| && rows[i].name == x && rows[i].parent == "" {
        if i > 0 { assert rows[1..][i - 1].name == x; }
      }
    }
  }

  lemma {:induction false} RootNamesDistinct(rows: seq<Row>)
    requires forall i, j | 0 <= i < j < |rows| :: rows[i].name != rows[j].name
    ensures Distinct(RootNames(rows))
  {
    if rows != [] {
      var rest := rows[1..];
      RootNamesDistinct(rest);
      RootNamesAre(rest, rows[0].name);
      assert forall i | 0 <= i < |rest| :: rest[i] == rows[i + 1];
    }
  }

  /** A listing as ilsresc receives it: named rows, unique names and ids, and no
      child-string marks in the names. */
  ghost predicate Listed(rows: seq<Row>) {
    && AllNamed(rows)
    && (forall i, j | 0 <= i < j < |rows| :: rows[i].name != rows[j].name)
    && (forall i, j | 0 <= i < j < |rows| :: rows[i].id != rows[j].id)
    && (forall i | 0 <= i < |rows| :: '{' !in rows[i].name && ';' !in rows[i].name)
  }

  predicate IdsFilled(rows: seq<Row>) {
    forall i | 0 <= i < |rows| :: rows[i].id != ""
  }

  /** The vectors hold these rows, perhaps with parents turned into ids. */
  ghost predicate Matches(st: State, rows: seq<Row>) {
    && Consistent(st) && AllNamed(rows)
    && st.names == NameColumn(rows) && st.ids == IdColumn(rows) && st.roots == RootNames(rows)
    && SameRoots(st.parents, rows)
  }

  predicate SameRoots(parents: seq<string>, rows: seq<Row>) {
    |parents| == |rows| && forall i | 0 <= i < |rows| :: parents[i] == "" <==> rows[i].parent == ""
  }

  lemma SameRootsAdded(parents: seq<string>, a: seq<Row>, b: seq<Row>)
    requires SameRoots(parents, a)
    ensures SameRoots(parents + ParentColumn(b), a + b)
  {
    var all := parents + ParentColumn(b);
    forall i | 0 <= i < |a + b|
      ensures all[i] == "" <==> (a + b)[i].parent == ""
    {
      if i < |a| {
        assert all[i] == parents[i] && (a + b)[i] == a[i];
      } else {
        assert all[i] == b[i - |a|].parent && (a + b)[i] == b[i - |a|];
      }
    }
  }

  lemma ColumnsConcat(a: seq<Row>, b: seq<Row>)
    ensures NameColumn(a + b) == NameColumn(a) + NameColumn(b)
    ensures IdColumn(a + b) == IdColumn(a) + IdColumn(b)
  {
  }

  lemma RawMatches(rows: seq<Row>)
    requires AllNamed(rows)
    ensures Matches(Raw(rows), rows)
  {
    RawColumns(rows);
    RootsCollected(START, rows);
    NothingBefore(RootNames(rows));
  }

  lemma {:induction false} RootNamesConcat(a: seq<Row>, b: seq<Row>)
    ensures RootNames(a + b) == RootNames(a) + RootNames(b)
  {
    if a == [] {
      assert a + b == b;
    } else {
      assert (a + b)[1..] == a[1..] + b;
      RootNamesConcat(a[1..], b);
    }
  }

  lemma AddedMatches(st: State, done: seq<Row>, page: seq<Row>)
    requires Matches(st, done) && AllNamed(page)
    ensures Matches(AddRows(st, page), done + page)
  {
    AddRowsConsistent(st, page);
    Columns(st, page);
    RootsCollected(st, page);
    RootNamesConcat(done, page);
    ColumnsConcat(done, page);
    SameRootsAdded(st.parents, done, page);
    NamedTogether(done, page);
  }

  lemma NamedTogether(a: seq<Row>, b: seq<Row>)
    requires AllNamed(a) && AllNamed(b)
    ensures AllNamed(a + b)
  {
  }

  lemma NormalisedMatches(st: State, rows: seq<Row>)
    requires Matches(st, rows) && IdsFilled(rows)
    ensures Matches(Normalise(st), rows)
  {
    if ParentsAreNames(st) {
      forall i | 0 <= i < |rows|
        ensures ParentIds(st)[i] == "" <==> rows[i].parent == ""
      {
        assert ParentIds(st)[i] == IdOf(st, st.parents[i]);
        if st.parents[i] in st.index {
          assert st.ids[st.index[st.parents[i]]] == rows[st.index[st.parents[i]]].id;
        }
      }
    }
  }

  lemma {:induction false} PagesMatch(st: State, done: seq<Row>, pages: seq<seq<Row>>)
    requires Matches(st, done) && AllNamed(Flatten(pages)) && IdsFilled(done + Flatten(pages))
    ensures Matches(ParsePages(st, pages), done + Flatten(pages))
    decreases |pages|
  {
    if pages == [] {
      assert done + Flatten(pages) == done;
    } else {
      var page, rest := pages[0], Flatten(pages[1..]);
      NamedParts(page, rest);
      assert done + Flatten(pages) == (done + page) + rest;
      assert forall i | 0 <= i < |done + page| :: (done + page)[i] == (done + Flatten(pages))[i];
      AddedMatches(st, done, page);
      NormalisedMatches(AddRows(st, page), done + page);
      PagesMatch(ParsePage(st, page), done + page, pages[1..]);
    }
  }

  lemma ListedState(st: State, rows: seq<Row>)
    requires Listed(rows) && Matches(st, rows)
    ensures Distinguishable(st) && RootsListed(st)
  {
    RootNamesDistinct(rows);
    forall x
      ensures x in st.roots <==> exists i | 0 <= i < |st.names| :: st.names[i] == x && st.parents[i] == ""
    {
      RootNamesAre(rows, x);
      RootRows(rows, st, x);
    }
  }

  lemma RootRows(rows: seq<Row>, st: State, x: string)
    requires Matches(st, rows)
    ensures (exists i | 0 <= i < |rows| :: rows[i].name == x && rows[i].parent == "")
       <==> (exists i | 0 <= i < |st.names| :: st.names[i] == x && st.parents[i] == "")
  {
    if i :| 0 <= i < |rows| && rows[i].name == x && rows[i].parent == "" {
      assert st.names[i] == x && st.parents[i] == "";
    }
  }

  lemma PagesAreRows(pages: seq<seq<Row>>)
    requires AllNamed(Flatten(pages)) && (IdsFilled(Flatten(pages)) || KeptThroughout([], pages))
    ensures Matches(ParsePages(START, pages), Flatten(pages))
    ensures KeptThroughout([], pages) ==> ParsePages(START, pages) == Raw(Flatten(pages))
  {
    var rows := Flatten(pages);
    assert [] + rows == rows && Raw([]) == START;
    if KeptThroughout([], pages) {
      KeptPages([], pages);
      RawMatches(rows);
    } else {
      RawMatches([]);
      PagesMatch(START, [], pages);
    }
  }

  /** From pages to printed text: the drawing of any such listing, in whatever
      pages it came, shows the resources that are rooted in the parents it ends up
      with, once each. Those are the parents it came with if no page end changes
      one. */
  lemma ListingIsShown(pages: seq<seq<Row>>)
    requires Listed(Flatten(pages)) && (IdsFilled(Flatten(pages)) || KeptThroughout([], pages))
    ensures var st := ParsePages(START, pages);
            var drawn := DrawRoots(GraphOf(st), st.roots, |GraphOf(st)|);
            && drawn.Done?
            && Distinct(NamesOf(drawn.value))
            && (forall y :: y in NamesOf(drawn.value) <==> Rooted(st, y))
            && (KeptThroughout([], pages) ==> st == Raw(Flatten(pages)))
  {
    PagesAreRows(pages);
    ListedState(ParsePages(START, pages), Flatten(pages));
    ForestIsShown(ParsePages(START, pages));
  }

  // ----------------------------------------------------------- from the rows to the text

  /** Names as the catalog admits them, and types without line ends. */
  predicate Showable(types: string -> string, rows: seq<Row>) {
    forall i | 0 <= i < |rows| :: Admitted(rows[i].name) && '\n' !in types(rows[i].name)
  }

  lemma RootedIsListed(pages: seq<seq<Row>>, y: string)
    requires Listed(Flatten(pages)) && (IdsFilled(Flatten(pages)) || KeptThroughout([], pages))
    requires Rooted(ParsePages(START, pages), y)
    ensures exists i | 0 <= i < |Flatten(pages)| :: Flatten(pages)[i].name == y
  {
    var st, rows := ParsePages(START, pages), Flatten(pages);
    PagesAreRows(pages);
    var c :| ChainFromRoot(st, c) && st.names[c[|c| - 1]] == y;
    assert rows[c[|c| - 1]].name == y;
  }

  lemma ShownIsPrintable(pages: seq<seq<Row>>, style: Style, types: string -> string, line: Line)
    requires Listed(Flatten(pages)) && (IdsFilled(Flatten(pages)) || KeptThroughout([], pages))
    requires Showable(types, Flatten(pages)) && Foreign(style) && Rooted(ParsePages(START, pages), line.name)
    ensures Printable(style, types, line)
  {
    RootedIsListed(pages, line.name);
    var i :| 0 <= i < |Flatten(pages)| && Flatten(pages)[i].name == line.name;
    AdmittedNames(style, types, line);
  }

  /** What ilsresc writes for a listing, in whatever pages it came, determines the
      forest of its rooted resources: every child list can be read off the text, in
      either style. */
  lemma TextDeterminesListing(pages: seq<seq<Row>>, style: Style, types: string -> string, out: string)
    requires Listed(Flatten(pages)) && (IdsFilled(Flatten(pages)) || KeptThroughout([], pages))
    requires Showable(types, Flatten(pages)) && (style == ASCII || style == UNICODE)
    requires var st := ParsePages(START, pages);
             Writes(style, types, "", Done(out), DrawRoots(GraphOf(st), st.roots, |GraphOf(st)|))
    ensures var st := ParsePages(START, pages);
            var read := Rebuild(ReadText(style, out));
            && UnfoldAll(GraphOf(st), st.roots, |GraphOf(st)|) == Done(read)
            && Distinct(PreorderAll(read))
            && forall y :: y in PreorderAll(read) <==> Rooted(st, y)
  {
    var st := ParsePages(START, pages);
    var g := GraphOf(st);
    BothStylesForeign();
    BothStylesLegible();
    ListingIsShown(pages);
    DrawsForest(g, st.roots, |g|);
    var ts := UnfoldAll(g, st.roots, |g|).value;
    var lines := ForestLines(ts);
    ForestLineNames(ts);
    forall i | 0 <= i < |lines|
      ensures Printable(style, types, lines[i])
    {
      assert NamesOf(lines)[i] == lines[i].name;
      ShownIsPrintable(pages, style, types, lines[i]);
    }
    OutputDeterminesForest(style, types, g, st.roots, |g|, out);
  }
}
