/** How ilsresc collects the resource rows, page by page, settles what their
    parent columns mean, and builds the child strings. */
module ResourceListing {

  import opened ChildStrings

  /** One row of the query: parent is a name (before 4.2), an id, or empty. */
  datatype Row = Row(name: string, kind: string, id: string, parent: string)

  /** The parallel vectors of showRescTree, the name index and the roots. */
  datatype State = State(names: seq<string>, kinds: seq<string>, ids: seq<string>, parents: seq<string>,
                         index: map<string, nat>, roots: seq<string>)

  const START: State := State([], [], [], [], map[], [])

  // ---------------------------------------------------------------- parsing a page

  function AddRow(st: State, row: Row): State {
    State(st.names + [row.name], st.kinds + [row.kind], st.ids + [row.id], st.parents + [row.parent],
          st.index[row.name := |st.names|],
          if row.parent == "" then st.roots + [row.name] else st.roots)
  }

  /** The row loop: it stops at a row without a name. */
  function AddRows(st: State, rows: seq<Row>): State
    decreases |rows|
  {
    if rows == [] || rows[0].name == "" then st else AddRows(AddRow(st, rows[0]), rows[1..])
  }

  lemma AddRowsStep(st: State, rows: seq<Row>, i: nat)
    requires i < |rows|
    ensures AddRows(st, rows[i..]) == if rows[i].name == "" then st else AddRows(AddRow(st, rows[i]), rows[i + 1..])
  {
    var rest := rows[i..];
    assert rest[0] == rows[i] && rest[1..] == rows[i + 1..];
  }

  predicate AllNamed(rows: seq<Row>) {
    forall i | 0 <= i < |rows| :: rows[i].name != ""
  }

  predicate ParentsAreNames(st: State) {
    forall i | 0 <= i < |st.parents| && st.parents[i] != "" :: st.parents[i] in st.index
  }

  ghost predicate Consistent(st: State) {
    && |st.names| == |st.kinds| == |st.ids| == |st.parents|
    && (forall x | x in st.index :: st.index[x] < |st.names| && st.names[st.index[x]] == x && x != "")
    && (forall i | 0 <= i < |st.names| :: st.names[i] in st.index)
  }

  function IdOf(st: State, parent: string): string
    requires Consistent(st)
  {
    if parent in st.index then st.ids[st.index[parent]] else parent
  }

  function ParentIds(st: State): (r: seq<string>)
    requires Consistent(st)
    ensures |r| == |st.parents| && forall i | 0 <= i < |r| :: r[i] == IdOf(st, st.parents[i])
  {
    seq(|st.parents|, i requires 0 <= i < |st.parents| => IdOf(st, st.parents[i]))
  }

  /** When every parent collected so far is a resource name, all are turned
      into ids. */
  function Normalise(st: State): State
    requires Consistent(st)
  {
    if ParentsAreNames(st) then st.(parents := ParentIds(st)) else st
  }

  lemma AddRowConsistent(st: State, row: Row)
    requires Consistent(st) && row.name != ""
    ensures Consistent(AddRow(st, row))
  {
  }

  lemma {:induction false} AddRowsConsistent(st: State, rows: seq<Row>)
    requires Consistent(st)
    ensures Consistent(AddRows(st, rows))
    decreases |rows|
  {
    if rows != [] && rows[0].name != "" {
      AddRowConsistent(st, rows[0]);
      AddRowsConsistent(AddRow(st, rows[0]), rows[1..]);
    }
  }

  function ParsePage(st: State, rows: seq<Row>): (r: State)
    requires Consistent(st)
    ensures Consistent(r)
  {
    AddRowsConsistent(st, rows);
    var added := AddRows(st, rows);
    if AllNamed(rows) then Normalise(added) else added
  }

  /** The paging loop of showRescTree: it stops after a page with an error. */
  function ParsePages(st: State, pages: seq<seq<Row>>): (r: State)
    requires Consistent(st)
    ensures Consistent(r)
    decreases |pages|
  {
    if pages == [] then st
    else if AllNamed(pages[0]) then ParsePages(ParsePage(st, pages[0]), pages[1..])
    else ParsePage(st, pages[0])
  }

  class Listing {
    var names: seq<string>
    var kinds: seq<string>
    var ids: seq<string>
    var parents: seq<string>
    var index: map<string, nat>
    var roots: seq<string>

    function Contents(): State
      reads this
    {
      State(names, kinds, ids, parents, index, roots)
    }

    constructor ()
      ensures Contents() == START
    {
      names, kinds, ids, parents, index, roots := [], [], [], [], map[], [];
    }

    /** parseGenQueryOut; false stands for SYS_INTERNAL_NULL_INPUT_ERR */
    method ParseGenQueryOut(offset: nat, rows: seq<Row>) returns (ok: bool)
      requires Consistent(Contents()) && offset == |names|
      modifies this
      ensures Consistent(Contents())
      ensures Contents() == ParsePage(old(Contents()), rows)
      ensures ok <==> AllNamed(rows)
    {
      ghost var before := Contents();
      AddRowsConsistent(before, rows);
      ok := CollectRows(offset, rows);
      if !ok {
        return;
      }
      var allParentsAreNames := AllKnown();
      if allParentsAreNames {
        ReplaceParents();
      }
    }

    method CollectRows(offset: nat, rows: seq<Row>) returns (ok: bool)
      requires Consistent(Contents()) && offset == |names|
      modifies this
      ensures Contents() == AddRows(old(Contents()), rows)
      ensures ok <==> AllNamed(rows)
    {
      ghost var st, all := Contents(), AddRows(Contents(), rows);
      assert rows[0..] == rows;
      for i := 0 to |rows|
        invariant st == Contents() && |names| == offset + i
        invariant forall k | 0 <= k < i :: rows[k].name != ""
        invariant AddRows(st, rows[i..]) == all
      {
        var row := rows[i];
        AddRowsStep(st, rows, i);
        if row.name == "" {
          return false;
        }
        PushRow(row, i + offset);
        st := AddRow(st, row);
      }
      return true;
    }

    /** The loop's body for a row that has a name. */
    method PushRow(row: Row, position: nat)
      requires position == |names|
      modifies this
      ensures Contents() == AddRow(old(Contents()), row)
    {
      names := names + [row.name];
      index := index[row.name := position];
      kinds := kinds + [row.kind];
      ids := ids + [row.id];
      if row.parent == "" {
        roots := roots + [row.name];
        parents := parents + [""];
      } else {
        parents := parents + [row.parent];
      }
    }

    method AllKnown() returns (all: bool)
      ensures all <==> ParentsAreNames(Contents())
    {
      for i := 0 to |parents|
        invariant forall j | 0 <= j < i && parents[j] != "" :: parents[j] in index
      {
        if parents[i] != "" && parents[i] !in index {
          return false;
        }
      }
      return true;
    }

    method ReplaceParents()
      requires Consistent(Contents())
      modifies this`parents
      ensures Contents() == old(Contents()).(parents := ParentIds(old(Contents())))
    {
      ghost var before := Contents();
      for i := 0 to |parents|
        invariant |parents| == |before.parents|
        invariant forall j | 0 <= j < i :: parents[j] == IdOf(before, before.parents[j])
        invariant forall j | i <= j < |parents| :: parents[j] == before.parents[j]
      {
        if parents[i] in index {
          parents := parents[i := ids[index[parents[i]]]];
        }
      }
      assert parents == ParentIds(before);
    }

    /** The paging loop of showRescTree; the pages are what the server returns
        for as long as it is asked. */
    method CollectPages(pages: seq<seq<Row>>)
      requires Contents() == START
      modifies this
      ensures Contents() == ParsePages(START, pages)
    {
      var offset := 0;
      for i := 0 to |pages|
        invariant Consistent(Contents()) && offset == |names|
        invariant ParsePages(Contents(), pages[i..]) == ParsePages(START, pages)
      {
        ghost var before := Contents();
        assert pages[i..][0] == pages[i] && pages[i..][1..] == pages[i + 1..];
        var ok := ParseGenQueryOut(offset, pages[i]);
        if !ok {
          return;
        }
        Columns(before, pages[i]);
        offset := offset + |pages[i]|;
      }
    }
  }

  // ------------------------------------------------------------ what rows add up to

  function NameColumn(rows: seq<Row>): (r: seq<string>)
    ensures |r| == |rows| && forall i | 0 <= i < |r| :: r[i] == rows[i].name
  {
    seq(|rows|, i requires 0 <= i < |rows| => rows[i].name)
  }

  function IdColumn(rows: seq<Row>): (r: seq<string>)
    ensures |r| == |rows| && forall i | 0 <= i < |r| :: r[i] == rows[i].id
  {
    seq(|rows|, i requires 0 <= i < |rows| => rows[i].id)
  }

  function ParentColumn(rows: seq<Row>): (r: seq<string>)
    ensures |r| == |rows| && forall i | 0 <= i < |r| :: r[i] == rows[i].parent
  {
    seq(|rows|, i requires 0 <= i < |rows| => rows[i].parent)
  }

  lemma Regroup(a: seq<string>, x: string, rest: seq<string>, all: seq<string>)
    requires |all| == |rest| + 1 && all[0] == x && all[1..] == rest
    ensures (a + [x]) + rest == a + all
  {
  }

  lemma {:induction false} Columns(st: State, rows: seq<Row>)
    requires AllNamed(rows)
    ensures var r := AddRows(st, rows);
            && r.names == st.names + NameColumn(rows)
            && r.ids == st.ids + IdColumn(rows)
            && r.parents == st.parents + ParentColumn(rows)
    decreases |rows|
  {
    if rows != [] {
      Columns(AddRow(st, rows[0]), rows[1..]);
      Regroup(st.names, rows[0].name, NameColumn(rows[1..]), NameColumn(rows));
      Regroup(st.ids, rows[0].id, IdColumn(rows[1..]), IdColumn(rows));
      Regroup(st.parents, rows[0].parent, ParentColumn(rows[1..]), ParentColumn(rows));
    }
  }

  lemma {:induction false} AddRowsConcat(st: State, a: seq<Row>, b: seq<Row>)
    requires AllNamed(a)
    ensures AddRows(st, a + b) == AddRows(AddRows(st, a), b)
    decreases |a|
  {
    if a == [] {
      assert a + b == b;
    } else {
      assert (a + b)[1..] == a[1..] + b;
      AddRowsConcat(AddRow(st, a[0]), a[1..], b);
    }
  }

  function Flatten(pages: seq<seq<Row>>): seq<Row> {
    if pages == [] then [] else pages[0] + Flatten(pages[1..])
  }

  function Raw(rows: seq<Row>): (r: State)
    ensures Consistent(r)
  {
    AddRowsConsistent(START, rows);
    AddRows(START, rows)
  }

  lemma RawColumns(rows: seq<Row>)
    requires AllNamed(rows)
    ensures Raw(rows).names == NameColumn(rows)
    ensures Raw(rows).ids == IdColumn(rows)
    ensures Raw(rows).parents == ParentColumn(rows)
  {
    Columns(START, rows);
    NothingBefore(NameColumn(rows));
    NothingBefore(IdColumn(rows));
    NothingBefore(ParentColumn(rows));
  }

  lemma NothingBefore(s: seq<string>)
    ensures [] + s == s
  {
  }

  lemma OnePage(rows: seq<Row>)
    requires AllNamed(rows)
    ensures ParsePages(START, [rows]) == Normalise(Raw(rows))
  {
    assert [rows][1..] == [];
  }

  // -------------------------------------------------------------- keeping the parents

  /** Row j is the last one with the name x, the one that the index holds. */
  predicate LastNamed(rows: seq<Row>, x: string, j: nat) {
    j < |rows| && rows[j].name == x && forall k | j < k < |rows| :: rows[k].name != x
  }

  predicate IsName(rows: seq<Row>, x: string) {
    exists j | 0 <= j < |rows| :: rows[j].name == x
  }

  lemma {:induction false} IndexIsLast(st: State, rows: seq<Row>, x: string)
    requires AllNamed(rows) && Consistent(st)
    ensures var index := AddRows(st, rows).index;
            if IsName(rows, x) then x in index && index[x] >= |st.names| && LastNamed(rows, x, index[x] - |st.names|)
            else x in index <==> x in st.index
    ensures !IsName(rows, x) && x in st.index ==> AddRows(st, rows).index[x] == st.index[x]
    decreases |rows|
  {
    if rows != [] {
      var next, rest := AddRow(st, rows[0]), rows[1..];
      AddRowConsistent(st, rows[0]);
      IndexIsLast(next, rest, x);
      NameInRest(rows, x);
      if IsName(rest, x) {
        LastInRest(rows, x, AddRows(next, rest).index[x] - |next.names|);
      }
    }
  }

  lemma NameInRest(rows: seq<Row>, x: string)
    requires rows != []
    ensures IsName(rows, x) <==> rows[0].name == x || IsName(rows[1..], x)
  {
    if j :| 0 <= j < |rows| && rows[j].name == x {
      if j > 0 { assert rows[1..][j - 1].name == x; }
    }
    if j :| 0 <= j < |rows[1..]| && rows[1..][j].name == x {
      assert rows[j + 1].name == x;
    }
  }

  lemma LastInRest(rows: seq<Row>, x: string, j: nat)
    requires rows != [] && LastNamed(rows[1..], x, j)
    ensures LastNamed(rows, x, j + 1)
  {
    forall k | j + 1 < k < |rows|
      ensures rows[k].name != x
    {
      assert rows[k] == rows[1..][k - 1];
    }
  }

  /** A page end leaves the parents of these rows alone: some parent is no name,
      or every parent that is a name is that resource's id already. */
  predicate KeepsParents(rows: seq<Row>) {
    || (exists i | 0 <= i < |rows| :: rows[i].parent != "" && !IsName(rows, rows[i].parent))
    || (forall i, j | 0 <= i < |rows| && 0 <= j < |rows| && LastNamed(rows, rows[i].parent, j) ::
          rows[j].id == rows[i].parent)
  }

  lemma ParentsKnown(rows: seq<Row>)
    requires AllNamed(rows)
    ensures ParentsAreNames(Raw(rows))
       <==> forall i | 0 <= i < |rows| && rows[i].parent != "" :: IsName(rows, rows[i].parent)
  {
    var st := Raw(rows);
    RawColumns(rows);
    forall i | 0 <= i < |rows|
      ensures st.parents[i] == rows[i].parent && (st.parents[i] in st.index <==> IsName(rows, rows[i].parent))
    {
      IndexIsLast(START, rows, rows[i].parent);
    }
  }

  lemma OneParentKept(rows: seq<Row>, i: nat)
    requires AllNamed(rows) && i < |rows|
    ensures IdOf(Raw(rows), rows[i].parent) == rows[i].parent
       <==> forall j | 0 <= j < |rows| && LastNamed(rows, rows[i].parent, j) :: rows[j].id == rows[i].parent
  {
    var st, x := Raw(rows), rows[i].parent;
    RawColumns(rows);
    IndexIsLast(START, rows, x);
    if IsName(rows, x) {
      var k := st.index[x];
      assert LastNamed(rows, x, k);
      assert forall j | 0 <= j < |rows| && LastNamed(rows, x, j) :: j == k;
    }
  }

  lemma KeepsExactly(rows: seq<Row>)
    requires AllNamed(rows)
    ensures Normalise(Raw(rows)) == Raw(rows) <==> KeepsParents(rows)
  {
    var st := Raw(rows);
    RawColumns(rows);
    ParentsKnown(rows);
    forall i | 0 <= i < |rows|
      ensures st.parents[i] == rows[i].parent && ParentIds(st)[i] == IdOf(st, rows[i].parent)
    {
    }
    forall i | 0 <= i < |rows|
      ensures IdOf(st, rows[i].parent) == rows[i].parent
         <==> forall j | 0 <= j < |rows| && LastNamed(rows, rows[i].parent, j) :: rows[j].id == rows[i].parent
    {
      OneParentKept(rows, i);
    }
    assert ParentIds(st) == st.parents <==> forall i | 0 <= i < |rows| :: IdOf(st, rows[i].parent) == rows[i].parent;
  }

  /** On one page a listing keeps the parents it came with exactly when its rows
      say so; all else is kept in any case. */
  lemma OnePageKeepsExactly(rows: seq<Row>)
    requires AllNamed(rows)
    ensures ParsePages(START, [rows]) == Raw(rows) <==> KeepsParents(rows)
  {
    OnePage(rows);
    KeepsExactly(rows);
  }

  /** A listing by ids in which a resource is named like an id: its child becomes
      a child of that other resource, here of itself. */
  lemma IdTakenForName()
    ensures var a, b := Row("a", "", "1", ""), Row("1", "", "2", "1");
            ParsePages(START, [[a, b]]).parents == ["", "2"]
  {
    var a, b := Row("a", "", "1", ""), Row("1", "", "2", "1");
    TwoRows(START, a, b);
    var two := AddRow(AddRow(START, a), b);
    assert AllNamed([a, b]);
    assert Raw([a, b]) == two;
    assert ParentIds(two) == ["", "2"];
    OnePage([a, b]);
  }

  // --------------------------------------------------------------- paging of ids

  /** No page end changes a parent. */
  predicate KeptThroughout(done: seq<Row>, pages: seq<seq<Row>>)
    decreases |pages|
  {
    pages == [] || !AllNamed(pages[0])
    || (KeepsParents(done + pages[0]) && KeptThroughout(done + pages[0], pages[1..]))
  }

  lemma KeptPage(done: seq<Row>, page: seq<Row>)
    requires AllNamed(done) && AllNamed(page) && KeepsParents(done + page)
    ensures AllNamed(done + page) && ParsePage(Raw(done), page) == Raw(done + page)
  {
    AddRowsConcat(START, done, page);
    KeepsExactly(done + page);
  }

  lemma {:induction false} KeptPages(done: seq<Row>, pages: seq<seq<Row>>)
    requires AllNamed(done) && KeptThroughout(done, pages)
    ensures ParsePages(Raw(done), pages) == Raw(done + Flatten(pages))
    decreases |pages|
  {
    if pages == [] {
      assert done + Flatten(pages) == done;
    } else {
      var page, rest := pages[0], Flatten(pages[1..]);
      assert done + Flatten(pages) == (done + page) + rest;
      if AllNamed(page) {
        KeptPage(done, page);
        KeptPages(done + page, pages[1..]);
      } else {
        StopsAtUnnamed(Raw(done), page, rest);
        AddRowsConcat(START, done, page + rest);
        assert done + (page + rest) == done + Flatten(pages);
      }
    }
  }

  /** No parent column holds the name of a listed resource. */
  predicate IdForm(rows: seq<Row>) {
    forall i, j | 0 <= i < |rows| && 0 <= j < |rows| && rows[i].parent != "" :: rows[i].parent != rows[j].name
  }

  lemma IdFormKeeps(rows: seq<Row>)
    requires AllNamed(rows) && IdForm(rows)
    ensures KeepsParents(rows)
  {
  }

  lemma {:induction false} IdFormKept(done: seq<Row>, pages: seq<seq<Row>>)
    requires AllNamed(done) && IdForm(done + Flatten(pages))
    ensures KeptThroughout(done, pages)
    decreases |pages|
  {
    if pages != [] && AllNamed(pages[0]) {
      var now := done + pages[0];
      assert done + Flatten(pages) == now + Flatten(pages[1..]);
      assert forall i | 0 <= i < |now| :: now[i] == (done + Flatten(pages))[i];
      IdFormKeeps(now);
      IdFormKept(now, pages[1..]);
    }
  }

  lemma {:induction false} StopsAtUnnamed(st: State, rows: seq<Row>, rest: seq<Row>)
    requires !AllNamed(rows)
    ensures AddRows(st, rows + rest) == AddRows(st, rows)
    decreases |rows|
  {
    if rows[0].name != "" {
      assert (rows + rest)[1..] == rows[1..] + rest;
      assert !AllNamed(rows[1..]);
      StopsAtUnnamed(AddRow(st, rows[0]), rows[1..], rest);
    } else {
      assert (rows + rest)[0] == rows[0];
    }
  }

  lemma {:induction false} KeptAtTheEnd(done: seq<Row>, pages: seq<seq<Row>>)
    requires AllNamed(done) && KeepsParents(done) && KeptThroughout(done, pages) && AllNamed(Flatten(pages))
    ensures KeepsParents(done + Flatten(pages))
    decreases |pages|
  {
    if pages == [] {
      assert done + Flatten(pages) == done;
    } else {
      assert done + Flatten(pages) == (done + pages[0]) + Flatten(pages[1..]);
      NamedParts(pages[0], Flatten(pages[1..]));
      KeptAtTheEnd(done + pages[0], pages[1..]);
    }
  }

  lemma NamedParts(a: seq<Row>, b: seq<Row>)
    requires AllNamed(a + b)
    ensures AllNamed(a) && AllNamed(b)
  {
    assert forall i | 0 <= i < |a| :: a[i] == (a + b)[i];
    assert forall i | 0 <= i < |b| :: b[i] == (a + b)[|a| + i];
  }

  /** However a listing is cut into pages, as long as no page end changes a
      parent, the vectors, the index and the roots are those of a single page. */
  lemma PagingDoesNotMatter(pages: seq<seq<Row>>)
    requires KeptThroughout([], pages)
    ensures ParsePages(START, pages) == ParsePages(START, [Flatten(pages)])
  {
    var rows := Flatten(pages);
    assert [] + rows == rows && Raw([]) == START;
    KeptPages([], pages);
    assert Flatten([rows]) == rows + [] == rows;
    if AllNamed(rows) { KeptAtTheEnd([], pages); }
    KeptPages([], [rows]);
  }

  /** That is so for every listing by ids in which no resource is named like a
      parent's id. */
  lemma IdPagingDoesNotMatter(pages: seq<seq<Row>>)
    requires IdForm(Flatten(pages))
    ensures ParsePages(START, pages) == ParsePages(START, [Flatten(pages)])
  {
    assert [] + Flatten(pages) == Flatten(pages);
    IdFormKept([], pages);
    PagingDoesNotMatter(pages);
  }

  // ------------------------------------------------------ paging of a name listing

  /** A listing by names: every parent is the name of a listed resource, names
      are unique, and ids are not empty and never look like names. */
  ghost predicate NameForm(rows: seq<Row>) {
    ApartNames(rows) && ParentsAreNames(Raw(rows))
  }

  ghost predicate ApartNames(rows: seq<Row>) {
    && AllNamed(rows)
    && (forall i, j | 0 <= i < j < |rows| :: rows[i].name != rows[j].name)
    && (forall i | 0 <= i < |rows| :: rows[i].id != "")
    && (forall i, j | 0 <= i < |rows| && 0 <= j < |rows| :: rows[i].id != rows[j].name)
  }

  predicate AllRoots(rows: seq<Row>) {
    forall i | 0 <= i < |rows| :: rows[i].parent == ""
  }

  /** At the end of these rows the parents are turned into ids. */
  predicate Fires(rows: seq<Row>) {
    ParentsAreNames(Raw(rows)) && !AllRoots(rows)
  }

  /** Page by page: once the parents have been turned into ids, only roots follow. */
  predicate OnlyRootsAfterFiring(done: seq<Row>, pages: seq<seq<Row>>)
    decreases |pages|
  {
    pages == []
    || (if Fires(done + pages[0]) then AllRoots(Flatten(pages[1..]))
        else OnlyRootsAfterFiring(done + pages[0], pages[1..]))
  }

  lemma NotFiring(rows: seq<Row>)
    requires AllNamed(rows) && !Fires(rows)
    ensures Normalise(Raw(rows)) == Raw(rows)
  {
    var st := Raw(rows);
    Columns(START, rows);
    if AllRoots(rows) {
      assert ParentIds(st) == st.parents;
    }
  }

  lemma {:induction false} AddRowsKeepsParents(st: State, p: seq<string>, rows: seq<Row>)
    requires AllNamed(rows)
    ensures AddRows(st.(parents := p), rows) == AddRows(st, rows).(parents := p + ParentColumn(rows))
    decreases |rows|
  {
    if rows == [] {
      assert p + ParentColumn(rows) == p;
    } else {
      AddRowsKeepsParents(AddRow(st, rows[0]), p + [rows[0].parent], rows[1..]);
      Regroup(p, rows[0].parent, ParentColumn(rows[1..]), ParentColumn(rows));
      assert AddRow(st.(parents := p), rows[0]) == AddRow(st, rows[0]).(parents := p + [rows[0].parent]);
    }
  }

  /** A parent that is no name and never becomes one blocks all later turns. */
  ghost predicate Blocked(st: State, rows: seq<Row>) {
    exists k | 0 <= k < |st.parents| ::
      && st.parents[k] != "" && st.parents[k] !in st.names
      && forall i | 0 <= i < |rows| :: rows[i].name != st.parents[k]
  }

  lemma BlockedAfter(st: State, a: seq<Row>, b: seq<Row>)
    requires Consistent(st) && AllNamed(a) && Blocked(st, a + b)
    ensures Consistent(AddRows(st, a)) && Blocked(AddRows(st, a), b) && !ParentsAreNames(AddRows(st, a))
  {
    var r := AddRows(st, a);
    AddRowsConsistent(st, a);
    Columns(st, a);
    var k :| 0 <= k < |st.parents| && st.parents[k] != "" && st.parents[k] !in st.names
             && forall i | 0 <= i < |a + b| :: (a + b)[i].name != st.parents[k];
    assert forall i | 0 <= i < |a| :: (a + b)[i] == a[i];
    assert forall i | 0 <= i < |b| :: (a + b)[|a| + i] == b[i];
    assert r.parents[k] == st.parents[k];
    assert r.parents[k] !in r.names;
  }

  lemma {:induction false} BlockedPages(st: State, pages: seq<seq<Row>>)
    requires Consistent(st) && AllNamed(Flatten(pages)) && Blocked(st, Flatten(pages))
    ensures ParsePages(st, pages) == AddRows(st, Flatten(pages))
    decreases |pages|
  {
    if pages != [] {
      var page, rest := pages[0], Flatten(pages[1..]);
      assert forall i | 0 <= i < |page| :: page[i] == Flatten(pages)[i];
      assert forall i | 0 <= i < |rest| :: rest[i] == Flatten(pages)[|page| + i];
      BlockedAfter(st, page, rest);
      AddRowsConcat(st, page, rest);
      BlockedPages(AddRows(st, page), pages[1..]);
    }
  }

  lemma ApartPrefix(a: seq<Row>, b: seq<Row>)
    requires ApartNames(a + b)
    ensures ApartNames(a) && AllNamed(b)
    ensures forall i, j | 0 <= i < |a| && 0 <= j < |b| :: a[i].id != b[j].name && a[i].name != b[j].name
  {
    assert forall i | 0 <= i < |a| :: (a + b)[i] == a[i];
    assert forall i | 0 <= i < |b| :: (a + b)[|a| + i] == b[i];
  }

  /** A name resolved among the first rows resolves to the same id among all. */
  lemma SameId(a: seq<Row>, b: seq<Row>, x: string)
    requires ApartNames(a + b) && x in Raw(a).index
    ensures IdOf(Raw(a + b), x) == IdOf(Raw(a), x)
  {
    ApartPrefix(a, b);
    RawColumns(a);
    var i := Raw(a).index[x];
    assert (a + b)[i] == a[i];
    IdAt(a, x, i);
    IdAt(a + b, x, i);
  }

  lemma IdAt(rows: seq<Row>, x: string, i: nat)
    requires ApartNames(rows) && i < |rows| && rows[i].name == x
    ensures IdOf(Raw(rows), x) == rows[i].id
  {
    var st := Raw(rows);
    RawColumns(rows);
    assert st.names[i] == x;
    assert rows[st.index[x]].name == x;
  }

  lemma EarlierParent(a: seq<Row>, b: seq<Row>, i: nat)
    requires ApartNames(a + b) && ParentsAreNames(Raw(a)) && i < |a|
    ensures |ParentIds(Raw(a))| == |a| && |ParentIds(Raw(a + b))| == |a + b|
    ensures ParentIds(Raw(a))[i] == ParentIds(Raw(a + b))[i]
  {
    ApartPrefix(a, b);
    RawColumns(a);
    RawColumns(a + b);
    assert (a + b)[i] == a[i];
    if a[i].parent != "" { SameId(a, b, a[i].parent); }
  }

  lemma LaterParents(a: seq<Row>, b: seq<Row>, j: nat)
    requires ApartNames(a + b) && ParentsAreNames(Raw(a + b)) && j < |b|
    ensures |ParentIds(Raw(a + b))| == |a + b|
    ensures ParentIds(Raw(a + b))[|a| + j] == b[j].parent <==> b[j].parent == ""
  {
    RawColumns(a + b);
    assert (a + b)[|a| + j] == b[j];
    LaterParent(a + b, b[j].parent);
  }

  lemma ParentIdsLength(a: seq<Row>, b: seq<Row>)
    requires ApartNames(a + b)
    ensures |ParentIds(Raw(a))| == |a| && |ParentIds(Raw(a + b))| == |a| + |b|
  {
    ApartPrefix(a, b);
    RawColumns(a);
    RawColumns(a + b);
  }

  lemma FiredParents(a: seq<Row>, b: seq<Row>)
    requires ApartNames(a + b) && ParentsAreNames(Raw(a)) && ParentsAreNames(Raw(a + b))
    ensures ParentIds(Raw(a)) + ParentColumn(b) == ParentIds(Raw(a + b)) <==> AllRoots(b)
  {
    var p, q := ParentIds(Raw(a)), ParentIds(Raw(a + b));
    ParentIdsLength(a, b);
    forall i | 0 <= i < |a|
      ensures p[i] == q[i]
    {
      EarlierParent(a, b, i);
    }
    forall j | 0 <= j < |b|
      ensures q[|a| + j] == b[j].parent <==> b[j].parent == ""
    {
      LaterParents(a, b, j);
    }
    EqualWhenRoots(p, b, q);
  }

  lemma EqualWhenRoots(p: seq<string>, b: seq<Row>, q: seq<string>)
    requires |q| == |p| + |b| && forall i | 0 <= i < |p| :: p[i] == q[i]
    requires forall j | 0 <= j < |b| :: q[|p| + j] == b[j].parent <==> b[j].parent == ""
    ensures p + ParentColumn(b) == q <==> AllRoots(b)
  {
    var r := p + ParentColumn(b);
    assert forall j | 0 <= j < |b| :: r[|p| + j] == b[j].parent;
    if AllRoots(b) {
      forall i | 0 <= i < |r|
        ensures r[i] == q[i]
      {
        if i >= |p| { assert r[|p| + (i - |p|)] == b[i - |p|].parent; }
      }
    }
  }

  lemma LaterParent(rows: seq<Row>, parent: string)
    requires ApartNames(rows) && (parent != "" ==> parent in Raw(rows).index)
    ensures IdOf(Raw(rows), parent) == parent <==> parent == ""
  {
    Columns(START, rows);
    var st := Raw(rows);
    if parent != "" {
      var i := st.index[parent];
      assert st.ids[i] == rows[i].id && st.names[i] == rows[i].name;
    }
  }

  lemma FiringBlocks(a: seq<Row>, b: seq<Row>)
    requires ApartNames(a + b) && Fires(a)
    ensures Blocked(Normalise(Raw(a)), b)
  {
    ApartPrefix(a, b);
    RawColumns(a);
    var st := Raw(a);
    var k :| 0 <= k < |a| && a[k].parent != "";
    BlockingId(a, b, st, k);
  }

  lemma BlockingId(a: seq<Row>, b: seq<Row>, st: State, k: nat)
    requires ApartNames(a) && Consistent(st) && ParentsAreNames(st) && k < |a| && a[k].parent != ""
    requires st.names == NameColumn(a) && st.ids == IdColumn(a) && st.parents == ParentColumn(a)
    requires forall i, j | 0 <= i < |a| && 0 <= j < |b| :: a[i].id != b[j].name
    ensures Blocked(Normalise(st), b)
  {
    assert st.parents[k] == a[k].parent;
    var i := st.index[a[k].parent];
    assert ParentIds(st)[k] == a[i].id;
    assert a[i].id !in st.names;
  }

  lemma {:induction false} NamePages(done: seq<Row>, pages: seq<seq<Row>>)
    requires NameForm(done + Flatten(pages)) && !Fires(done)
    ensures ParsePages(Raw(done), pages) == Normalise(Raw(done + Flatten(pages))) <==> OnlyRootsAfterFiring(done, pages)
    decreases |pages|
  {
    var all := done + Flatten(pages);
    if pages == [] {
      assert all == done;
      NotFiring(done);
    } else {
      var page, rest := pages[0], Flatten(pages[1..]);
      var now := done + page;
      assert all == now + rest;
      ApartPrefix(now, rest);
      ApartPrefix(done, page);
      AddRowsConcat(START, done, page);
      if Fires(now) {
        FiredPages(now, pages[1..]);
      } else {
        NotFiring(now);
        NamePages(now, pages[1..]);
      }
    }
  }

  lemma FiredPages(now: seq<Row>, pages: seq<seq<Row>>)
    requires NameForm(now + Flatten(pages)) && Fires(now)
    ensures ParsePages(Normalise(Raw(now)), pages) == Normalise(Raw(now + Flatten(pages))) <==> AllRoots(Flatten(pages))
  {
    var rest := Flatten(pages);
    ApartPrefix(now, rest);
    FiringBlocks(now, rest);
    BlockedPages(Normalise(Raw(now)), pages);
    AddRowsConcat(START, now, rest);
    AddRowsKeepsParents(Raw(now), ParentIds(Raw(now)), rest);
    FiredParents(now, rest);
  }

  /** A listing by names may be cut into these pages exactly when nothing but
      roots follows the first page end at which all parents are known names. */
  lemma NamePagingExactly(pages: seq<seq<Row>>)
    requires NameForm(Flatten(pages))
    ensures ParsePages(START, pages) == ParsePages(START, [Flatten(pages)]) <==> OnlyRootsAfterFiring([], pages)
  {
    var rows := Flatten(pages);
    assert [] + rows == rows && Raw([]) == START;
    NamePages([], pages);
    OnePage(rows);
  }

  /** Such a listing in two pages: the child on the second page keeps its
      parent's name and is lost, though on one page it gets the parent's id. */
  lemma NamePagingCanFail()
    ensures var a, b, c := Row("a", "", "1", ""), Row("b", "", "2", "a"), Row("c", "", "3", "a");
            && ParsePages(START, [[a, b], [c]]).parents == ["", "1", "a"]
            && ParsePages(START, [[a, b, c]]).parents == ["", "1", "1"]
  {
    var a, b, c := Row("a", "", "1", ""), Row("b", "", "2", "a"), Row("c", "", "3", "a");
    OnTwoPages(a, b, c);
    OnOnePage(a, b, c);
  }

  /** A root and its two children, listed by names. */
  predicate Family(a: Row, b: Row, c: Row) {
    && a.name != "" && b.name != "" && c.name != "" && a.name != b.name && a.name != c.name && b.name != c.name
    && a.parent == "" && b.parent == a.name && c.parent == a.name
    && a.id != "" && a.id != a.name && a.id != b.name && a.id != c.name
  }

  lemma OnTwoPages(a: Row, b: Row, c: Row)
    requires Family(a, b, c)
    ensures ParsePages(START, [[a, b], [c]]).parents == ["", a.id, a.name]
  {
    var two := AddRow(AddRow(START, a), b);
    TwoRows(START, a, b);
    assert AddRows(START, [a, b]) == two;
    var fired := two.(parents := ["", a.id]);
    assert IdOf(two, a.name) == a.id && IdOf(two, "") == "";
    assert ParentIds(two) == fired.parents;
    assert ParsePage(START, [a, b]) == fired;
    NoMoreFiring(fired, c, 1);
    var pages: seq<seq<Row>> := [[a, b], [c]];
    assert pages[1..] == [[c]];
  }

  /** A parent that is no name, such as an id, keeps later pages as they came. */
  lemma NoMoreFiring(st: State, c: Row, i: nat)
    requires Consistent(st) && c.name != "" && i < |st.parents|
    requires st.parents[i] != "" && st.parents[i] !in st.index && st.parents[i] != c.name
    ensures ParsePages(st, [[c]]) == AddRow(st, c)
  {
    var added := AddRow(st, c);
    assert [c][1..] == [] && [[c]][1..] == [];
    assert AddRows(st, [c]) == added;
    assert added.parents[i] == st.parents[i];
  }

  lemma OnOnePage(a: Row, b: Row, c: Row)
    requires Family(a, b, c)
    ensures ParsePages(START, [[a, b, c]]).parents == ["", a.id, a.id]
  {
    var all := AddRow(AddRow(AddRow(START, a), b), c);
    ThreeRows(START, a, b, c);
    assert Raw([a, b, c]) == all;
    FamilyIds(a, b, c, all);
    OnePage([a, b, c]);
  }

  lemma FamilyIds(a: Row, b: Row, c: Row, all: State)
    requires Family(a, b, c) && Consistent(all) && all == AddRow(AddRow(AddRow(START, a), b), c)
    ensures ParentsAreNames(all) && ParentIds(all) == ["", a.id, a.id]
  {
    assert all.parents == ["", a.name, a.name];
    assert all.index[a.name] == 0 && all.ids[0] == a.id;
    assert IdOf(all, a.name) == a.id && IdOf(all, "") == "";
  }

  lemma ThreeRows(st: State, a: Row, b: Row, c: Row)
    requires a.name != "" && b.name != "" && c.name != ""
    ensures AddRows(st, [a, b, c]) == AddRow(AddRow(AddRow(st, a), b), c)
  {
    assert [a, b, c][1..] == [b, c];
    TwoRows(AddRow(st, a), b, c);
  }

  lemma TwoRows(st: State, a: Row, b: Row)
    requires a.name != "" && b.name != ""
    ensures AddRows(st, [a, b]) == AddRow(AddRow(st, a), b)
  {
    assert [a, b][1..] == [b] && [b][1..] == [];
    assert AddRows(AddRow(st, a), [b]) == AddRow(AddRow(st, a), b);
  }

  /** A listing by ids in which two roots have each other's name as id, and one of
      them a child. */
  predicate Crossed(a: Row, b: Row, c: Row, d: Row) {
    && a.name != "" && b.name != "" && c.name != "" && d.name != ""
    && a.name != b.name && a.name != c.name && b.name != c.name
    && a.name != d.name && b.name != d.name
    && a.parent == "" && b.parent == "" && d.parent == "" && c.parent == a.name
    && a.id == b.name && b.id == a.name
  }

  /** Over several pages a listing may keep its parents although a page end changes
      one: the next page end changes it back. */
  lemma PageEndUndone(a: Row, b: Row, c: Row, d: Row)
    requires Crossed(a, b, c, d)
    ensures !KeptThroughout([], [[a, b, c], [d]]) && ParsePages(START, [[a, b, c], [d]]) == Raw([a, b, c, d])
  {
    var page := [a, b, c];
    CrossedState(a, b, c, d);
    var crossed := FirstCrossing(a, b, c, d);
    assert [] + page == page;
    KeepsExactly(page);
    SecondCrossing(Raw(page), crossed, a, b, d);
    TwoPages(START, page, [d]);
    assert [a, b, c, d] == page + [d];
    AddRowsConcat(START, page, [d]);
  }

  lemma FirstCrossing(a: Row, b: Row, c: Row, d: Row) returns (crossed: State)
    requires Crossed(a, b, c, d)
    ensures var st := Raw([a, b, c]);
            && crossed == st.(parents := ["", "", b.name]) && crossed != st && Consistent(crossed)
            && Normalise(st) == crossed && ParsePage(START, [a, b, c]) == crossed
  {
    var st := Raw([a, b, c]);
    CrossedState(a, b, c, d);
    OneParent(st, 0);
    crossed := st.(parents := ["", "", b.name]);
    assert st.parents[2] != crossed.parents[2];
  }

  lemma SecondCrossing(st: State, crossed: State, a: Row, b: Row, d: Row)
    requires Consistent(st) && st.parents == ["", "", a.name] && st.ids[1] == a.name && d.name != "" && d.parent == ""
    requires b.name in st.index && st.index[b.name] == 1 && b.name != d.name
    requires crossed == st.(parents := ["", "", b.name]) && Consistent(crossed)
    ensures AllNamed([d]) && ParsePage(crossed, [d]) == AddRows(st, [d])
  {
    OneRowPage(crossed, d);
    OneRowPage(st, d);
    AddRowConsistent(crossed, d);
    var four := AddRow(crossed, d);
    assert four.parents == ["", "", b.name, ""];
    OneParent(four, 1);
    assert four.parents[2 := a.name] == ["", "", a.name, ""] == st.parents + [""];
  }

  lemma TwoPages(st: State, a: seq<Row>, b: seq<Row>)
    requires Consistent(st) && AllNamed(a)
    ensures ParsePages(st, [a, b]) == ParsePage(ParsePage(st, a), b)
  {
    assert [a, b][1..] == [b] && [b][1..] == [];
    assert ParsePages(ParsePage(st, a), [b]) == ParsePage(ParsePage(st, a), b);
  }

  lemma CrossedState(a: Row, b: Row, c: Row, d: Row)
    requires Crossed(a, b, c, d)
    ensures AllNamed([a, b, c])
    ensures var st := Raw([a, b, c]);
            && st.parents == ["", "", a.name] && |st.ids| == 3 && st.ids[0] == b.name && st.ids[1] == a.name
            && a.name in st.index && st.index[a.name] == 0 && b.name in st.index && st.index[b.name] == 1
  {
    ThreeRows(START, a, b, c);
  }

  lemma OneRowPage(st: State, d: Row)
    requires d.name != ""
    ensures AllNamed([d]) && AddRows(st, [d]) == AddRow(st, d)
  {
    assert [d][1..] == [];
  }

  /** Only the third row has a parent, and it is a name. */
  lemma OneParent(st: State, i: nat)
    requires Consistent(st) && |st.parents| > 2 && forall k | 0 <= k < |st.parents| && k != 2 :: st.parents[k] == ""
    requires st.parents[2] in st.index && st.index[st.parents[2]] == i
    ensures i < |st.ids| && Normalise(st) == st.(parents := st.parents[2 := st.ids[i]])
  {
    assert "" !in st.index;
    assert ParentIds(st) == st.parents[2 := st.ids[i]];
  }

  /** The same rows as a server from 4.2 on would list them, by ids. */
  function ByIds(rows: seq<Row>): (r: seq<Row>)
    ensures |r| == |rows|
    ensures forall i | 0 <= i < |r| :: r[i] == rows[i].(parent := IdOf(Raw(rows), rows[i].parent))
  {
    seq(|rows|, i requires 0 <= i < |rows| => rows[i].(parent := IdOf(Raw(rows), rows[i].parent)))
  }

  lemma {:induction false} OnlyParentsDiffer(st: State, rows: seq<Row>, others: seq<Row>)
    requires |rows| == |others| && AllNamed(rows)
    requires forall i | 0 <= i < |rows| ::
               others[i] == rows[i].(parent := others[i].parent) && (others[i].parent == "" <==> rows[i].parent == "")
    ensures AddRows(st, others) == AddRows(st, rows).(parents := st.parents + ParentColumn(others))
    decreases |rows|
  {
    if rows == [] {
      assert st.parents + ParentColumn(others) == st.parents;
    } else {
      var x, y := rows[0], others[0];
      var p := st.parents + [y.parent];
      OnlyParentsDiffer(AddRow(st, y), rows[1..], others[1..]);
      AddRowsKeepsParents(AddRow(st, x), p, rows[1..]);
      assert AddRow(st, y) == AddRow(st, x).(parents := p);
      Regroup(st.parents, y.parent, ParentColumn(others[1..]), ParentColumn(others));
    }
  }

  lemma ByIdsParent(rows: seq<Row>, i: nat)
    requires NameForm(rows) && i < |rows|
    ensures ByIds(rows)[i].parent == "" <==> rows[i].parent == ""
    ensures rows[i].parent != "" ==> exists k | 0 <= k < |rows| :: ByIds(rows)[i].parent == rows[k].id
  {
    RawColumns(rows);
    if rows[i].parent != "" {
      assert Raw(rows).parents[i] == rows[i].parent;
      var k := Raw(rows).index[rows[i].parent];
      assert ByIds(rows)[i].parent == rows[k].id;
    }
  }

  lemma ByIdsIsIdForm(rows: seq<Row>)
    requires NameForm(rows)
    ensures AllNamed(ByIds(rows)) && IdForm(ByIds(rows))
  {
    var others := ByIds(rows);
    forall i, j | 0 <= i < |others| && 0 <= j < |others| && others[i].parent != ""
      ensures others[i].parent != others[j].name
    {
      ByIdsParent(rows, i);
      assert others[j].name == rows[j].name;
    }
  }

  lemma RawByIds(rows: seq<Row>)
    requires NameForm(rows)
    ensures Raw(ByIds(rows)) == Normalise(Raw(rows))
  {
    var others := ByIds(rows);
    forall i | 0 <= i < |rows|
      ensures others[i].parent == "" <==> rows[i].parent == ""
    {
      ByIdsParent(rows, i);
    }
    OnlyParentsDiffer(START, rows, others);
    RawColumns(rows);
    assert START.parents + ParentColumn(others) == ParentIds(Raw(rows));
  }

  /** On one page a listing by names ends up as the same listing by ids does. */
  lemma NamesBecomeIds(rows: seq<Row>)
    requires NameForm(rows)
    ensures IdForm(ByIds(rows))
    ensures ParsePages(START, [rows]) == ParsePages(START, [ByIds(rows)])
  {
    ByIdsIsIdForm(rows);
    RawByIds(rows);
    IdFormKeeps(ByIds(rows));
    KeepsExactly(ByIds(rows));
    OnePage(rows);
    OnePage(ByIds(rows));
  }

  // ------------------------------------------------------------- the child strings

  /** The first row with this id, or the number of rows. */
  function Position(ids: seq<string>, id: string): (k: nat)
    ensures k <= |ids|
    ensures k < |ids| ==> ids[k] == id
    ensures forall i | 0 <= i < k :: ids[i] != id
  {
    if ids == [] || ids[0] == id then 0 else 1 + Position(ids[1..], id)
  }

  /** The children of row j among the first n rows, in row order. */
  function KidsAmong(st: State, n: nat, j: nat): seq<Child>
    requires Consistent(st) && n <= |st.names|
  {
    if n == 0 then [] else
      var before := KidsAmong(st, n - 1, j);
      if st.parents[n - 1] != "" && Position(st.ids, st.parents[n - 1]) == j
      then before + [Child(st.names[n - 1], "")] else before
  }

  lemma {:induction false} WriteSnoc(l: seq<Child>, c: Child)
    ensures Write(l + [c]) == (if l == [] then "" else Write(l) + ";") + EntryText(c)
    ensures Write(l) == "" <==> l == []
  {
    if l == [] {
      assert l + [c] == [c];
    } else {
      assert (l + [c])[1..] == l[1..] + [c];
      WriteSnoc(l[1..], c);
      assert |l| == 1 ==> l[1..] == [];
    }
  }

  /** build_child_list, into a vector of empty strings. */
  method BuildChildList(st: State) returns (children: seq<string>)
    requires Consistent(st)
    ensures |children| == |st.names|
    ensures forall j | 0 <= j < |children| :: children[j] == Write(KidsAmong(st, |st.names|, j))
  {
    children := seq(|st.names|, _ => "");
    for i := 0 to |st.names|
      invariant |children| == |st.names|
      invariant forall j | 0 <= j < |children| :: children[j] == Write(KidsAmong(st, i, j))
    {
      if st.parents[i] == "" {
        continue;
      }
      var k := Position(st.ids, st.parents[i]);
      if k >= |st.ids| {
        continue;
      }
      WriteSnoc(KidsAmong(st, i, k), Child(st.names[i], ""));
      var text := children[k];
      if text != "" {
        text := text + ";";
      }
      text := text + st.names[i];
      text := text + "{}";
      children := children[k := text];
    }
  }
}
