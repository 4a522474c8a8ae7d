/** Resource hierarchies as graphs: for every resource the list of its children.
    Nothing rules out cycles; the walk that ilsresc makes is followed to a given
    depth, and the depth at which it ends, if any, is what has to be found. */
module ResourceForest {

  type Graph = map<string, seq<string>>

  datatype Tree = Node(name: string, kids: seq<Tree>)

  /** A walk ends, asks for a resource that is not there, or is not done yet. */
  datatype Walk<T> = Done(value: T) | Missing | TooDeep

  /** The recursion of printRescTree, cut off below `fuel` levels. */
  function Unfold(g: Graph, x: string, fuel: nat): Walk<Tree>
    decreases fuel, 0
  {
    if fuel == 0 then TooDeep
    else if x !in g then Missing
    else match UnfoldAll(g, g[x], fuel - 1)
      case Done(ts) => Done(Node(x, ts))
      case Missing => Missing
      case TooDeep => TooDeep
  }

  /** Its loop over the children. */
  function UnfoldAll(g: Graph, xs: seq<string>, fuel: nat): (r: Walk<seq<Tree>>)
    ensures r.Done? ==> |r.value| == |xs|
    decreases fuel, |xs|
  {
    if xs == [] then Done([]) else
      match Unfold(g, xs[0], fuel)
      case Missing => Missing
      case TooDeep => TooDeep
      case Done(t) =>
        match UnfoldAll(g, xs[1..], fuel)
        case Done(ts) => Done([t] + ts)
        case Missing => Missing
        case TooDeep => TooDeep
  }

  /** The names in the order they are printed. */
  function Preorder(t: Tree): seq<string>
    decreases t, 0
  {
    [t.name] + PreorderAll(t.kids)
  }

  function PreorderAll(ts: seq<Tree>): seq<string>
    decreases ts, 1
  {
    if ts == [] then [] else Preorder(ts[0]) + PreorderAll(ts[1..])
  }

  // ----------------------------------------------------------------------- paths

  ghost predicate Closed(g: Graph) {
    forall x, i | x in g && 0 <= i < |g[x]| :: g[x][i] in g
  }

  /** No resource is listed twice, under one parent or under two. */
  ghost predicate SingleParent(g: Graph) {
    forall x, y, i, j | x in g && y in g && 0 <= i < |g[x]| && 0 <= j < |g[y]| && g[x][i] == g[y][j] :: x == y && i == j
  }

  ghost predicate Path(g: Graph, p: seq<string>) {
    p != [] && forall k | 0 <= k < |p| - 1 :: p[k] in g && p[k + 1] in g[p[k]]
  }

  ghost predicate PathFrom(g: Graph, x: string, p: seq<string>, y: string) {
    Path(g, p) && p[0] == x && p[|p| - 1] == y
  }

  ghost predicate Reaches(g: Graph, x: string, y: string) {
    exists p :: PathFrom(g, x, p, y)
  }

  ghost predicate OnCycle(g: Graph, x: string) {
    exists p :: PathFrom(g, x, p, x) && |p| > 1
  }

  lemma SameParent(g: Graph, x: string, y: string, c: string)
    requires SingleParent(g) && x in g && y in g && c in g[x] && c in g[y]
    ensures x == y
  {
    var i :| 0 <= i < |g[x]| && g[x][i] == c;
    var j :| 0 <= j < |g[y]| && g[y][j] == c;
  }

  /** Going up from the same resource along two paths, the steps agree. */
  lemma {:induction false} PathsAgree(g: Graph, p: seq<string>, q: seq<string>, a: nat, b: nat, k: nat)
    requires SingleParent(g) && Path(g, p) && Path(g, q)
    requires k <= a < |p| && k <= b < |q| && p[a] == q[b]
    ensures p[a - k] == q[b - k]
    decreases k
  {
    if k > 0 {
      PathsAgree(g, p, q, a, b, k - 1);
      SameParent(g, p[a - k], q[b - k], p[a - k + 1]);
    }
  }

  lemma PathAppend(g: Graph, x: string, p: seq<string>, y: string, c: string)
    requires PathFrom(g, x, p, y) && y in g && c in g[y]
    ensures PathFrom(g, x, p + [c], c)
  {
  }

  lemma PathJoin(g: Graph, x: string, p: seq<string>, y: string, q: seq<string>, z: string)
    requires PathFrom(g, x, p, y) && PathFrom(g, y, q, z)
    ensures PathFrom(g, x, p + q[1..], z)
  {
    var r := p + q[1..];
    forall k | 0 <= k < |r| - 1
      ensures r[k] in g && r[k + 1] in g[r[k]]
    {
      if k >= |p| - 1 {
        assert r[k] == q[k - |p| + 1] && r[k + 1] == q[k - |p| + 2];
      }
    }
  }

  // ----------------------------------------------------------------- termination

  /** From a resource that is not on a cycle no path visits anything twice. */
  lemma PathsAreSimple(g: Graph, x: string, p: seq<string>, y: string, a: nat, b: nat)
    requires SingleParent(g) && !OnCycle(g, x) && PathFrom(g, x, p, y)
    requires a < b < |p|
    ensures p[a] != p[b]
  {
    if p[a] == p[b] {
      PathsAgree(g, p, p, a, b, a);
      var q := p[..b - a + 1];
      assert PathFrom(g, x, q, x);
      assert false;
    }
  }

  lemma {:induction false} DistinctBound(p: seq<string>, s: set<string>)
    requires forall i | 0 <= i < |p| :: p[i] in s
    requires forall i, j | 0 <= i < j < |p| :: p[i] != p[j]
    ensures |p| <= |s|
  {
    if p != [] {
      DistinctBound(p[1..], s - {p[0]});
    }
  }

  lemma PathBound(g: Graph, x: string, p: seq<string>, y: string)
    requires Closed(g) && SingleParent(g) && !OnCycle(g, x) && x in g && PathFrom(g, x, p, y)
    ensures |p| <= |g| && y in g
  {
    forall k | 0 <= k < |p|
      ensures p[k] in g
    {
      if k > 0 { assert p[(k - 1) + 1] in g[p[k - 1]]; }
    }
    forall i, j | 0 <= i < j < |p|
      ensures p[i] != p[j]
    {
      PathsAreSimple(g, x, p, y, i, j);
    }
    DistinctBound(p, g.Keys);
  }

  /** The walk below any resource reached from x along p ends within the levels
      that are left. */
  lemma {:induction false} UnfoldEnds(g: Graph, x: string, p: seq<string>, y: string, fuel: nat)
    requires Closed(g) && SingleParent(g) && !OnCycle(g, x) && x in g
    requires PathFrom(g, x, p, y) && fuel + |p| > |g|
    ensures Unfold(g, y, fuel).Done?
    decreases fuel, 0, 1
  {
    PathBound(g, x, p, y);
    UnfoldAllEnds(g, x, p, y, g[y], fuel - 1);
  }

  lemma {:induction false} UnfoldAllEnds(g: Graph, x: string, p: seq<string>, y: string, cs: seq<string>, fuel: nat)
    requires Closed(g) && SingleParent(g) && !OnCycle(g, x) && x in g && y in g
    requires PathFrom(g, x, p, y) && fuel + |p| + 1 > |g|
    requires forall i | 0 <= i < |cs| :: cs[i] in g[y]
    ensures UnfoldAll(g, cs, fuel).Done?
    decreases fuel, 1, |cs|
  {
    if cs != [] {
      PathAppend(g, x, p, y, cs[0]);
      UnfoldEnds(g, x, p + [cs[0]], cs[0], fuel);
      UnfoldAllEnds(g, x, p, y, cs[1..], fuel);
    }
  }

  lemma {:induction false} UnfoldAllMember(g: Graph, xs: seq<string>, fuel: nat, i: nat)
    requires UnfoldAll(g, xs, fuel).Done? && i < |xs|
    ensures Unfold(g, xs[i], fuel) == Done(UnfoldAll(g, xs, fuel).value[i])
    decreases |xs|
  {
    if i > 0 { UnfoldAllMember(g, xs[1..], fuel, i - 1); }
  }

  /** On a cycle the walk never ends. */
  lemma {:induction false} CycleNeverEnds(g: Graph, x: string, fuel: nat)
    requires OnCycle(g, x)
    ensures !Unfold(g, x, fuel).Done?
    decreases fuel
  {
    if Unfold(g, x, fuel).Done? {
      var p :| PathFrom(g, x, p, x) && |p| > 1;
      var c := p[1];
      assert p[0 + 1] in g[p[0]];
      var q := p[1..];
      assert PathFrom(g, c, q, x);
      PathAppend(g, c, q, x, c);
      assert OnCycle(g, c);
      var i :| 0 <= i < |g[x]| && g[x][i] == c;
      UnfoldAllMember(g, g[x], fuel - 1, i);
      CycleNeverEnds(g, c, fuel - 1);
    }
  }

  /** Exactly when drawing from a resource ends: it must not be among its own
      descendants. As many levels as there are resources are then enough. */
  lemma EndsExactly(g: Graph, x: string)
    requires Closed(g) && SingleParent(g) && x in g
    ensures Unfold(g, x, |g|).Done? <==> !OnCycle(g, x)
    ensures OnCycle(g, x) ==> forall fuel :: !Unfold(g, x, fuel).Done?
  {
    if OnCycle(g, x) {
      forall fuel
        ensures !Unfold(g, x, fuel).Done?
      {
        CycleNeverEnds(g, x, fuel);
      }
    } else {
      assert PathFrom(g, x, [x], x);
      UnfoldEnds(g, x, [x], x, |g|);
    }
  }

  // --------------------------------------------------------------- what is printed

  ghost predicate Distinct(s: seq<string>) {
    forall i, j | 0 <= i < j < |s| :: s[i] != s[j]
  }

  lemma DistinctConcat(a: seq<string>, b: seq<string>)
    requires Distinct(a) && Distinct(b) && forall x | x in a :: x !in b
    ensures Distinct(a + b)
  {
    var s := a + b;
    forall i, j | 0 <= i < j < |s|
      ensures s[i] != s[j]
    {
      if i < |a| <= j {
        assert s[i] in a && s[j] in b;
      }
    }
  }

  /** What is printed below x is what can be reached from x. */
  lemma {:induction false} PreorderReaches(g: Graph, x: string, fuel: nat, y: string)
    requires Unfold(g, x, fuel).Done?
    ensures y in Preorder(Unfold(g, x, fuel).value) <==> Reaches(g, x, y)
    decreases fuel, 0
  {
    var ts := UnfoldAll(g, g[x], fuel - 1).value;
    assert Unfold(g, x, fuel).value == Node(x, ts);
    PreorderAllReaches(g, g[x], fuel - 1, y);
    if y == x {
      assert PathFrom(g, x, [x], x);
    } else if y in PreorderAll(ts) {
      var c :| c in g[x] && Reaches(g, c, y);
      var p :| PathFrom(g, c, p, y);
      assert PathFrom(g, x, [x, c], c);
      PathJoin(g, x, [x, c], c, p, y);
    } else if Reaches(g, x, y) {
      var p :| PathFrom(g, x, p, y);
      assert p[0 + 1] in g[p[0]];
      assert PathFrom(g, p[1], p[1..], y);
    }
  }

  lemma {:induction false} PreorderAllReaches(g: Graph, xs: seq<string>, fuel: nat, y: string)
    requires UnfoldAll(g, xs, fuel).Done?
    ensures y in PreorderAll(UnfoldAll(g, xs, fuel).value) <==> exists c | c in xs :: Reaches(g, c, y)
    decreases fuel, 1, |xs|
  {
    if xs != [] {
      var ts := UnfoldAll(g, xs, fuel).value;
      assert ts[1..] == UnfoldAll(g, xs[1..], fuel).value;
      PreorderReaches(g, xs[0], fuel, y);
      PreorderAllReaches(g, xs[1..], fuel, y);
      assert forall c :: c in xs <==> c == xs[0] || c in xs[1..];
    }
  }

  /** Two paths to one resource: one start lies on the other path, and what is
      above it there is its parent. */
  lemma PathsMeet(g: Graph, a: string, p: seq<string>, b: string, q: seq<string>, y: string)
    requires SingleParent(g) && PathFrom(g, a, p, y) && PathFrom(g, b, q, y) && |p| <= |q| && a != b
    ensures |q| - |p| >= 1 && q[|q| - |p|] == a
    ensures q[|q| - |p| - 1] in g && a in g[q[|q| - |p| - 1]]
    ensures PathFrom(g, b, q[..|q| - |p|], q[|q| - |p| - 1])
  {
    PathsAgree(g, p, q, |p| - 1, |q| - 1, |p| - 1);
    var m := |q| - |p|;
    assert q[m - 1 + 1] in g[q[m - 1]];
  }

  /** Nothing is below two children of one resource, unless it is on a cycle. */
  lemma SiblingsApart(g: Graph, x: string, a: string, b: string, y: string)
    requires SingleParent(g) && x in g && a in g[x] && b in g[x] && a != b
    requires Reaches(g, a, y) && Reaches(g, b, y)
    ensures OnCycle(g, x)
  {
    var p :| PathFrom(g, a, p, y);
    var q :| PathFrom(g, b, q, y);
    if |p| <= |q| {
      MeetingCycles(g, x, a, p, b, q, y);
    } else {
      MeetingCycles(g, x, b, q, a, p, y);
    }
  }

  lemma MeetingCycles(g: Graph, x: string, a: string, p: seq<string>, b: string, q: seq<string>, y: string)
    requires SingleParent(g) && x in g && a in g[x] && b in g[x] && a != b
    requires PathFrom(g, a, p, y) && PathFrom(g, b, q, y) && |p| <= |q|
    ensures OnCycle(g, x)
  {
    PathsMeet(g, a, p, b, q, y);
    var m := |q| - |p|;
    SameParent(g, x, q[m - 1], a);
    assert PathFrom(g, x, [x, b], b);
    PathJoin(g, x, [x, b], b, q[..m], x);
  }

  lemma {:induction false} PreorderDistinct(g: Graph, x: string, fuel: nat)
    requires SingleParent(g) && Unfold(g, x, fuel).Done?
    ensures Distinct(Preorder(Unfold(g, x, fuel).value))
    decreases fuel, 0
  {
    if OnCycle(g, x) {
      CycleNeverEnds(g, x, fuel);
    }
    var ts := UnfoldAll(g, g[x], fuel - 1).value;
    PreorderAllDistinct(g, x, 0, fuel - 1);
    assert g[x][0..] == g[x];
    PreorderAllReaches(g, g[x], fuel - 1, x);
    if x in PreorderAll(ts) {
      var c :| c in g[x] && Reaches(g, c, x);
      var p :| PathFrom(g, c, p, x);
      assert PathFrom(g, x, [x, c], c);
      PathJoin(g, x, [x, c], c, p, x);
    }
    DistinctConcat([x], PreorderAll(ts));
  }

  lemma {:induction false} PreorderAllDistinct(g: Graph, x: string, k: nat, fuel: nat)
    requires SingleParent(g) && x in g && !OnCycle(g, x) && k <= |g[x]|
    requires UnfoldAll(g, g[x][k..], fuel).Done?
    ensures Distinct(PreorderAll(UnfoldAll(g, g[x][k..], fuel).value))
    decreases fuel, 1, |g[x]| - k
  {
    var cs := g[x][k..];
    if cs != [] {
      var ts := UnfoldAll(g, cs, fuel).value;
      assert cs[1..] == g[x][k + 1..] && ts[1..] == UnfoldAll(g, cs[1..], fuel).value;
      PreorderDistinct(g, cs[0], fuel);
      PreorderAllDistinct(g, x, k + 1, fuel);
      forall y | y in Preorder(ts[0])
        ensures y !in PreorderAll(ts[1..])
      {
        KidsApart(g, x, k, fuel, y);
      }
      DistinctConcat(Preorder(ts[0]), PreorderAll(ts[1..]));
    }
  }

  lemma KidsApart(g: Graph, x: string, k: nat, fuel: nat, y: string)
    requires SingleParent(g) && x in g && !OnCycle(g, x) && k < |g[x]|
    requires Unfold(g, g[x][k], fuel).Done? && UnfoldAll(g, g[x][k + 1..], fuel).Done?
    requires y in Preorder(Unfold(g, g[x][k], fuel).value)
    ensures y !in PreorderAll(UnfoldAll(g, g[x][k + 1..], fuel).value)
  {
    var a, rest := g[x][k], g[x][k + 1..];
    PreorderReaches(g, a, fuel, y);
    PreorderAllReaches(g, rest, fuel, y);
    forall c | c in rest
      ensures !Reaches(g, c, y)
    {
      var i :| 0 <= i < |rest| && rest[i] == c;
      assert g[x][k + 1 + i] == c;
      if Reaches(g, c, y) {
        SiblingsApart(g, x, a, c, y);
      }
    }
  }

  // ------------------------------------------------------------------- the roots

  ghost predicate IsRoot(g: Graph, r: string) {
    r in g && forall x | x in g :: r !in g[x]
  }

  lemma LastStep(g: Graph, x: string, p: seq<string>, y: string)
    requires PathFrom(g, x, p, y) && |p| > 1
    ensures p[|p| - 2] in g && y in g[p[|p| - 2]]
  {
    assert p[|p| - 2 + 1] in g[p[|p| - 2]];
  }

  lemma RootNotOnCycle(g: Graph, r: string)
    requires IsRoot(g, r)
    ensures !OnCycle(g, r)
  {
    if OnCycle(g, r) {
      var p :| PathFrom(g, r, p, r) && |p| > 1;
      LastStep(g, r, p, r);
    }
  }

  lemma RootsApart(g: Graph, a: string, b: string, y: string)
    requires SingleParent(g) && IsRoot(g, a) && IsRoot(g, b) && Reaches(g, a, y) && Reaches(g, b, y)
    ensures a == b
  {
    var p :| PathFrom(g, a, p, y);
    var q :| PathFrom(g, b, q, y);
    if a != b {
      if |p| <= |q| {
        PathsMeet(g, a, p, b, q, y);
      } else {
        PathsMeet(g, b, q, a, p, y);
      }
      assert false;
    }
  }

  lemma {:induction false} RootsDistinct(g: Graph, roots: seq<string>, fuel: nat)
    requires SingleParent(g) && Distinct(roots) && forall r | r in roots :: IsRoot(g, r)
    requires UnfoldAll(g, roots, fuel).Done?
    ensures Distinct(PreorderAll(UnfoldAll(g, roots, fuel).value))
    decreases |roots|
  {
    if roots != [] {
      var ts := UnfoldAll(g, roots, fuel).value;
      assert ts[1..] == UnfoldAll(g, roots[1..], fuel).value;
      PreorderDistinct(g, roots[0], fuel);
      RootsDistinct(g, roots[1..], fuel);
      forall y | y in Preorder(ts[0])
        ensures y !in PreorderAll(ts[1..])
      {
        PreorderReaches(g, roots[0], fuel, y);
        PreorderAllReaches(g, roots[1..], fuel, y);
        forall c | c in roots[1..] && Reaches(g, c, y)
          ensures false
        {
          RootsApart(g, roots[0], c, y);
        }
      }
      DistinctConcat(Preorder(ts[0]), PreorderAll(ts[1..]));
    }
  }

  lemma {:induction false} RootsEnd(g: Graph, roots: seq<string>)
    requires Closed(g) && SingleParent(g) && forall r | r in roots :: IsRoot(g, r)
    ensures UnfoldAll(g, roots, |g|).Done?
    decreases |roots|
  {
    if roots != [] {
      RootNotOnCycle(g, roots[0]);
      EndsExactly(g, roots[0]);
      RootsEnd(g, roots[1..]);
    }
  }

  /** Drawing from all the roots ends, whatever cycles there are elsewhere, and
      prints each resource below a root once and no other. */
  lemma ForestIsPrinted(g: Graph, roots: seq<string>)
    requires Closed(g) && SingleParent(g) && Distinct(roots) && forall r | r in roots :: IsRoot(g, r)
    ensures UnfoldAll(g, roots, |g|).Done?
    ensures var printed := PreorderAll(UnfoldAll(g, roots, |g|).value);
            && Distinct(printed)
            && forall y :: y in printed <==> exists r | r in roots :: Reaches(g, r, y)
  {
    RootsEnd(g, roots);
    RootsDistinct(g, roots, |g|);
    forall y
      ensures y in PreorderAll(UnfoldAll(g, roots, |g|).value) <==> exists r | r in roots :: Reaches(g, r, y)
    {
      PreorderAllReaches(g, roots, |g|, y);
    }
  }
}
