/** How ilsresc draws a resource tree, and how much of the tree the drawing
    gives away. */
module TreeDrawing {

  import opened Common
  import opened ResourceForest

  /** One printed line; `depth` has one character per level, '1' for a level
      whose vertical line goes on below. */
  datatype Line = Line(depth: string, name: string)

  function LastBit(after: seq<string>): string {
    if after == [] then "0" else "1"
  }

  /** printRescTree, cut off below `fuel` levels: the lines it prints. */
  function Draw(g: Graph, x: string, depth: string, fuel: nat): Walk<seq<Line>>
    decreases fuel, 0
  {
    if fuel == 0 then TooDeep
    else if x !in g then Missing
    else match DrawKids(g, g[x], depth, fuel - 1)
      case Done(lines) => Done([Line(depth, x)] + lines)
      case Missing => Missing
      case TooDeep => TooDeep
  }

  function DrawKids(g: Graph, xs: seq<string>, depth: string, fuel: nat): Walk<seq<Line>>
    decreases fuel, |xs|
  {
    if xs == [] then Done([]) else
      match Draw(g, xs[0], depth + LastBit(xs[1..]), fuel)
      case Missing => Missing
      case TooDeep => TooDeep
      case Done(lines) =>
        match DrawKids(g, xs[1..], depth, fuel)
        case Done(more) => Done(lines + more)
        case Missing => Missing
        case TooDeep => TooDeep
  }

  /** The roots loop of showRescTree. */
  function DrawRoots(g: Graph, roots: seq<string>, fuel: nat): Walk<seq<Line>> {
    if roots == [] then Done([]) else
      match Draw(g, roots[0], "", fuel)
      case Missing => Missing
      case TooDeep => TooDeep
      case Done(lines) =>
        match DrawRoots(g, roots[1..], fuel)
        case Done(more) => Done(lines + more)
        case Missing => Missing
        case TooDeep => TooDeep
  }

  // ---------------------------------------------------------- the lines of a tree

  function LinesOf(t: Tree, depth: string): seq<Line>
    decreases t, 0
  {
    [Line(depth, t.name)] + KidLines(t.kids, depth)
  }

  function KidLines(ts: seq<Tree>, depth: string): seq<Line>
    decreases ts, 1
  {
    if ts == [] then [] else LinesOf(ts[0], depth + (if |ts| == 1 then "0" else "1")) + KidLines(ts[1..], depth)
  }

  function ForestLines(ts: seq<Tree>): seq<Line> {
    if ts == [] then [] else LinesOf(ts[0], "") + ForestLines(ts[1..])
  }

  /** The walk prints the lines of the tree it unfolds, and fails as it fails. */
  lemma {:induction false} DrawsTree(g: Graph, x: string, depth: string, fuel: nat)
    ensures Draw(g, x, depth, fuel) == match Unfold(g, x, fuel)
                                       case Done(t) => Done(LinesOf(t, depth))
                                       case Missing => Missing
                                       case TooDeep => TooDeep
    decreases fuel, 0
  {
    if fuel > 0 && x in g {
      DrawsKids(g, g[x], depth, fuel - 1);
    }
  }

  lemma {:induction false} DrawsKids(g: Graph, xs: seq<string>, depth: string, fuel: nat)
    ensures DrawKids(g, xs, depth, fuel) == match UnfoldAll(g, xs, fuel)
                                            case Done(ts) => Done(KidLines(ts, depth))
                                            case Missing => Missing
                                            case TooDeep => TooDeep
    decreases fuel, 1, |xs|
  {
    if xs != [] {
      DrawsTree(g, xs[0], depth + LastBit(xs[1..]), fuel);
      DrawsKids(g, xs[1..], depth, fuel);
      if UnfoldAll(g, xs, fuel).Done? {
        var ts := UnfoldAll(g, xs, fuel).value;
        assert ts[1..] == UnfoldAll(g, xs[1..], fuel).value;
      }
    }
  }

  lemma {:induction false} DrawsForest(g: Graph, roots: seq<string>, fuel: nat)
    ensures DrawRoots(g, roots, fuel) == match UnfoldAll(g, roots, fuel)
                                         case Done(ts) => Done(ForestLines(ts))
                                         case Missing => Missing
                                         case TooDeep => TooDeep
    decreases |roots|
  {
    if roots != [] {
      DrawsTree(g, roots[0], "", fuel);
      DrawsForest(g, roots[1..], fuel);
      if UnfoldAll(g, roots, fuel).Done? {
        var ts := UnfoldAll(g, roots, fuel).value;
        assert ts[1..] == UnfoldAll(g, roots[1..], fuel).value;
      }
    }
  }

  function NamesOf(lines: seq<Line>): (r: seq<string>)
    ensures |r| == |lines| && forall i | 0 <= i < |r| :: r[i] == lines[i].name
  {
    seq(|lines|, i requires 0 <= i < |lines| => lines[i].name)
  }

  lemma NamesConcat(a: seq<Line>, b: seq<Line>)
    ensures NamesOf(a + b) == NamesOf(a) + NamesOf(b)
  {
  }

  lemma {:induction false} LineNames(t: Tree, depth: string)
    ensures NamesOf(LinesOf(t, depth)) == Preorder(t)
    decreases t, 0
  {
    NamesConcat([Line(depth, t.name)], KidLines(t.kids, depth));
    KidLineNames(t.kids, depth);
  }

  lemma {:induction false} KidLineNames(ts: seq<Tree>, depth: string)
    ensures NamesOf(KidLines(ts, depth)) == PreorderAll(ts)
    decreases ts, 1
  {
    if ts != [] {
      var d := depth + (if |ts| == 1 then "0" else "1");
      NamesConcat(LinesOf(ts[0], d), KidLines(ts[1..], depth));
      LineNames(ts[0], d);
      KidLineNames(ts[1..], depth);
    }
  }

  lemma {:induction false} ForestLineNames(ts: seq<Tree>)
    ensures NamesOf(ForestLines(ts)) == PreorderAll(ts)
  {
    if ts != [] {
      NamesConcat(LinesOf(ts[0], ""), ForestLines(ts[1..]));
      LineNames(ts[0], "");
      ForestLineNames(ts[1..]);
    }
  }

  // ------------------------------------------------------------- what a bit means

  /** A place in a tree: which child to take at each level. */
  predicate IsPlace(t: Tree, p: seq<nat>)
    decreases p
  {
    p == [] || (p[0] < |t.kids| && IsPlace(t.kids[p[0]], p[1..]))
  }

  function At(t: Tree, p: seq<nat>): Tree
    requires IsPlace(t, p)
    decreases p
  {
    if p == [] then t else At(t.kids[p[0]], p[1..])
  }

  /** The ancestor that is j + 1 levels down has a sibling after it. */
  ghost predicate HasLaterSibling(t: Tree, p: seq<nat>, j: nat)
    requires IsPlace(t, p) && j < |p|
  {
    PrefixIsPlace(t, p, j);
    p[j] + 1 < |At(t, p[..j]).kids|
  }

  lemma {:induction false} PrefixIsPlace(t: Tree, p: seq<nat>, j: nat)
    requires IsPlace(t, p) && j <= |p|
    ensures IsPlace(t, p[..j])
    decreases p
  {
    if j > 0 {
      PrefixIsPlace(t.kids[p[0]], p[1..], j - 1);
      assert p[..j][1..] == p[1..][..j - 1];
    }
  }

  /** `bits` describes the place: one bit per level, saying whether the ancestor
      there has a later sibling. */
  ghost predicate Describes(t: Tree, p: seq<nat>, bits: string)
    requires IsPlace(t, p)
  {
    |bits| == |p| && forall j | 0 <= j < |p| :: bits[j] == if HasLaterSibling(t, p, j) then '1' else '0'
  }

  lemma DescribesBelow(t: Tree, i: nat, p: seq<nat>, bits: string)
    requires i < |t.kids| && IsPlace(t.kids[i], p) && Describes(t.kids[i], p, bits)
    ensures var q := [i] + p;
            IsPlace(t, q) && At(t, q) == At(t.kids[i], p)
            && Describes(t, q, (if i + 1 < |t.kids| then "1" else "0") + bits)
  {
    var q := [i] + p;
    assert q[1..] == p;
    var all := (if i + 1 < |t.kids| then "1" else "0") + bits;
    forall j | 0 <= j < |q|
      ensures all[j] == if HasLaterSibling(t, q, j) then '1' else '0'
    {
      if j > 0 {
        assert q[..j][1..] == p[..j - 1] && q[..j][0] == i;
        PrefixIsPlace(t, q, j);
        PrefixIsPlace(t.kids[i], p, j - 1);
        assert At(t, q[..j]) == At(t.kids[i], p[..j - 1]);
        assert HasLaterSibling(t, q, j) <==> HasLaterSibling(t.kids[i], p, j - 1);
      } else {
        assert q[..0] == [];
      }
    }
  }

  /** Every line belongs to a place in the tree, shows the name there, and its
      depth string says at each level whether the ancestor has a later sibling. */
  lemma {:induction false} EveryLine(t: Tree, depth: string, k: nat) returns (p: seq<nat>)
    requires k < |LinesOf(t, depth)|
    ensures IsPlace(t, p) && LinesOf(t, depth)[k].name == At(t, p).name
    ensures depth <= LinesOf(t, depth)[k].depth
    ensures Describes(t, p, LinesOf(t, depth)[k].depth[|depth|..])
    decreases t, 0
  {
    if k == 0 {
      p := [];
    } else {
      p := EveryKidLine(t, 0, depth, k - 1);
      assert t.kids[0..] == t.kids;
    }
  }

  lemma BitBefore(depth: string, bit: string, whole: string)
    requires depth + bit <= whole
    ensures depth <= whole && whole[|depth|..] == bit + whole[|depth + bit|..]
  {
    assert whole == depth + bit + whole[|depth + bit|..];
  }

  lemma {:induction false} EveryKidLine(t: Tree, i: nat, depth: string, k: nat) returns (p: seq<nat>)
    requires i <= |t.kids| && k < |KidLines(t.kids[i..], depth)|
    ensures IsPlace(t, p) && KidLines(t.kids[i..], depth)[k].name == At(t, p).name
    ensures depth <= KidLines(t.kids[i..], depth)[k].depth
    ensures Describes(t, p, KidLines(t.kids[i..], depth)[k].depth[|depth|..])
    decreases t.kids, |t.kids| - i
  {
    var ts := t.kids[i..];
    assert i < |t.kids|;
    var bit := if |ts| == 1 then "0" else "1";
    var first := LinesOf(ts[0], depth + bit);
    if k < |first| {
      var q := EveryLine(ts[0], depth + bit, k);
      DescribesBelow(t, i, q, first[k].depth[|depth + bit|..]);
      p := [i] + q;
      BitBefore(depth, bit, first[k].depth);
    } else {
      assert ts[1..] == t.kids[i + 1..];
      p := EveryKidLine(t, i + 1, depth, k - |first|);
    }
  }

  // --------------------------------------------------- the tree from its drawing

  /** What can be read off a line: how far in it is, and its name. */
  datatype Mark = Mark(level: nat, name: string)

  /** How many marks in front lie deeper than `level`. */
  function Deeper(marks: seq<Mark>, level: nat): (k: nat)
    ensures k <= |marks|
  {
    if marks == [] || marks[0].level <= level then 0 else 1 + Deeper(marks[1..], level)
  }

  /** A mark and all deeper ones after it make a tree. */
  function Rebuild(marks: seq<Mark>): seq<Tree>
    decreases |marks|
  {
    if marks == [] then [] else
      var k := Deeper(marks[1..], marks[0].level);
      [Node(marks[0].name, Rebuild(marks[1..][..k]))] + Rebuild(marks[1..][k..])
  }

  function MarksOf(lines: seq<Line>): (r: seq<Mark>)
    ensures |r| == |lines|
  {
    if lines == [] then [] else [Mark(|lines[0].depth|, lines[0].name)] + MarksOf(lines[1..])
  }

  lemma {:induction false} MarksConcat(a: seq<Line>, b: seq<Line>)
    ensures MarksOf(a + b) == MarksOf(a) + MarksOf(b)
  {
    if a == [] {
      assert a + b == b;
    } else {
      assert (a + b)[1..] == a[1..] + b;
      MarksConcat(a[1..], b);
    }
  }

  ghost predicate Below(marks: seq<Mark>, level: nat) {
    forall i | 0 <= i < |marks| :: marks[i].level > level
  }

  lemma {:induction false} DeeperStops(marks: seq<Mark>, rest: seq<Mark>, level: nat)
    requires Below(marks, level) && (rest == [] || rest[0].level <= level)
    ensures Deeper(marks + rest, level) == |marks|
  {
    if marks == [] {
      assert marks + rest == rest;
    } else {
      assert (marks + rest)[1..] == marks[1..] + rest;
      DeeperStops(marks[1..], rest, level);
    }
  }

  lemma {:induction false} KidMarksBelow(ts: seq<Tree>, depth: string)
    ensures Below(MarksOf(KidLines(ts, depth)), |depth|)
    decreases ts, 1
  {
    if ts != [] {
      var d := depth + (if |ts| == 1 then "0" else "1");
      MarksConcat(LinesOf(ts[0], d), KidLines(ts[1..], depth));
      MarksConcat([Line(d, ts[0].name)], KidLines(ts[0].kids, d));
      KidMarksBelow(ts[0].kids, d);
      KidMarksBelow(ts[1..], depth);
    }
  }

  lemma {:induction false} RebuildsTree(t: Tree, depth: string, rest: seq<Mark>)
    requires rest == [] || rest[0].level <= |depth|
    ensures Rebuild(MarksOf(LinesOf(t, depth)) + rest) == [t] + Rebuild(rest)
    decreases t, 0
  {
    var head, kids := [Line(depth, t.name)], MarksOf(KidLines(t.kids, depth));
    MarksConcat(head, KidLines(t.kids, depth));
    assert head[1..] == [];
    var marks := MarksOf(LinesOf(t, depth)) + rest;
    assert marks[0] == Mark(|depth|, t.name) && marks[1..] == kids + rest;
    KidMarksBelow(t.kids, depth);
    DeeperStops(kids, rest, |depth|);
    assert (kids + rest)[..|kids|] == kids && (kids + rest)[|kids|..] == rest;
    RebuildsKids(t.kids, depth);
  }

  lemma KidsStart(ts: seq<Tree>, depth: string)
    requires ts != []
    ensures KidLines(ts, depth) != [] && MarksOf(KidLines(ts, depth))[0].level == |depth| + 1
  {
    assert KidLines(ts, depth)[0].depth == depth + (if |ts| == 1 then "0" else "1");
  }

  lemma {:induction false} RebuildsKids(ts: seq<Tree>, depth: string)
    ensures Rebuild(MarksOf(KidLines(ts, depth))) == ts
    decreases ts, 1
  {
    if ts != [] {
      var d := depth + (if |ts| == 1 then "0" else "1");
      var rest := MarksOf(KidLines(ts[1..], depth));
      MarksConcat(LinesOf(ts[0], d), KidLines(ts[1..], depth));
      if |ts| > 1 { KidsStart(ts[1..], depth); }
      RebuildsTree(ts[0], d, rest);
      RebuildsKids(ts[1..], depth);
    }
  }

  lemma {:induction false} RebuildsForest(ts: seq<Tree>)
    ensures Rebuild(MarksOf(ForestLines(ts))) == ts
  {
    if ts != [] {
      var rest := MarksOf(ForestLines(ts[1..]));
      MarksConcat(LinesOf(ts[0], ""), ForestLines(ts[1..]));
      RebuildsTree(ts[0], "", rest);
      RebuildsForest(ts[1..]);
    }
  }

  // ------------------------------------------------------------------- the text

  /** The four pieces every drawing is put together from. */
  datatype Style = Style(middle: string, last: string, pipe: string, indent: string)

  const ASCII: Style := Style("|-- ", "`-- ", "|   ", "    ")
  const UNICODE: Style :=
    Style("\U{251C}\U{2500}\U{2500} ", "\U{2514}\U{2500}\U{2500} ", "\U{2502}   ", "    ")

  /** Pieces of four characters; those of inner levels differ from the connectors. */
  predicate Legible(style: Style) {
    && |style.middle| == |style.last| == |style.pipe| == |style.indent| == 4
    && style.pipe != style.middle && style.pipe != style.last
    && style.indent != style.middle && style.indent != style.last
    && '\n' !in style.middle && '\n' !in style.last && '\n' !in style.pipe && '\n' !in style.indent
  }

  lemma BothStylesLegible()
    ensures Legible(ASCII) && Legible(UNICODE)
  {
    assert ASCII.pipe[1] == ASCII.indent[1] == ' ' && ASCII.middle[1] == ASCII.last[1] == '-';
    assert UNICODE.pipe[1] == UNICODE.indent[1] == ' ' && UNICODE.middle[1] == UNICODE.last[1] == '\U{2500}';
  }

  /** printDepth */
  function DepthText(style: Style, depth: string): string {
    if depth == "" then ""
    else (if depth[0] == '1' then style.pipe else style.indent) + DepthText(style, depth[1..])
  }

  /** What stands before a name: nothing for a root, else the levels above and
      the connector to the parent. */
  function Lead(style: Style, depth: string): string {
    if depth == "" then "" else
      DepthText(style, depth[..|depth| - 1])
      + (if depth[|depth| - 1] == '1' then style.middle else style.last)
  }

  function LineText(style: Style, types: string -> string, line: Line): string {
    Lead(style, line.depth) + line.name + ":" + types(line.name)
  }

  function Print(style: Style, types: string -> string, lines: seq<Line>): string {
    if lines == [] then "" else LineText(style, types, lines[0]) + "\n" + Print(style, types, lines[1..])
  }

  // ------------------------------------------------- printing while walking the tree

  lemma {:induction false} PrintConcat(style: Style, types: string -> string, a: seq<Line>, b: seq<Line>)
    ensures Print(style, types, a + b) == Print(style, types, a) + Print(style, types, b)
  {
    if a == [] {
      assert a + b == b;
    } else {
      assert (a + b)[0] == a[0] && (a + b)[1..] == a[1..] + b;
      PrintConcat(style, types, a[1..], b);
      Associates(LineText(style, types, a[0]) + "\n", Print(style, types, a[1..]), Print(style, types, b));
    }
  }

  function Connector(style: Style, last: bool): string {
    if last then style.last else style.middle
  }

  /** printDepth's loop */
  method PrintDepth(style: Style, depth: string) returns (out: string)
    ensures out == DepthText(style, depth)
  {
    out := "";
    assert depth[0..] == depth;
    for i := 0 to |depth|
      invariant DepthText(style, depth) == out + DepthText(style, depth[i..])
    {
      var piece := if depth[i] == '1' then style.pipe else style.indent;
      DepthStep(style, depth, i);
      Associates(out, piece, DepthText(style, depth[i + 1..]));
      out := out + piece;
    }
  }

  lemma DepthStep(style: Style, depth: string, i: nat)
    requires i < |depth|
    ensures DepthText(style, depth[i..])
         == (if depth[i] == '1' then style.pipe else style.indent) + DepthText(style, depth[i + 1..])
  {
    var rest := depth[i..];
    assert rest[0] == depth[i] && rest[1..] == depth[i + 1..];
  }

  lemma LeadBelow(style: Style, depth: string, last: bool)
    ensures Lead(style, depth + if last then "0" else "1") == DepthText(style, depth) + Connector(style, last)
  {
    var below := depth + if last then "0" else "1";
    assert below[..|below| - 1] == depth;
  }

  function After<T>(done: seq<T>, w: Walk<seq<T>>): Walk<seq<T>> {
    match w
    case Done(more) => Done(done + more)
    case Missing => Missing
    case TooDeep => TooDeep
  }

  /** What is written, after the lead the caller has written, is the text of the
      lines; a walk that fails fails the same way. */
  predicate Writes(style: Style, types: string -> string, lead: string, out: Walk<string>, lines: Walk<seq<Line>>) {
    match lines
    case Done(all) => out.Done? && lead + out.value == Print(style, types, all)
    case Missing => out.Missing?
    case TooDeep => out.TooDeep?
  }

  lemma NextKid(g: Graph, kids: seq<string>, i: nat, depth: string, fuel: nat)
    requires i < |kids|
    ensures var bit := if i == |kids| - 1 then "0" else "1";
            DrawKids(g, kids[i..], depth, fuel)
            == match Draw(g, kids[i], depth + bit, fuel)
               case Missing => Missing
               case TooDeep => TooDeep
               case Done(lines) => After(lines, DrawKids(g, kids[i + 1..], depth, fuel))
  {
    var rest := kids[i..];
    assert rest[0] == kids[i] && rest[1..] == kids[i + 1..];
  }

  lemma KidText(style: Style, types: string -> string, out: string, done: seq<Line>, depth: string, last: bool,
                text: string, lines: seq<Line>)
    requires out == Print(style, types, done)
    requires Lead(style, depth + if last then "0" else "1") + text == Print(style, types, lines)
    ensures out + DepthText(style, depth) + Connector(style, last) + text == Print(style, types, done + lines)
  {
    PrintConcat(style, types, done, lines);
    LeadBelow(style, depth, last);
    var front := DepthText(style, depth) + Connector(style, last);
    Associates(out, DepthText(style, depth), Connector(style, last));
    Associates(out, front, text);
  }

  /** printRescTree as it writes: each call its own name and type, then its
      children. */
  method PrintRescTree(g: Graph, types: string -> string, x: string, depth: string, style: Style, fuel: nat)
    returns (r: Walk<string>)
    ensures Writes(style, types, Lead(style, depth), r, Draw(g, x, depth, fuel))
    decreases fuel, 0
  {
    if fuel == 0 {
      return TooDeep;
    }
    if x !in g {
      return Missing;
    }
    var out := x + ":" + types(x) + "\n";
    var below := PrintChildren(g, types, g[x], depth, style, fuel - 1);
    if !below.Done? {
      return below;
    }
    NodeText(style, types, Line(depth, x), below.value, DrawKids(g, g[x], depth, fuel - 1).value);
    return Done(out + below.value);
  }

  /** Its loop: for every child the levels above, the connector, and the child's
      own output. */
  method PrintChildren(g: Graph, types: string -> string, kids: seq<string>, depth: string, style: Style, fuel: nat)
    returns (r: Walk<string>)
    ensures Writes(style, types, "", r, DrawKids(g, kids, depth, fuel))
    decreases fuel, 1
  {
    var out := "";
    ghost var lines: seq<Line> := [];
    assert kids[0..] == kids;
    AfterNothing(DrawKids(g, kids, depth, fuel));
    for i := 0 to |kids|
      invariant out == Print(style, types, lines)
      invariant DrawKids(g, kids, depth, fuel) == After(lines, DrawKids(g, kids[i..], depth, fuel))
    {
      var above := PrintDepth(style, depth);
      var last := i == |kids| - 1;
      var bit := if last then "0" else "1";
      var below := PrintRescTree(g, types, kids[i], depth + bit, style, fuel);
      NextKid(g, kids, i, depth, fuel);
      if !below.Done? {
        return below;
      }
      ghost var more := Draw(g, kids[i], depth + bit, fuel).value;
      KidText(style, types, out, lines, depth, last, below.value, more);
      AfterAfter(lines, more, DrawKids(g, kids[i + 1..], depth, fuel));
      out := out + above + Connector(style, last) + below.value;
      lines := lines + more;
    }
    Finished(style, types, out, lines);
    return Done(out);
  }

  lemma OwnLine(style: Style, types: string -> string, line: Line)
    ensures Lead(style, line.depth) + (line.name + ":" + types(line.name) + "\n") == Print(style, types, [line])
  {
    assert [line][1..] == [];
    var lead, name, kind := Lead(style, line.depth), line.name, types(line.name);
    Associates(lead, name + ":" + kind, "\n");
    Associates(lead, name + ":", kind);
    Associates(lead, name, ":");
  }

  lemma NodeText(style: Style, types: string -> string, line: Line, below: string, lines: seq<Line>)
    requires "" + below == Print(style, types, lines)
    ensures Lead(style, line.depth) + ((line.name + ":" + types(line.name) + "\n") + below)
         == Print(style, types, [line] + lines)
  {
    var own := line.name + ":" + types(line.name) + "\n";
    assert "" + below == below;
    OwnLine(style, types, line);
    PrintConcat(style, types, [line], lines);
    Associates(Lead(style, line.depth), own, below);
  }

  lemma AfterNothing<T>(w: Walk<seq<T>>)
    ensures After([], w) == w
  {
    if w.Done? {
      assert [] + w.value == w.value;
    }
  }

  lemma AfterAfter<T>(a: seq<T>, b: seq<T>, w: Walk<seq<T>>)
    ensures After(a, After(b, w)) == After(a + b, w)
  {
    if w.Done? {
      Associates(a, b, w.value);
    }
  }

  lemma Finished(style: Style, types: string -> string, out: string, lines: seq<Line>)
    requires out == Print(style, types, lines)
    ensures Writes(style, types, "", Done(out), After(lines, Done([])))
  {
    assert lines + [] == lines && "" + out == out;
  }

  lemma NextRoot(g: Graph, roots: seq<string>, i: nat, fuel: nat)
    requires i < |roots|
    ensures DrawRoots(g, roots[i..], fuel) == match Draw(g, roots[i], "", fuel)
                                              case Missing => Missing
                                              case TooDeep => TooDeep
                                              case Done(lines) => After(lines, DrawRoots(g, roots[i + 1..], fuel))
  {
    var rest := roots[i..];
    assert rest[0] == roots[i] && rest[1..] == roots[i + 1..];
  }

  /** The roots loop of showRescTree. */
  method PrintRoots(g: Graph, types: string -> string, roots: seq<string>, style: Style, fuel: nat)
    returns (r: Walk<string>)
    ensures Writes(style, types, "", r, DrawRoots(g, roots, fuel))
  {
    var out := "";
    ghost var lines: seq<Line> := [];
    assert roots[0..] == roots;
    AfterNothing(DrawRoots(g, roots, fuel));
    for i := 0 to |roots|
      invariant out == Print(style, types, lines)
      invariant DrawRoots(g, roots, fuel) == After(lines, DrawRoots(g, roots[i..], fuel))
    {
      var tree := PrintRescTree(g, types, roots[i], "", style, fuel);
      NextRoot(g, roots, i, fuel);
      if !tree.Done? {
        return tree;
      }
      ghost var more := Draw(g, roots[i], "", fuel).value;
      assert Lead(style, "") + tree.value == tree.value;
      PrintConcat(style, types, lines, more);
      AfterAfter(lines, more, DrawRoots(g, roots[i + 1..], fuel));
      out := out + tree.value;
      lines := lines + more;
    }
    Finished(style, types, out, lines);
    return Done(out);
  }

  /** Reads the marks off a line again. */
  function ReadLine(style: Style, s: string): Mark
    decreases |s|
  {
    if |s| >= 4 && (s[..4] == style.pipe || s[..4] == style.indent) then
      var m := ReadLine(style, s[4..]);
      Mark(m.level + 1, m.name)
    else if |s| >= 4 && (s[..4] == style.middle || s[..4] == style.last) then
      Mark(1, s[4..][..Find(s[4..], ':')])
    else Mark(0, s[..Find(s, ':')])
  }

  function ReadText(style: Style, text: string): seq<Mark>
    decreases |text|
  {
    var k := Find(text, '\n');
    if k == |text| then [] else [ReadLine(style, text[..k])] + ReadText(style, text[k + 1..])
  }

  /** A root's line must not begin like a drawn one. */
  predicate StartsPlain(style: Style, s: string) {
    |s| < 4 || s[..4] !in [style.pipe, style.indent, style.middle, style.last]
  }

  predicate Printable(style: Style, types: string -> string, line: Line) {
    && ':' !in line.name && '\n' !in line.name && '\n' !in types(line.name)
    && (line.depth == "" ==> StartsPlain(style, line.name + ":" + types(line.name)))
  }

  lemma LeadUnfolds(style: Style, depth: string)
    requires |depth| >= 2
    ensures Lead(style, depth) == (if depth[0] == '1' then style.pipe else style.indent) + Lead(style, depth[1..])
  {
    var init := depth[..|depth| - 1];
    assert init[1..] == depth[1..][..|depth| - 2] && init[0] == depth[0];
  }

  lemma ReadLevel(style: Style, c: string, rest: string)
    requires Legible(style)
    requires c == style.pipe || c == style.indent
    ensures ReadLine(style, c + rest) == Mark(ReadLine(style, rest).level + 1, ReadLine(style, rest).name)
  {
    assert (c + rest)[..4] == c && (c + rest)[4..] == rest;
  }

  lemma ReadConnector(style: Style, c: string, rest: string)
    requires Legible(style)
    requires c == style.middle || c == style.last
    ensures ReadLine(style, c + rest) == Mark(1, rest[..Find(rest, ':')])
  {
    assert (c + rest)[..4] == c && (c + rest)[4..] == rest;
  }

  lemma ReadRoot(style: Style, tag: string)
    requires StartsPlain(style, tag)
    ensures ReadLine(style, tag) == Mark(0, tag[..Find(tag, ':')])
  {
  }

  lemma {:induction false} LeadReadsBack(style: Style, depth: string, tag: string)
    requires Legible(style)
    requires depth == "" ==> StartsPlain(style, tag)
    ensures ReadLine(style, Lead(style, depth) + tag) == Mark(|depth|, tag[..Find(tag, ':')])
    decreases |depth|
  {
    if depth == "" {
      assert Lead(style, depth) + tag == tag;
      ReadRoot(style, tag);
    } else if |depth| == 1 {
      LeadOfOne(style, depth);
      ReadConnector(style, Lead(style, depth), tag);
    } else {
      LeadLevel(style, depth, tag);
      LeadReadsBack(style, depth[1..], tag);
    }
  }

  lemma LeadOfOne(style: Style, depth: string)
    requires |depth| == 1
    ensures Lead(style, depth) == if depth[0] == '1' then style.middle else style.last
  {
    var c := if depth[0] == '1' then style.middle else style.last;
    assert depth[..0] == "" && "" + c == c;
  }

  lemma LeadLevel(style: Style, depth: string, tag: string)
    requires Legible(style) && |depth| >= 2
    ensures var below := ReadLine(style, Lead(style, depth[1..]) + tag);
            ReadLine(style, Lead(style, depth) + tag) == Mark(below.level + 1, below.name)
  {
    var c, lead := if depth[0] == '1' then style.pipe else style.indent, Lead(style, depth[1..]);
    LeadUnfolds(style, depth);
    Associates(c, lead, tag);
    ReadLevel(style, c, lead + tag);
  }

  lemma {:induction false} DepthTextOneLine(style: Style, depth: string)
    requires Legible(style)
    ensures '\n' !in DepthText(style, depth)
  {
    if depth != "" { DepthTextOneLine(style, depth[1..]); }
  }

  lemma LeadOneLine(style: Style, depth: string)
    requires Legible(style)
    ensures '\n' !in Lead(style, depth)
  {
    if depth != "" { DepthTextOneLine(style, depth[..|depth| - 1]); }
  }

  lemma TagName(name: string, kind: string)
    requires ':' !in name
    ensures var tag := name + ":" + kind; tag[..Find(tag, ':')] == name
  {
    var tag := name + ":" + kind;
    assert tag == name + [':'] + kind;
    FindFirst(name, ':', kind);
    assert tag[..|name|] == name;
  }

  lemma LineReadsBack(style: Style, types: string -> string, line: Line)
    requires Legible(style)
    requires Printable(style, types, line)
    ensures ReadLine(style, LineText(style, types, line)) == Mark(|line.depth|, line.name)
  {
    var tag := line.name + ":" + types(line.name);
    TagName(line.name, types(line.name));
    LeadReadsBack(style, line.depth, tag);
    assert LineText(style, types, line) == Lead(style, line.depth) + tag;
  }

  lemma LineOneLine(style: Style, types: string -> string, line: Line)
    requires Legible(style)
    requires Printable(style, types, line)
    ensures '\n' !in LineText(style, types, line)
  {
    LeadOneLine(style, line.depth);
  }

  /** The printed text gives back every line's depth and name. */
  lemma {:induction false} TextReadsBack(style: Style, types: string -> string, lines: seq<Line>)
    requires Legible(style)
    requires forall i | 0 <= i < |lines| :: Printable(style, types, lines[i])
    ensures ReadText(style, Print(style, types, lines)) == MarksOf(lines)
    decreases |lines|
  {
    if lines != [] {
      var first, rest := LineText(style, types, lines[0]), Print(style, types, lines[1..]);
      LineReadsBack(style, types, lines[0]);
      LineOneLine(style, types, lines[0]);
      var text := first + "\n" + rest;
      assert text == first + ['\n'] + rest;
      FindFirst(first, '\n', rest);
      assert text[..|first|] == first && text[|first| + 1..] == rest;
      TextReadsBack(style, types, lines[1..]);
    }
  }

  /** The drawing determines the forest: every child list, in order, can be read
      off the text of either style. */
  lemma DrawingDeterminesForest(style: Style, types: string -> string, ts: seq<Tree>)
    requires Legible(style)
    requires forall i | 0 <= i < |ForestLines(ts)| :: Printable(style, types, ForestLines(ts)[i])
    ensures Rebuild(ReadText(style, Print(style, types, ForestLines(ts)))) == ts
  {
    TextReadsBack(style, types, ForestLines(ts));
    RebuildsForest(ts);
  }

  /** Without that condition two forests can have the same text: a child, or a
      second root whose name begins with the connector. */
  lemma TextNeedsPlainRoots(style: Style, types: string -> string, a: string, b: string)
    requires types(style.last + b) == types(b)
    ensures var child, root := [Node(a, [Node(b, [])])], [Node(a, []), Node(style.last + b, [])];
            child != root && Print(style, types, ForestLines(child)) == Print(style, types, ForestLines(root))
  {
    var below, beside, above := Node(b, []), Node(style.last + b, []), Node(a, []);
    var child, root := [Node(a, [below])], [above, beside];
    assert |child| != |root|;
    assert root[1..] == [beside] && child[1..] == [];
    LeafForest(above, [beside]);
    LeafForest(beside, []);
    assert ForestLines(root) == [Line("", a), Line("", beside.name)];
    OneChild(a, below);
    assert ForestLines(child) == [Line("", a), Line("0", b)];
    SameLine(style, types, b);
    TwoLines(style, types, Line("", a), Line("", beside.name));
    TwoLines(style, types, Line("", a), Line("0", b));
  }

  lemma LeafForest(t: Tree, ts: seq<Tree>)
    requires t.kids == []
    ensures LinesOf(t, "") == [Line("", t.name)] && ForestLines([t] + ts) == [Line("", t.name)] + ForestLines(ts)
  {
    assert KidLines(t.kids, "") == [];
    assert ([t] + ts)[1..] == ts;
  }

  lemma OneChild(a: string, t: Tree)
    requires t.kids == []
    ensures LinesOf(Node(a, [t]), "") == [Line("", a), Line("0", t.name)]
  {
    assert [t][1..] == [] && "" + "0" == "0";
    assert KidLines(t.kids, "0") == [];
    assert LinesOf(t, "0") == [Line("0", t.name)];
    assert KidLines([t], "") == LinesOf(t, "0") + KidLines([], "");
  }

  lemma SameLine(style: Style, types: string -> string, b: string)
    requires types(style.last + b) == types(b)
    ensures LineText(style, types, Line("0", b)) == LineText(style, types, Line("", style.last + b))
  {
    LeadBelow(style, "", true);
    assert "" + "0" == "0" && DepthText(style, "") + style.last == style.last;
    assert Lead(style, "0") == style.last;
    assert "" + (style.last + b) == style.last + b;
  }

  lemma TwoLines(style: Style, types: string -> string, a: Line, b: Line)
    ensures Print(style, types, [a, b]) == LineText(style, types, a) + "\n" + (LineText(style, types, b) + "\n")
  {
    assert [a, b][1..] == [b] && [b][1..] == [];
    assert Print(style, types, [b]) == LineText(style, types, b) + "\n" + "";
    assert LineText(style, types, b) + "\n" + "" == LineText(style, types, b) + "\n";
  }

  /** What a run of the roots loop has written determines the forest it walked. */
  lemma OutputDeterminesForest(style: Style, types: string -> string, g: Graph, roots: seq<string>, fuel: nat,
                               out: string)
    requires Legible(style) && UnfoldAll(g, roots, fuel).Done?
    requires Writes(style, types, "", Done(out), DrawRoots(g, roots, fuel))
    requires var lines := ForestLines(UnfoldAll(g, roots, fuel).value);
             forall i | 0 <= i < |lines| :: Printable(style, types, lines[i])
    ensures Rebuild(ReadText(style, out)) == UnfoldAll(g, roots, fuel).value
  {
    DrawsForest(g, roots, fuel);
    assert "" + out == out;
    DrawingDeterminesForest(style, types, UnfoldAll(g, roots, fuel).value);
  }
}
