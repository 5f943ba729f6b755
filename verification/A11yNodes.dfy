/** Which nodes of the document a page read puts out, and what a reader of its lines can tell. */
module A11yNodes {
  import opened Prelude
  import opened A11y
  import T = Text

  // ------------------------------------------------------------------ where a read starts

  ghost predicate HasNode(nodes: seq<Node>, id: string) {
    exists i :: 0 <= i < |nodes| && nodes[i].id == id
  }

  /** The table holds under each id the last node that has it. */
  lemma {:induction false} TableIs(nodes: seq<Node>, id: string)
    ensures id in Table(nodes) <==> HasNode(nodes, id)
    ensures id in Table(nodes) ==>
      exists i :: 0 <= i < |nodes| && nodes[i] == Table(nodes)[id] && nodes[i].id == id
                  && forall j :: i < j < |nodes| ==> nodes[j].id != id
  {
    if nodes != [] {
      var front, last := nodes[..|nodes| - 1], nodes[|nodes| - 1];
      TableIs(front, id);
      if HasNode(nodes, id) && last.id != id {
        var i :| 0 <= i < |nodes| && nodes[i].id == id;
        assert front[i].id == id;
      }
      if HasNode(front, id) {
        var i :| 0 <= i < |front| && front[i].id == id;
        assert nodes[i].id == id;
      }
      if last.id != id && id in Table(front) {
        var i :| 0 <= i < |front| && front[i] == Table(front)[id] && front[i].id == id
                 && forall j :: i < j < |front| ==> front[j].id != id;
        assert nodes[i] == front[i] && forall j :: i < j < |nodes| ==> nodes[j].id != id;
      }
    }
  }

  /** No node of the document is its parent. */
  ghost predicate Parentless(nodes: seq<Node>, n: Node) {
    n.parent.None? || n.parent.value == "" || !HasNode(nodes, n.parent.value)
  }

  lemma {:induction false} RootsAre(byId: map<string, Node>, nodes: seq<Node>, all: seq<Node>)
    requires forall id :: id in byId <==> HasNode(all, id)
    ensures forall n :: n in Roots(byId, nodes) <==> n in nodes && Parentless(all, n)
  {
    hide HasNode;
    if nodes != [] {
      RootsAre(byId, nodes[1..], all);
      assert nodes == [nodes[0]] + nodes[1..];
    }
  }

  lemma {:induction false} FirstWithBackend(nodes: seq<Node>, backend: int)
    ensures match WithBackend(nodes, backend)
            case None => forall i :: 0 <= i < |nodes| ==> nodes[i].backend != Some(backend)
            case Some(n) => exists i :: 0 <= i < |nodes| && nodes[i] == n && n.backend == Some(backend)
                                        && forall j :: 0 <= j < i ==> nodes[j].backend != Some(backend)
  {
    if nodes != [] && nodes[0].backend != Some(backend) {
      FirstWithBackend(nodes[1..], backend);
      var rest := nodes[1..];
      if WithBackend(rest, backend).Some? {
        var i :| 0 <= i < |rest| && rest[i] == WithBackend(rest, backend).value
                 && forall j :: 0 <= j < i ==> rest[j].backend != Some(backend);
        assert nodes[i + 1] == rest[i];
        assert forall j :: 0 < j < i + 1 ==> nodes[j] == rest[j - 1];
      } else {
        assert forall i :: 0 < i < |nodes| ==> nodes[i] == rest[i - 1];
      }
    }
  }

  /** The read is restricted to this node: the first of the document with the backend id that was asked for. */
  ghost predicate IsScope(nodes: seq<Node>, o: Options, n: Node) {
    o.scope.Some? && exists i :: 0 <= i < |nodes| && nodes[i] == n && n.backend == o.scope
                                 && forall j :: 0 <= j < i ==> nodes[j].backend != o.scope
  }

  /** A read starts from its node alone, or, if none was asked for or that one is gone, from the parentless nodes. */
  lemma StartsAre(nodes: seq<Node>, o: Options, n: Node)
    ensures n in StartNodes(nodes, o)
            <==> if exists i :: 0 <= i < |nodes| && o.scope.Some? && nodes[i].backend == o.scope then IsScope(nodes, o, n)
                 else n in nodes && Parentless(nodes, n)
  {
    hide HasNode, Roots, Table, WithBackend;
    forall id ensures id in Table(nodes) <==> HasNode(nodes, id) {
      TableIs(nodes, id);
    }
    RootsAre(Table(nodes), nodes, nodes);
    if o.scope.Some? {
      FirstWithBackend(nodes, o.scope.value);
    }
  }

  // ------------------------------------------------------------------ which nodes are reached

  /** Each node after the first is, by the table, a child of the one before it. */
  ghost predicate IsPath(byId: map<string, Node>, path: seq<Node>) {
    path != [] && forall i :: 0 <= i < |path| - 1 ==> IsChild(byId, path[i], path[i + 1])
  }

  ghost predicate IsChild(byId: map<string, Node>, n: Node, c: Node) {
    exists k :: 0 <= k < |n.children| && n.children[k] in byId && byId[n.children[k]] == c
  }

  /** `m` lies `steps` levels below `n`. */
  ghost predicate Below(byId: map<string, Node>, n: Node, m: Node, steps: nat) {
    exists path :: IsPath(byId, path) && |path| == steps + 1 && path[0] == n && path[steps] == m
  }

  /** `m` lies at most so many levels below `n`. */
  ghost predicate Within(byId: map<string, Node>, n: Node, m: Node, levels: int) {
    exists steps: nat :: steps <= levels && Below(byId, n, m, steps)
  }

  lemma {:induction false} FoundAre(byId: map<string, Node>, ids: seq<string>, c: Node)
    ensures c in Found(byId, ids) <==> exists k :: 0 <= k < |ids| && ids[k] in byId && byId[ids[k]] == c
  {
    if ids != [] {
      var front := ids[..|ids| - 1];
      FoundAre(byId, front, c);
      if k :| 0 <= k < |front| && front[k] in byId && byId[front[k]] == c {
        assert ids[k] == front[k];
      }
      if k :| 0 <= k < |ids| && ids[k] in byId && byId[ids[k]] == c {
        assert k < |front| ==> front[k] == ids[k];
      }
    }
  }

  lemma {:induction false} VisitedAllAre(byId: map<string, Node>, maxDepth: int, nodes: seq<Node>, depth: nat, m: Node)
    ensures m in VisitedAll(byId, maxDepth, nodes, depth) <==> exists n :: n in nodes && m in Visited(byId, maxDepth, n, depth)
  {
    hide Visited;
    if nodes != [] {
      var front, last := nodes[..|nodes| - 1], nodes[|nodes| - 1];
      assert nodes == front + [last];
      VisitedAllAre(byId, maxDepth, front, depth, m);
      if n :| n in nodes && m in Visited(byId, maxDepth, n, depth) {
        assert n in front || n == last;
      }
    }
  }

  lemma BelowItself(byId: map<string, Node>, n: Node)
    ensures Below(byId, n, n, 0)
  {
    assert IsPath(byId, [n]);
  }

  lemma BelowChild(byId: map<string, Node>, n: Node, c: Node, m: Node, steps: nat)
    requires IsChild(byId, n, c) && Below(byId, c, m, steps)
    ensures Below(byId, n, m, steps + 1)
  {
    hide IsChild;
    var path :| IsPath(byId, path) && |path| == steps + 1 && path[0] == c && path[steps] == m;
    assert IsPath(byId, [n] + path);
  }

  lemma BelowStep(byId: map<string, Node>, n: Node, m: Node, steps: nat) returns (c: Node)
    requires Below(byId, n, m, steps) && steps > 0
    ensures IsChild(byId, n, c) && Below(byId, c, m, steps - 1)
  {
    hide IsChild;
    var path :| IsPath(byId, path) && |path| == steps + 1 && path[0] == n && path[steps] == m;
    c := path[1];
    assert IsChild(byId, path[0], path[0 + 1]);
    assert IsPath(byId, path[1..]);
  }

  /** The walk visits exactly the nodes at most so many levels below the one it starts from. */
  lemma {:induction false} VisitedIff(byId: map<string, Node>, maxDepth: int, n: Node, depth: nat, m: Node)
    ensures m in Visited(byId, maxDepth, n, depth) <==> Within(byId, n, m, maxDepth - depth)
    decreases if depth > maxDepth then 0 else maxDepth - depth + 1
  {
    hide Below, IsChild, VisitedAll, Found;
    if depth <= maxDepth {
      var children := Found(byId, n.children);
      VisitedAllAre(byId, maxDepth, children, depth + 1, m);
      forall c ensures (c in children <==> IsChild(byId, n, c))
      {
        ChildrenAre(byId, n, c);
      }
      if m in Visited(byId, maxDepth, n, depth) {
        if m == n {
          BelowItself(byId, n);
        } else {
          var c :| c in children && m in Visited(byId, maxDepth, c, depth + 1);
          VisitedIff(byId, maxDepth, c, depth + 1, m);
          var steps: nat :| steps <= maxDepth - depth - 1 && Below(byId, c, m, steps);
          BelowChild(byId, n, c, m, steps);
        }
      }
      if steps: nat :| steps <= maxDepth - depth && Below(byId, n, m, steps) {
        if steps == 0 {
          NoSteps(byId, n, m);
        } else {
          var c := BelowStep(byId, n, m, steps);
          VisitedIff(byId, maxDepth, c, depth + 1, m);
        }
      }
    }
  }

  lemma ChildrenAre(byId: map<string, Node>, n: Node, c: Node)
    ensures c in Found(byId, n.children) <==> IsChild(byId, n, c)
  {
    FoundAre(byId, n.children, c);
  }

  lemma NoSteps(byId: map<string, Node>, n: Node, m: Node)
    requires Below(byId, n, m, 0)
    ensures m == n
  {
  }

  // ------------------------------------------------------------------ which of them are put out

  function NodesOf(rows: seq<Row>): (r: seq<Node>)
    ensures |r| == |rows| && forall i :: 0 <= i < |r| ==> r[i] == rows[i].node
  {
    seq(|rows|, i requires 0 <= i < |rows| => rows[i].node)
  }

  function Listed(nodes: seq<Node>, interactiveOnly: bool): seq<Node> {
    if nodes == [] then []
    else
      var last := nodes[|nodes| - 1];
      Listed(nodes[..|nodes| - 1], interactiveOnly) + (if IsListed(last, interactiveOnly) then [last] else [])
  }

  lemma {:induction false} ListedConcat(a: seq<Node>, b: seq<Node>, only: bool)
    ensures Listed(a + b, only) == Listed(a, only) + Listed(b, only)
  {
    hide IsListed;
    if b == [] {
      assert a + b == a;
    } else {
      ListedConcat(a, b[..|b| - 1], only);
      assert (a + b)[..|a + b| - 1] == a + b[..|b| - 1];
    }
  }

  lemma NodesConcat(a: seq<Row>, b: seq<Row>)
    ensures NodesOf(a + b) == NodesOf(a) + NodesOf(b)
  {
  }

  lemma OwnListed(o: Options, n: Node, indent: nat, counter: nat)
    ensures NodesOf(Own(o, n, indent, counter)) == Listed([n], o.interactiveOnly)
  {
    hide IsListed, GetsRef;
    assert [n][..0] == [];
  }

  /** The rows are the listed ones among the visited nodes, in the order they are visited. */
  lemma {:induction false} RowsAreListed(byId: map<string, Node>, o: Options, n: Node, depth: nat, indent: nat, counter: nat)
    ensures NodesOf(Walk(byId, o, n, depth, indent, counter)) == Listed(Visited(byId, o.maxDepth, n, depth), o.interactiveOnly)
    decreases if depth > o.maxDepth then 0 else o.maxDepth - depth + 1, 0, 0
  {
    hide Own, NodesOf, Listed, RefCount, WalkAll, VisitedAll, Found;
    if depth > o.maxDepth {
      NothingListed(o.interactiveOnly);
    } else {
      var own, nodes := Own(o, n, indent, counter), Found(byId, n.children);
      var next, c := if own == [] then indent else indent + 1, counter + RefCount(own);
      OwnListed(o, n, indent, counter);
      AllRowsAreListed(byId, o, nodes, depth + 1, next, c);
      NodesConcat(own, WalkAll(byId, o, nodes, depth + 1, next, c));
      ListedConcat([n], VisitedAll(byId, o.maxDepth, nodes, depth + 1), o.interactiveOnly);
    }
  }

  lemma NothingListed(only: bool)
    ensures NodesOf([]) == Listed([], only) == []
  {
  }

  lemma {:induction false} AllRowsAreListed(byId: map<string, Node>, o: Options, nodes: seq<Node>, depth: nat, indent: nat, counter: nat)
    ensures NodesOf(WalkAll(byId, o, nodes, depth, indent, counter)) == Listed(VisitedAll(byId, o.maxDepth, nodes, depth), o.interactiveOnly)
    decreases if depth > o.maxDepth then 0 else o.maxDepth - depth + 1, 1, |nodes|
  {
    hide Walk, Visited, NodesOf, Listed, RefCount;
    if nodes == [] {
      NothingListed(o.interactiveOnly);
    } else {
      var m := |nodes| - 1;
      var before := WalkAll(byId, o, nodes[..m], depth, indent, counter);
      var c := counter + RefCount(before);
      AllRowsAreListed(byId, o, nodes[..m], depth, indent, counter);
      RowsAreListed(byId, o, nodes[m], depth, indent, c);
      NodesConcat(before, Walk(byId, o, nodes[m], depth, indent, c));
      ListedConcat(VisitedAll(byId, o.maxDepth, nodes[..m], depth), Visited(byId, o.maxDepth, nodes[m], depth), o.interactiveOnly);
    }
  }

  lemma {:induction false} InListed(nodes: seq<Node>, only: bool, m: Node)
    ensures m in Listed(nodes, only) <==> m in nodes && IsListed(m, only)
  {
    hide IsListed;
    if nodes != [] {
      var n := |nodes| - 1;
      InListed(nodes[..n], only, m);
      assert nodes == nodes[..n] + [nodes[n]];
    }
  }

  /**
   * A read, before it is capped, puts out exactly the listed nodes at most `maxDepth` levels below where it starts: below
   * the node it is restricted to, if that is there, and otherwise below the parentless nodes.
   */
  lemma ReadShows(nodes: seq<Node>, o: Options, refStart: nat, m: Node)
    ensures m in NodesOf(Rows(nodes, o, refStart))
            <==> IsListed(m, o.interactiveOnly)
                 && exists n :: n in StartNodes(nodes, o) && Within(Table(nodes), n, m, o.maxDepth)
  {
    hide NodesOf, Listed, IsListed, WalkAll, VisitedAll, Visited, StartNodes, Table, Within;
    var byId, starts := Table(nodes), StartNodes(nodes, o);
    AllRowsAreListed(byId, o, starts, 0, 0, refStart);
    InListed(VisitedAll(byId, o.maxDepth, starts, 0), o.interactiveOnly, m);
    VisitedAllAre(byId, o.maxDepth, starts, 0, m);
    forall n ensures m in Visited(byId, o.maxDepth, n, 0) <==> Within(byId, n, m, o.maxDepth) {
      VisitedIff(byId, o.maxDepth, n, 0, m);
    }
  }

  /** What is listed: visible nodes of an interactive role; and, unless only those are wanted, any visible node with a name or
      a value whose role is none of the five that are skipped. */
  lemma ListedMeans(n: Node, interactiveOnly: bool)
    ensures IsListed(n, interactiveOnly)
            <==> !n.hidden && (InteractiveRole(n.role)
                               || (!interactiveOnly && (n.name != "" || n.hasValue)
                                   && n.role !in {"none", "presentation", "generic", "InlineTextBox", "LineBreak"}))
  {
  }

  lemma InteractiveRolesAre(role: string)
    ensures InteractiveRole(role)
            <==> role in {"button", "link", "textbox", "searchbox", "checkbox", "radio", "combobox", "listbox", "option", "menuitem"}
                 || role in {"menuitemcheckbox", "menuitemradio", "tab", "switch", "slider", "spinbutton", "treeitem"}
                 || role in {"gridcell", "cell", "columnheader", "rowheader", "row", "code", "textfield"}
  {
  }

  // ------------------------------------------------------------------ what the lines tell

  /** The level of a line, by its blanks. */
  function LevelOf(line: string): nat {
    if |line| >= 2 && line[0] == ' ' && line[1] == ' ' then 1 + LevelOf(line[2..]) else 0
  }

  /** The number between `[ref_` and `]` at the start of a text, if there is one. */
  function RefOf(s: string): Option<nat> {
    if "[ref_" <= s && T.DigitsBefore(s[5..], ']') != "" then Some(T.ValueOf(T.DigitsBefore(s[5..], ']'))) else None
  }

  lemma {:induction false} LevelBehind(k: nat, s: string)
    requires s == "" || s[0] != ' '
    ensures LevelOf(Spaces(2 * k) + s) == k && (Spaces(2 * k) + s)[2 * k..] == s
  {
    if k == 0 {
      assert Spaces(0) + s == s;
    } else {
      LevelBehind(k - 1, s);
      assert Spaces(2 * k) == [' ', ' '] + Spaces(2 * (k - 1));
      assert (Spaces(2 * k) + s)[2..] == Spaces(2 * (k - 1)) + s;
    }
  }

  lemma TagTells(k: nat, role: string)
    ensures var text := "[" + RefName(k) + "] " + role; RefOf(text) == Some(k) && text[0] == '['
  {
    hide T.ValueOf, T.DigitsBefore, T.Decimal;
    var digits := T.Decimal(k);
    T.DecimalReads(k);
    T.DigitsAre(digits, ']', " " + role);
    var text := "[" + RefName(k) + "] " + role;
    TagParts(digits, role);
    assert text[5..] == digits + "]" + (" " + role);
    assert text[..5] == "[ref_";
  }

  lemma TagParts(digits: string, role: string)
    ensures "[" + ("ref_" + digits) + "] " + role == "[ref_" + (digits + "]" + (" " + role))
  {
  }

  lemma NoTagTells(text: string)
    requires text == "" || text[0] != '['
    ensures RefOf(text) == None
  {
  }

  /** A line tells the level and the reference of its row, whatever the node; roles never start with a blank or a bracket. */
  lemma LineTells(row: Row)
    requires row.node.role == "" || row.node.role[0] !in " ["
    ensures LevelOf(Line(row)) == row.depth
    ensures |Line(row)| >= 2 * row.depth && RefOf(Line(row)[2 * row.depth..]) == row.ref
  {
    hide RefOf, RefName, LevelOf, Spaces;
    var role := (if row.node.role == "" then "node" else row.node.role) + row.node.details;
    var tag := if row.ref.Some? then "[" + RefName(row.ref.value) + "] " else "";
    var rest := tag + role;
    var blanks := Spaces(2 * row.depth);
    assert Line(row) == blanks + rest by {
      assert blanks + tag + (if row.node.role == "" then "node" else row.node.role) + row.node.details == blanks + (tag + role);
    }
    if row.ref.Some? {
      TagTells(row.ref.value, role);
    } else {
      assert rest == role;
      NoTagTells(rest);
    }
    LevelBehind(row.depth, rest);
    BlanksLength(row.depth);
  }

  lemma BlanksLength(n: nat)
    ensures |Spaces(2 * n)| == 2 * n
  {
  }
}
