/** The accessibility tree as numbered text: a depth-first walk with a depth limit and a character budget. */
module A11y {
  import opened Prelude
  import T = Text

  /**
   * A node of the accessibility tree. `hidden` stands for an ignored node or one with the `hidden` property,
   * `details` for the quoted name, value, description and properties that follow the role in its line.
   */
  datatype Node = Node(
    id: string,
    parent: Option<string>,
    children: seq<string>,
    backend: Option<int>,
    role: string,
    name: string,
    hasValue: bool,
    hidden: bool,
    focusable: bool,
    details: string)

  datatype Options = Options(interactiveOnly: bool, maxDepth: int, scope: Option<int>, maxChars: nat)

  datatype Entry = Entry(backend: int, role: string, name: string)

  datatype Row = Row(ref: Option<nat>, node: Node, depth: nat)

  predicate InteractiveRole(role: string) {
    role in {
      "button", "link", "textbox", "searchbox", "checkbox", "radio", "combobox", "listbox", "option", "menuitem",
      "menuitemcheckbox", "menuitemradio", "tab", "switch", "slider", "spinbutton", "treeitem", "gridcell", "cell",
      "columnheader", "rowheader", "row", "code", "textfield"}
  }

  predicate SkippedRole(role: string) {
    role in {"none", "presentation", "generic", "InlineTextBox", "LineBreak"}
  }

  predicate IsInteractive(n: Node) {
    InteractiveRole(n.role) || (n.role == "generic" && n.focusable)
  }

  predicate IsMeaningful(n: Node) {
    !n.hidden && !SkippedRole(n.role) && (IsInteractive(n) || n.name != "" || n.hasValue)
  }

  predicate IsListed(n: Node, interactiveOnly: bool) {
    IsMeaningful(n) && (!interactiveOnly || IsInteractive(n))
  }

  predicate GetsRef(n: Node) {
    IsInteractive(n) && n.backend.Some?
  }

  function Spaces(n: nat): string {
    seq(n, _ => ' ')
  }

  function RefName(k: nat): string {
    "ref_" + T.Decimal(k)
  }

  lemma RefNamesDiffer(j: nat, k: nat)
    ensures RefName(j) == RefName(k) ==> j == k
  {
    if RefName(j) == RefName(k) {
      assert T.Decimal(j) == RefName(j)[4..] == T.Decimal(k);
      T.DecimalInjective(j, k);
    }
  }

  function Line(row: Row): string {
    Spaces(2 * row.depth) + (if row.ref.Some? then "[" + RefName(row.ref.value) + "] " else "")
    + (if row.node.role == "" then "node" else row.node.role) + row.node.details
  }

  // ------------------------------------------------------------------ the walk without a budget

  function Found(byId: map<string, Node>, ids: seq<string>): seq<Node> {
    if ids == [] then []
    else
      var last := ids[|ids| - 1];
      Found(byId, ids[..|ids| - 1]) + (if last in byId then [byId[last]] else [])
  }

  function RefCount(rows: seq<Row>): nat {
    if rows == [] then 0 else RefCount(rows[..|rows| - 1]) + (if rows[|rows| - 1].ref.Some? then 1 else 0)
  }

  function Own(o: Options, n: Node, indent: nat, counter: nat): seq<Row> {
    if IsListed(n, o.interactiveOnly) then [Row(if GetsRef(n) then Some(counter + 1) else None, n, indent)] else []
  }

  /** The rows for `n` and what is below it, if the last reference given was `counter`. */
  function Walk(byId: map<string, Node>, o: Options, n: Node, depth: nat, indent: nat, counter: nat): seq<Row>
    decreases if depth > o.maxDepth then 0 else o.maxDepth - depth + 1, 0, 0
  {
    if depth > o.maxDepth then []
    else
      var own := Own(o, n, indent, counter);
      own + WalkAll(byId, o, Found(byId, n.children), depth + 1, if own == [] then indent else indent + 1, counter + RefCount(own))
  }

  function WalkAll(byId: map<string, Node>, o: Options, nodes: seq<Node>, depth: nat, indent: nat, counter: nat): seq<Row>
    decreases if depth > o.maxDepth then 0 else o.maxDepth - depth + 1, 1, |nodes|
  {
    if nodes == [] then []
    else
      var before := WalkAll(byId, o, nodes[..|nodes| - 1], depth, indent, counter);
      before + Walk(byId, o, nodes[|nodes| - 1], depth, indent, counter + RefCount(before))
  }

  // ------------------------------------------------------------------ the budget

  datatype Output = Output(counter: nat, chars: nat, truncated: bool, lines: seq<string>, rows: seq<Row>, refs: map<nat, Entry>)

  function Begun(counter: nat): Output {
    Output(counter, 0, false, [], [], map[])
  }

  /** One row: it is numbered and registered before its length is known. */
  function Put(out: Output, row: Row, maxChars: nat): Output {
    if out.truncated then out
    else
      var counter := if row.ref.Some? then out.counter + 1 else out.counter;
      var refs := if row.ref.Some? && row.node.backend.Some?
                  then out.refs[counter := Entry(row.node.backend.value, row.node.role, row.node.name)] else out.refs;
      var chars := out.chars + |Line(row)| + 1;
      if chars > maxChars then out.(counter := counter, refs := refs, chars := chars, truncated := true)
      else Output(counter, chars, false, out.lines + [Line(row)], out.rows + [row], refs)
  }

  function PutAll(out: Output, rows: seq<Row>, maxChars: nat): Output {
    if rows == [] then out else Put(PutAll(out, rows[..|rows| - 1], maxChars), rows[|rows| - 1], maxChars)
  }

  lemma {:induction false} PutConcat(out: Output, a: seq<Row>, b: seq<Row>, maxChars: nat)
    ensures PutAll(out, a + b, maxChars) == PutAll(PutAll(out, a, maxChars), b, maxChars)
  {
    hide Put;
    if b == [] {
      assert a + b == a;
    } else {
      PutConcat(out, a, b[..|b| - 1], maxChars);
      assert (a + b)[..|a + b| - 1] == a + b[..|b| - 1];
    }
  }

  lemma {:induction false} RefCountConcat(a: seq<Row>, b: seq<Row>)
    ensures RefCount(a + b) == RefCount(a) + RefCount(b)
  {
    if b == [] {
      assert a + b == a;
    } else {
      RefCountConcat(a, b[..|b| - 1]);
      assert (a + b)[..|a + b| - 1] == a + b[..|b| - 1];
    }
  }

  lemma {:induction false} PutCounts(out: Output, rows: seq<Row>, maxChars: nat)
    ensures var t := PutAll(out, rows, maxChars);
            && (out.truncated ==> t == out)
            && (!t.truncated ==> !out.truncated && t.counter == out.counter + RefCount(rows))
  {
    hide Line;
    if rows != [] {
      PutCounts(out, rows[..|rows| - 1], maxChars);
    }
  }

  // ------------------------------------------------------------------ the traversal as it runs

  class Builder {
    const byId: map<string, Node>
    const opts: Options
    var counter: nat
    var chars: nat
    var truncated: bool
    var lines: seq<string>
    var rows: seq<Row>
    var refs: map<nat, Entry>

    constructor (byId: map<string, Node>, opts: Options, refStart: nat)
      ensures this.byId == byId && this.opts == opts && View() == Begun(refStart)
    {
      this.byId, this.opts := byId, opts;
      counter, chars, truncated, lines, rows, refs := refStart, 0, false, [], [], map[];
    }

    ghost function View(): Output
      reads this
    {
      Output(counter, chars, truncated, lines, rows, refs)
    }

    /** Number, register and append one node; the result says whether the walk goes on. */
    method Append(n: Node, indent: nat) returns (more: bool)
      requires !truncated
      modifies this
      ensures View() == Put(old(View()), Row(if GetsRef(n) then Some(old(counter) + 1) else None, n, indent), opts.maxChars)
      ensures more == !truncated
    {
      hide Line, IsInteractive;
      var ref := None;
      if GetsRef(n) {
        counter := counter + 1;
        ref := Some(counter);
        refs := refs[counter := Entry(n.backend.value, n.role, n.name)];
      }
      var row := Row(ref, n, indent);
      var line := Line(row);
      chars := chars + |line| + 1;
      if chars > opts.maxChars {
        truncated := true;
        return false;
      }
      lines, rows := lines + [line], rows + [row];
      more := true;
    }

    method Visit(n: Node, depth: nat, indent: nat)
      modifies this
      ensures View() == PutAll(old(View()), Walk(byId, opts, n, depth, indent, old(counter)), opts.maxChars)
      decreases if depth > opts.maxDepth then 0 else opts.maxDepth - depth + 1
    {
      hide Put, IsListed, GetsRef;
      ghost var was := View();
      ghost var rowsHere := Walk(byId, opts, n, depth, indent, counter);
      PutCounts(was, rowsHere, opts.maxChars);
      if truncated || depth > opts.maxDepth {
        return;
      }
      ghost var own := Own(opts, n, indent, counter);
      var nextIndent := indent;
      if IsListed(n, opts.interactiveOnly) {
        assert PutAll(was, own, opts.maxChars) == Put(was, own[0], opts.maxChars) by {
          assert own[..0] == [];
        }
        var more := Append(n, indent);
        nextIndent := indent + 1;
        if !more {
          PutConcat(was, own, rowsHere[|own|..], opts.maxChars);
          PutCounts(View(), rowsHere[|own|..], opts.maxChars);
          assert own + rowsHere[|own|..] == rowsHere;
          return;
        }
      }
      VisitChildren(n, depth, nextIndent);
      PutConcat(was, own, rowsHere[|own|..], opts.maxChars);
      assert own + rowsHere[|own|..] == rowsHere;
      PutCounts(was, own, opts.maxChars);
    }

    method VisitChildren(n: Node, depth: nat, indent: nat)
      requires !truncated && depth <= opts.maxDepth
      modifies this
      ensures View() == PutAll(old(View()), WalkAll(byId, opts, Found(byId, n.children), depth + 1, indent, old(counter)), opts.maxChars)
      decreases opts.maxDepth - depth + 1, 0
    {
      hide Put, Walk;
      ghost var was := View();
      for i := 0 to |n.children|
        invariant View() == PutAll(was, WalkAll(byId, opts, Found(byId, n.children[..i]), depth + 1, indent, was.counter), opts.maxChars)
      {
        assert n.children[..i + 1][..i] == n.children[..i];
        ghost var done := Found(byId, n.children[..i]);
        ghost var before := WalkAll(byId, opts, done, depth + 1, indent, was.counter);
        if n.children[i] in byId {
          var c := byId[n.children[i]];
          assert (done + [c])[..|done|] == done;
          PutCounts(was, before, opts.maxChars);
          ghost var below := Walk(byId, opts, c, depth + 1, indent, was.counter + RefCount(before));
          PutConcat(was, before, below, opts.maxChars);
          PutCounts(View(), below, opts.maxChars);
          PutCounts(View(), Walk(byId, opts, c, depth + 1, indent, counter), opts.maxChars);
          Visit(c, depth + 1, indent);
        } else {
          assert done + [] == done;
        }
      }
      assert n.children[..|n.children|] == n.children;
    }

    method VisitAll(nodes: seq<Node>)
      modifies this
      ensures View() == PutAll(old(View()), WalkAll(byId, opts, nodes, 0, 0, old(counter)), opts.maxChars)
    {
      hide Put, Walk;
      ghost var was := View();
      for i := 0 to |nodes|
        invariant View() == PutAll(was, WalkAll(byId, opts, nodes[..i], 0, 0, was.counter), opts.maxChars)
      {
        assert nodes[..i + 1][..i] == nodes[..i];
        ghost var before := WalkAll(byId, opts, nodes[..i], 0, 0, was.counter);
        ghost var below := Walk(byId, opts, nodes[i], 0, 0, was.counter + RefCount(before));
        PutCounts(was, before, opts.maxChars);
        PutConcat(was, before, below, opts.maxChars);
        PutCounts(View(), below, opts.maxChars);
        PutCounts(View(), Walk(byId, opts, nodes[i], 0, 0, counter), opts.maxChars);
        Visit(nodes[i], 0, 0);
      }
      assert nodes[..|nodes|] == nodes;
    }
  }

  // ------------------------------------------------------------------ a capped output is a prefix

  function Lines(rows: seq<Row>): seq<string> {
    seq(|rows|, i requires 0 <= i < |rows| => Line(rows[i]))
  }

  /** The size of some lines, each with its newline. */
  function Size(lines: seq<string>): nat {
    if lines == [] then 0 else Size(lines[..|lines| - 1]) + |lines[|lines| - 1]| + 1
  }

  /** The first `n` lines fit, and no more of them do. */
  ghost predicate JustFits(lines: seq<string>, n: nat, maxChars: nat) {
    n <= |lines| && Size(lines[..n]) <= maxChars && (n < |lines| ==> Size(lines[..n + 1]) > maxChars)
  }

  lemma JustFitsWithMore(lines: seq<string>, n: nat, line: string, maxChars: nat)
    requires JustFits(lines, n, maxChars)
    ensures n < |lines| ==> JustFits(lines + [line], n, maxChars) && (lines + [line])[..n] == lines[..n]
    ensures n == |lines| ==>
              if Size(lines) + |line| + 1 > maxChars then JustFits(lines + [line], n, maxChars) && (lines + [line])[..n] == lines
              else JustFits(lines + [line], n + 1, maxChars) && (lines + [line])[..n + 1] == lines + [line]
  {
    var all := lines + [line];
    assert all[..|lines|] == lines == lines[..|lines|] && all[..|lines| + 1] == all;
    if n < |lines| {
      assert all[..n] == lines[..n] && all[..n + 1] == lines[..n + 1];
    }
  }

  /** The longest prefix of the rows that fits, marked if anything is missing. */
  ghost predicate Capped(out: Output, rows: seq<Row>, maxChars: nat) {
    var n := |out.lines|;
    && n <= |rows| && JustFits(Lines(rows), n, maxChars)
    && out.lines == Lines(rows)[..n] && out.rows == rows[..n]
    && (out.truncated <==> n < |rows|)
    && (!out.truncated ==> out.chars == Size(out.lines))
  }

  lemma PutCapped(out: Output, rows: seq<Row>, row: Row, maxChars: nat)
    requires Capped(out, rows, maxChars)
    ensures Capped(Put(out, row, maxChars), rows + [row], maxChars)
  {
    hide Line, JustFits, Size;
    var n, lines, all := |out.lines|, Lines(rows), rows + [row];
    assert Lines(all) == lines + [Line(row)];
    JustFitsWithMore(lines, n, Line(row), maxChars);
    SizeOfMore(lines, Line(row));
    if out.truncated {
      assert all[..n] == rows[..n];
    } else {
      assert lines[..n] == lines && rows[..n] == rows && all[..n] == rows && all[..n + 1] == all;
    }
  }

  /** What is put out is the longest prefix of the whole walk that fits. */
  lemma {:induction false} CappedIsPrefix(counter: nat, rows: seq<Row>, maxChars: nat)
    ensures Capped(PutAll(Begun(counter), rows, maxChars), rows, maxChars)
  {
    hide Capped, Put;
    if rows == [] {
      NothingFits(counter, maxChars);
    } else {
      var m := |rows| - 1;
      CappedIsPrefix(counter, rows[..m], maxChars);
      PutCapped(PutAll(Begun(counter), rows[..m], maxChars), rows[..m], rows[m], maxChars);
      assert rows[..m] + [rows[m]] == rows;
    }
  }

  lemma NothingFits(counter: nat, maxChars: nat)
    ensures Capped(Begun(counter), [], maxChars)
  {
  }

  lemma SizeOfMore(lines: seq<string>, line: string)
    ensures Size(lines + [line]) == Size(lines) + |line| + 1
  {
    assert (lines + [line])[..|lines|] == lines;
  }

  // ------------------------------------------------------------------ references

  /** The nodes that were given a reference, with it. */
  function Tags(rows: seq<Row>): seq<(nat, Node)> {
    if rows == [] then []
    else
      var last := rows[|rows| - 1];
      Tags(rows[..|rows| - 1]) + (if last.ref.Some? then [(last.ref.value, last.node)] else [])
  }

  lemma {:induction false} TagsConcat(a: seq<Row>, b: seq<Row>)
    ensures Tags(a + b) == Tags(a) + Tags(b)
  {
    if b == [] {
      assert a + b == a;
    } else {
      TagsConcat(a, b[..|b| - 1]);
      assert (a + b)[..|a + b| - 1] == a + b[..|b| - 1];
    }
  }

  lemma {:induction false} TagsCount(rows: seq<Row>)
    ensures |Tags(rows)| == RefCount(rows)
  {
    if rows != [] {
      TagsCount(rows[..|rows| - 1]);
    }
  }

  lemma OwnTags(o: Options, b: bool, n: Node, indent: nat, indent': nat, counter: nat)
    ensures Tags(Own(o, n, indent, counter)) == Tags(Own(o.(interactiveOnly := b), n, indent', counter))
  {
    var rows, rows' := Own(o, n, indent, counter), Own(o.(interactiveOnly := b), n, indent', counter);
    assert rows[..0] == [] && rows'[..0] == [];
  }

  /** "Interactive" and "all" give the same references to the same nodes, whatever the indentation. */
  lemma {:induction false} SameTags(byId: map<string, Node>, o: Options, b: bool, n: Node, depth: nat, indent: nat, indent': nat, counter: nat)
    ensures Tags(Walk(byId, o, n, depth, indent, counter))
         == Tags(Walk(byId, o.(interactiveOnly := b), n, depth, indent', counter))
    decreases if depth > o.maxDepth then 0 else o.maxDepth - depth + 1, 0, 0
  {
    hide Own, Tags, WalkAll, RefCount, Found;
    if depth <= o.maxDepth {
      var o' := o.(interactiveOnly := b);
      var own, own' := Own(o, n, indent, counter), Own(o', n, indent', counter);
      var next, next' := if own == [] then indent else indent + 1, if own' == [] then indent' else indent' + 1;
      OwnTags(o, b, n, indent, indent', counter);
      TagsCount(own);
      TagsCount(own');
      var c := counter + RefCount(own);
      SameTagsAll(byId, o, b, Found(byId, n.children), depth + 1, next, next', c);
      TagsConcat(own, WalkAll(byId, o, Found(byId, n.children), depth + 1, next, c));
      TagsConcat(own', WalkAll(byId, o', Found(byId, n.children), depth + 1, next', c));
    }
  }

  lemma {:induction false} SameTagsAll(byId: map<string, Node>, o: Options, b: bool, nodes: seq<Node>, depth: nat, indent: nat, indent': nat, counter: nat)
    ensures Tags(WalkAll(byId, o, nodes, depth, indent, counter))
         == Tags(WalkAll(byId, o.(interactiveOnly := b), nodes, depth, indent', counter))
    decreases if depth > o.maxDepth then 0 else o.maxDepth - depth + 1, 1, |nodes|
  {
    hide Walk, Tags, RefCount;
    if nodes != [] {
      var m, o' := |nodes| - 1, o.(interactiveOnly := b);
      var before, before' := WalkAll(byId, o, nodes[..m], depth, indent, counter), WalkAll(byId, o', nodes[..m], depth, indent', counter);
      SameTagsAll(byId, o, b, nodes[..m], depth, indent, indent', counter);
      TagsCount(before);
      TagsCount(before');
      var c := counter + RefCount(before);
      SameTags(byId, o, b, nodes[m], depth, indent, indent', c);
      TagsConcat(before, Walk(byId, o, nodes[m], depth, indent, c));
      TagsConcat(before', Walk(byId, o', nodes[m], depth, indent', c));
    }
  }

  /** The references of a walk are the next numbers, in order, each on a node of the document. */
  ghost predicate Consecutive(tags: seq<(nat, Node)>, counter: nat) {
    forall i :: 0 <= i < |tags| ==> tags[i].0 == counter + 1 + i && tags[i].1.backend.Some?
  }

  lemma ConsecutiveConcat(a: seq<(nat, Node)>, b: seq<(nat, Node)>, counter: nat)
    requires Consecutive(a, counter) && Consecutive(b, counter + |a|)
    ensures Consecutive(a + b, counter)
  {
  }

  lemma {:induction false} WalkNumbers(byId: map<string, Node>, o: Options, n: Node, depth: nat, indent: nat, counter: nat)
    ensures Consecutive(Tags(Walk(byId, o, n, depth, indent, counter)), counter)
    decreases if depth > o.maxDepth then 0 else o.maxDepth - depth + 1, 0, 0
  {
    hide Own, Consecutive;
    if depth > o.maxDepth {
      NoTags(counter);
    } else {
      var own := Own(o, n, indent, counter);
      var next := if own == [] then indent else indent + 1;
      OwnNumbers(o, n, indent, counter);
      TagsCount(own);
      var c := counter + RefCount(own);
      WalkAllNumbers(byId, o, Found(byId, n.children), depth + 1, next, c);
      var below := WalkAll(byId, o, Found(byId, n.children), depth + 1, next, c);
      TagsConcat(own, below);
      ConsecutiveConcat(Tags(own), Tags(below), counter);
    }
  }

  lemma NoTags(counter: nat)
    ensures Consecutive([], counter) && Consecutive(Tags([]), counter)
  {
  }

  lemma OwnNumbers(o: Options, n: Node, indent: nat, counter: nat)
    ensures Consecutive(Tags(Own(o, n, indent, counter)), counter)
  {
    var rows := Own(o, n, indent, counter);
    assert rows[..0] == [];
  }

  lemma {:induction false} WalkAllNumbers(byId: map<string, Node>, o: Options, nodes: seq<Node>, depth: nat, indent: nat, counter: nat)
    ensures Consecutive(Tags(WalkAll(byId, o, nodes, depth, indent, counter)), counter)
    decreases if depth > o.maxDepth then 0 else o.maxDepth - depth + 1, 1, |nodes|
  {
    hide Walk, Consecutive;
    if nodes == [] {
      NoTags(counter);
    } else {
      var m := |nodes| - 1;
      var before := WalkAll(byId, o, nodes[..m], depth, indent, counter);
      WalkAllNumbers(byId, o, nodes[..m], depth, indent, counter);
      TagsCount(before);
      var c := counter + RefCount(before);
      WalkNumbers(byId, o, nodes[m], depth, indent, c);
      var last := Walk(byId, o, nodes[m], depth, indent, c);
      TagsConcat(before, last);
      ConsecutiveConcat(Tags(before), Tags(last), counter);
    }
  }

  function EntryOf(n: Node): Entry
    requires n.backend.Some?
  {
    Entry(n.backend.value, n.role, n.name)
  }

  /** The registered references are the numbers `counter + 1` to `out.counter`, each with the node that was shown with it. */
  ghost predicate Registered(out: Output, tags: seq<(nat, Node)>, counter: nat) {
    && counter <= out.counter <= counter + |tags|
    && (forall k :: k in out.refs <==> counter < k <= out.counter)
    && (forall i :: 0 <= i < out.counter - counter && tags[i].1.backend.Some? ==>
          counter + 1 + i in out.refs && out.refs[counter + 1 + i] == EntryOf(tags[i].1))
    && (!out.truncated ==> out.counter == counter + |tags|)
  }

  lemma PutRegisters(out: Output, tags: seq<(nat, Node)>, row: Row, counter: nat, maxChars: nat)
    requires Registered(out, tags, counter)
    requires row.ref.Some? ==> row.ref.value == counter + 1 + |tags| && row.node.backend.Some?
    ensures Registered(Put(out, row, maxChars), if row.ref.Some? then tags + [(row.ref.value, row.node)] else tags, counter)
  {
    hide Line;
  }

  lemma {:induction false} AllRegistered(rows: seq<Row>, counter: nat, maxChars: nat)
    requires Consecutive(Tags(rows), counter)
    ensures Registered(PutAll(Begun(counter), rows, maxChars), Tags(rows), counter)
  {
    hide Put, Registered;
    if rows == [] {
      assert Registered(Begun(counter), [], counter) by {
        NothingRegistered(counter);
      }
    } else {
      var m := |rows| - 1;
      var tags := Tags(rows[..m]);
      if rows[m].ref.Some? {
        assert Tags(rows)[|tags|] == (rows[m].ref.value, rows[m].node);
      }
      assert forall i :: 0 <= i < |tags| ==> tags[i] == Tags(rows)[i];
      AllRegistered(rows[..m], counter, maxChars);
      PutRegisters(PutAll(Begun(counter), rows[..m], maxChars), tags, rows[m], counter, maxChars);
      assert tags + [] == tags;
    }
  }

  lemma NothingRegistered(counter: nat)
    ensures Registered(Begun(counter), [], counter)
  {
  }

  // ------------------------------------------------------------------ which nodes get a reference

  /** A visible interactive node is listed exactly if its role is in the interactive set: being focusable is not enough. */
  lemma ListedIff(n: Node, interactiveOnly: bool)
    requires !n.hidden && IsInteractive(n)
    ensures IsListed(n, interactiveOnly) <==> InteractiveRole(n.role)
  {
  }

  /** The nodes the walk visits, in order, whatever it does with them. */
  function Visited(byId: map<string, Node>, maxDepth: int, n: Node, depth: nat): seq<Node>
    decreases if depth > maxDepth then 0 else maxDepth - depth + 1, 0, 0
  {
    if depth > maxDepth then [] else [n] + VisitedAll(byId, maxDepth, Found(byId, n.children), depth + 1)
  }

  function VisitedAll(byId: map<string, Node>, maxDepth: int, nodes: seq<Node>, depth: nat): seq<Node>
    decreases if depth > maxDepth then 0 else maxDepth - depth + 1, 1, |nodes|
  {
    if nodes == [] then []
    else VisitedAll(byId, maxDepth, nodes[..|nodes| - 1], depth) + Visited(byId, maxDepth, nodes[|nodes| - 1], depth)
  }

  /** Visible, of an interactive role, and part of the document. */
  predicate Referable(n: Node) {
    !n.hidden && InteractiveRole(n.role) && n.backend.Some?
  }

  function Referables(nodes: seq<Node>): seq<Node> {
    if nodes == [] then []
    else
      var last := nodes[|nodes| - 1];
      Referables(nodes[..|nodes| - 1]) + (if Referable(last) then [last] else [])
  }

  function Tagged(tags: seq<(nat, Node)>): seq<Node> {
    seq(|tags|, i requires 0 <= i < |tags| => tags[i].1)
  }

  lemma {:induction false} ReferablesConcat(a: seq<Node>, b: seq<Node>)
    ensures Referables(a + b) == Referables(a) + Referables(b)
  {
    hide Referable;
    if b == [] {
      assert a + b == a;
    } else {
      ReferablesConcat(a, b[..|b| - 1]);
      assert (a + b)[..|a + b| - 1] == a + b[..|b| - 1];
    }
  }

  lemma TaggedConcat(a: seq<(nat, Node)>, b: seq<(nat, Node)>)
    ensures Tagged(a + b) == Tagged(a) + Tagged(b)
  {
  }

  lemma ReferableIff(n: Node, interactiveOnly: bool)
    ensures Referable(n) <==> IsListed(n, interactiveOnly) && GetsRef(n)
  {
    hide SkippedRole;
    if IsInteractive(n) && !n.hidden {
      ListedIff(n, interactiveOnly);
    }
  }

  lemma OwnReferables(o: Options, n: Node, indent: nat, counter: nat)
    ensures Tagged(Tags(Own(o, n, indent, counter))) == Referables([n])
  {
    hide Referable, IsListed, GetsRef;
    ReferableIff(n, o.interactiveOnly);
    var rows := Own(o, n, indent, counter);
    assert rows[..0] == [] && [n][..0] == [];
  }

  /** The nodes that get a reference are exactly the visited ones that are referable, in the order they are visited. */
  lemma {:induction false} ReferencedNodes(byId: map<string, Node>, o: Options, n: Node, depth: nat, indent: nat, counter: nat)
    ensures Tagged(Tags(Walk(byId, o, n, depth, indent, counter))) == Referables(Visited(byId, o.maxDepth, n, depth))
    decreases if depth > o.maxDepth then 0 else o.maxDepth - depth + 1, 0, 0
  {
    hide Own, Tags, Tagged, Referables, RefCount, WalkAll, VisitedAll, Found;
    if depth > o.maxDepth {
      NothingReferenced();
    } else {
      var own, nodes := Own(o, n, indent, counter), Found(byId, n.children);
      var next, c := if own == [] then indent else indent + 1, counter + RefCount(own);
      var below := WalkAll(byId, o, nodes, depth + 1, next, c);
      OwnReferables(o, n, indent, counter);
      ReferencedAll(byId, o, nodes, depth + 1, next, c);
      TagsConcat(own, below);
      TaggedConcat(Tags(own), Tags(below));
      ReferablesConcat([n], VisitedAll(byId, o.maxDepth, nodes, depth + 1));
    }
  }

  lemma NothingReferenced()
    ensures Tagged(Tags([])) == Referables([]) == []
  {
  }

  lemma {:induction false} ReferencedAll(byId: map<string, Node>, o: Options, nodes: seq<Node>, depth: nat, indent: nat, counter: nat)
    ensures Tagged(Tags(WalkAll(byId, o, nodes, depth, indent, counter))) == Referables(VisitedAll(byId, o.maxDepth, nodes, depth))
    decreases if depth > o.maxDepth then 0 else o.maxDepth - depth + 1, 1, |nodes|
  {
    hide Walk, Visited, Tags, Tagged, Referables, RefCount;
    if nodes == [] {
      NothingReferenced();
    } else {
      var m := |nodes| - 1;
      var before := WalkAll(byId, o, nodes[..m], depth, indent, counter);
      var c := counter + RefCount(before);
      var last := Walk(byId, o, nodes[m], depth, indent, c);
      ReferencedAll(byId, o, nodes[..m], depth, indent, counter);
      ReferencedNodes(byId, o, nodes[m], depth, indent, c);
      TagsConcat(before, last);
      TaggedConcat(Tags(before), Tags(last));
      ReferablesConcat(VisitedAll(byId, o.maxDepth, nodes[..m], depth), Visited(byId, o.maxDepth, nodes[m], depth));
    }
  }

  lemma {:induction false} InReferables(nodes: seq<Node>, m: Node)
    ensures m in Referables(nodes) <==> m in nodes && Referable(m)
  {
    hide Referable;
    if nodes != [] {
      var n := |nodes| - 1;
      InReferables(nodes[..n], m);
      assert nodes == nodes[..n] + [nodes[n]];
    }
  }

  // ------------------------------------------------------------------ a page read

  function Table(nodes: seq<Node>): map<string, Node> {
    if nodes == [] then map[] else Table(nodes[..|nodes| - 1])[nodes[|nodes| - 1].id := nodes[|nodes| - 1]]
  }

  predicate IsRoot(byId: map<string, Node>, n: Node) {
    n.parent.None? || n.parent.value == "" || n.parent.value !in byId
  }

  function Roots(byId: map<string, Node>, nodes: seq<Node>): seq<Node> {
    if nodes == [] then []
    else (if IsRoot(byId, nodes[0]) then [nodes[0]] else []) + Roots(byId, nodes[1..])
  }

  function WithBackend(nodes: seq<Node>, backend: int): Option<Node> {
    if nodes == [] then None
    else if nodes[0].backend == Some(backend) then Some(nodes[0])
    else WithBackend(nodes[1..], backend)
  }

  /** The roots, or the node that the read is restricted to, if it is still there. */
  function StartNodes(nodes: seq<Node>, o: Options): seq<Node> {
    if o.scope.Some? && WithBackend(nodes, o.scope.value).Some? then [WithBackend(nodes, o.scope.value).value]
    else Roots(Table(nodes), nodes)
  }

  /** Every row of the page, without a budget. */
  function Rows(nodes: seq<Node>, o: Options, refStart: nat): seq<Row> {
    WalkAll(Table(nodes), o, StartNodes(nodes, o), 0, 0, refStart)
  }

  function Built(nodes: seq<Node>, o: Options, refStart: nat): Output {
    PutAll(Begun(refStart), Rows(nodes, o, refStart), o.maxChars)
  }

  /** `byId.set` for every node, a later one replacing an earlier one. */
  method IndexById(nodes: seq<Node>) returns (byId: map<string, Node>)
    ensures byId == Table(nodes)
  {
    byId := map[];
    for i := 0 to |nodes|
      invariant byId == Table(nodes[..i])
    {
      assert nodes[..i + 1][..i] == nodes[..i];
      byId := byId[nodes[i].id := nodes[i]];
    }
    assert nodes[..|nodes|] == nodes;
  }

  lemma RootsStep(byId: map<string, Node>, nodes: seq<Node>, i: nat, roots: seq<Node>)
    requires i < |nodes|
    ensures roots + Roots(byId, nodes[i..])
            == (if IsRoot(byId, nodes[i]) then roots + [nodes[i]] else roots) + Roots(byId, nodes[i + 1..])
  {
    assert nodes[i..][1..] == nodes[i + 1..];
    assert roots + ([nodes[i]] + Roots(byId, nodes[i + 1..])) == roots + [nodes[i]] + Roots(byId, nodes[i + 1..]);
    assert [] + Roots(byId, nodes[i + 1..]) == Roots(byId, nodes[i + 1..]);
  }

  /** `filter` for the nodes without a known parent. */
  method FindRoots(nodes: seq<Node>, byId: map<string, Node>) returns (roots: seq<Node>)
    ensures roots == Roots(byId, nodes)
  {
    hide Roots;
    roots := [];
    assert nodes[0..] == nodes && [] + Roots(byId, nodes) == Roots(byId, nodes);
    for i := 0 to |nodes|
      invariant roots + Roots(byId, nodes[i..]) == Roots(byId, nodes)
    {
      RootsStep(byId, nodes, i, roots);
      var n := nodes[i];
      if n.parent.None? || n.parent.value == "" || n.parent.value !in byId {
        roots := roots + [n];
      }
    }
    NoRoots(byId, nodes[|nodes|..]);
    assert roots + [] == roots;
  }

  lemma NoRoots(byId: map<string, Node>, nodes: seq<Node>)
    requires nodes == []
    ensures Roots(byId, nodes) == []
  {
  }

  /** `find` for the node that the read is restricted to. */
  method FindScope(nodes: seq<Node>, backend: int) returns (found: Option<Node>)
    ensures found == WithBackend(nodes, backend)
  {
    assert nodes[0..] == nodes;
    for i := 0 to |nodes|
      invariant WithBackend(nodes[i..], backend) == WithBackend(nodes, backend)
    {
      assert nodes[i..][1..] == nodes[i + 1..];
      if nodes[i].backend == Some(backend) {
        return Some(nodes[i]);
      }
    }
    found := None;
  }

  method FindStart(nodes: seq<Node>, byId: map<string, Node>, o: Options) returns (start: seq<Node>)
    requires byId == Table(nodes)
    ensures start == StartNodes(nodes, o)
  {
    hide Table, Roots, WithBackend;
    start := FindRoots(nodes, byId);
    if o.scope.Some? {
      var found := FindScope(nodes, o.scope.value);
      if found.Some? {
        start := [found.value];
      }
    }
  }

  method BuildTree(nodes: seq<Node>, o: Options, refStart: nat) returns (out: Output)
    ensures out == Built(nodes, o, refStart)
  {
    var byId := IndexById(nodes);
    var builder := new Builder(byId, o, refStart);
    var start := FindStart(nodes, byId, o);
    builder.VisitAll(start);
    out := Output(builder.counter, builder.chars, builder.truncated, builder.lines, builder.rows, builder.refs);
  }

  /**
   * A visible interactive node of the document that the walk visits gets a reference if and only if its role is in
   * the interactive set. The code means to give one to focusable nodes of role `generic` as well, and never does.
   */
  lemma ReferencedIff(nodes: seq<Node>, o: Options, refStart: nat, m: Node)
    requires m in VisitedAll(Table(nodes), o.maxDepth, StartNodes(nodes, o), 0)
    requires !m.hidden && IsInteractive(m) && m.backend.Some?
    ensures m in Tagged(Tags(Rows(nodes, o, refStart))) <==> InteractiveRole(m.role)
  {
    hide Tags, Tagged, Referables, VisitedAll, StartNodes, Table, WalkAll, InteractiveRole;
    ReferencedAll(Table(nodes), o, StartNodes(nodes, o), 0, 0, refStart);
    InReferables(VisitedAll(Table(nodes), o.maxDepth, StartNodes(nodes, o), 0), m);
  }

  function FocusableDiv(): Node {
    Node("1", None, [], Some(7), "generic", "Copy key", false, false, true, " \"Copy key\"")
  }

  /** A page that is one focusable `generic` node: visible and interactive, and nothing of it is put out. */
  lemma FocusableDivIsMissing(interactiveOnly: bool, refStart: nat)
    ensures IsInteractive(FocusableDiv()) && !FocusableDiv().hidden && FocusableDiv().backend.Some?
    ensures var out := Built([FocusableDiv()], Options(interactiveOnly, 40, None, 50000), refStart);
            out.rows == [] && out.refs == map[] && !out.truncated
  {
    var n, o := FocusableDiv(), Options(interactiveOnly, 40, None, 50000);
    assert [n][..0] == [] && [n][1..] == [];
    assert Table([n]) == map[n.id := n];
    assert IsRoot(Table([n]), n) && Roots(Table([n]), []) == [];
    assert Roots(Table([n]), [n]) == [n] + [];
    assert StartNodes([n], o) == [n];
    assert Walk(Table([n]), o, n, 0, 0, refStart) == [];
  }

  /** Two reads of one page from one counter, of which neither is cut short, register the same references. */
  lemma ModesAgree(nodes: seq<Node>, o: Options, b: bool, refStart: nat)
    ensures var r1, r2 := Built(nodes, o, refStart), Built(nodes, o.(interactiveOnly := b), refStart);
            !r1.truncated && !r2.truncated ==> r1.refs == r2.refs && r1.counter == r2.counter
  {
    hide WalkAll, PutAll, StartNodes, Table, Registered;
    var o' := o.(interactiveOnly := b);
    StartsAgree(nodes, o, b);
    SameTagsAll(Table(nodes), o, b, StartNodes(nodes, o), 0, 0, 0, refStart);
    WalkAllNumbers(Table(nodes), o, StartNodes(nodes, o), 0, 0, refStart);
    WalkAllNumbers(Table(nodes), o', StartNodes(nodes, o), 0, 0, refStart);
    AllRegistered(Rows(nodes, o, refStart), refStart, o.maxChars);
    AllRegistered(Rows(nodes, o', refStart), refStart, o.maxChars);
    SameRegistry(Built(nodes, o, refStart), Built(nodes, o', refStart), Tags(Rows(nodes, o, refStart)), refStart);
  }

  lemma StartsAgree(nodes: seq<Node>, o: Options, b: bool)
    ensures StartNodes(nodes, o) == StartNodes(nodes, o.(interactiveOnly := b))
  {
  }

  lemma SameRegistry(r1: Output, r2: Output, tags: seq<(nat, Node)>, counter: nat)
    requires Registered(r1, tags, counter) && Registered(r2, tags, counter) && Consecutive(tags, counter)
    ensures !r1.truncated && !r2.truncated ==> r1.refs == r2.refs && r1.counter == r2.counter
  {
    if !r1.truncated && !r2.truncated {
      forall k | k in r1.refs ensures k in r2.refs && r1.refs[k] == r2.refs[k] {
        var i := k - counter - 1;
        assert tags[i].1.backend.Some?;
      }
      assert r1.refs.Keys == r2.refs.Keys;
    }
  }

  // ------------------------------------------------------------------ the references of a run

  ghost predicate Known(refs: map<nat, Entry>, shown: map<nat, Entry>, counter: nat) {
    && (forall k :: k in shown <==> 1 <= k <= counter)
    && (forall k :: k in refs ==> k in shown && refs[k] == shown[k])
  }

  lemma KnowMore(refs: map<nat, Entry>, shown: map<nat, Entry>, counter: nat, more: map<nat, Entry>, counter': nat)
    requires Known(refs, shown, counter) && counter <= counter' && forall k :: k in more <==> counter < k <= counter'
    ensures Known(refs + more, shown + more, counter') && forall k :: k in more ==> k !in shown
  {
  }

  /** How many references there are. */
  function Count(refs: map<nat, Entry>): nat {
    |refs|
  }

  lemma NewRefs(nodes: seq<Node>, o: Options, refs: map<nat, Entry>, shown: map<nat, Entry>, counter: nat, built: Output)
    requires Known(refs, shown, counter) && built == Built(nodes, o, counter)
    ensures Known(refs + built.refs, shown + built.refs, counter + Count(built.refs))
    ensures forall k :: k in built.refs ==> k !in shown
  {
    hide Built, Known;
    AllNumbers(nodes, o, counter);
    KnowMore(refs, shown, counter, built.refs, built.counter);
  }

  /** The part of a browser session that page reads share. `shown` is every reference ever given out, with its node. */
  class Session {
    var refs: map<nat, Entry>
    var refCounter: nat
    var lastRows: seq<Row>
    ghost var shown: map<nat, Entry>

    /** Numbers up to the counter have been given out, and a reference still known denotes what it was given out for. */
    ghost predicate Valid()
      reads this
    {
      Known(refs, shown, refCounter)
    }

    constructor ()
      ensures Valid() && refs == map[] && shown == map[]
    {
      refs, refCounter, lastRows, shown := map[], 0, [], map[];
    }

    /** A known reference, or an error for an unknown or stale one. */
    function ResolveRef(ref: nat): (r: Option<Entry>)
      requires Valid()
      reads this
      ensures r.Some? ==> ref in shown && r.value == shown[ref]
      ensures r.None? <==> ref !in refs
    {
      if ref in refs then Some(refs[ref]) else None
    }

    /** The references of a read join the known ones; none of them was ever given out before. */
    method Take(nodes: seq<Node>, o: Options) returns (built: Output)
      requires Valid()
      modifies this
      ensures Valid()
      ensures built == Built(nodes, o, old(refCounter)) && lastRows == built.rows
      ensures forall k :: k in built.refs ==> k !in old(shown)
      ensures refs == old(refs) + built.refs && shown == old(shown) + built.refs
    {
      hide Built, Known, Count;
      built := BuildTree(nodes, o, refCounter);
      NewRefs(nodes, o, refs, shown, refCounter, built);
      refCounter := refCounter + Count(built.refs);
      refs, shown := refs + built.refs, shown + built.refs;
      lastRows := built.rows;
    }

    method ReadPage(nodes: seq<Node>, interactive: bool, depth: int, ref: Option<nat>) returns (built: Option<Output>)
      requires Valid()
      modifies this
      ensures Valid()
      ensures built.None? <==> ref.Some? && ref.value !in old(refs)
      ensures built.None? ==> refs == old(refs) && refCounter == old(refCounter)
      ensures built.Some? ==> built.value.refs.Keys !! old(shown).Keys && shown == old(shown) + built.value.refs
      ensures built.Some? && ref.Some? ==> ref.value in old(refs) && built.value == Built(nodes,
                Options(interactive, Clamp(depth), Some(old(refs)[ref.value].backend), 50000), old(refCounter))
      ensures ref.None? ==> built.Some? && built.value == Built(nodes, Options(interactive, Clamp(depth), None, 50000), old(refCounter))
      ensures built.Some? ==> refs == old(refs) + built.value.refs
    {
      var scope := None;
      if ref.Some? {
        var entry := ResolveRef(ref.value);
        if entry.None? {
          return None;
        }
        scope := Some(entry.value.backend);
      }
      var out := Take(nodes, Options(interactive, Clamp(depth), scope, 50000));
      built := Some(out);
    }

    method Find(nodes: seq<Node>) returns (rows: seq<Row>)
      requires Valid()
      modifies this
      ensures Valid()
      ensures var built := Built(nodes, Options(false, 60, None, 400000), old(refCounter));
              rows == built.rows && built.refs.Keys !! old(shown).Keys && refs == old(refs) + built.refs && shown == old(shown) + built.refs
    {
      var built := Take(nodes, Options(false, 60, None, 400000));
      rows := built.rows;
    }

    /** Known references are forgotten; the counter is not, so none of their numbers comes back. */
    method Navigate()
      requires Valid()
      modifies this`refs
      ensures Valid() && refs == map[]
    {
      refs := map[];
    }
  }

  function Distance(a: int, b: int): nat {
    if a < b then b - a else a - b
  }

  function Clamp(depth: int): (r: int)
    ensures 1 <= r <= 60 && forall k :: 1 <= k <= 60 ==> Distance(r, depth) <= Distance(k, depth)
  {
    if depth < 1 then 1 else if depth > 60 then 60 else depth
  }

  lemma {:induction false} RangeSize(s: set<nat>, lo: nat, hi: nat)
    requires lo <= hi && forall k :: k in s <==> lo < k <= hi
    ensures |s| == hi - lo
    decreases hi - lo
  {
    if lo < hi {
      RangeSize(s - {hi}, lo, hi - 1);
    } else {
      assert s == {};
    }
  }

  /** The new references are the next numbers, as many as there are entries: so the counter moves past all of them. */
  lemma AllNumbers(nodes: seq<Node>, o: Options, refStart: nat)
    ensures var out := Built(nodes, o, refStart);
            && (forall k :: k in out.refs <==> refStart < k <= out.counter)
            && refStart <= out.counter == refStart + |out.refs|
  {
    hide WalkAll, PutAll;
    WalkAllNumbers(Table(nodes), o, StartNodes(nodes, o), 0, 0, refStart);
    AllRegistered(Rows(nodes, o, refStart), refStart, o.maxChars);
    var out := Built(nodes, o, refStart);
    RangeSize(out.refs.Keys, refStart, out.counter);
  }
}
