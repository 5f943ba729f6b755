/** Merging values into an env file: what the rewritten file holds, and that writing it again changes nothing. */
module EnvMerge {
  import opened Prelude
  import opened Text
  import opened EnvFile

  // ------------------------------------------------------------------ the merge on records

  predicate Wanted(r: Record, values: Values) {
    r.key.Some? && r.key.value in values
  }

  function Rewrite(r: Record, values: Values): Record {
    if Wanted(r, values) then AssignRecord(r.key.value, values[r.key.value]) else r
  }

  function RewriteAll(rs: seq<Record>, values: Values): (out: seq<Record>)
    ensures |out| == |rs| && forall i :: 0 <= i < |rs| ==> out[i] == Rewrite(rs[i], values)
  {
    seq(|rs|, i requires 0 <= i < |rs| => Rewrite(rs[i], values))
  }

  /** The names already defined in the file. */
  function SeenKeys(rs: seq<Record>): set<string> {
    set i | 0 <= i < |rs| && rs[i].key.Some? :: rs[i].key.value
  }

  function Assignments(keys: seq<string>, values: Values): (out: seq<Record>)
    requires forall k :: k in keys ==> k in values
    ensures |out| == |keys| && forall i :: 0 <= i < |keys| ==> out[i] == AssignRecord(keys[i], values[keys[i]])
  {
    seq(|keys|, i requires 0 <= i < |keys| => AssignRecord(keys[i], values[keys[i]]))
  }

  const BLANK := Record(None, [""])

  /** A blank line separates the block from a file that does not end in one. */
  function Gap(before: seq<Record>): seq<Record> {
    if before != [] && before[|before| - 1].lines != [""] then [BLANK] else []
  }

  /** The block appended for the names the file does not define: a separating blank line, a banner, the assignments. */
  ghost function Appended(rs: seq<Record>, values: Values): seq<Record> {
    var missing := values.Keys - SeenKeys(rs);
    if missing == {} then []
    else Gap(RewriteAll(rs, values)) + [Record(None, [BANNER])] + Assignments(SortedKeys(missing), values)
  }

  ghost function Merged(rs: seq<Record>, values: Values): seq<Record> {
    RewriteAll(rs, values) + Appended(rs, values)
  }

  /** The text of one record, as the rewriter holds it. */
  function RecordText(r: Record): string {
    Join(r.lines, "\n")
  }

  function Texts(rs: seq<Record>): (out: seq<string>)
    ensures |out| == |rs| && forall i :: 0 <= i < |rs| ==> out[i] == RecordText(rs[i])
  {
    seq(|rs|, i requires 0 <= i < |rs| => RecordText(rs[i]))
  }

  /** The file written for these records: joined by newlines and closed by one. */
  function FileText(rs: seq<Record>): string {
    Join(Texts(rs), "\n") + "\n"
  }

  /** What merging `values` into a file holding `text` writes, or why nothing is written. */
  ghost function Merge(text: string, values: Values): Result<string, EnvError> {
    if !ValidNames(values) then Err(InvalidName)
    else
      match Parse(Lines(text))
      case None => Err(Unterminated)
      case Some(rs) => Ok(FileText(Merged(rs, values)))
  }

  // ------------------------------------------------------------------ writing and reading back

  lemma {:induction false} JoinUnlines(parts: seq<string>)
    requires parts != []
    ensures Join(parts, "\n") + "\n" == Unlines(parts)
  {
    if |parts| > 1 {
      JoinUnlines(parts[1..]);
      assert parts[0] + "\n" + Join(parts[1..], "\n") + "\n" == parts[0] + "\n" + (Join(parts[1..], "\n") + "\n");
    }
  }

  lemma {:induction false} FileTextUnlines(rs: seq<Record>)
    requires rs != [] && forall r :: r in rs ==> r.lines != []
    ensures FileText(rs) == Unlines(Flatten(rs))
  {
    JoinUnlines(Texts(rs));
    TextsUnlines(rs);
  }

  lemma {:induction false} TextsUnlines(rs: seq<Record>)
    requires forall r :: r in rs ==> r.lines != []
    ensures Unlines(Texts(rs)) == Unlines(Flatten(rs))
  {
    if rs != [] {
      assert rs[0] in rs;
      TextsUnlines(rs[1..]);
      assert Texts(rs)[1..] == Texts(rs[1..]);
      JoinUnlines(rs[0].lines);
      UnlinesConcat(rs[0].lines, Flatten(rs[1..]));
    }
  }

  lemma {:induction false} FlattenIn(rs: seq<Record>, l: string)
    ensures l in Flatten(rs) <==> exists i :: 0 <= i < |rs| && l in rs[i].lines
  {
    if rs != [] {
      FlattenIn(rs[1..], l);
      if i :| 0 <= i < |rs| && l in rs[i].lines {
        if i > 0 {
          assert rs[1..][i - 1] == rs[i];
        }
      }
      if l in Flatten(rs[1..]) {
        var i :| 0 <= i < |rs[1..]| && l in rs[1..][i].lines;
        assert l in rs[i + 1].lines;
      }
    }
  }

  ghost predicate OneLiners(rs: seq<Record>) {
    forall i :: 0 <= i < |rs| ==> NoNewlines(rs[i].lines)
  }

  lemma ParsedOneLiners(text: string)
    requires Parse(Lines(text)).Some?
    ensures OneLiners(Parse(Lines(text)).value)
  {
    var rs := Parse(Lines(text)).value;
    ParseComplete(Lines(text));
    forall i, l | 0 <= i < |rs| && l in rs[i].lines ensures '\n' !in l {
      FlattenIn(rs, l);
    }
  }

  lemma AppendedComplete(rs: seq<Record>, values: Values)
    requires ValidNames(values)
    ensures AllComplete(Appended(rs, values)) && OneLiners(Appended(rs, values))
    ensures forall r :: r in Appended(rs, values) ==> r == StripRecord(r)
  {
    hide Complete, AssignLine, ValidName, SeenKeys, SortedKeys, RewriteAll;
    var missing := values.Keys - SeenKeys(rs);
    var keys := SortedKeys(missing);
    forall r | r in Appended(rs, values)
      ensures Complete(r) && NoNewlines(r.lines) && r == StripRecord(r)
    {
      if r == BLANK || r == Record(None, [BANNER]) {
        assert BANNER[0] == '#' && BANNER[|BANNER| - 1] == 't';
        CommentComplete(r.lines[0]);
      } else {
        var k :| k in keys && r == AssignRecord(k, values[k]);
        AssignComplete(k, values[k]);
      }
    }
  }

  lemma RewriteComplete(r: Record, values: Values)
    requires ValidNames(values) && Complete(r) && NoNewlines(r.lines)
    ensures Complete(Rewrite(r, values)) && NoNewlines(Rewrite(r, values).lines)
    ensures Rewrite(r, values).key == r.key
    ensures Wanted(r, values) ==> Rewrite(r, values) == StripRecord(Rewrite(r, values))
  {
    hide Complete, AssignLine;
    if Wanted(r, values) {
      var k := r.key.value;
      AssignComplete(k, values[k]);
    }
  }

  lemma MergedComplete(rs: seq<Record>, values: Values)
    requires ValidNames(values) && AllComplete(rs) && OneLiners(rs)
    ensures AllComplete(Merged(rs, values)) && OneLiners(Merged(rs, values))
  {
    hide Complete, Rewrite, Appended;
    forall i | 0 <= i < |rs|
      ensures Complete(RewriteAll(rs, values)[i]) && NoNewlines(RewriteAll(rs, values)[i].lines)
    {
      assert rs[i] in rs;
      RewriteComplete(rs[i], values);
    }
    AppendedComplete(rs, values);
  }

  lemma CompleteHasLines(rs: seq<Record>)
    requires AllComplete(rs)
    ensures forall r :: r in rs ==> r.lines != []
  {
  }

  /** Written records are read back one by one, each line short of one trailing carriage return. */
  lemma WrittenIsRead(rs: seq<Record>)
    requires rs != [] && AllComplete(rs) && OneLiners(rs)
    ensures Parse(Lines(FileText(rs))) == Some(StripRecords(rs))
  {
    hide Complete, FileText, Parse, Lines;
    CompleteHasLines(rs);
    FileTextUnlines(rs);
    forall l | l in Flatten(rs) ensures '\n' !in l {
      FlattenIn(rs, l);
    }
    LinesUnlines(Flatten(rs));
    FlattenStrip(rs);
    forall r | r in StripRecords(rs) ensures Complete(r) {
      var i :| 0 <= i < |rs| && r == StripRecord(rs[i]);
      assert rs[i] in rs;
      StripComplete(rs[i]);
    }
    ParseFlatten(StripRecords(rs));
  }

  lemma EmptyIsBlank()
    ensures Parse(Lines(FileText([]))) == Some([BLANK])
    ensures FileText([BLANK]) == FileText([])
  {
    hide Parse, Lines, Complete;
    CommentComplete("");
    assert FileText([]) == "\n";
    assert Texts([BLANK]) == [""];
    assert FileText([BLANK]) == "\n";
    assert OneLiners([BLANK]);
    WrittenIsRead([BLANK]);
    BlankStripped();
  }

  lemma BlankStripped()
    ensures StripRecords([BLANK]) == [BLANK]
  {
    assert StripCR("") == "";
    assert StripAll([""]) == [""];
    assert StripRecord(BLANK) == BLANK;
  }

  lemma StripMerged(was: seq<Record>, values: Values)
    requires ValidNames(values)
    ensures StripRecords(Merged(was, values)) == StripRecords(RewriteAll(was, values)) + Appended(was, values)
  {
    hide Complete, Rewrite, Appended;
    AppendedComplete(was, values);
    var kept, added := RewriteAll(was, values), Appended(was, values);
    forall i | 0 <= i < |added| ensures StripRecord(added[i]) == added[i] {
      assert added[i] in added;
    }
    assert StripRecords(kept + added) == StripRecords(kept) + added;
  }

  // ------------------------------------------------------------------ the main results

  /** Merging is an override that loses nothing. The rewritten file holds, in the old order, every old
      record: exactly `KEY=value` where the key is among the values, verbatim where it is not (short of
      one carriage return per line); after them only the appended block; and it parses again. */
  lemma MergeIsOverride(text: string, values: Values)
    requires Merge(text, values).Ok?
    ensures var was := Parse(Lines(text)).value;
            var now := Parse(Lines(Merge(text, values).value));
            now == Some(if Merged(was, values) == [] then [BLANK] else StripRecords(RewriteAll(was, values)) + Appended(was, values))
  {
    hide Complete, FileText, Parse, Lines, Rewrite, Appended;
    var was := Parse(Lines(text)).value;
    ParseComplete(Lines(text));
    ParsedOneLiners(text);
    var rs := Merged(was, values);
    if rs == [] {
      EmptyIsBlank();
    } else {
      MergedComplete(was, values);
      WrittenIsRead(rs);
      StripMerged(was, values);
    }
  }

  ghost predicate LinesOf(rs: seq<Record>, lines: seq<seq<string>>) {
    |rs| == |lines| && forall i :: 0 <= i < |rs| ==> rs[i].lines == lines[i]
  }

  function AssignmentsOf(ks: seq<string>, values: Values): (r: seq<seq<string>>)
    requires forall k :: k in ks ==> k in values
    ensures |r| == |ks| && forall i :: 0 <= i < |r| ==> r[i] == [ks[i] + "=" + QuoteEnv(values[ks[i]])]
  {
    seq(|ks|, i requires 0 <= i < |ks| => [ks[i] + "=" + QuoteEnv(values[ks[i]])])
  }

  /** The file as it was, record by record: the lines of a merged name are replaced, all others stay. */
  ghost predicate InPlace(was: seq<Record>, now: seq<Record>, values: Values) {
    && |was| <= |now|
    && forall i :: 0 <= i < |was| ==>
         now[i].lines == if was[i].key.Some? && was[i].key.value in values
                         then [was[i].key.value + "=" + QuoteEnv(values[was[i].key.value])]
                         else StripAll(was[i].lines)
  }

  /** `ks` are the names the file did not define, in byte order. */
  ghost predicate MissingNames(was: seq<Record>, values: Values, ks: seq<string>) {
    && Ascending(ks)
    && forall k :: k in ks <==> k in values && forall i :: 0 <= i < |was| ==> was[i].key != Some(k)
  }

  lemma Rewritten(was: seq<Record>, values: Values, added: seq<Record>)
    requires ValidNames(values)
    ensures InPlace(was, StripRecords(RewriteAll(was, values)) + added, values)
  {
    hide AssignLine, QuoteEnv, ValidName;
    forall i | 0 <= i < |was|
      ensures (StripRecords(RewriteAll(was, values)) + added)[i].lines
              == if Wanted(was[i], values) then [was[i].key.value + "=" + QuoteEnv(values[was[i].key.value])]
                 else StripAll(was[i].lines)
    {
      if Wanted(was[i], values) {
        RewrittenLines(was[i], values);
        AssignLineIs(was[i].key.value, values[was[i].key.value]);
      }
    }
  }

  lemma AssignLineIs(k: string, v: string)
    ensures AssignLine(k, v) == k + "=" + QuoteEnv(v)
  {
  }

  lemma MissingSorted(was: seq<Record>, values: Values)
    ensures MissingNames(was, values, SortedKeys(values.Keys - SeenKeys(was)))
  {
    hide Less;
    SortedKeysAscend(values.Keys - SeenKeys(was));
    forall k ensures k in SeenKeys(was) <==> exists i :: 0 <= i < |was| && was[i].key == Some(k) {
    }
  }

  lemma LinesOfBlock(a: seq<Record>, b: seq<Record>, c: seq<Record>, x: seq<seq<string>>, y: seq<seq<string>>, z: seq<seq<string>>)
    requires LinesOf(a, x) && LinesOf(b, y) && LinesOf(c, z)
    ensures LinesOf(a + b + c, x + y + z)
  {
  }

  lemma AssignmentLinesOf(ks: seq<string>, values: Values)
    requires forall k :: k in ks ==> k in values
    ensures LinesOf(Assignments(ks, values), AssignmentsOf(ks, values))
  {
    hide QuoteEnv;
  }

  lemma BannerLines()
    ensures LinesOf([Record(None, [BANNER])], [["# managed by passvalet inject"]])
  {
  }

  lemma AppendedLinesAre(was: seq<Record>, values: Values)
    ensures var ks := SortedKeys(values.Keys - SeenKeys(was));
            LinesOf(Appended(was, values),
                    if ks == [] then []
                    else Separator(RewriteAll(was, values)) + [["# managed by passvalet inject"]] + AssignmentsOf(ks, values))
  {
    hide LinesOf, Separator, Gap, Assignments, AssignmentsOf, RewriteAll, SeenKeys, SortedKeys;
    var missing := values.Keys - SeenKeys(was);
    var ks := SortedKeys(missing);
    if missing == {} {
      assert LinesOf([], []) by { NoLinesOf(); }
    } else {
      var kept := RewriteAll(was, values);
      GapLines(kept);
      BannerLines();
      AssignmentLinesOf(ks, values);
      LinesOfBlock(Gap(kept), [Record(None, [BANNER])], Assignments(ks, values),
                   Separator(kept), [["# managed by passvalet inject"]], AssignmentsOf(ks, values));
    }
  }

  lemma NoLinesOf()
    ensures LinesOf([], [])
  {
  }

  function Separator(before: seq<Record>): seq<seq<string>> {
    if before != [] && before[|before| - 1].lines != [""] then [[""]] else []
  }

  /** A rewritten record is blank only if it was. */
  lemma SeparatorKept(was: seq<Record>, values: Values)
    requires AllComplete(was)
    ensures Separator(RewriteAll(was, values)) == Separator(was)
  {
    hide QuoteEnv;
    if was != [] {
      var r := was[|was| - 1];
      assert r in was && Complete(r);
      NoEqualsNoKey("");
    }
  }

  lemma GapLines(before: seq<Record>)
    ensures LinesOf(Gap(before), Separator(before))
  {
  }

  /** The lines a merge adds after the old records: nothing if every name was defined; otherwise a blank line unless
      there is one already, the banner, and one assignment for each missing name, in byte order. */
  function Tail(was: seq<Record>, values: Values, ks: seq<string>): seq<seq<string>>
    requires forall k :: k in ks ==> k in values
  {
    if ks == [] then [] else Separator(was) + [["# managed by passvalet inject"]] + AssignmentsOf(ks, values)
  }

  /** What a merge does to the file, place by place. Only an empty file into which nothing is merged changes otherwise:
      it becomes one blank line. */
  lemma MergeKeepsPlaces(text: string, values: Values)
    requires Merge(text, values).Ok?
    ensures Parse(Lines(Merge(text, values).value)).Some?
    ensures var was := Parse(Lines(text)).value;
            var now := Parse(Lines(Merge(text, values).value)).value;
            if was == [] && values == map[] then Merge(text, values).value == "\n"
            else InPlace(was, now, values)
                 && exists ks :: MissingNames(was, values, ks) && LinesOf(now[|was|..], Tail(was, values, ks))
  {
    hide FileText, Parse, Lines, Complete, InPlace, LinesOf, RewriteAll, MissingNames, Separator, AssignmentsOf;
    MergeIsOverride(text, values);
    var was := Parse(Lines(text)).value;
    ParseComplete(Lines(text));
    MissingSorted(was, values);
    AppendedLinesAre(was, values);
    SeparatorKept(was, values);
    var ks := SortedKeys(values.Keys - SeenKeys(was));
    assert forall k :: k in ks ==> k in values;
    Rewritten(was, values, Appended(was, values));
    if Merged(was, values) == [] {
      NothingMerged(was, values);
    } else {
      var kept := StripRecords(RewriteAll(was, values));
      assert (kept + Appended(was, values))[|was|..] == Appended(was, values);
      assert LinesOf(Appended(was, values), Tail(was, values, ks));
      SomethingMerged(was, values);
    }
  }

  lemma NothingMerged(was: seq<Record>, values: Values)
    requires Merged(was, values) == []
    ensures was == [] && values == map[] && FileText(Merged(was, values)) == "\n"
  {
    assert SeenKeys(was) == {};
    assert values.Keys - {} == values.Keys;
  }

  lemma SomethingMerged(was: seq<Record>, values: Values)
    requires Merged(was, values) != []
    ensures was != [] || values != map[]
  {
    assert values == map[] ==> values.Keys - SeenKeys(was) == {};
  }

  /** The lines of every definition of `k` in the file, in order. */
  function Bindings(rs: seq<Record>, k: string): seq<seq<string>> {
    if rs == [] then []
    else (if rs[0].key == Some(k) then [rs[0].lines] else []) + Bindings(rs[1..], k)
  }

  ghost function BindingsIn(text: string, k: string): seq<seq<string>>
    requires Parse(Lines(text)).Some?
  {
    Bindings(Parse(Lines(text)).value, k)
  }

  lemma {:induction false} BindingsConcat(a: seq<Record>, b: seq<Record>, k: string)
    ensures Bindings(a + b, k) == Bindings(a, k) + Bindings(b, k)
  {
    if a == [] {
      assert a + b == b;
    } else {
      assert (a + b)[1..] == a[1..] + b;
      BindingsConcat(a[1..], b, k);
    }
  }

  /** Every definition of `k` is the line `KEY=value`, and there is one. */
  ghost predicate Defines(rs: seq<Record>, k: string, v: string) {
    && (exists i :: 0 <= i < |rs| && rs[i].key == Some(k))
    && (forall i :: 0 <= i < |rs| && rs[i].key == Some(k) ==> rs[i].lines == [AssignLine(k, v)])
  }

  /** Read as text: the line `KEY=value` is there, and no record starts with a line that assigns anything else to `k`,
      with or without `export`. */
  ghost predicate Assigns(text: string, k: string, v: string) {
    && Parse(Lines(text)).Some?
    && var rs := Parse(Lines(text)).value;
    && (exists i :: 0 <= i < |rs| && rs[i].lines == [k + "=" + QuoteEnv(v)])
    && (forall i, w :: 0 <= i < |rs| && rs[i].lines != [] && Spells(rs[i].lines[0], k, w) ==> rs[i].lines == [k + "=" + QuoteEnv(v)])
  }

  /** The name a record is filed under is the one its first line spells. */
  lemma KeysAreSpelled(text: string, i: nat, k: string)
    requires Parse(Lines(text)).Some? && i < |Parse(Lines(text)).value| && ValidName(k)
    ensures var r := Parse(Lines(text)).value[i];
            r.lines != [] && (r.key == Some(k) <==> exists w :: Spells(r.lines[0], k, w))
  {
    hide Parse, Lines, Spells, RecordLength, KeyOf, ValidName;
    ParseComplete(Lines(text));
    var rs := Parse(Lines(text)).value;
    assert rs[i] in rs && Complete(rs[i]);
    KeyIsSpelled(rs[i].lines[0], k);
  }

  lemma DefinesIsAssigns(text: string, k: string, v: string)
    requires Parse(Lines(text)).Some? && ValidName(k)
    ensures Defines(Parse(Lines(text)).value, k, v) <==> Assigns(text, k, v)
  {
    hide Parse, Lines, Spells, ValidName, QuoteEnv;
    var rs := Parse(Lines(text)).value;
    forall i | 0 <= i < |rs|
      ensures rs[i].lines != [] && (rs[i].key == Some(k) <==> exists w :: Spells(rs[i].lines[0], k, w))
    {
      KeysAreSpelled(text, i, k);
    }
    if i :| 0 <= i < |rs| && rs[i].lines == [k + "=" + QuoteEnv(v)] {
      assert SpellsBare(rs[i].lines[0], k, "", "", QuoteEnv(v));
      SpelledBare(rs[i].lines[0], k, "", "", QuoteEnv(v));
    }
  }

  lemma SpelledBare(line: string, k: string, pre: string, gap: string, v: string)
    requires SpellsBare(line, k, pre, gap, v)
    ensures Spells(line, k, v)
  {
  }

  function StripEach(bs: seq<seq<string>>): (r: seq<seq<string>>)
    ensures |r| == |bs| && forall i :: 0 <= i < |r| ==> r[i] == StripAll(bs[i])
  {
    seq(|bs|, i requires 0 <= i < |bs| => StripAll(bs[i]))
  }

  lemma {:induction false} BindingsRewritten(rs: seq<Record>, values: Values, k: string)
    requires k !in values
    ensures Bindings(StripRecords(RewriteAll(rs, values)), k) == StripEach(Bindings(rs, k))
  {
    if rs != [] {
      BindingsRewritten(rs[1..], values, k);
      assert StripRecords(RewriteAll(rs, values))[1..] == StripRecords(RewriteAll(rs[1..], values));
      var rest := Bindings(rs[1..], k);
      assert StripEach([rs[0].lines] + rest) == [StripAll(rs[0].lines)] + StripEach(rest);
    }
  }

  lemma {:induction false} NoBindings(rs: seq<Record>, k: string)
    requires forall i :: 0 <= i < |rs| ==> rs[i].key != Some(k)
    ensures Bindings(rs, k) == []
  {
    if rs != [] {
      NoBindings(rs[1..], k);
    }
  }

  lemma AppendedDefines(was: seq<Record>, values: Values, k: string)
    requires k in values && k !in SeenKeys(was)
    ensures exists i :: 0 <= i < |Appended(was, values)| && Appended(was, values)[i].key == Some(k)
  {
    hide AssignLine;
    var missing := values.Keys - SeenKeys(was);
    var keys := SortedKeys(missing);
    assert k in missing;
    var i :| 0 <= i < |keys| && keys[i] == k;
    var added, block := Appended(was, values), Assignments(keys, values);
    assert added == added[..|added| - |block|] + block;
    assert added[|added| - |block| + i] == block[i];
  }

  lemma AppendedLines(was: seq<Record>, values: Values, i: nat)
    requires i < |Appended(was, values)| && Appended(was, values)[i].key.Some?
    ensures var r := Appended(was, values)[i];
            r.key.value in values && r.key.value !in SeenKeys(was) && r == AssignRecord(r.key.value, values[r.key.value])
  {
    hide AssignLine;
    var keys := SortedKeys(values.Keys - SeenKeys(was));
    var added, block := Appended(was, values), Assignments(keys, values);
    var start := |added| - |block|;
    assert added == added[..start] + block;
    assert i >= start;
    assert added[i] == block[i - start];
    assert keys[i - start] in keys;
  }

  /** Names not among the values keep their definitions: same number, same order, same lines. */
  lemma MergeKeepsOthers(text: string, values: Values, k: string)
    requires Merge(text, values).Ok? && k !in values
    ensures Parse(Lines(Merge(text, values).value)).Some?
    ensures BindingsIn(Merge(text, values).value, k) == StripEach(BindingsIn(text, k))
  {
    hide Complete, FileText, Parse, Lines, Rewrite, AssignLine, StripRecord;
    MergeIsOverride(text, values);
    var was := Parse(Lines(text)).value;
    var added := Appended(was, values);
    BindingsConcat(StripRecords(RewriteAll(was, values)), added, k);
    BindingsRewritten(was, values, k);
    forall i | 0 <= i < |added| ensures added[i].key != Some(k) {
      if added[i].key.Some? {
        AppendedLines(was, values, i);
      }
    }
    NoBindings(added, k);
    NoBindings([BLANK], k);
  }

  lemma RewrittenLines(r: Record, values: Values)
    requires ValidNames(values) && Wanted(r, values)
    ensures StripRecord(Rewrite(r, values)).lines == [AssignLine(r.key.value, values[r.key.value])]
  {
    hide Complete, AssignLine;
    AssignComplete(r.key.value, values[r.key.value]);
  }

  lemma MergedIsDefined(text: string, values: Values, k: string)
    requires Merge(text, values).Ok? && k in values
    ensures Parse(Lines(Merge(text, values).value)).Some?
    ensures Defines(Parse(Lines(Merge(text, values).value)).value, k, values[k])
  {
    hide Complete, FileText, Parse, Lines, Rewrite, AssignLine, Appended;
    MergeIsOverride(text, values);
    var was := Parse(Lines(text)).value;
    var kept, added := StripRecords(RewriteAll(was, values)), Appended(was, values);
    RewriteKeepsKeys(was, values);
    var now := kept + added;
    if k !in SeenKeys(was) {
      AppendedDefines(was, values, k);
      var i :| 0 <= i < |added| && added[i].key == Some(k);
      assert now[|kept| + i].key == Some(k);
    } else {
      var i :| 0 <= i < |was| && was[i].key == Some(k);
      assert now[i].key == Some(k);
    }
    forall i | 0 <= i < |now| && now[i].key == Some(k) ensures now[i].lines == [AssignLine(k, values[k])] {
      if i < |kept| {
        RewrittenLines(was[i], values);
      } else {
        assert now[i] == added[i - |kept|];
        AppendedLines(was, values, i - |kept|);
      }
    }
  }

  /** Every merged name is assigned its value afterwards, and nothing else, whether exported or not before. */
  lemma MergeDefines(text: string, values: Values, k: string)
    requires Merge(text, values).Ok? && k in values
    ensures Assigns(Merge(text, values).value, k, values[k])
  {
    hide FileText, Parse, Lines, Merged, ValidName, Defines, Assigns;
    MergedIsDefined(text, values, k);
    DefinesIsAssigns(Merge(text, values).value, k, values[k]);
  }

  lemma RewriteKeepsKeys(rs: seq<Record>, values: Values)
    ensures forall i :: 0 <= i < |rs| ==> StripRecords(RewriteAll(rs, values))[i].key == rs[i].key
  {
  }

  /** No kept record holds a line that still ends in a carriage return once read. */
  ghost predicate KeepsNoCR(text: string, values: Values)
    requires Parse(Lines(text)).Some?
  {
    var rs := Parse(Lines(text)).value;
    forall i, l :: 0 <= i < |rs| && !Wanted(rs[i], values) && l in rs[i].lines ==> !EndsInCR(l)
  }

  lemma CarriageReturnsLeft(text: string, values: Values)
    requires Merge(text, values).Ok?
    ensures var rs := Merged(Parse(Lines(text)).value, values);
            KeepsNoCR(text, values) <==> forall l :: l in Flatten(rs) ==> !EndsInCR(l)
  {
    hide Complete, FileText, Parse, Lines, AssignLine;
    var was := Parse(Lines(text)).value;
    var rs := Merged(was, values);
    forall l | l in Flatten(rs) && KeepsNoCR(text, values) ensures !EndsInCR(l) {
      FlattenIn(rs, l);
      var i :| 0 <= i < |rs| && l in rs[i].lines;
      if i >= |was| {
        AppendedComplete(was, values);
        assert rs[i] in Appended(was, values);
        assert StripAll(rs[i].lines) == rs[i].lines;
      } else if Wanted(was[i], values) {
        AssignComplete(was[i].key.value, values[was[i].key.value]);
      }
    }
    forall i, l | 0 <= i < |was| && !Wanted(was[i], values) && l in was[i].lines ensures l in Flatten(rs) {
      assert rs[i] == was[i];
      FlattenIn(rs, l);
    }
  }

  lemma NothingToMerge(was: seq<Record>, values: Values)
    requires Merged(was, values) == []
    ensures Merged([BLANK], values) == [BLANK]
  {
    assert was == [] && SeenKeys(was) == {};
    assert values.Keys - {} == values.Keys;
    assert values.Keys - SeenKeys([BLANK]) == {};
  }

  lemma SecondRewriteIsIdentity(was: seq<Record>, values: Values)
    requires ValidNames(values) && AllComplete(was) && OneLiners(was)
    ensures var again := StripRecords(Merged(was, values)); RewriteAll(again, values) == again
  {
    hide Complete, AssignLine, Appended;
    var rs := Merged(was, values);
    var again := StripRecords(rs);
    forall i | 0 <= i < |rs| ensures Rewrite(again[i], values) == again[i] {
      if i < |was| {
        assert was[i] in was;
        RewriteComplete(was[i], values);
      } else {
        AppendedComplete(was, values);
        assert rs[i] in Appended(was, values);
        if rs[i].key.Some? {
          AppendedLines(was, values, i - |was|);
        }
      }
    }
  }

  lemma NothingMissing(was: seq<Record>, values: Values)
    ensures values.Keys - SeenKeys(StripRecords(Merged(was, values))) == {}
  {
    hide AssignLine, Appended;
    var again := StripRecords(Merged(was, values));
    RewriteKeepsKeys(was, values);
    forall k | k in values ensures k in SeenKeys(again) {
      if k !in SeenKeys(was) {
        AppendedDefines(was, values, k);
        var i :| 0 <= i < |Appended(was, values)| && Appended(was, values)[i].key == Some(k);
        assert again[|was| + i].key == Some(k);
      } else {
        var i :| 0 <= i < |was| && was[i].key == Some(k);
        assert again[i].key == Some(k);
      }
    }
  }

  lemma MergedAgain(was: seq<Record>, values: Values)
    requires ValidNames(values) && AllComplete(was) && OneLiners(was)
    ensures var again := StripRecords(Merged(was, values)); Merged(again, values) == again
  {
    hide Complete, Rewrite, AssignLine;
    SecondRewriteIsIdentity(was, values);
    NothingMissing(was, values);
    var again := StripRecords(Merged(was, values));
    assert Appended(again, values) == [];
    assert again + [] == again;
  }

  /** What a second merge of the same values writes: the same records, short of one more carriage return. */
  lemma MergeTwice(text: string, values: Values)
    requires Merge(text, values).Ok?
    ensures var rs := Merged(Parse(Lines(text)).value, values);
            Merge(Merge(text, values).value, values) == Ok(FileText(StripRecords(rs)))
  {
    hide Complete, FileText, Parse, Lines, Merged;
    var was := Parse(Lines(text)).value;
    var rs := Merged(was, values);
    ParseComplete(Lines(text));
    ParsedOneLiners(text);
    if rs == [] {
      EmptyIsBlank();
      assert StripRecords(rs) == rs;
      NothingToMerge(was, values);
    } else {
      MergedComplete(was, values);
      WrittenIsRead(rs);
      MergedAgain(was, values);
    }
  }

  /** Merging the same values again succeeds, and writes the same text exactly when no kept record has a
      line that ends in a second carriage return: reading strips one per line on every pass. */
  lemma MergeIdempotent(text: string, values: Values)
    requires Merge(text, values).Ok?
    ensures Merge(Merge(text, values).value, values).Ok?
    ensures Merge(Merge(text, values).value, values) == Merge(text, values) <==> KeepsNoCR(text, values)
  {
    hide Complete, FileText, Parse, Lines, Rewrite, Appended, KeepsNoCR;
    var rs := Merged(Parse(Lines(text)).value, values);
    MergeTwice(text, values);
    CarriageReturnsLeft(text, values);
    if rs == [] {
      assert StripRecords(rs) == rs;
    } else {
      ParseComplete(Lines(text));
      ParsedOneLiners(text);
      MergedComplete(Parse(Lines(text)).value, values);
      CompleteHasLines(rs);
      FileTextUnlines(rs);
      forall r | r in StripRecords(rs) ensures r.lines != [] {
        var i :| 0 <= i < |rs| && r == StripRecord(rs[i]);
        assert rs[i] in rs;
      }
      FileTextUnlines(StripRecords(rs));
      FlattenStrip(rs);
      UnlinesStripAll(Flatten(rs));
    }
  }

  /** In particular every file without carriage returns is left alone by a second merge. */
  lemma MergeIdempotentWithoutCR(text: string, values: Values)
    requires Merge(text, values).Ok? && '\r' !in text
    ensures Merge(Merge(text, values).value, values) == Merge(text, values)
  {
    hide Complete, FileText, Parse, Lines;
    MergeIdempotent(text, values);
    var rs := Parse(Lines(text)).value;
    ParseComplete(Lines(text));
    forall i, l | 0 <= i < |rs| && l in rs[i].lines ensures !EndsInCR(l) {
      FlattenIn(rs, l);
      LinesWithoutCR(text, l);
    }
  }

  lemma {:induction false} LinesWithoutCR(text: string, l: string)
    requires '\r' !in text && l in Lines(text)
    ensures '\r' !in l
    decreases |text|
  {
    if SplitOnce(text, '\n').Some? {
      var (a, b) := SplitOnce(text, '\n').value;
      SplitOnceParts(text, '\n');
      if l in Lines(b) {
        LinesWithoutCR(b, l);
      }
    }
  }

  /**
   * The condition is needed, whatever is merged: a file of one blank line ending in two carriage returns changes
   * again on the second merge.
   */
  lemma MergeNotIdempotent(values: Values)
    requires ValidNames(values)
    ensures Merge("\r\r\n", values).Ok?
    ensures Merge(Merge("\r\r\n", values).value, values) != Merge("\r\r\n", values)
  {
    hide Parse, FileText, Merged, Lines, Merge;
    BlankLineRead();
    assert Merge("\r\r\n", values).Ok? by {
      ReadableMerges("\r\r\n", values);
    }
    MergeIdempotent("\r\r\n", values);
    var r := Record(None, ["\r"]);
    assert [r][0].lines[0] == "\r" && EndsInCR("\r") && !Wanted(r, values);
    assert "\r" in [r][0].lines;
  }

  lemma ReadableMerges(text: string, values: Values)
    requires ValidNames(values) && Parse(Lines(text)).Some?
    ensures Merge(text, values).Ok?
  {
    hide Parse, FileText, Merged, Lines;
  }

  lemma BlankLineRead()
    ensures Parse(Lines("\r\r\n")) == Some([Record(None, ["\r"])])
  {
    hide Parse, Lines, StripCR;
    var raw := "\r" + "\r";
    LinesStep(raw, "");
    assert raw + ['\n'] + "" == "\r\r\n";
    assert StripCR(raw) == "\r" by { StripOne("\r"); }
    NoLines();
    BlankLine("\r");
    var none: seq<string> := [];
    assert ["\r"] + none == ["\r"];
  }

  lemma StripOne(line: string)
    ensures StripCR(line + "\r") == line
  {
  }

  lemma NoLines()
    ensures Lines("") == []
  {
  }

  lemma BlankLineComplete(line: string)
    requires line == "" || line == "\r"
    ensures Complete(Record(None, [line]))
  {
    hide KeyOf, OpenQuote;
    NoEqualsNoKey(line);
  }

  lemma BlankLine(line: string)
    requires line == "" || line == "\r"
    ensures Parse([line]) == Some([Record(None, [line])])
  {
    hide Parse, Complete;
    var rs := [Record(None, [line])];
    BlankLineComplete(line);
    ParseFlatten(rs);
    assert Flatten(rs) == [line];
  }
}
