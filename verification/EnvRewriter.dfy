/** `merge_env_file` as it runs: nested loops over lines and characters, then one atomic replacement. */
module EnvRewriter {
  import opened Prelude
  import opened Text
  import opened EnvFile
  import opened EnvMerge

  /** What the path names before the call. */
  datatype Destination = Missing | Unreadable | Regular(text: string) | Link(text: string)

  function ReadText(d: Destination): Result<string, EnvError> {
    match d
    case Missing => Ok("")
    case Unreadable => Err(CannotRead)
    case Regular(text) => Ok(text)
    case Link(text) => Ok(text)
  }

  /** The text the call computes, before anything is written: a missing file counts as an empty one. */
  ghost function Outcome(d: Destination, values: Values): Result<string, EnvError> {
    match d
    case Missing => Merge("", values)
    case Unreadable => Err(if ValidNames(values) then CannotRead else InvalidName)
    case Regular(text) => Merge(text, values)
    case Link(text) => Merge(text, values)
  }

  /** The character scan for the closing quote. */
  method ScanQuote(rest: string, quote: char) returns (closed: bool)
    ensures closed == Closes(rest, quote, false)
  {
    var escaped := false;
    var i := 0;
    while i < |rest|
      invariant 0 <= i <= |rest|
      invariant Closes(rest, quote, false) == Closes(rest[i..], quote, escaped)
    {
      var c := rest[i];
      assert rest[i..][1..] == rest[i + 1..];
      if escaped {
        escaped := false;
      } else if c == quote {
        return true;
      } else if c == '\\' && quote == '"' {
        escaped := true;
      }
      i := i + 1;
    }
    return false;
  }

  /** Read on until a line closes the quote; the record keeps every line. */
  method ReadQuoted(input: seq<string>, start: nat, quote: char, opening: string)
    returns (record: string, next: nat, ok: bool)
    requires start < |input|
    ensures ok == LinesToClose([opening] + input[start + 1..], quote).Some?
    ensures ok ==> LinesToClose([opening] + input[start + 1..], quote) == Some(next - start)
    ensures ok ==> start < next <= |input| && record == Join(input[start..next], "\n")
  {
    record, next, ok := input[start], start + 1, true;
    var rest := opening;
    assert input[start..next] == [input[start]];
    while true
      invariant start < next <= |input|
      invariant record == Join(input[start..next], "\n")
      invariant LinesToClose([opening] + input[start + 1..], quote)
                == match LinesToClose([rest] + input[next..], quote)
                   case None => None
                   case Some(n) => Some(n + (next - start - 1))
      decreases |input| - next
    {
      var closed := ScanQuote(rest, quote);
      assert ([rest] + input[next..])[1..] == input[next..];
      if closed {
        return;
      }
      if next == |input| {
        ok := false;
        return;
      }
      assert input[next..] == [input[next]] + input[next + 1..];
      rest := input[next];
      JoinAppend(input[start..next], "\n", rest);
      assert input[start..next] + [rest] == input[start..next + 1];
      record := record + "\n" + rest;
      next := next + 1;
    }
  }

  lemma {:induction false} SeenAppend(rs: seq<Record>, r: Record)
    ensures SeenKeys(rs + [r]) == SeenKeys(rs) + (if r.key.Some? then {r.key.value} else {})
  {
    var all := rs + [r];
    assert all[|rs|] == r;
    forall k | k in SeenKeys(rs) ensures k in SeenKeys(all) {
      var i :| 0 <= i < |rs| && rs[i].key == Some(k);
      assert all[i].key == Some(k);
    }
  }

  /** The records before line `i` are `done`, and the rest of the file is still to be parsed. */
  ghost predicate ParsedUpTo(input: seq<string>, i: nat, done: seq<Record>)
    requires i <= |input|
  {
    Parse(input) == match Parse(input[i..]) case None => None case Some(rest) => Some(done + rest)
  }

  lemma ParsedNothing(input: seq<string>)
    ensures ParsedUpTo(input, 0, [])
  {
    assert input[0..] == input;
    if Parse(input).Some? {
      assert [] + Parse(input).value == Parse(input).value;
    }
  }

  lemma ParsedAll(input: seq<string>, done: seq<Record>)
    requires ParsedUpTo(input, |input|, done)
    ensures Parse(input) == Some(done)
  {
    assert done + [] == done;
  }

  lemma ParsedStep(input: seq<string>, start: nat, i: nat, done: seq<Record>)
    requires start < i <= |input|
    requires ParsedUpTo(input, start, done)
    requires RecordLength(input[start..]) == Some(i - start)
    ensures ParsedUpTo(input, i, done + [Record(KeyOf(input[start]), input[start..i])])
  {
    hide RecordLength, KeyOf;
    var r := Record(KeyOf(input[start]), input[start..i]);
    assert input[start..][i - start..] == input[i..];
    assert input[start..][..i - start] == input[start..i];
    if Parse(input[i..]).Some? {
      var rest := Parse(input[i..]).value;
      assert done + ([r] + rest) == done + [r] + rest;
    }
  }

  lemma RewriteAppend(done: seq<Record>, r: Record, values: Values)
    ensures Texts(RewriteAll(done + [r], values)) == Texts(RewriteAll(done, values)) + [RecordText(Rewrite(r, values))]
  {
    hide Rewrite, RecordText;
    assert RewriteAll(done + [r], values) == RewriteAll(done, values) + [Rewrite(r, values)];
  }

  lemma RemainingAppend(done: seq<Record>, r: Record, values: Values)
    ensures values - SeenKeys(done + [r]) == if Wanted(r, values) then values - SeenKeys(done) - {r.key.value} else values - SeenKeys(done)
  {
    SeenAppend(done, r);
  }

  /** Read one record: its text and the line after it. */
  method ReadRecord(input: seq<string>, start: nat) returns (record: string, next: nat, ok: bool)
    requires start < |input|
    ensures ok == RecordLength(input[start..]).Some?
    ensures ok ==> start < next <= |input| && RecordLength(input[start..]) == Some(next - start)
    ensures ok ==> record == Join(input[start..next], "\n")
  {
    hide LinesToClose;
    record, next, ok := input[start], start + 1, true;
    assert input[start..next] == [record];
    var assignment := Assignment(record);
    if assignment.Some? {
      var value := TrimStart(assignment.value.1);
      if value != [] && (value[0] == '\'' || value[0] == '"') {
        assert input[start..][1..] == input[start + 1..];
        record, next, ok := ReadQuoted(input, start, value[0], value[1..]);
      }
    }
  }

  /** The record loop: what is written for each record, and which values are still to be written. */
  method RewriteLines(input: seq<string>, values: Values)
    returns (lines: seq<string>, remaining: Values, ok: bool)
    ensures ok == Parse(input).Some?
    ensures ok ==> lines == Texts(RewriteAll(Parse(input).value, values))
    ensures ok ==> remaining == values - SeenKeys(Parse(input).value)
  {
    hide Assignment, AssignLine, RecordLength, Texts, RewriteAll, SeenKeys, ParsedUpTo;
    lines, remaining, ok := [], values, true;
    ghost var done: seq<Record> := [];
    var i := 0;
    ParsedNothing(input);
    NothingDone(values);
    while i < |input|
      invariant 0 <= i <= |input|
      invariant ParsedUpTo(input, i, done)
      invariant lines == Texts(RewriteAll(done, values))
      invariant remaining == values - SeenKeys(done)
    {
      var record, next, complete := ReadRecord(input, i);
      if !complete {
        ParsedFails(input, i, done);
        ok := false;
        return;
      }
      ParsedStep(input, i, next, done);
      ghost var r := Record(KeyOf(input[i]), input[i..next]);
      RewriteAppend(done, r, values);
      RemainingAppend(done, r, values);
      var assignment := Assignment(input[i]);
      if assignment.Some? && Trim(assignment.value.0) in values {
        var k := Trim(assignment.value.0);
        AssignText(k, values[k]);
        remaining := remaining - {k};
        lines := lines + [k + "=" + QuoteEnv(values[k])];
      } else {
        lines := lines + [record];
      }
      done := done + [r];
      i := next;
    }
    ParsedAll(input, done);
  }

  lemma NothingDone(values: Values)
    ensures Texts(RewriteAll([], values)) == [] && values - SeenKeys([]) == values
  {
  }

  lemma ParsedFails(input: seq<string>, i: nat, done: seq<Record>)
    requires i < |input| && ParsedUpTo(input, i, done) && RecordLength(input[i..]).None?
    ensures Parse(input).None?
  {
    hide RecordLength;
  }

  ghost function AssignmentTexts(keys: seq<string>, values: Values): seq<string>
    requires forall k :: k in keys ==> k in values
  {
    Texts(Assignments(keys, values))
  }

  lemma NoAssignments(values: Values)
    ensures AssignmentTexts([], values) == []
  {
  }

  lemma AssignmentsAppend(done: seq<string>, k: string, values: Values)
    requires k in values && forall j :: j in done ==> j in values
    ensures AssignmentTexts(done + [k], values) == AssignmentTexts(done, values) + [k + "=" + QuoteEnv(values[k])]
  {
    hide AssignLine, RecordText;
    AssignText(k, values[k]);
    assert Assignments(done + [k], values) == Assignments(done, values) + [AssignRecord(k, values[k])];
  }

  lemma SortedStart(all: set<string>)
    ensures [] + SortedKeys(all) == SortedKeys(all)
  {
  }

  lemma SortedAppend(all: set<string>, done: seq<string>, rest: set<string>, k: string)
    requires Least(rest, k) && SortedKeys(all) == done + SortedKeys(rest)
    ensures SortedKeys(all) == done + [k] + SortedKeys(rest - {k})
  {
    hide SortedKeys, Least;
    SortedKeysStep(rest, k);
    assert done + ([k] + SortedKeys(rest - {k})) == done + [k] + SortedKeys(rest - {k});
  }

  lemma SortedEnd(done: seq<string>)
    ensures done + SortedKeys({}) == done
  {
  }

  /** `for (k, v) in &remaining`: one assignment line per name, in the map's order. */
  method AssignmentLines(remaining: Values) returns (lines: seq<string>)
    ensures lines == AssignmentTexts(SortedKeys(remaining.Keys), remaining)
  {
    hide QuoteEnv, Less, AssignmentTexts, SortedKeys;
    lines := [];
    NoAssignments(remaining);
    var rest := remaining.Keys;
    ghost var done: seq<string> := [];
    SortedStart(rest);
    while rest != {}
      invariant rest <= remaining.Keys
      invariant forall k :: k in done ==> k in remaining
      invariant SortedKeys(remaining.Keys) == done + SortedKeys(rest)
      invariant lines == AssignmentTexts(done, remaining)
      decreases rest
    {
      LeastExists(rest);
      ghost var least :| Least(rest, least);
      assert least in rest;
      var k :| k in rest && Least(rest, k);
      SortedAppend(remaining.Keys, done, rest, k);
      lines := lines + [k + "=" + QuoteEnv(remaining[k])];
      AssignmentsAppend(done, k, remaining);
      rest := rest - {k};
      done := done + [k];
    }
    SortedEnd(done);
  }

  lemma AssignText(k: string, v: string)
    ensures RecordText(AssignRecord(k, v)) == AssignLine(k, v) == k + "=" + QuoteEnv(v)
  {
  }

  function GapText(before: seq<string>): seq<string> {
    if before != [] && before[|before| - 1] != "" then [""] else []
  }

  /** `lines` is `before` followed by the block for `remaining`. */
  ghost predicate Appends(before: seq<string>, remaining: Values, lines: seq<string>) {
    lines == before
    + if remaining == map[] then []
      else
        GapText(before) + [BANNER] + AssignmentTexts(SortedKeys(remaining.Keys), remaining)
  }

  /** The append step: a separating blank line, the banner, and what the file did not define. */
  method AppendRemaining(before: seq<string>, remaining: Values) returns (lines: seq<string>)
    ensures Appends(before, remaining, lines)
  {
    hide AssignmentTexts;
    lines := before;
    if remaining != map[] {
      if lines != [] && lines[|lines| - 1] != "" {
        lines := lines + [""];
      }
      var assignments := AssignmentLines(remaining);
      lines := lines + [BANNER] + assignments;
    }
  }

  lemma TextsConcat(a: seq<Record>, b: seq<Record>, c: seq<Record>, d: seq<Record>)
    ensures Texts(a + (b + c + d)) == Texts(a) + Texts(b) + Texts(c) + Texts(d)
  {
    hide RecordText;
    assert Texts(b + c + d) == Texts(b) + Texts(c) + Texts(d);
  }

  lemma HeadTexts()
    ensures Texts([BLANK]) == [""] && Texts([Record(None, [BANNER])]) == [BANNER]
  {
  }

  /** The blank line is appended by the same rule on strings as on records. */
  lemma GapTexts(before: seq<Record>)
    requires forall r :: r in before ==> r.lines != []
    ensures Texts(Gap(before)) == GapText(Texts(before))
  {
  }

  lemma RewrittenHaveLines(rs: seq<Record>, values: Values)
    requires forall r :: r in rs ==> r.lines != []
    ensures forall r :: r in RewriteAll(rs, values) ==> r.lines != []
  {
  }

  lemma SameAssignments(keys: seq<string>, remaining: Values, values: Values)
    requires forall k :: k in keys ==> k in remaining && k in values && remaining[k] == values[k]
    ensures AssignmentTexts(keys, remaining) == Texts(Assignments(keys, values))
  {
    hide AssignLine, Texts;
    assert Assignments(keys, remaining) == Assignments(keys, values);
  }

  /** The two loops together write exactly the merged records. */
  lemma LinesAreMerged(rs: seq<Record>, values: Values, lines: seq<string>)
    requires forall r :: r in rs ==> r.lines != []
    requires Appends(Texts(RewriteAll(rs, values)), values - SeenKeys(rs), lines)
    ensures lines == Texts(Merged(rs, values))
  {
    var remaining, missing := values - SeenKeys(rs), values.Keys - SeenKeys(rs);
    assert remaining.Keys == missing;
    if missing == {} {
      assert remaining == map[];
      assert Merged(rs, values) == RewriteAll(rs, values);
    } else {
      assert remaining != map[];
      AppendedLinesAreMerged(rs, values, lines);
    }
  }

  lemma AppendedLinesAreMerged(rs: seq<Record>, values: Values, lines: seq<string>)
    requires forall r :: r in rs ==> r.lines != []
    requires values.Keys - SeenKeys(rs) != {}
    requires Appends(Texts(RewriteAll(rs, values)), values - SeenKeys(rs), lines)
    ensures lines == Texts(Merged(rs, values))
  {
    hide AssignmentTexts, Texts, RewriteAll, SeenKeys, SortedKeys, Gap, GapText;
    var before := RewriteAll(rs, values);
    var remaining, missing := values - SeenKeys(rs), values.Keys - SeenKeys(rs);
    assert remaining.Keys == missing && remaining != map[];
    var keys := SortedKeys(missing);
    assert forall k :: k in keys ==> k in missing;
    SameAssignments(keys, remaining, values);
    RewrittenHaveLines(rs, values);
    GapTexts(before);
    BannerText();
    MergedTexts(before, keys, values);
  }

  lemma BannerText()
    ensures Texts([Record(None, [BANNER])]) == [BANNER]
  {
    HeadTexts();
  }

  lemma MergedTexts(before: seq<Record>, keys: seq<string>, values: Values)
    requires forall k :: k in keys ==> k in values
    ensures Texts(before + (Gap(before) + [Record(None, [BANNER])] + Assignments(keys, values)))
         == Texts(before) + Texts(Gap(before)) + Texts([Record(None, [BANNER])]) + Texts(Assignments(keys, values))
  {
    hide Gap, Texts;
    TextsConcat(before, Gap(before), [Record(None, [BANNER])], Assignments(keys, values));
  }

  class EnvPath {
    var content: Destination
    /** How many replacements of the file have failed. */
    ghost var faults: nat

    constructor (d: Destination)
      ensures content == d
    {
      content, faults := d, 0;
    }

    /** The whole call. The file is either untouched or holds exactly the merged text; success means the
        latter, and only a failure to sync after the replacement reports an error with the new text in place. */
    method MergeEnvFile(values: Values) returns (r: Result<nat, EnvError>)
      modifies this
      ensures r.Ok? ==> Outcome(old(content), values).Ok? && !old(content).Link?
                        && content == Regular(Outcome(old(content), values).value) && r.value == |values|
      ensures Outcome(old(content), values).Err? ==> r == Err(Outcome(old(content), values).error)
      ensures Outcome(old(content), values).Ok? && !old(content).Link? && faults == old(faults) ==> r.Ok?
      ensures r.Err? ==> content == old(content)
                         || (r.error == CannotWrite && Outcome(old(content), values).Ok?
                             && content == Regular(Outcome(old(content), values).value))
    {
      hide Complete, Merged, Texts, Lines, AllComplete, Appends, Parse, SeenKeys, RewriteAll, ValidName;
      if !ValidNames(values) {
        return Err(InvalidName);
      }
      var existing := ReadText(content);
      if existing.Err? {
        return Err(existing.error);
      }
      var lines, remaining, ok := RewriteLines(Lines(existing.value), values);
      if !ok {
        return Err(Unterminated);
      }
      lines := AppendRemaining(lines, remaining);
      ParseComplete(Lines(existing.value));
      CompleteHasLines(Parse(Lines(existing.value)).value);
      LinesAreMerged(Parse(Lines(existing.value)).value, values, lines);
      var text := Join(lines, "\n") + "\n";
      var written := WritePrivate(text);
      if !written {
        return Err(CannotWrite);
      }
      return Ok(|values|);
    }

    /** Replace the file by rename. Any step may fail; only the last one fails with the file replaced. */
    method WritePrivate(text: string) returns (ok: bool)
      modifies this
      ensures content == old(content) || content == Regular(text)
      ensures ok ==> content == Regular(text) && !old(content).Link?
      ensures faults == old(faults) + if ok || old(content).Link? then 0 else 1
    {
      if content.Link? {
        return false;
      }
      var persisted: bool, synced: bool := *, *;
      if persisted {
        content := Regular(text);
      }
      ok := persisted && synced;
      if !ok {
        faults := faults + 1;
      }
    }
  }
}
