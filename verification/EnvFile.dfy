/** The `.env` rewriter: record parser, value escaper and merge, as functions on text. */
module EnvFile {
  import opened Prelude
  import opened Text

  type Values = map<string, string>

  datatype EnvError = InvalidName | Unterminated | CannotRead | CannotWrite

  // ------------------------------------------------------------------ names and values

  predicate IsNameStart(c: char) {
    'a' <= c <= 'z' || 'A' <= c <= 'Z' || c == '_'
  }

  predicate IsNameChar(c: char) {
    IsNameStart(c) || '0' <= c <= '9'
  }

  predicate ValidName(k: string) {
    k != [] && IsNameStart(k[0]) && forall i :: 1 <= i < |k| ==> IsNameChar(k[i])
  }

  predicate ValidNames(values: Values) {
    forall k :: k in values ==> ValidName(k)
  }

  /** Characters a value may hold and still be written without quotes. */
  predicate IsPlain(c: char) {
    'a' <= c <= 'z' || 'A' <= c <= 'Z' || '0' <= c <= '9' || c in "-_./:+="
  }

  /** `str::replace` for a one-character pattern. */
  function Replace(s: string, c: char, sub: string): string {
    if s == [] then "" else (if s[0] == c then sub else [s[0]]) + Replace(s[1..], c, sub)
  }

  function EscapeAll(v: string): string {
    Replace(Replace(Replace(Replace(v, '\\', "\\\\"), '"', "\\\""), '\n', "\\n"), '\r', "\\r")
  }

  function QuoteEnv(v: string): string {
    if forall c :: c in v ==> IsPlain(c) then v else "\"" + EscapeAll(v) + "\""
  }

  /** What the four replacements do to one character. */
  function EscapeChar(c: char): string {
    if c == '\\' then "\\\\" else if c == '"' then "\\\"" else if c == '\n' then "\\n" else if c == '\r' then "\\r" else [c]
  }

  function EscapeEach(v: string): string {
    if v == [] then "" else EscapeChar(v[0]) + EscapeEach(v[1..])
  }

  lemma {:induction false} ReplaceConcat(a: string, b: string, c: char, sub: string)
    ensures Replace(a + b, c, sub) == Replace(a, c, sub) + Replace(b, c, sub)
  {
    if a == [] {
      assert a + b == b;
    } else {
      var t := a + b;
      assert t[0] == a[0] && t[1..] == a[1..] + b;
      ReplaceConcat(a[1..], b, c, sub);
    }
  }

  lemma ReplaceChar(x: char, c: char, sub: string)
    ensures Replace([x], c, sub) == if x == c then sub else [x]
  {
    assert [x][1..] == "";
  }

  lemma EscapeAllChar(x: char)
    ensures EscapeAll([x]) == EscapeChar(x)
  {
    ReplaceChar(x, '\\', "\\\\");
    if x == '\\' {
      assert "\\\\" == ['\\'] + ['\\'];
      forall c, sub | c != '\\' ensures Replace("\\\\", c, sub) == "\\\\" {
        ReplaceConcat(['\\'], ['\\'], c, sub);
        ReplaceChar('\\', c, sub);
      }
    } else {
      ReplaceChar(x, '"', "\\\"");
      if x == '"' {
        assert "\\\"" == ['\\'] + ['"'];
        forall c, sub | c != '\\' && c != '"' ensures Replace("\\\"", c, sub) == "\\\"" {
          ReplaceConcat(['\\'], ['"'], c, sub);
          ReplaceChar('\\', c, sub);
          ReplaceChar('"', c, sub);
        }
      } else {
        ReplaceChar(x, '\n', "\\n");
        if x == '\n' {
          assert "\\n" == ['\\'] + ['n'];
          ReplaceConcat(['\\'], ['n'], '\r', "\\r");
          ReplaceChar('\\', '\r', "\\r");
          ReplaceChar('n', '\r', "\\r");
        } else {
          ReplaceChar(x, '\r', "\\r");
        }
      }
    }
  }

  /** The four successive whole-string replacements are one character-by-character escape:
      none of them touches what an earlier one produced. */
  lemma {:induction false} EscapeAllIsEscapeEach(v: string)
    ensures EscapeAll(v) == EscapeEach(v)
  {
    if v != [] {
      var h, t := [v[0]], v[1..];
      assert v == h + t;
      ReplaceConcat(h, t, '\\', "\\\\");
      var h1, t1 := Replace(h, '\\', "\\\\"), Replace(t, '\\', "\\\\");
      ReplaceConcat(h1, t1, '"', "\\\"");
      var h2, t2 := Replace(h1, '"', "\\\""), Replace(t1, '"', "\\\"");
      ReplaceConcat(h2, t2, '\n', "\\n");
      ReplaceConcat(Replace(h2, '\n', "\\n"), Replace(t2, '\n', "\\n"), '\r', "\\r");
      EscapeAllChar(v[0]);
      EscapeAllIsEscapeEach(t);
    }
  }

  /** A reader's inverse of the escape, up to the closing quote. */
  function Unescape(s: string): string {
    if s == [] then ""
    else if s[0] == '\\' && |s| > 1 then
      [if s[1] == 'n' then '\n' else if s[1] == 'r' then '\r' else s[1]] + Unescape(s[2..])
    else [s[0]] + Unescape(s[1..])
  }

  function UnquoteEnv(s: string): string {
    if |s| >= 2 && s[0] == '"' then Unescape(s[1..|s| - 1]) else s
  }

  lemma {:induction false} UnescapeEach(v: string)
    ensures Unescape(EscapeEach(v)) == v
  {
    if v != [] {
      UnescapeEach(v[1..]);
      var s := EscapeEach(v);
      if |EscapeChar(v[0])| == 2 {
        assert s[2..] == EscapeEach(v[1..]);
      } else {
        assert s[1..] == EscapeEach(v[1..]);
      }
      assert v == [v[0]] + v[1..];
    }
  }

  /** Every stored value can be read back from the file. */
  lemma QuoteEnvRoundTrip(v: string)
    ensures UnquoteEnv(QuoteEnv(v)) == v
  {
    if forall c :: c in v ==> IsPlain(c) {
      assert v != [] ==> v[0] in v;
    } else {
      EscapeAllIsEscapeEach(v);
      UnescapeEach(v);
      var q := QuoteEnv(v);
      assert q[1..|q| - 1] == EscapeAll(v);
    }
  }

  lemma QuoteEnvInjective(v: string, w: string)
    ensures QuoteEnv(v) == QuoteEnv(w) <==> v == w
  {
    QuoteEnvRoundTrip(v);
    QuoteEnvRoundTrip(w);
  }

  lemma PlainIff(c: char)
    ensures IsPlain(c) <==> IsAsciiAlphanumeric(c) || c in {'-', '_', '.', '/', ':', '+', '='}
  {
  }

  /** A value goes unquoted exactly when it is made of these characters; a quoted one is closed at both ends. */
  lemma QuotedUnlessPlain(v: string)
    ensures QuoteEnv(v) == v <==> forall c :: c in v ==> IsAsciiAlphanumeric(c) || c in {'-', '_', '.', '/', ':', '+', '='}
    ensures QuoteEnv(v) != v ==> |QuoteEnv(v)| >= 2 && QuoteEnv(v)[0] == '"' && QuoteEnv(v)[|QuoteEnv(v)| - 1] == '"'
  {
    hide IsPlain, EscapeAll;
    forall c ensures IsPlain(c) <==> IsAsciiAlphanumeric(c) || c in {'-', '_', '.', '/', ':', '+', '='} {
      PlainIff(c);
    }
    if QuoteEnv(v) == v && v != "" {
      PlainIff('"');
      assert v[0] in v;
      EscapedLength(v);
    }
  }

  lemma {:induction false} EscapedLength(v: string)
    ensures |EscapeAll(v)| >= |v|
  {
    hide EscapeAll;
    EscapeAllIsEscapeEach(v);
    EachLength(v);
  }

  lemma {:induction false} EachLength(v: string)
    ensures |EscapeEach(v)| >= |v|
  {
    if v != [] {
      EachLength(v[1..]);
    }
  }

  /** A name is a non-empty word of letters, digits and underscores that does not start with a digit. */
  lemma NamesAre(k: string)
    ensures ValidName(k)
            <==> k != "" && !(48 <= k[0] as int <= 57) && forall c :: c in k ==> IsAsciiAlphanumeric(c) || c == '_'
  {
    if ValidName(k) {
      assert forall i :: 0 <= i < |k| ==> IsNameChar(k[i]);
    } else if k != "" {
      assert k[0] in k;
      if IsNameStart(k[0]) {
        var i :| 1 <= i < |k| && !IsNameChar(k[i]);
        assert k[i] in k;
      }
    }
  }

  // ------------------------------------------------------------------ records

  /** One record of the file: a physical line, or the lines a quoted value spans. */
  datatype Record = Record(key: Option<string>, lines: seq<string>)

  const EXPORT: string := "export "

  function StripExport(s: string): string {
    if |s| >= |EXPORT| && s[..|EXPORT|] == EXPORT then s[|EXPORT|..] else s
  }

  /** The text before and after the first `=` of an assignment line; comments are none. */
  function Assignment(line: string): Option<(string, string)> {
    var trimmed := TrimStart(line);
    if trimmed != [] && trimmed[0] == '#' then None else SplitOnce(StripExport(trimmed), '=')
  }

  function KeyOf(line: string): Option<string> {
    match Assignment(line)
    case None => None
    case Some((k, _)) => Some(Trim(k))
  }

  /** The quote a value opens with, and the text after it. */
  function OpenQuoteOf(v: string): (r: Option<(char, string)>)
    ensures r.Some? ==> r.value.0 == '\'' || r.value.0 == '"'
  {
    var value := TrimStart(v);
    if value != [] && (value[0] == '\'' || value[0] == '"') then Some((value[0], value[1..])) else None
  }

  function OpenQuote(line: string): (r: Option<(char, string)>)
    ensures r.Some? ==> r.value.0 == '\'' || r.value.0 == '"'
  {
    match Assignment(line)
    case None => None
    case Some((_, v)) => OpenQuoteOf(v)
  }

  /** The character scan: does an unescaped `quote` occur? Only double quotes have escapes. */
  predicate Closes(s: string, quote: char, escaped: bool) {
    s != [] &&
    if escaped then Closes(s[1..], quote, false)
    else s[0] == quote || Closes(s[1..], quote, s[0] == '\\' && quote == '"')
  }

  /** How many lines are read until one closes the quote, that one included. */
  function LinesToClose(lines: seq<string>, quote: char): (r: Option<nat>)
    ensures r.Some? ==> 1 <= r.value <= |lines|
  {
    if lines == [] then None
    else if Closes(lines[0], quote, false) then Some(1)
    else
      match LinesToClose(lines[1..], quote)
      case None => None
      case Some(n) => Some(n + 1)
  }

  /** The number of physical lines of the record that starts at the first line. */
  function RecordLength(lines: seq<string>): (r: Option<nat>)
    requires lines != []
    ensures r.Some? ==> 1 <= r.value <= |lines|
  {
    match OpenQuote(lines[0])
    case None => Some(1)
    case Some((quote, rest)) => LinesToClose([rest] + lines[1..], quote)
  }

  /** All records, or nothing when a quoted value is unterminated. */
  function Parse(lines: seq<string>): Option<seq<Record>>
    decreases |lines|
  {
    if lines == [] then Some([])
    else
      match RecordLength(lines)
      case None => None
      case Some(n) =>
        match Parse(lines[n..])
        case None => None
        case Some(rest) => Some([Record(KeyOf(lines[0]), lines[..n])] + rest)
  }

  function Flatten(rs: seq<Record>): seq<string> {
    if rs == [] then [] else rs[0].lines + Flatten(rs[1..])
  }

  /** A record that the parser reads back as itself, whatever follows. */
  ghost predicate Complete(r: Record) {
    && r.lines != []
    && r.key == KeyOf(r.lines[0])
    && RecordLength(r.lines) == Some(|r.lines|)
  }

  ghost predicate AllComplete(rs: seq<Record>) {
    forall r :: r in rs ==> Complete(r)
  }

  lemma {:induction false} LinesToCloseLocal(lines: seq<string>, quote: char, n: nat, tail: seq<string>)
    requires n <= |lines|
    requires LinesToClose(lines, quote) == Some(n)
    ensures LinesToClose(lines[..n] + tail, quote) == Some(n)
  {
    var cut := lines[..n] + tail;
    assert cut[0] == lines[0];
    if !Closes(lines[0], quote, false) {
      assert cut[1..] == lines[1..][..n - 1] + tail;
      LinesToCloseLocal(lines[1..], quote, n - 1, tail);
    }
  }

  /** Where a record ends does not depend on what comes after it. */
  lemma RecordLengthLocal(lines: seq<string>, n: nat, tail: seq<string>)
    requires lines != [] && n <= |lines|
    requires RecordLength(lines) == Some(n)
    ensures lines[..n] + tail != []
    ensures RecordLength(lines[..n] + tail) == Some(n)
  {
    hide OpenQuote;
    var cut := lines[..n] + tail;
    assert cut[0] == lines[0];
    if OpenQuote(lines[0]).Some? {
      var (quote, rest) := OpenQuote(lines[0]).value;
      LinesToCloseLocal([rest] + lines[1..], quote, n, tail);
      assert [rest] + cut[1..] == ([rest] + lines[1..])[..n] + tail;
    }
  }

  /** Parsing cuts the file without loss, into complete records. */
  lemma {:induction false} ParseComplete(lines: seq<string>)
    requires Parse(lines).Some?
    ensures Flatten(Parse(lines).value) == lines
    ensures AllComplete(Parse(lines).value)
    decreases |lines|
  {
    hide RecordLength, KeyOf;
    if lines != [] {
      var n := RecordLength(lines).value;
      ParseComplete(lines[n..]);
      RecordLengthLocal(lines, n, []);
      assert lines[..n] + [] == lines[..n];
      assert lines[..n] + lines[n..] == lines;
      var rs := Parse(lines).value;
      assert rs[1..] == Parse(lines[n..]).value;
    }
  }

  /** Complete records, written one after another, are read back as themselves. */
  lemma {:induction false} ParseFlatten(rs: seq<Record>)
    requires AllComplete(rs)
    ensures Parse(Flatten(rs)) == Some(rs)
  {
    hide RecordLength, KeyOf;
    if rs != [] {
      var r, tail := rs[0], Flatten(rs[1..]);
      assert r in rs;
      assert r.lines[..|r.lines|] + tail == Flatten(rs);
      RecordLengthLocal(r.lines, |r.lines|, tail);
      var lines := Flatten(rs);
      assert lines[0] == r.lines[0];
      assert lines[..|r.lines|] == r.lines && lines[|r.lines|..] == tail;
      ParseFlatten(rs[1..]);
      assert rs == [r] + rs[1..];
    }
  }

  // ------------------------------------------------------------------ the lines the rewriter emits

  function AssignLine(k: string, v: string): string {
    k + "=" + QuoteEnv(v)
  }

  function AssignRecord(k: string, v: string): Record {
    Record(Some(k), [AssignLine(k, v)])
  }

  const BANNER: string := "# managed by passvalet inject"

  /** The scan never stops inside an escaped value, and stops at the quote that closes it. */
  lemma {:induction false} EscapedCloses(v: string, tail: string)
    ensures Closes(EscapeEach(v) + tail, '"', false) == Closes(tail, '"', false)
  {
    if v == [] {
      assert EscapeEach(v) + tail == tail;
    } else {
      hide EscapeChar;
      EscapedCloses(v[1..], tail);
      EscapedCharCloses(v[0], EscapeEach(v[1..]) + tail);
      assert EscapeEach(v) + tail == EscapeChar(v[0]) + (EscapeEach(v[1..]) + tail);
    }
  }

  lemma EscapedCharCloses(c: char, tail: string)
    ensures Closes(EscapeChar(c) + tail, '"', false) == Closes(tail, '"', false)
  {
  }

  lemma {:induction false} EscapedIsOneLine(v: string)
    ensures '\n' !in EscapeEach(v) && '\r' !in EscapeEach(v)
  {
    if v != [] {
      EscapedIsOneLine(v[1..]);
    }
  }

  lemma QuoteEnvIsOneLine(v: string)
    ensures '\n' !in QuoteEnv(v) && '\r' !in QuoteEnv(v)
  {
    hide EscapeAll, EscapeEach, IsPlain;
    EscapeAllIsEscapeEach(v);
    EscapedIsOneLine(v);
    PlainIsOneLine(v);
  }

  lemma PlainIsOneLine(v: string)
    ensures (forall c :: c in v ==> IsPlain(c)) ==> '\n' !in v && '\r' !in v
  {
    assert !IsPlain('\n') && !IsPlain('\r');
  }

  /** The escaper's output is one complete quoted value under the rewriter's own scanner:
      it never starts a multi-line record. */
  lemma QuoteEnvScans(v: string)
    ensures var q := QuoteEnv(v);
            q == [] || (!IsWhitespace(q[0]) && (q[0] == '\'' || q[0] == '"' ==> q[0] == '"' && Closes(q[1..], '"', false)))
  {
    hide EscapeAll, EscapeEach, Closes;
    if forall c :: c in v ==> IsPlain(c) {
      assert v != [] ==> v[0] in v && IsPlain(v[0]);
    } else {
      EscapeAllIsEscapeEach(v);
      EscapedCloses(v, "\"");
      QuoteCloses();
      assert QuoteEnv(v)[1..] == EscapeEach(v) + "\"";
    }
  }

  lemma QuoteCloses()
    ensures Closes("\"", '"', false)
  {
  }

  lemma TrimName(k: string)
    requires ValidName(k)
    ensures Trim(k) == k && '=' !in k && '\n' !in k && '\r' !in k
  {
    forall i | 0 <= i < |k| ensures IsNameChar(k[i]) {}
    assert !IsWhitespace(k[0]) && IsNameChar(k[|k| - 1]);
  }

  /** A name is followed by `=`, never by the blank that ends the `export` prefix. */
  lemma NoExport(k: string, q: string)
    requires ValidName(k)
    ensures StripExport(k + "=" + q) == k + "=" + q
  {
    var line := k + "=" + q;
    if |k| > 6 {
      assert line[6] == k[6] && IsNameChar(k[6]);
      assert |line| >= 7 ==> line[..7][6] == k[6];
    } else {
      assert line[|k|] == '=';
      assert |line| >= 7 ==> line[..7][|k|] == '=';
      assert EXPORT[|k|] != '=';
    }
  }

  /** An emitted `KEY=value` line is a complete record for exactly that key. */
  lemma AssignComplete(k: string, v: string)
    requires ValidName(k)
    ensures Complete(AssignRecord(k, v))
    ensures '\n' !in AssignLine(k, v) && '\r' !in AssignLine(k, v)
  {
    var q, line := QuoteEnv(v), AssignLine(k, v);
    QuoteEnvIsOneLine(v);
    QuoteEnvScans(v);
    TrimName(k);
    assert line[0] == k[0] && !IsWhitespace(line[0]) && line[0] != '#';
    assert TrimStart(line) == line;
    NoExport(k, q);
    assert line == k + ['='] + q;
    SplitOnceAt(k, '=', q);
    assert Assignment(line) == Some((k, q));
    if OpenQuote(line).Some? {
      assert [q[1..]] + [line][1..] == [q[1..]];
    }
  }

  lemma NoAssignmentInBlank()
    ensures StripExport("") == "" && SplitOnce("", '=') == None
  {
  }

  // ------------------------------------------------------------------ what a line spells

  /** White space, the name, more white space, `=`: only a name `export` must touch what follows it, or it is the prefix. */
  ghost predicate SpellsBare(line: string, k: string, pre: string, gap: string, v: string) {
    && line == pre + k + gap + "=" + v && White(pre) && White(gap)
    && !(k == "export" && gap != "" && gap[0] == ' ')
  }

  ghost predicate SpellsExport(line: string, k: string, pre: string, mid: string, gap: string, v: string) {
    line == pre + "export " + mid + k + gap + "=" + v && White(pre) && White(mid) && White(gap)
  }

  /** `line` assigns `v` to the name `k`, with or without `export`. */
  ghost predicate Spells(line: string, k: string, v: string) {
    || (exists pre, gap :: SpellsBare(line, k, pre, gap, v))
    || (exists pre, mid, gap :: SpellsExport(line, k, pre, mid, gap, v))
  }

  lemma NameIn(k: string, c: char)
    requires ValidName(k) && c in k
    ensures !IsWhitespace(c) && c != '=' && c != '#'
  {
    assert IsNameChar(c);
  }

  lemma WhiteIn(s: string, c: char)
    requires White(s) && c in s
    ensures c != '=' && c != '#'
  {
  }

  lemma TrimAround(mid: string, k: string, gap: string)
    requires ValidName(k) && White(mid) && White(gap)
    ensures Trim(mid + k + gap) == k && '=' !in mid + k + gap
  {
    NameIn(k, k[0]);
    NameIn(k, k[|k| - 1]);
    assert mid + k + gap == mid + (k + gap);
    TrimStartOf(mid, k + gap);
    TrimEndOf(k, gap);
    forall c | c in mid + k + gap ensures c != '=' {
      if c in k { NameIn(k, c); } else if c in mid { WhiteIn(mid, c); } else { WhiteIn(gap, c); }
    }
  }

  /** Nothing but the prefix itself is taken for it. */
  lemma NoPrefix(k: string, gap: string, v: string)
    requires ValidName(k) && White(gap) && !(k == "export" && gap != "" && gap[0] == ' ')
    ensures StripExport(k + gap + "=" + v) == k + gap + "=" + v
  {
    var line := k + gap + "=" + v;
    var n := |k|;
    assert line[n] == if gap == "" then '=' else gap[0];
    assert gap != "" ==> gap[0] in gap;
    if n > 6 {
      assert line[6] == k[6];
      NameIn(k, k[6]);
    } else if n < 6 {
      assert EXPORT[n] in "export";
      assert line[n] != EXPORT[n];
    } else {
      assert line[..6] == k;
      assert |line| >= 7 ==> line[..7][..6] == k && line[..7][6] == line[6];
      assert EXPORT[..6] == "export";
    }
  }

  lemma BareAssigns(line: string, k: string, pre: string, gap: string, v: string)
    requires ValidName(k) && SpellsBare(line, k, pre, gap, v)
    ensures Assignment(line) == Some((k + gap, v)) && KeyOf(line) == Some(k)
  {
    hide StripExport, SplitOnce, TrimStart;
    var rest := k + gap + "=" + v;
    NameIn(k, k[0]);
    assert line == pre + rest;
    TrimStartOf(pre, rest);
    NoPrefix(k, gap, v);
    TrimAround("", k, gap);
    assert "" + k + gap == k + gap;
    assert rest == k + gap + ['='] + v;
    SplitOnceAt(k + gap, '=', v);
  }

  lemma ExportAssigns(line: string, k: string, pre: string, mid: string, gap: string, v: string)
    requires ValidName(k) && SpellsExport(line, k, pre, mid, gap, v)
    ensures Assignment(line) == Some((mid + k + gap, v)) && KeyOf(line) == Some(k)
  {
    hide SplitOnce, TrimStart;
    var rest := mid + k + gap + "=" + v;
    assert line == pre + ("export " + rest);
    TrimStartOf(pre, "export " + rest);
    assert StripExport("export " + rest) == rest;
    TrimAround(mid, k, gap);
    assert rest == mid + k + gap + ['='] + v;
    SplitOnceAt(mid + k + gap, '=', v);
  }

  /** The parser sees in a line exactly what the line spells: the name of its assignment, exported or not. */
  lemma KeyIsSpelled(line: string, k: string)
    requires ValidName(k)
    ensures KeyOf(line) == Some(k) <==> exists v :: Spells(line, k, v)
  {
    hide Assignment, SpellsBare, SpellsExport, Trim;
    if v :| Spells(line, k, v) {
      if pre, gap :| SpellsBare(line, k, pre, gap, v) {
        BareAssigns(line, k, pre, gap, v);
      } else {
        var pre, mid, gap :| SpellsExport(line, k, pre, mid, gap, v);
        ExportAssigns(line, k, pre, mid, gap, v);
      }
    }
    if KeyOf(line) == Some(k) {
      AssignedIsSpelled(line, k);
      assert Spells(line, k, Assignment(line).value.1);
    }
  }

  lemma AssignedIsSpelled(line: string, k: string)
    requires ValidName(k) && KeyOf(line) == Some(k)
    ensures Assignment(line).Some? && Spells(line, k, Assignment(line).value.1)
  {
    hide SplitOnce, TrimStart, Trim, SpellsBare, SpellsExport;
    var trimmed := TrimStart(line);
    var pre := line[..|line| - |trimmed|];
    TrimStartCuts(line);
    var (a, v) := Assignment(line).value;
    SplitOnceParts(StripExport(trimmed), '=');
    var mid, gap := TrimParts(a);
    assert StripExport(trimmed) == mid + k + gap + "=" + v;
    if StripExport(trimmed) == trimmed {
      AssignedBare(line, k, pre, mid, gap, v);
    } else {
      assert trimmed == "export " + (mid + k + gap + "=" + v);
      assert SpellsExport(line, k, pre, mid, gap, v) by {
        hide *;
        ExportSpelled(line, k, pre, mid, gap, v);
      }
    }
  }

  lemma ExportSpelled(line: string, k: string, pre: string, mid: string, gap: string, v: string)
    requires line == pre + ("export " + (mid + k + gap + "=" + v)) && White(pre) && White(mid) && White(gap)
    ensures SpellsExport(line, k, pre, mid, gap, v)
  {
  }

  lemma StartsWhite(s: string, rest: string)
    requires White(s)
    ensures s != "" ==> IsWhitespace((s + rest)[0])
  {
    assert s != "" ==> s[0] in s;
  }

  lemma PrefixTaken(gap: string, rest: string)
    requires gap != "" && gap[0] == ' '
    ensures |StripExport("export" + gap + rest)| < |"export" + gap + rest|
  {
    assert ("export" + gap + rest)[..7] == EXPORT;
  }

  lemma AssignedBare(line: string, k: string, pre: string, mid: string, gap: string, v: string)
    requires ValidName(k) && White(pre) && White(mid) && White(gap)
    requires var body := mid + k + gap + "=" + v;
             line == pre + body && !IsWhitespace(body[0]) && StripExport(body) == body
    ensures SpellsBare(line, k, pre, gap, v)
  {
    hide StripExport, ValidName, White, IsWhitespace;
    var rest := k + gap + "=" + v;
    assert mid + k + gap + "=" + v == mid + rest;
    StartsWhite(mid, rest);
    assert mid == "";
    assert "" + rest == rest && StripExport(rest) == rest;
    assert line == pre + k + gap + "=" + v;
    assert rest == k + gap + ("=" + v);
    if k == "export" && gap != "" && gap[0] == ' ' {
      PrefixTaken(gap, "=" + v);
    }
  }

  /** The first thing in a value, after white space, decides whether it is quoted. */
  lemma QuoteIsSpelled(line: string, k: string, v: string, gap: string, rest: string)
    requires ValidName(k) && Spells(line, k, v) && v == gap + rest && White(gap)
    requires rest == "" || !IsWhitespace(rest[0])
    ensures OpenQuote(line) == if rest != "" && rest[0] in "'\"" then Some((rest[0], rest[1..])) else None
  {
    hide Assignment, SpellsBare, SpellsExport, TrimStart;
    if pre, blank :| SpellsBare(line, k, pre, blank, v) {
      BareAssigns(line, k, pre, blank, v);
    } else {
      var pre, mid, blank :| SpellsExport(line, k, pre, mid, blank, v);
      ExportAssigns(line, k, pre, mid, blank, v);
    }
    TrimStartOf(gap, rest);
  }

  /** In double quotes a character is escaped when a backslash precedes it that is not itself escaped. */
  predicate Escaped(s: string, i: nat, quote: char, first: bool)
    requires i <= |s|
  {
    if i == 0 then first else quote == '"' && s[i - 1] == '\\' && !Escaped(s, i - 1, quote, first)
  }

  ghost predicate HoldsUnescaped(s: string, quote: char, first: bool) {
    exists i :: 0 <= i < |s| && s[i] == quote && !Escaped(s, i, quote, first)
  }

  lemma {:induction false} EscapedTail(s: string, i: nat, quote: char, first: bool)
    requires i < |s|
    ensures Escaped(s, i + 1, quote, first) == Escaped(s[1..], i, quote, Escaped(s, 1, quote, first))
  {
    if i > 0 {
      EscapedTail(s, i - 1, quote, first);
    }
  }

  lemma HoldsTail(s: string, quote: char, first: bool)
    requires s != []
    ensures HoldsUnescaped(s, quote, first)
            <==> (s[0] == quote && !first) || HoldsUnescaped(s[1..], quote, Escaped(s, 1, quote, first))
  {
    var t, e := s[1..], Escaped(s, 1, quote, first);
    if i :| 0 <= i < |s| && s[i] == quote && !Escaped(s, i, quote, first) {
      if i > 0 {
        EscapedTail(s, i - 1, quote, first);
        assert t[i - 1] == quote;
      }
    }
    if i :| 0 <= i < |t| && t[i] == quote && !Escaped(t, i, quote, e) {
      EscapedTail(s, i, quote, first);
      assert s[i + 1] == quote;
    }
    if s[0] == quote && !first {
      assert !Escaped(s, 0, quote, first);
    }
  }

  /** The character scan finds the quote exactly when the text holds it unescaped. */
  lemma {:induction false} ClosesIff(s: string, quote: char, escaped: bool)
    requires quote == '\'' || quote == '"'
    ensures Closes(s, quote, escaped) <==> HoldsUnescaped(s, quote, escaped)
  {
    hide HoldsUnescaped;
    if s == [] {
      NothingHeld(quote, escaped);
    } else {
      HoldsTail(s, quote, escaped);
      ClosesIff(s[1..], quote, Escaped(s, 1, quote, escaped));
    }
  }

  lemma NothingHeld(quote: char, escaped: bool)
    ensures !HoldsUnescaped("", quote, escaped)
  {
  }

  lemma {:induction false} LinesToCloseIff(lines: seq<string>, quote: char, n: nat)
    ensures LinesToClose(lines, quote) == Some(n)
            <==> 1 <= n <= |lines| && Closes(lines[n - 1], quote, false)
                 && forall i :: 0 <= i < n - 1 ==> !Closes(lines[i], quote, false)
  {
    if lines != [] {
      if n > 1 {
        LinesToCloseIff(lines[1..], quote, n - 1);
        assert n <= |lines| ==> lines[1..][n - 2] == lines[n - 1];
        assert forall i :: 0 < i < n - 1 && i < |lines| ==> lines[1..][i - 1] == lines[i];
        assert forall i :: 0 <= i < n - 2 && i < |lines| - 1 ==> lines[1..][i] == lines[i + 1];
      }
    }
  }

  /** A record takes one line unless its value opens a quote; then it ends with the first line that holds
      that quote unescaped. */
  lemma RecordEnds(lines: seq<string>, k: string, v: string, gap: string, rest: string, n: nat)
    requires lines != [] && ValidName(k) && Spells(lines[0], k, v) && v == gap + rest && White(gap)
    requires rest == "" || !IsWhitespace(rest[0])
    ensures RecordLength(lines) == Some(n)
            <==> if rest == "" || rest[0] !in "'\"" then n == 1
                 else
                   var texts := [rest[1..]] + lines[1..];
                   && 1 <= n <= |lines| && HoldsUnescaped(texts[n - 1], rest[0], false)
                   && forall i :: 0 <= i < n - 1 ==> !HoldsUnescaped(texts[i], rest[0], false)
  {
    hide OpenQuote, Spells, HoldsUnescaped, LinesToClose, Closes;
    QuoteIsSpelled(lines[0], k, v, gap, rest);
    if rest != "" && rest[0] in "'\"" {
      var texts := [rest[1..]] + lines[1..];
      LinesToCloseIff(texts, rest[0], n);
      forall i | 0 <= i < |texts| ensures Closes(texts[i], rest[0], false) <==> HoldsUnescaped(texts[i], rest[0], false) {
        ClosesIff(texts[i], rest[0], false);
      }
    }
  }

  /** A comment assigns nothing, whatever it holds. */
  lemma CommentHasNoKey(pre: string, rest: string)
    requires White(pre)
    ensures KeyOf(pre + "#" + rest) == None && OpenQuote(pre + "#" + rest) == None
  {
    assert pre + "#" + rest == pre + ("#" + rest);
    TrimStartOf(pre, "#" + rest);
  }

  /** A line without `=` assigns nothing. */
  lemma {:induction false} NoEqualsNoKey(line: string)
    requires '=' !in line
    ensures KeyOf(line) == None && OpenQuote(line) == None
  {
    hide TrimStart, StripExport, SplitOnce;
    var trimmed := TrimStart(line);
    assert '=' !in StripExport(trimmed) by {
      StripExportIn(trimmed, '=');
    }
    if SplitOnce(StripExport(trimmed), '=').Some? {
      SplitOnceParts(StripExport(trimmed), '=');
    }
  }

  lemma StripExportIn(s: string, c: char)
    requires c !in s
    ensures c !in StripExport(s)
  {
  }

  /** The blank line and the banner are records without a key. */
  lemma CommentComplete(line: string)
    requires line == "" || (!IsWhitespace(line[0]) && line[0] == '#')
    ensures Complete(Record(None, [line]))
  {
    hide KeyOf, OpenQuote;
    if line == "" {
      NoEqualsNoKey(line);
    } else {
      assert line == "" + "#" + line[1..];
      CommentHasNoKey("", line[1..]);
    }
  }

  // ------------------------------------------------------------------ carriage returns

  lemma {:induction false} TrimStartCR(b: string)
    ensures TrimStart(b + "\r") == if TrimStart(b) == [] then [] else TrimStart(b) + "\r"
  {
    var s := b + "\r";
    if b == [] {
      assert s == "\r" && s[1..] == "";
    } else {
      assert s[0] == b[0] && s[1..] == b[1..] + "\r";
      TrimStartCR(b[1..]);
    }
  }

  lemma {:induction false} ClosesCR(b: string, quote: char, escaped: bool)
    requires quote != '\r'
    ensures Closes(b + "\r", quote, escaped) == Closes(b, quote, escaped)
  {
    var s := b + "\r";
    if b == [] {
      assert s == "\r" && s[1..] == "";
    } else {
      assert s[0] == b[0] && s[1..] == b[1..] + "\r";
      ClosesCR(b[1..], quote, false);
      ClosesCR(b[1..], quote, b[0] == '\\' && quote == '"');
    }
  }

  lemma {:induction false} SplitOnceCR(b: string)
    ensures SplitOnce(b + "\r", '=') ==
            match SplitOnce(b, '=') case None => None case Some((k, v)) => Some((k, v + "\r"))
  {
    var s := b + "\r";
    if b == [] {
      assert s == "\r" && s[1..] == "";
    } else {
      assert s[0] == b[0] && s[1..] == b[1..] + "\r";
      SplitOnceCR(b[1..]);
    }
  }

  lemma StripExportCR(b: string)
    ensures StripExport(b + "\r") == StripExport(b) + "\r"
  {
    var s := b + "\r";
    if |b| >= 7 {
      assert s[..7] == b[..7];
      assert s[7..] == b[7..] + "\r";
    } else if |s| >= 7 {
      assert s[..7] == s && s[6] == '\r' && EXPORT[6] == ' ';
    }
  }

  lemma AssignmentCR(b: string)
    ensures Assignment(b + "\r") ==
            match Assignment(b) case None => None case Some((k, v)) => Some((k, v + "\r"))
  {
    hide TrimStart, SplitOnce, StripExport;
    TrimStartCR(b);
    var t := TrimStart(b);
    if t == [] {
      NoAssignmentInBlank();
    } else {
      assert (t + "\r")[0] == t[0];
      StripExportCR(t);
      SplitOnceCR(StripExport(t));
    }
  }

  lemma OpenQuoteOfCR(v: string)
    ensures OpenQuoteOf(v + "\r") ==
            match OpenQuoteOf(v) case None => None case Some((quote, rest)) => Some((quote, rest + "\r"))
  {
    hide TrimStart;
    TrimStartCR(v);
    var t := TrimStart(v);
    if t != [] {
      assert (t + "\r")[0] == t[0] && (t + "\r")[1..] == t[1..] + "\r";
    }
  }

  lemma OpenQuoteCR(b: string)
    ensures OpenQuote(b + "\r") ==
            match OpenQuote(b) case None => None case Some((quote, rest)) => Some((quote, rest + "\r"))
  {
    hide Assignment, OpenQuoteOf;
    AssignmentCR(b);
    if Assignment(b).Some? {
      OpenQuoteOfCR(Assignment(b).value.1);
    }
  }

  /** A value without a trailing carriage return opens with a rest that has none either. */
  lemma OpenQuoteOfPlain(v: string)
    requires OpenQuoteOf(v).Some? && !EndsInCR(v)
    ensures !EndsInCR(OpenQuoteOf(v).value.1)
  {
    var t := TrimStart(v);
    assert t[|t| - 1] == v[|v| - 1];
  }

  lemma AssignmentPlain(line: string)
    requires Assignment(line).Some? && !EndsInCR(line)
    ensures !EndsInCR(Assignment(line).value.1)
  {
    hide SplitOnce;
    var trimmed := TrimStart(line);
    var body := StripExport(trimmed);
    SplitOnceLast(body, '=');
    assert body != [] ==> body[|body| - 1] == trimmed[|trimmed| - 1];
    assert trimmed != [] ==> trimmed[|trimmed| - 1] == line[|line| - 1];
  }

  lemma OpenQuotePlain(line: string)
    requires !EndsInCR(line)
    ensures OpenQuote(line).Some? ==> !EndsInCR(OpenQuote(line).value.1)
  {
    hide Assignment, OpenQuoteOf;
    if OpenQuote(line).Some? {
      AssignmentPlain(line);
      OpenQuoteOfPlain(Assignment(line).value.1);
    }
  }

  /** Losing a trailing carriage return changes neither the key nor the quoting state of a line. */
  lemma StripCRKeepsShape(line: string)
    ensures KeyOf(StripCR(line)) == KeyOf(line)
    ensures OpenQuote(StripCR(line)) ==
            match OpenQuote(line) case None => None case Some((quote, rest)) => Some((quote, StripCR(rest)))
  {
    hide Assignment, OpenQuote;
    if EndsInCR(line) {
      var b := StripCR(line);
      assert line == b + "\r";
      AssignmentCR(b);
      OpenQuoteCR(b);
    } else {
      OpenQuotePlain(line);
    }
  }

  lemma {:induction false} LinesToCloseCR(lines: seq<string>, quote: char)
    requires quote != '\r'
    ensures LinesToClose(StripAll(lines), quote) == LinesToClose(lines, quote)
  {
    if lines != [] {
      assert StripAll(lines)[1..] == StripAll(lines[1..]);
      LinesToCloseCR(lines[1..], quote);
      var l := lines[0];
      if l != StripCR(l) {
        assert l == StripCR(l) + "\r";
        ClosesCR(StripCR(l), quote, false);
      }
    }
  }

  function StripRecord(r: Record): Record {
    r.(lines := StripAll(r.lines))
  }

  function StripRecords(rs: seq<Record>): (r: seq<Record>)
    ensures |r| == |rs| && forall i :: 0 <= i < |r| ==> r[i] == StripRecord(rs[i])
  {
    seq(|rs|, i requires 0 <= i < |rs| => StripRecord(rs[i]))
  }

  lemma StripComplete(r: Record)
    requires Complete(r)
    ensures Complete(StripRecord(r))
  {
    hide OpenQuote, KeyOf;
    StripCRKeepsShape(r.lines[0]);
    if OpenQuote(r.lines[0]).Some? {
      var (quote, rest) := OpenQuote(r.lines[0]).value;
      LinesToCloseCR([rest] + r.lines[1..], quote);
      assert StripAll([rest] + r.lines[1..]) == [StripCR(rest)] + StripAll(r.lines)[1..];
    }
  }

  lemma {:induction false} FlattenStrip(rs: seq<Record>)
    ensures Flatten(StripRecords(rs)) == StripAll(Flatten(rs))
  {
    if rs != [] {
      FlattenStrip(rs[1..]);
      assert StripRecords(rs)[1..] == StripRecords(rs[1..]);
      assert StripAll(rs[0].lines + Flatten(rs[1..])) == StripAll(rs[0].lines) + StripAll(Flatten(rs[1..]));
    }
  }
}
