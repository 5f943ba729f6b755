/** Text primitives of the Rust and TypeScript standard libraries that several components share:
    white space, trimming, line splitting, joining and byte-wise string order. */
module Text {
  import opened Prelude

  /** `char::is_whitespace`: the Unicode White_Space property. */
  predicate IsWhitespace(c: char) {
    || '\t' <= c <= '\U{000D}'
    || c in {' ', '\U{0085}', '\U{00A0}', '\U{1680}', '\U{2028}', '\U{2029}', '\U{202F}', '\U{205F}', '\U{3000}'}
    || '\U{2000}' <= c <= '\U{200A}'
  }

  /** The 25 code points of that property, as the Unicode Character Database lists them. */
  lemma WhitespaceIs(c: char)
    ensures IsWhitespace(c)
            <==> c as int in {9, 10, 11, 12, 13, 32, 0x85, 0xA0, 0x1680, 0x2000, 0x2001, 0x2002, 0x2003, 0x2004, 0x2005, 0x2006,
                              0x2007, 0x2008, 0x2009, 0x200A, 0x2028, 0x2029, 0x202F, 0x205F, 0x3000}
  {
  }

  /** The ASCII letters and digits, by code. */
  predicate IsAsciiAlphanumeric(c: char) {
    var n := c as int;
    48 <= n <= 57 || 65 <= n <= 90 || 97 <= n <= 122
  }

  function TrimStart(s: string): (r: string)
    ensures r == [] || !IsWhitespace(r[0])
    ensures |r| <= |s| && r == s[|s| - |r|..]
  {
    if s != [] && IsWhitespace(s[0]) then TrimStart(s[1..]) else s
  }

  function TrimEnd(s: string): (r: string)
    ensures r == [] || !IsWhitespace(r[|r| - 1])
    ensures r <= s
  {
    if s != [] && IsWhitespace(s[|s| - 1]) then TrimEnd(s[..|s| - 1]) else s
  }

  function Trim(s: string): (r: string)
    ensures r == [] || (!IsWhitespace(r[0]) && !IsWhitespace(r[|r| - 1]))
  {
    TrimEnd(TrimStart(s))
  }

  ghost predicate White(s: string) {
    forall c :: c in s ==> IsWhitespace(c)
  }

  lemma {:induction false} TrimStartOf(pre: string, s: string)
    requires White(pre) && (s == [] || !IsWhitespace(s[0]))
    ensures TrimStart(pre + s) == s
  {
    if pre == [] {
      assert pre + s == s;
    } else {
      assert pre[0] in pre && (pre + s)[1..] == pre[1..] + s;
      TrimStartOf(pre[1..], s);
    }
  }

  lemma {:induction false} TrimStartCuts(s: string)
    ensures White(s[..|s| - |TrimStart(s)|])
  {
    if s != [] && IsWhitespace(s[0]) {
      TrimStartCuts(s[1..]);
      var n := |s| - |TrimStart(s)|;
      assert s[..n] == [s[0]] + s[1..][..n - 1];
    }
  }

  lemma {:induction false} TrimEndOf(s: string, gap: string)
    requires White(gap) && (s == [] || !IsWhitespace(s[|s| - 1]))
    ensures TrimEnd(s + gap) == s
  {
    var t := s + gap;
    if gap == [] {
      assert t == s;
    } else {
      assert gap[|gap| - 1] in gap && t[..|t| - 1] == s + gap[..|gap| - 1];
      TrimEndOf(s, gap[..|gap| - 1]);
    }
  }

  lemma {:induction false} TrimEndCuts(s: string)
    ensures White(s[|TrimEnd(s)|..])
  {
    if s != [] && IsWhitespace(s[|s| - 1]) {
      TrimEndCuts(s[..|s| - 1]);
      var n := |TrimEnd(s)|;
      assert s[n..] == s[..|s| - 1][n..] + [s[|s| - 1]];
    }
  }

  /** Trimming removes white space at both ends, and nothing else. */
  lemma TrimParts(a: string) returns (mid: string, gap: string)
    ensures a == mid + Trim(a) + gap && White(mid) && White(gap)
  {
    var t := TrimStart(a);
    TrimStartCuts(a);
    TrimEndCuts(t);
    mid, gap := a[..|a| - |t|], t[|Trim(a)|..];
  }

  /** `str::split_once` for a one-character pattern. */
  function SplitOnce(s: string, sep: char): (r: Option<(string, string)>)
    ensures r.None? ==> sep !in s
    ensures r.Some? ==> sep !in r.value.0 && |r.value.1| < |s|
  {
    if s == [] then None
    else if s[0] == sep then Some(("", s[1..]))
    else
      match SplitOnce(s[1..], sep)
      case None => None
      case Some((a, b)) => Some(([s[0]] + a, b))
  }

  lemma {:induction false} SplitOnceAt(a: string, sep: char, b: string)
    requires sep !in a
    ensures SplitOnce(a + [sep] + b, sep) == Some((a, b))
  {
    if a == [] {
      assert a + [sep] + b == [sep] + b;
    } else {
      var text := a + [sep] + b;
      assert text[0] == a[0] && text[1..] == a[1..] + [sep] + b;
      SplitOnceAt(a[1..], sep, b);
      assert [a[0]] + a[1..] == a;
    }
  }

  lemma {:induction false} SplitOnceParts(s: string, sep: char)
    requires SplitOnce(s, sep).Some?
    ensures var (a, b) := SplitOnce(s, sep).value; s == a + [sep] + b
  {
    if s[0] != sep {
      SplitOnceParts(s[1..], sep);
      assert s == [s[0]] + s[1..];
    }
  }

  lemma {:induction false} SplitOnceLast(s: string, sep: char)
    requires SplitOnce(s, sep).Some?
    ensures var b := SplitOnce(s, sep).value.1; b != [] ==> s != [] && b[|b| - 1] == s[|s| - 1]
  {
    if s[0] != sep {
      SplitOnceLast(s[1..], sep);
    }
  }

  // ------------------------------------------------------------------ lines

  /** The text each line of which is closed by a newline. */
  function Unlines(lines: seq<string>): string {
    if lines == [] then "" else lines[0] + "\n" + Unlines(lines[1..])
  }

  function Join(parts: seq<string>, sep: string): string {
    if parts == [] then "" else if |parts| == 1 then parts[0] else parts[0] + sep + Join(parts[1..], sep)
  }

  /** A newline-terminated line loses one carriage return, and only one. */
  function StripCR(line: string): string {
    if line != [] && line[|line| - 1] == '\r' then line[..|line| - 1] else line
  }

  function StripAll(lines: seq<string>): (r: seq<string>)
    ensures |r| == |lines| && forall i :: 0 <= i < |r| ==> r[i] == StripCR(lines[i])
  {
    seq(|lines|, i requires 0 <= i < |lines| => StripCR(lines[i]))
  }

  /** `str::lines`: an unterminated last line is a line unless it is empty, and keeps its carriage return. */
  function Lines(text: string): (r: seq<string>)
    ensures forall l :: l in r ==> '\n' !in l
    decreases |text|
  {
    if text == [] then []
    else
      match SplitOnce(text, '\n')
      case None => [text]
      case Some((a, b)) => [StripCR(a)] + Lines(b)
  }

  ghost predicate NoNewlines(lines: seq<string>) {
    forall l :: l in lines ==> '\n' !in l
  }

  ghost predicate EndsInCR(line: string) {
    line != [] && line[|line| - 1] == '\r'
  }

  lemma LinesStep(line: string, rest: string)
    requires '\n' !in line
    ensures Lines(line + ['\n'] + rest) == [StripCR(line)] + Lines(rest)
  {
    SplitOnceAt(line, '\n', rest);
  }

  lemma {:induction false} LinesUnlines(lines: seq<string>)
    requires NoNewlines(lines)
    ensures Lines(Unlines(lines)) == StripAll(lines)
  {
    if lines != [] {
      var rest := Unlines(lines[1..]);
      assert lines[0] in lines;
      LinesUnlines(lines[1..]);
      LinesStep(lines[0], rest);
      assert lines[0] + "\n" + rest == lines[0] + ['\n'] + rest;
      assert StripAll(lines) == [StripCR(lines[0])] + StripAll(lines[1..]);
    }
  }

  lemma {:induction false} UnlinesConcat(a: seq<string>, b: seq<string>)
    ensures Unlines(a + b) == Unlines(a) + Unlines(b)
  {
    if a == [] {
      assert a + b == b;
    } else {
      assert (a + b)[1..] == a[1..] + b;
      UnlinesConcat(a[1..], b);
    }
  }

  /** Reading back what was written gives the same text exactly when no line ends in a carriage return. */
  lemma {:induction false} UnlinesStripAll(lines: seq<string>)
    ensures |Unlines(StripAll(lines))| <= |Unlines(lines)|
    ensures Unlines(StripAll(lines)) == Unlines(lines) <==> forall l :: l in lines ==> !EndsInCR(l)
  {
    if lines != [] {
      UnlinesStripAll(lines[1..]);
      assert StripAll(lines)[1..] == StripAll(lines[1..]);
      assert forall l :: l in lines <==> l == lines[0] || l in lines[1..];
      if !EndsInCR(lines[0]) {
        var head := lines[0] + "\n";
        assert Unlines(lines) == head + Unlines(lines[1..]);
        assert Unlines(StripAll(lines)) == head + Unlines(StripAll(lines[1..]));
        if Unlines(StripAll(lines)) == Unlines(lines) {
          assert Unlines(StripAll(lines))[|head|..] == Unlines(StripAll(lines[1..]));
          assert Unlines(lines)[|head|..] == Unlines(lines[1..]);
        }
      }
    }
  }

  // ------------------------------------------------------------------ byte-wise order

  /** Byte-wise order of UTF-8 text, which is the order of code points. */
  predicate Less(a: string, b: string) {
    b != [] && (a == [] || a[0] < b[0] || (a[0] == b[0] && Less(a[1..], b[1..])))
  }

  lemma LessIrreflexive(a: string)
    ensures !Less(a, a)
  {
  }

  lemma LessTransitive(a: string, b: string, c: string)
    requires Less(a, b) && Less(b, c)
    ensures Less(a, c)
  {
  }

  lemma {:induction false} LessTotal(a: string, b: string)
    ensures a == b || Less(a, b) || Less(b, a)
  {
    if a != [] && b != [] && a[0] == b[0] {
      LessTotal(a[1..], b[1..]);
      assert a == [a[0]] + a[1..] && b == [b[0]] + b[1..];
    }
  }

  predicate Least(s: set<string>, k: string) {
    k in s && forall j :: j in s && j != k ==> Less(k, j)
  }

  lemma {:induction false} LeastExists(s: set<string>)
    requires s != {}
    ensures exists k :: Least(s, k)
  {
    var x :| x in s;
    if s == {x} {
      assert Least(s, x);
    } else {
      var rest := s - {x};
      LeastExists(rest);
      var k :| Least(rest, k);
      LessTotal(x, k);
      if Less(x, k) {
        forall j | j in s && j != x ensures Less(x, j) {
          if j != k {
            LessTransitive(x, k, j);
          }
        }
        assert Least(s, x);
      } else {
        assert Least(s, k);
      }
    }
  }

  lemma LeastUnique(s: set<string>, j: string, k: string)
    requires Least(s, j) && Least(s, k)
    ensures j == k
  {
    if j != k {
      LessTransitive(j, k, j);
      LessIrreflexive(j);
    }
  }

  /** The iteration order of a `BTreeMap` over these keys. */
  ghost function SortedKeys(s: set<string>): (r: seq<string>)
    ensures forall k :: k in r <==> k in s
    ensures r == [] <==> s == {}
  {
    if s == {} then []
    else
      LeastExists(s);
      var k :| Least(s, k);
      [k] + SortedKeys(s - {k})
  }

  ghost predicate Ascending(ks: seq<string>) {
    forall i, j :: 0 <= i < j < |ks| ==> Less(ks[i], ks[j])
  }

  lemma {:induction false} SortedKeysAscend(s: set<string>)
    ensures Ascending(SortedKeys(s))
  {
    hide Less;
    if s != {} {
      LeastExists(s);
      var k :| Least(s, k);
      SortedKeysStep(s, k);
      SortedKeysAscend(s - {k});
      var ks, rest := SortedKeys(s), SortedKeys(s - {k});
      forall i, j | 0 <= i < j < |ks| ensures Less(ks[i], ks[j]) {
        assert ks[j] == rest[j - 1] && ks[j] in rest;
        if i > 0 {
          assert ks[i] == rest[i - 1];
        }
      }
    }
  }

  /** `b` is the first to be larger at place `i`: up to there the two agree, and there `a` ends or is smaller. */
  predicate SmallerAt(a: string, b: string, i: nat) {
    i < |b| && i <= |a| && a[..i] == b[..i] && (i == |a| || a[i] < b[i])
  }

  lemma {:induction false} LessAt(a: string, b: string) returns (i: nat)
    requires Less(a, b)
    ensures SmallerAt(a, b, i)
  {
    if a == [] || a[0] < b[0] {
      i := 0;
      assert a[..0] == b[..0];
    } else {
      var j := LessAt(a[1..], b[1..]);
      i := j + 1;
      assert a[..i] == [a[0]] + a[1..][..j] && b[..i] == [b[0]] + b[1..][..j];
    }
  }

  lemma {:induction false} AtIsLess(a: string, b: string, i: nat)
    requires SmallerAt(a, b, i)
    ensures Less(a, b)
  {
    if i > 0 {
      assert a[0] == a[..i][0] == b[0];
      assert a[1..][..i - 1] == a[..i][1..] && b[1..][..i - 1] == b[..i][1..];
      AtIsLess(a[1..], b[1..], i - 1);
    }
  }

  /** The first difference decides, and a proper prefix comes first. */
  lemma LessIff(a: string, b: string)
    ensures Less(a, b) <==> exists i :: SmallerAt(a, b, i)
  {
    hide Less, SmallerAt;
    if Less(a, b) {
      var i := LessAt(a, b);
    }
    if i: nat :| SmallerAt(a, b, i) {
      AtIsLess(a, b, i);
    }
  }

  lemma SortedKeysStep(s: set<string>, k: string)
    requires Least(s, k)
    ensures SortedKeys(s) == [k] + SortedKeys(s - {k})
  {
    forall j | Least(s, j) ensures j == k {
      LeastUnique(s, j, k);
    }
  }

  lemma {:induction false} JoinAppend(parts: seq<string>, sep: string, last: string)
    requires parts != []
    ensures Join(parts + [last], sep) == Join(parts, sep) + sep + last
  {
    if |parts| > 1 {
      JoinAppend(parts[1..], sep, last);
      assert (parts + [last])[1..] == parts[1..] + [last];
      assert parts[0] + sep + (Join(parts[1..], sep) + sep + last) == parts[0] + sep + Join(parts[1..], sep) + sep + last;
    }
  }

  // ------------------------------------------------------------------ numbers

  function Decimal(n: nat): (s: string)
    ensures s != ""
  {
    if n < 10 then [('0' as int + n) as char] else Decimal(n / 10) + [('0' as int + n % 10) as char]
  }

  lemma {:induction false} DecimalInjective(m: nat, n: nat)
    requires Decimal(m) == Decimal(n)
    ensures m == n
  {
    var a, b := Decimal(m), Decimal(n);
    assert a[|a| - 1] == b[|b| - 1];
    if m >= 10 && n >= 10 {
      assert a[..|a| - 1] == Decimal(m / 10) && b[..|b| - 1] == Decimal(n / 10);
      DecimalInjective(m / 10, n / 10);
    }
  }

  predicate IsDigits(s: string) {
    s != "" && forall i :: 0 <= i < |s| ==> '0' <= s[i] <= '9'
  }

  /** The number that decimal digits denote. */
  function ValueOf(s: string): nat {
    if s == "" || !('0' <= s[|s| - 1] <= '9') then 0 else 10 * ValueOf(s[..|s| - 1]) + (s[|s| - 1] as int - '0' as int)
  }

  lemma {:induction false} DecimalReads(n: nat)
    ensures IsDigits(Decimal(n)) && ValueOf(Decimal(n)) == n
  {
    var s := Decimal(n);
    if n >= 10 {
      DecimalReads(n / 10);
      assert s[..|s| - 1] == Decimal(n / 10);
    } else {
      assert s[..0] == "" && ValueOf("") == 0;
    }
  }

  /** The digits a text starts with, if `end` follows them. */
  function DigitsBefore(s: string, end: char): string {
    match SplitOnce(s, end)
    case Some((digits, _)) => if IsDigits(digits) then digits else ""
    case None => ""
  }

  lemma DigitsAre(digits: string, end: char, rest: string)
    requires IsDigits(digits) && !('0' <= end <= '9')
    ensures DigitsBefore(digits + [end] + rest, end) == digits
  {
    SplitOnceAt(digits, end, rest);
  }
}
