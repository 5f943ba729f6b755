/** The redactor: one leftmost replacement pass per known key shape, then a generic pass. */
module Redact {
  import opened Prelude
  import T = Text

  // ------------------------------------------------------------------ shapes

  datatype Class = Alnum | Ident | Dashed | Word | UpperDigit

  predicate IsAlnum(c: char) {
    'a' <= c <= 'z' || 'A' <= c <= 'Z' || '0' <= c <= '9'
  }

  predicate InClass(cls: Class, c: char) {
    match cls
    case Alnum => IsAlnum(c)
    case Ident => IsAlnum(c) || c == '_'
    case Dashed => IsAlnum(c) || c == '-'
    case Word => IsAlnum(c) || c == '_' || c == '-'
    case UpperDigit => 'A' <= c <= 'Z' || '0' <= c <= '9'
  }

  /** A prefix out of a few and then a run: of at least `min` characters, or of exactly `min`;
      or three runs joined by dots after `eyJ`. */
  datatype Shape =
    | Run(prefixes: seq<string>, cls: Class, min: nat)
    | Exact(prefix: string, cls: Class, min: nat)
    | Jwt

  const N: nat := 19

  /** The fixed patterns, in the order the passes run. */
  function ShapeAt(k: nat): Shape
    requires k < N
  {
    match k
    case 0 => Run(["sk-ant-"], Word, 20)
    case 1 => Run(["sk-proj-"], Word, 20)
    case 2 => Run(["sk-"], Word, 20)
    case 3 => Run(["sk_live_", "sk_test_", "rk_live_", "rk_test_", "pk_live_", "pk_test_"], Alnum, 16)
    case 4 => Run(["whsec_"], Alnum, 16)
    case 5 => Run(["sb_secret_", "sb_publishable_"], Word, 16)
    case 6 => Jwt
    case 7 => Run(["ghp_"], Alnum, 30)
    case 8 => Run(["gho_"], Alnum, 30)
    case 9 => Run(["github_pat_"], Ident, 40)
    case 10 => Run(["vcp_", "vci_", "vca_", "vcr_", "vck_"], Word, 1)
    case 11 => Run(["cfut_", "cfat_", "cfk_"], Word, 1)
    case 12 => Exact("AKIA", UpperDigit, 16)
    case 13 => Run(["AIza"], Word, 30)
    case 14 => Run(["re_"], Ident, 20)
    case 15 => Run(["xoxa-", "xoxb-", "xoxp-", "xoxr-"], Dashed, 20)
    case 16 => Run(["glpat-"], Word, 20)
    case 17 => Run(["npm_"], Alnum, 30)
    case _ => Run(["pv_sess_"], Word, 30)
  }

  predicate StartsWith(s: string, p: string) {
    |p| <= |s| && s[..|p|] == p
  }

  predicate AllIn(cls: Class, s: string) {
    forall c :: c in s ==> InClass(cls, c)
  }

  const JWT_MIN: nat := 10
  const JWT_PREFIX: string := "eyJ"

  ghost predicate JwtParts(s: string, i: nat, j: nat) {
    && |JWT_PREFIX| + JWT_MIN <= i && i + 1 + JWT_MIN <= j && j + 1 + JWT_MIN <= |s|
    && StartsWith(s, JWT_PREFIX) && s[i] == '.' && s[j] == '.'
    && AllIn(Word, s[|JWT_PREFIX|..i]) && AllIn(Word, s[i + 1..j]) && AllIn(Word, s[j + 1..])
  }

  predicate IsRun(s: string, p: string, cls: Class, min: nat) {
    |p| + min <= |s| && StartsWith(s, p) && AllIn(cls, s[|p|..])
  }

  /** The language of the regular expression: is the whole of `s` a key of this shape? */
  ghost predicate Matches(sh: Shape, s: string) {
    match sh
    case Run(prefixes, cls, min) => exists k :: 0 <= k < |prefixes| && IsRun(s, prefixes[k], cls, min)
    case Exact(p, cls, min) => |s| == |p| + min && IsRun(s, p, cls, min)
    case Jwt => exists i: nat, j: nat :: JwtParts(s, i, j)
  }

  /** `Regex::is_match`: some substring is a key of this shape. */
  ghost predicate HasMatch(sh: Shape, text: string) {
    exists i, j :: 0 <= i <= j <= |text| && Matches(sh, text[i..j])
  }

  // ------------------------------------------------------------------ the keys, spelled out

  /** At least `min` ASCII letters, digits and characters of `extra`. */
  predicate Made(body: string, min: nat, extra: string) {
    |body| >= min && AllOf(body, extra)
  }

  predicate AllOf(body: string, extra: string) {
    forall c :: c in body ==> T.IsAsciiAlphanumeric(c) || c in extra
  }

  predicate AllUpperOrDigit(body: string) {
    forall c :: c in body ==> 48 <= c as int <= 57 || 65 <= c as int <= 90
  }

  predicate ApiKey(p: string, body: string) {
    || (p in {"sk-ant-", "sk-proj-", "sk-"} && Made(body, 20, "_-"))
    || (p in {"sk_live_", "sk_test_", "rk_live_", "rk_test_", "pk_live_", "pk_test_", "whsec_"} && Made(body, 16, ""))
    || (p in {"sb_secret_", "sb_publishable_"} && Made(body, 16, "_-"))
  }

  predicate HostKey(p: string, body: string) {
    || (p in {"ghp_", "gho_"} && Made(body, 30, ""))
    || (p == "github_pat_" && Made(body, 40, "_"))
    || (p in {"vcp_", "vci_", "vca_", "vcr_", "vck_", "cfut_", "cfat_", "cfk_"} && Made(body, 1, "_-"))
  }

  predicate ServiceKey(p: string, body: string) {
    || (p == "AKIA" && |body| == 16 && AllUpperOrDigit(body))
    || (p in {"AIza", "pv_sess_"} && Made(body, 30, "_-"))
    || (p == "glpat-" && Made(body, 20, "_-"))
    || (p == "npm_" && Made(body, 30, ""))
    || (p == "re_" && Made(body, 20, "_"))
    || (p in {"xoxa-", "xoxb-", "xoxp-", "xoxr-"} && Made(body, 20, "-"))
  }

  /** A key as its vendor prints it: a known prefix and a body, or three runs after `eyJ`, joined by dots. */
  ghost predicate IsKey(s: string) {
    || (exists p, body :: s == p + body && (ApiKey(p, body) || HostKey(p, body) || ServiceKey(p, body)))
    || (exists a, b, c :: IsJwt(s, a, b, c))
  }

  predicate IsJwt(s: string, a: string, b: string, c: string) {
    s == "eyJ" + a + "." + b + "." + c && Made(a, 10, "_-") && Made(b, 10, "_-") && Made(c, 10, "_-")
  }

  /** Some substring is a key. */
  ghost predicate HoldsKey(text: string) {
    exists i, j :: 0 <= i <= j <= |text| && IsKey(text[i..j])
  }

  lemma ClassIs(s: string)
    ensures AllIn(Alnum, s) <==> AllOf(s, "")
    ensures AllIn(Ident, s) <==> AllOf(s, "_")
    ensures AllIn(Dashed, s) <==> AllOf(s, "-")
    ensures AllIn(Word, s) <==> AllOf(s, "_-")
    ensures AllIn(UpperDigit, s) <==> AllUpperOrDigit(s)
  {
  }

  lemma RunIs(s: string, p: string, cls: Class, min: nat)
    ensures IsRun(s, p, cls, min) <==> exists body :: s == p + body && |body| >= min && AllIn(cls, body)
  {
    if IsRun(s, p, cls, min) {
      assert s == p + s[|p|..];
    }
    if body :| s == p + body && |body| >= min && AllIn(cls, body) {
      assert s[|p|..] == body && s[..|p|] == p;
    }
  }

  lemma ShapeIsApiKey(k: nat, s: string)
    requires k < 6 && Matches(ShapeAt(k), s)
    ensures IsKey(s)
  {
    hide AllIn, AllOf, IsRun, IsJwt, HostKey, ServiceKey;
    var sh := ShapeAt(k);
    var i :| 0 <= i < |sh.prefixes| && IsRun(s, sh.prefixes[i], sh.cls, sh.min);
    RunIs(s, sh.prefixes[i], sh.cls, sh.min);
    var body :| s == sh.prefixes[i] + body && |body| >= sh.min && AllIn(sh.cls, body);
    ClassIs(body);
    assert ApiKey(sh.prefixes[i], body);
  }

  lemma ShapeIsHostKey(k: nat, s: string)
    requires 7 <= k < 12 && Matches(ShapeAt(k), s)
    ensures IsKey(s)
  {
    hide AllIn, AllOf, IsRun, IsJwt, ApiKey, ServiceKey;
    var sh := ShapeAt(k);
    var i :| 0 <= i < |sh.prefixes| && IsRun(s, sh.prefixes[i], sh.cls, sh.min);
    RunIs(s, sh.prefixes[i], sh.cls, sh.min);
    var body :| s == sh.prefixes[i] + body && |body| >= sh.min && AllIn(sh.cls, body);
    ClassIs(body);
    assert HostKey(sh.prefixes[i], body);
  }

  lemma ShapeIsServiceKey(k: nat, s: string)
    requires 12 <= k < N && Matches(ShapeAt(k), s)
    ensures IsKey(s)
  {
    hide AllIn, AllOf, AllUpperOrDigit, IsRun, IsJwt, ApiKey, HostKey;
    var sh := ShapeAt(k);
    var p := if sh.Exact? then sh.prefix else "";
    if sh.Run? {
      var i :| 0 <= i < |sh.prefixes| && IsRun(s, sh.prefixes[i], sh.cls, sh.min);
      p := sh.prefixes[i];
    }
    RunIs(s, p, sh.cls, sh.min);
    var body :| s == p + body && |body| >= sh.min && AllIn(sh.cls, body);
    ClassIs(body);
    assert |s| == |p| + |body| && (sh.Exact? ==> |s| == |p| + 16);
    assert ServiceKey(p, body);
  }

  lemma JwtIsKey(s: string)
    requires Matches(Jwt, s)
    ensures IsKey(s)
  {
    hide AllIn, AllOf, ApiKey, HostKey, ServiceKey;
    var i: nat, j: nat :| JwtParts(s, i, j);
    var a, b, c := s[3..i], s[i + 1..j], s[j + 1..];
    ClassIs(a);
    ClassIs(b);
    ClassIs(c);
    assert s[..3] == "eyJ" && s[i..i + 1] == "." && s[j..j + 1] == ".";
    FiveParts(s, i, j);
    assert IsJwt(s, a, b, c);
  }

  lemma FiveParts(s: string, i: nat, j: nat)
    requires 3 <= i < j < |s|
    ensures s == s[..3] + s[3..i] + s[i..i + 1] + s[i + 1..j] + s[j..j + 1] + s[j + 1..]
  {
  }

  lemma KeyIsJwt(s: string, a: string, b: string, c: string)
    requires IsJwt(s, a, b, c)
    ensures Matches(ShapeAt(6), s)
  {
    hide AllIn, AllOf;
    ClassIs(a);
    ClassIs(b);
    ClassIs(c);
    var i, j := 3 + |a|, 4 + |a| + |b|;
    assert s[3..i] == a && s[i + 1..j] == b && s[j + 1..] == c;
    assert s[..3] == "eyJ" && s[i] == '.' && s[j] == '.';
    assert JwtParts(s, i, j);
  }

  /** The place of a prefix in the list of patterns. */
  ghost predicate Listed(k: nat, i: nat, p: string, cls: Class, min: nat) {
    k < N && ShapeAt(k).Run? && i < |ShapeAt(k).prefixes|
    && ShapeAt(k).prefixes[i] == p && ShapeAt(k).cls == cls && ShapeAt(k).min == min
  }

  lemma ListedMatches(k: nat, i: nat, p: string, cls: Class, min: nat, body: string)
    requires Listed(k, i, p, cls, min) && |body| >= min && AllIn(cls, body)
    ensures Matches(ShapeAt(k), p + body)
  {
    hide ShapeAt, AllIn;
    RunIs(p + body, p, cls, min);
  }

  lemma ApiKeyMatches(p: string, body: string)
    requires ApiKey(p, body)
    ensures exists k :: 0 <= k < N && Matches(ShapeAt(k), p + body)
  {
    hide AllIn, AllOf, Matches, ShapeAt;
    ClassIs(body);
    ApiPrefixes();
    var k, i, cls, min :| Listed(k, i, p, cls, min) && |body| >= min && AllIn(cls, body);
    ListedMatches(k, i, p, cls, min, body);
  }

  lemma ApiPrefixes()
    ensures Listed(0, 0, "sk-ant-", Word, 20) && Listed(1, 0, "sk-proj-", Word, 20) && Listed(2, 0, "sk-", Word, 20)
    ensures Listed(4, 0, "whsec_", Alnum, 16)
    ensures Listed(3, 0, "sk_live_", Alnum, 16) && Listed(3, 1, "sk_test_", Alnum, 16) && Listed(3, 2, "rk_live_", Alnum, 16)
    ensures Listed(3, 3, "rk_test_", Alnum, 16) && Listed(3, 4, "pk_live_", Alnum, 16) && Listed(3, 5, "pk_test_", Alnum, 16)
    ensures Listed(5, 0, "sb_secret_", Word, 16) && Listed(5, 1, "sb_publishable_", Word, 16)
  {
  }

  lemma HostKeyMatches(p: string, body: string)
    requires HostKey(p, body)
    ensures exists k :: 0 <= k < N && Matches(ShapeAt(k), p + body)
  {
    hide AllIn, AllOf, Matches, ShapeAt;
    ClassIs(body);
    HostPrefixes();
    var k, i, cls, min :| Listed(k, i, p, cls, min) && |body| >= min && AllIn(cls, body);
    ListedMatches(k, i, p, cls, min, body);
  }

  lemma HostPrefixes()
    ensures Listed(7, 0, "ghp_", Alnum, 30) && Listed(8, 0, "gho_", Alnum, 30)
    ensures Listed(9, 0, "github_pat_", Ident, 40)
    ensures Listed(10, 0, "vcp_", Word, 1) && Listed(10, 1, "vci_", Word, 1) && Listed(10, 2, "vca_", Word, 1)
    ensures Listed(10, 3, "vcr_", Word, 1) && Listed(10, 4, "vck_", Word, 1)
    ensures Listed(11, 0, "cfut_", Word, 1) && Listed(11, 1, "cfat_", Word, 1) && Listed(11, 2, "cfk_", Word, 1)
  {
  }

  lemma ServiceKeyMatches(p: string, body: string)
    requires ServiceKey(p, body)
    ensures exists k :: 0 <= k < N && Matches(ShapeAt(k), p + body)
  {
    hide AllIn, AllOf, AllUpperOrDigit, Matches, ShapeAt;
    ClassIs(body);
    ServicePrefixes();
    if p == "AKIA" {
      AkiaMatches(body);
    } else {
      var k, i, cls, min :| Listed(k, i, p, cls, min) && |body| >= min && AllIn(cls, body);
      ListedMatches(k, i, p, cls, min, body);
    }
  }

  lemma AkiaMatches(body: string)
    requires |body| == 16 && AllIn(UpperDigit, body)
    ensures Matches(ShapeAt(12), "AKIA" + body)
  {
    hide AllIn;
    RunIs("AKIA" + body, "AKIA", UpperDigit, 16);
  }

  lemma ServicePrefixes()
    ensures Listed(16, 0, "glpat-", Word, 20) && Listed(17, 0, "npm_", Alnum, 30)
    ensures Listed(13, 0, "AIza", Word, 30) && Listed(18, 0, "pv_sess_", Word, 30) && Listed(14, 0, "re_", Ident, 20)
    ensures Listed(15, 0, "xoxa-", Dashed, 20) && Listed(15, 1, "xoxb-", Dashed, 20)
    ensures Listed(15, 2, "xoxp-", Dashed, 20) && Listed(15, 3, "xoxr-", Dashed, 20)
  {
  }

  /** The patterns match exactly the keys. */
  lemma PatternsAreKeys(s: string)
    ensures IsKey(s) <==> exists k :: 0 <= k < N && Matches(ShapeAt(k), s)
  {
    hide Matches, ShapeAt, ApiKey, HostKey, ServiceKey, IsJwt;
    if k :| 0 <= k < N && Matches(ShapeAt(k), s) {
      if k < 6 {
        ShapeIsApiKey(k, s);
      } else if k == 6 {
        SixthIsJwt();
        JwtIsKey(s);
      } else if k < 12 {
        ShapeIsHostKey(k, s);
      } else {
        ShapeIsServiceKey(k, s);
      }
    }
    if IsKey(s) {
      if a, b, c :| IsJwt(s, a, b, c) {
        KeyIsJwt(s, a, b, c);
      } else {
        var p, body :| s == p + body && (ApiKey(p, body) || HostKey(p, body) || ServiceKey(p, body));
        if ApiKey(p, body) {
          ApiKeyMatches(p, body);
        } else if HostKey(p, body) {
          HostKeyMatches(p, body);
        } else {
          ServiceKeyMatches(p, body);
        }
      }
    }
  }

  lemma SixthIsJwt()
    ensures ShapeAt(6) == Jwt
  {
  }

  lemma KnownShapesAreKeys(text: string)
    ensures ContainsKnownShape(text) <==> HoldsKey(text)
  {
    hide Matches, ShapeAt, IsKey;
    if k :| 0 <= k < N && HasMatch(ShapeAt(k), text) {
      var i, j :| 0 <= i <= j <= |text| && Matches(ShapeAt(k), text[i..j]);
      PatternsAreKeys(text[i..j]);
    }
    if i, j :| 0 <= i <= j <= |text| && IsKey(text[i..j]) {
      PatternsAreKeys(text[i..j]);
      var k :| 0 <= k < N && Matches(ShapeAt(k), text[i..j]);
      assert HasMatch(ShapeAt(k), text);
    }
  }

  // ------------------------------------------------------------------ the scanner

  /** The end of the run of class characters at `i`. */
  function RunEnd(cls: Class, text: string, i: nat): (e: nat)
    requires i <= |text|
    ensures i <= e <= |text| && AllIn(cls, text[i..e])
    ensures e < |text| ==> !InClass(cls, text[e])
    decreases |text| - i
  {
    if i < |text| && InClass(cls, text[i]) then
      var e := RunEnd(cls, text, i + 1);
      assert text[i..e] == [text[i]] + text[i + 1..e];
      e
    else i
  }

  /** The end of `p` followed by a run, greedily, when the match starts at `i`. */
  function PrefixEnd(text: string, i: nat, p: string, cls: Class, min: nat): (r: Option<nat>)
    requires i <= |text|
    ensures r.Some? ==> i + |p| + min <= r.value <= |text|
  {
    if StartsWith(text[i..], p) then
      var e := RunEnd(cls, text, i + |p|);
      if e - (i + |p|) >= min then Some(e) else None
    else None
  }

  function FirstEnd(text: string, i: nat, prefixes: seq<string>, cls: Class, min: nat): (r: Option<nat>)
    requires i <= |text|
    ensures r.Some? ==> i + min <= r.value <= |text|
  {
    if prefixes == [] then None
    else
      var r := PrefixEnd(text, i, prefixes[0], cls, min);
      if r.Some? then r else FirstEnd(text, i, prefixes[1..], cls, min)
  }

  function JwtEnd(text: string, i: nat): (r: Option<nat>)
    requires i <= |text|
    ensures r.Some? ==> i + 3 * JWT_MIN <= r.value <= |text|
  {
    match PrefixEnd(text, i, JWT_PREFIX, Word, JWT_MIN)
    case None => None
    case Some(a) =>
      match PrefixEnd(text, a, ".", Word, JWT_MIN)
      case None => None
      case Some(b) => PrefixEnd(text, b, ".", Word, JWT_MIN)
  }

  /** Where the greedy match that starts at `i` ends, if there is one. */
  function MatchEnd(sh: Shape, text: string, i: nat): (r: Option<nat>)
    requires i <= |text|
    ensures r.Some? ==> i <= r.value <= |text|
  {
    match sh
    case Run(prefixes, cls, min) => FirstEnd(text, i, prefixes, cls, min)
    case Exact(p, cls, min) =>
      if PrefixEnd(text, i, p, cls, min).Some? then Some(i + |p| + min) else None
    case Jwt => JwtEnd(text, i)
  }

  lemma Slice(text: string, i: nat, a: nat, x: nat, y: nat)
    requires i <= a <= |text| && x <= y <= a - i
    ensures text[i..a][x..y] == text[i + x..i + y]
  {
    var l, r := text[i..a][x..y], text[i + x..i + y];
    assert |l| == |r| && forall k :: 0 <= k < |l| ==> l[k] == r[k];
  }

  lemma PrefixEndSound(text: string, i: nat, p: string, cls: Class, min: nat)
    requires i <= |text| && PrefixEnd(text, i, p, cls, min).Some?
    ensures IsRun(text[i..PrefixEnd(text, i, p, cls, min).value], p, cls, min)
  {
    var e := PrefixEnd(text, i, p, cls, min).value;
    assert text[i..e][..|p|] == text[i..][..|p|];
    assert text[i..e][|p|..] == text[i + |p|..e];
  }

  lemma PrefixEndComplete(text: string, i: nat, j: nat, p: string, cls: Class, min: nat)
    requires i <= j <= |text| && IsRun(text[i..j], p, cls, min)
    ensures PrefixEnd(text, i, p, cls, min).Some? && PrefixEnd(text, i, p, cls, min).value >= j
  {
  }

  lemma {:induction false} FirstEndSound(text: string, i: nat, prefixes: seq<string>, cls: Class, min: nat)
    requires i <= |text| && FirstEnd(text, i, prefixes, cls, min).Some?
    ensures Matches(Run(prefixes, cls, min), text[i..FirstEnd(text, i, prefixes, cls, min).value])
  {
    hide PrefixEnd, IsRun;
    if PrefixEnd(text, i, prefixes[0], cls, min).Some? {
      PrefixEndSound(text, i, prefixes[0], cls, min);
    } else {
      FirstEndSound(text, i, prefixes[1..], cls, min);
      var s := text[i..FirstEnd(text, i, prefixes, cls, min).value];
      var k :| 0 <= k < |prefixes[1..]| && IsRun(s, prefixes[1..][k], cls, min);
      assert prefixes[k + 1] == prefixes[1..][k];
    }
  }

  lemma {:induction false} FirstEndComplete(text: string, i: nat, j: nat, prefixes: seq<string>, cls: Class, min: nat, k: nat)
    requires i <= j <= |text| && k < |prefixes| && IsRun(text[i..j], prefixes[k], cls, min)
    ensures FirstEnd(text, i, prefixes, cls, min).Some?
  {
    hide PrefixEnd, IsRun;
    if k == 0 {
      PrefixEndComplete(text, i, j, prefixes[0], cls, min);
    } else {
      FirstEndComplete(text, i, j, prefixes[1..], cls, min, k - 1);
    }
  }

  lemma JwtEndSound(text: string, i: nat)
    requires i <= |text| && JwtEnd(text, i).Some?
    ensures Matches(Jwt, text[i..JwtEnd(text, i).value])
  {
    hide PrefixEnd;
    var a := PrefixEnd(text, i, JWT_PREFIX, Word, JWT_MIN).value;
    var b := PrefixEnd(text, a, ".", Word, JWT_MIN).value;
    var c := PrefixEnd(text, b, ".", Word, JWT_MIN).value;
    PrefixEndSound(text, i, JWT_PREFIX, Word, JWT_MIN);
    PrefixEndSound(text, a, ".", Word, JWT_MIN);
    PrefixEndSound(text, b, ".", Word, JWT_MIN);
    var s := text[i..c];
    assert s[..3] == text[i..a][..3];
    assert s[3..a - i] == text[i..a][3..];
    assert text[a..b][..1] == "." && text[b..c][..1] == ".";
    assert s[a - i] == text[a..b][0] && s[b - i] == text[b..c][0];
    assert s[a - i + 1..b - i] == text[a..b][1..];
    assert s[b - i + 1..] == text[b..c][1..];
    assert JwtParts(s, a - i, b - i);
  }

  lemma {:induction false} RunEndIs(cls: Class, text: string, i: nat, e: nat)
    requires i <= e <= |text| && AllIn(cls, text[i..e]) && (e < |text| ==> !InClass(cls, text[e]))
    ensures RunEnd(cls, text, i) == e
    decreases e - i
  {
  }

  lemma RunAt(text: string, i: nat, p: string, cls: Class, min: nat, e: nat)
    requires i + |p| + min <= e <= |text| && StartsWith(text[i..], p)
    requires AllIn(cls, text[i + |p|..e]) && (e < |text| ==> !InClass(cls, text[e]))
    ensures PrefixEnd(text, i, p, cls, min) == Some(e)
  {
    hide InClass, RunEnd, AllIn;
    RunEndIs(cls, text, i + |p|, e);
  }

  lemma DotAt(text: string, i: nat, j: nat)
    requires i < j <= |text| && text[i] == '.'
    ensures text[i..j][..1] == "."
  {
  }

  /** The header and the payload of a token that starts at `i` end at its two dots. */
  lemma JwtDots(text: string, i: nat, j: nat, m: nat, n: nat)
    requires i <= j <= |text| && JwtParts(text[i..j], m, n)
    ensures i + n < j && text[i + n] == '.'
    ensures PrefixEnd(text, i, JWT_PREFIX, Word, JWT_MIN) == Some(i + m)
    ensures PrefixEnd(text, i + m, ".", Word, JWT_MIN) == Some(i + n)
  {
    hide RunEnd, PrefixEnd, AllIn;
    var s, a, b := text[i..j], i + m, i + n;
    assert text[a] == '.' == text[b];
    assert text[i..][..3] == s[..3];
    Slice(text, i, j, 3, m);
    RunAt(text, i, JWT_PREFIX, Word, JWT_MIN, a);
    DotAt(text, a, |text|);
    assert text[a..] == text[a..|text|];
    Slice(text, i, j, m + 1, n);
    RunAt(text, a, ".", Word, JWT_MIN, b);
  }

  lemma JwtSignature(text: string, i: nat, j: nat, m: nat, n: nat)
    requires i <= j <= |text| && JwtParts(text[i..j], m, n) && i + n < j && text[i + n] == '.'
    ensures IsRun(text[i + n..j], ".", Word, JWT_MIN)
  {
  }

  lemma JwtEndComplete(text: string, i: nat, j: nat)
    requires i <= j <= |text| && Matches(Jwt, text[i..j])
    ensures JwtEnd(text, i).Some? && JwtEnd(text, i).value >= j
  {
    hide PrefixEnd, AllIn, IsRun;
    var m: nat, n: nat :| JwtParts(text[i..j], m, n);
    JwtDots(text, i, j, m, n);
    JwtSignature(text, i, j, m, n);
    PrefixEndComplete(text, i + n, j, ".", Word, JWT_MIN);
  }

  /** No prefix of the shape starts with another, so at most one of them fits at a place. */
  predicate PrefixFree(prefixes: seq<string>) {
    forall a, b :: 0 <= a < |prefixes| && 0 <= b < |prefixes| && a != b ==> !StartsWith(prefixes[a], prefixes[b])
  }

  predicate Unambiguous(sh: Shape) {
    sh.Run? ==> PrefixFree(sh.prefixes)
  }

  lemma OneFits(s: string, p: string, q: string)
    requires StartsWith(s, p) && StartsWith(s, q)
    ensures StartsWith(p, q) || StartsWith(q, p)
  {
    if |p| <= |q| {
      assert q[..|p|] == s[..|q|][..|p|] == p;
    } else {
      assert p[..|q|] == s[..|p|][..|q|] == q;
    }
  }

  lemma PrefixEndStarts(text: string, i: nat, p: string, cls: Class, min: nat)
    requires i <= |text| && PrefixEnd(text, i, p, cls, min).Some?
    ensures StartsWith(text[i..], p)
  {
  }

  lemma RunStarts(text: string, i: nat, j: nat, p: string, cls: Class, min: nat)
    requires i <= j <= |text| && IsRun(text[i..j], p, cls, min)
    ensures StartsWith(text[i..], p)
  {
    assert text[i..][..|p|] == text[i..j][..|p|];
  }

  lemma TailIsFree(prefixes: seq<string>)
    requires PrefixFree(prefixes) && prefixes != []
    ensures PrefixFree(prefixes[1..])
  {
  }

  lemma {:induction false} FirstEndLongest(text: string, i: nat, j: nat, prefixes: seq<string>, cls: Class, min: nat, k: nat)
    requires i <= j <= |text| && k < |prefixes| && IsRun(text[i..j], prefixes[k], cls, min) && PrefixFree(prefixes)
    ensures FirstEnd(text, i, prefixes, cls, min).Some? && FirstEnd(text, i, prefixes, cls, min).value >= j
  {
    hide PrefixEnd, IsRun, StartsWith;
    if k == 0 {
      PrefixEndComplete(text, i, j, prefixes[0], cls, min);
    } else {
      if PrefixEnd(text, i, prefixes[0], cls, min).Some? {
        PrefixEndStarts(text, i, prefixes[0], cls, min);
        RunStarts(text, i, j, prefixes[k], cls, min);
        OneFits(text[i..], prefixes[0], prefixes[k]);
        assert false;
      }
      TailIsFree(prefixes);
      FirstEndLongest(text, i, j, prefixes[1..], cls, min, k - 1);
    }
  }

  /** It is the longest match that is found. */
  lemma NoLongerMatch(sh: Shape, text: string, i: nat, j: nat)
    requires i <= j <= |text| && Matches(sh, text[i..j]) && Unambiguous(sh)
    ensures MatchEnd(sh, text, i).Some? && MatchEnd(sh, text, i).value >= j
  {
    hide IsRun, JwtParts, PrefixFree;
    match sh {
      case Run(prefixes, cls, min) =>
        var k :| 0 <= k < |prefixes| && IsRun(text[i..j], prefixes[k], cls, min);
        FirstEndLongest(text, i, j, prefixes, cls, min, k);
      case Exact(p, cls, min) =>
        PrefixEndComplete(text, i, j, p, cls, min);
      case Jwt =>
        JwtEndComplete(text, i, j);
    }
  }

  /** The scanner finds a match at `i` exactly when some substring starting there is one, and then the longest. */
  lemma MatchEndIsLongest(sh: Shape, text: string, i: nat)
    requires i <= |text|
    ensures MatchEnd(sh, text, i).None? <==> forall j :: i <= j <= |text| ==> !Matches(sh, text[i..j])
    ensures MatchEnd(sh, text, i).Some? ==> Matches(sh, text[i..MatchEnd(sh, text, i).value])
  {
    hide IsRun, JwtParts;
    match sh {
      case Run(prefixes, cls, min) =>
        if MatchEnd(sh, text, i).Some? {
          FirstEndSound(text, i, prefixes, cls, min);
        }
        forall j | i <= j <= |text| && Matches(sh, text[i..j]) ensures MatchEnd(sh, text, i).Some? {
          var k :| 0 <= k < |prefixes| && IsRun(text[i..j], prefixes[k], cls, min);
          FirstEndComplete(text, i, j, prefixes, cls, min, k);
        }
      case Exact(p, cls, min) =>
        ExactEnd(text, i, p, cls, min);
      case Jwt =>
        if MatchEnd(sh, text, i).Some? {
          JwtEndSound(text, i);
        }
        forall j | i <= j <= |text| && Matches(sh, text[i..j]) ensures MatchEnd(sh, text, i).Some? {
          JwtEndComplete(text, i, j);
        }
    }
  }

  lemma ExactEnd(text: string, i: nat, p: string, cls: Class, min: nat)
    requires i <= |text|
    ensures var sh := Exact(p, cls, min);
            && (MatchEnd(sh, text, i).None? <==> forall j :: i <= j <= |text| ==> !Matches(sh, text[i..j]))
            && (MatchEnd(sh, text, i).Some? ==> Matches(sh, text[i..MatchEnd(sh, text, i).value]))
  {
  }

  // ------------------------------------------------------------------ replacement

  /** The stored preview: the first and last four characters, or bullets for a short value. */
  function Fingerprint(value: string): string {
    if |value| <= 8 then seq(if |value| < 4 then 4 else |value|, _ => '\U{2022}')
    else value[..4] + "\U{2026}" + value[|value| - 4..]
  }

  function MaskText(value: string): string {
    "[REDACTED " + Fingerprint(value) + "]"
  }

  type Span = (nat, nat)

  /** Disjoint stretches of the text from `pos` on, in order. */
  predicate ValidSpans(spans: seq<Span>, pos: nat, len: nat)
    decreases |spans|
  {
    pos <= len && (spans != [] ==> pos <= spans[0].0 <= spans[0].1 <= len && ValidSpans(spans[1..], spans[0].1, len))
  }

  /** The text from `pos` on, with every span masked. */
  function Weave(text: string, pos: nat, spans: seq<Span>): string
    requires ValidSpans(spans, pos, |text|)
    decreases |spans|
  {
    if spans == [] then text[pos..]
    else
      var (a, b) := spans[0];
      text[pos..a] + MaskText(text[a..b]) + Weave(text, b, spans[1..])
  }

  /** The leftmost non-overlapping matches from `i` on. */
  function Spans(sh: Shape, text: string, i: nat): (r: seq<Span>)
    requires i <= |text|
    ensures ValidSpans(r, i, |text|)
    decreases |text| - i
  {
    if i == |text| then []
    else
      match MatchEnd(sh, text, i)
      case Some(e) => if e == i then Widen(Spans(sh, text, i + 1), i, |text|) else [(i, e)] + Spans(sh, text, e)
      case None => Widen(Spans(sh, text, i + 1), i, |text|)
  }

  /** Spans from a later position are spans from an earlier one. */
  function Widen(spans: seq<Span>, i: nat, len: nat): (r: seq<Span>)
    requires i < len && ValidSpans(spans, i + 1, len)
    ensures r == spans && ValidSpans(r, i, len)
  {
    spans
  }

  /** `replace_all` with the mask of each match. */
  function ReplaceAll(sh: Shape, text: string): string {
    Weave(text, 0, Spans(sh, text, 0))
  }

  /** The generic pass masks some disjoint tokens, none in the empty text; which ones is left open. */
  type Generic = g: string -> seq<Span> | g("") == [] && forall t :: ValidSpans(g(t), 0, |t|) witness _ => []

  function RedactFrom(text: string, k: nat, generic: Generic): string
    requires k <= N
    decreases N - k
  {
    if k == N then Weave(text, 0, generic(text)) else RedactFrom(ReplaceAll(ShapeAt(k), text), k + 1, generic)
  }

  function Redacted(text: string, generic: Generic): string {
    RedactFrom(text, 0, generic)
  }

  ghost predicate ContainsKnownShape(text: string) {
    exists k :: 0 <= k < N && HasMatch(ShapeAt(k), text)
  }

  // ------------------------------------------------------------------ masks separate

  /** What every key shape has: no mask punctuation, at least five characters, and nothing inside the word REDACTED. */
  predicate IsTokenChar(c: char) {
    InClass(Word, c) || c == '.'
  }

  predicate IsToken(p: string) {
    forall i :: 0 <= i < |p| ==> IsTokenChar(p[i])
  }

  predicate GoodPrefix(p: string, min: nat) {
    && p != [] && IsToken(p)
    && |p| + min >= 5 && (p[0] !in "REDACTED" || |p| + min > 8)
  }

  predicate GoodShape(sh: Shape) {
    match sh
    case Run(prefixes, _, min) => forall k :: 0 <= k < |prefixes| ==> GoodPrefix(prefixes[k], min)
    case Exact(p, _, min) => GoodPrefix(p, min)
    case Jwt => true
  }

  lemma TokenAlphabet()
    ensures forall c :: IsAlnum(c) || c == '_' || c == '-' ==> IsTokenChar(c)
  {
  }

  lemma ShapesAreGoodFrom0(k: nat)
    requires 0 <= k < 4
    ensures GoodShape(ShapeAt(k))
  {
    hide IsTokenChar;
    TokenAlphabet();
  }

  lemma ShapesAreGoodFrom4(k: nat)
    requires 4 <= k < 8
    ensures GoodShape(ShapeAt(k))
  {
    hide IsTokenChar;
    TokenAlphabet();
  }

  lemma ShapesAreGoodFrom8(k: nat)
    requires 8 <= k < 11
    ensures GoodShape(ShapeAt(k))
  {
    hide IsTokenChar;
    TokenAlphabet();
  }

  lemma ShapesAreGoodFrom11(k: nat)
    requires 11 <= k < 15
    ensures GoodShape(ShapeAt(k))
  {
    hide IsTokenChar;
    TokenAlphabet();
  }

  lemma ShapesAreGoodFrom15(k: nat)
    requires 15 <= k < 19
    ensures GoodShape(ShapeAt(k))
  {
    hide IsTokenChar;
    TokenAlphabet();
  }

  lemma ShapesAreGood(k: nat)
    requires k < N
    ensures GoodShape(ShapeAt(k))
  {
    hide GoodShape, ShapeAt;
    if k < 4 {
      ShapesAreGoodFrom0(k);
    } else if k < 8 {
      ShapesAreGoodFrom4(k);
    } else if k < 11 {
      ShapesAreGoodFrom8(k);
    } else if k < 15 {
      ShapesAreGoodFrom11(k);
    } else {
      ShapesAreGoodFrom15(k);
    }
  }

  lemma RunChars(s: string, p: string, cls: Class, min: nat)
    requires IsRun(s, p, cls, min) && GoodPrefix(p, min)
    ensures |s| >= 5 && (s[0] !in "REDACTED" || |s| > 8) && forall c :: c in s ==> IsTokenChar(c)
  {
    assert s[0] == s[..|p|][0];
    forall c | c in s ensures IsTokenChar(c) {
      var i :| 0 <= i < |s| && s[i] == c;
      if i < |p| {
        assert c == s[..|p|][i] == p[i];
      } else {
        assert c == s[|p|..][i - |p|];
        assert InClass(cls, c);
      }
    }
  }

  lemma JwtChars(s: string)
    requires Matches(Jwt, s)
    ensures |s| > 8 && forall c :: c in s ==> IsTokenChar(c)
  {
  }

  lemma MatchChars(sh: Shape, s: string)
    requires GoodShape(sh) && Matches(sh, s)
    ensures |s| >= 5 && (s[0] !in "REDACTED" || |s| > 8) && forall c :: c in s ==> IsTokenChar(c)
  {
    hide IsRun, GoodPrefix, JwtParts;
    match sh {
      case Run(prefixes, cls, min) =>
        var k :| 0 <= k < |prefixes| && IsRun(s, prefixes[k], cls, min);
        RunChars(s, prefixes[k], cls, min);
      case Exact(p, cls, min) =>
        RunChars(s, p, cls, min);
      case Jwt =>
        JwtChars(s);
    }
  }

  lemma SubstringMatch(sh: Shape, text: string, i: nat, j: nat)
    requires i <= j <= |text| && HasMatch(sh, text[i..j])
    ensures HasMatch(sh, text)
  {
    hide Matches;
    var a, b :| 0 <= a <= b <= |text[i..j]| && Matches(sh, text[i..j][a..b]);
    Slice(text, i, j, a, b);
  }

  /** A match cannot reach across a character no key holds. */
  lemma Separated(sh: Shape, a: string, d: char, b: string)
    requires GoodShape(sh) && !IsTokenChar(d)
    requires HasMatch(sh, a + [d] + b)
    ensures HasMatch(sh, a) || HasMatch(sh, b)
  {
    hide Matches, GoodShape, IsTokenChar;
    var text := a + [d] + b;
    var i, j :| 0 <= i <= j <= |text| && Matches(sh, text[i..j]);
    if i <= |a| < j {
      assert text[i..j][|a| - i] == d;
    }
    MatchChars(sh, text[i..j]);
    if j <= |a| {
      assert text[i..j] == a[i..j];
    } else if i > |a| {
      assert text[i..j] == b[i - |a| - 1..j - |a| - 1];
    }
  }

  lemma ShortHasNoMatch(sh: Shape, s: string)
    requires GoodShape(sh) && (|s| < 5 || s == "REDACTED")
    ensures !HasMatch(sh, s)
  {
  }

  lemma BulletIsNoToken(s: string)
    requires s != [] && (forall i :: 0 <= i < |s| ==> s[i] == '\U{2022}')
    ensures exists c :: c in s && !IsTokenChar(c)
  {
    assert s[0] in s;
  }

  lemma FingerprintHasNoMatch(sh: Shape, value: string)
    requires GoodShape(sh)
    ensures !HasMatch(sh, Fingerprint(value))
  {
    hide Matches, GoodShape;
    var f := Fingerprint(value);
    if |value| <= 8 {
      forall i, j | 0 <= i <= j <= |f| ensures !Matches(sh, f[i..j]) {
        if Matches(sh, f[i..j]) {
          MatchChars(sh, f[i..j]);
          BulletIsNoToken(f[i..j]);
        }
      }
    } else {
      ShortHasNoMatch(sh, value[..4]);
      ShortHasNoMatch(sh, value[|value| - 4..]);
      assert f == value[..4] + ['\U{2026}'] + value[|value| - 4..];
      if HasMatch(sh, f) {
        Separated(sh, value[..4], '\U{2026}', value[|value| - 4..]);
      }
    }
  }

  /** A mask between two texts makes no match that neither of them had. */
  lemma MaskSeparates(sh: Shape, a: string, value: string, b: string)
    requires GoodShape(sh) && HasMatch(sh, a + MaskText(value) + b)
    ensures HasMatch(sh, a) || HasMatch(sh, b)
  {
    hide Matches, GoodShape, Fingerprint, HasMatch;
    var f := Fingerprint(value);
    var tail := f + [']'] + b;
    var rest := "REDACTED" + [' '] + tail;
    assert a + MaskText(value) + b == a + ['['] + rest;
    Separated(sh, a, '[', rest);
    if HasMatch(sh, rest) {
      Separated(sh, "REDACTED", ' ', tail);
      ShortHasNoMatch(sh, "REDACTED");
      Separated(sh, f, ']', b);
      FingerprintHasNoMatch(sh, value);
    }
  }

  /** Masking any spans of a text never creates a match of a shape it did not contain. */
  lemma {:induction false} WeaveKeepsAbsence(sh: Shape, text: string, pos: nat, spans: seq<Span>)
    requires GoodShape(sh) && ValidSpans(spans, pos, |text|)
    requires !HasMatch(sh, text)
    ensures !HasMatch(sh, Weave(text, pos, spans))
    decreases |spans|
  {
    hide Matches, GoodShape, HasMatch, MaskText;
    if spans == [] {
      assert text[pos..] == text[pos..|text|];
      if HasMatch(sh, text[pos..]) {
        SubstringMatch(sh, text, pos, |text|);
      }
    } else {
      var (a, b) := spans[0];
      WeaveKeepsAbsence(sh, text, b, spans[1..]);
      if HasMatch(sh, Weave(text, pos, spans)) {
        MaskSeparates(sh, text[pos..a], text[a..b], Weave(text, b, spans[1..]));
        SubstringMatch(sh, text, pos, a);
      }
    }
  }

  /** The text before the first match found holds none: a match inside it would have been found earlier. */
  ghost predicate NoneFrom(sh: Shape, text: string, i: nat, a: nat) {
    a <= |text| && forall k :: i <= k < a ==> MatchEnd(sh, text, k).None?
  }

  lemma GapHasNoMatch(sh: Shape, text: string, i: nat, a: nat)
    requires GoodShape(sh) && i <= a && NoneFrom(sh, text, i, a)
    ensures !HasMatch(sh, text[i..a])
  {
    hide Matches, GoodShape, MatchEnd;
    var gap := text[i..a];
    if x, y :| 0 <= x <= y <= |gap| && Matches(sh, gap[x..y]) {
      Slice(text, i, a, x, y);
      MatchChars(sh, text[i + x..i + y]);
      MatchEndIsLongest(sh, text, i + x);
    }
  }

  lemma MatchIsNotEmpty(sh: Shape, text: string, i: nat)
    requires GoodShape(sh) && i <= |text|
    ensures MatchEnd(sh, text, i).Some? ==> MatchEnd(sh, text, i).value > i
  {
    hide Matches, GoodShape, MatchEnd;
    MatchEndIsLongest(sh, text, i);
    if MatchEnd(sh, text, i).Some? {
      MatchChars(sh, text[i..MatchEnd(sh, text, i).value]);
    }
  }

  lemma {:induction false} SpansStart(sh: Shape, text: string, i: nat)
    requires GoodShape(sh) && i <= |text|
    ensures var spans := Spans(sh, text, i);
            if spans == [] then NoneFrom(sh, text, i, |text|)
            else NoneFrom(sh, text, i, spans[0].0) && spans[1..] == Spans(sh, text, spans[0].1)
    decreases |text| - i
  {
    hide GoodShape, MatchEnd;
    if i < |text| {
      MatchIsNotEmpty(sh, text, i);
      if MatchEnd(sh, text, i).None? {
        SpansStart(sh, text, i + 1);
      } else {
        var e := MatchEnd(sh, text, i).value;
        assert Spans(sh, text, i) == [(i, e)] + Spans(sh, text, e);
      }
    }
  }

  /** A pass leaves nothing of its own shape. */
  lemma {:induction false} PassRemovesShape(sh: Shape, text: string, i: nat)
    requires GoodShape(sh) && i <= |text|
    ensures !HasMatch(sh, Weave(text, i, Spans(sh, text, i)))
    decreases |Spans(sh, text, i)|
  {
    hide Matches, GoodShape, HasMatch, MaskText, MatchEnd, NoneFrom;
    var spans := Spans(sh, text, i);
    SpansStart(sh, text, i);
    if spans == [] {
      GapHasNoMatch(sh, text, i, |text|);
      assert text[i..] == text[i..|text|];
    } else {
      var (a, b) := spans[0];
      GapHasNoMatch(sh, text, i, a);
      PassRemovesShape(sh, text, b);
      if HasMatch(sh, Weave(text, i, spans)) {
        MaskSeparates(sh, text[i..a], text[a..b], Weave(text, b, spans[1..]));
      }
    }
  }

  // ------------------------------------------------------------------ what a pass masks, and what it leaves

  function Later(r: Option<nat>, b: nat): Option<nat> {
    match r
    case None => None
    case Some(e) => Some(b + e)
  }

  lemma {:induction false} RunEndShift(cls: Class, text: string, b: nat, i: nat)
    requires b + i <= |text|
    ensures RunEnd(cls, text, b + i) == b + RunEnd(cls, text[b..], i)
    decreases |text| - i
  {
    hide InClass;
    if b + i < |text| {
      assert text[b..][i] == text[b + i];
      RunEndShift(cls, text, b, i + 1);
    }
  }

  lemma PrefixEndShift(text: string, b: nat, i: nat, p: string, cls: Class, min: nat)
    requires b + i <= |text|
    ensures PrefixEnd(text, b + i, p, cls, min) == Later(PrefixEnd(text[b..], i, p, cls, min), b)
  {
    hide RunEnd;
    assert text[b..][i..] == text[b + i..];
    if StartsWith(text[b + i..], p) {
      RunEndShift(cls, text, b, i + |p|);
    }
  }

  lemma {:induction false} FirstEndShift(text: string, b: nat, i: nat, prefixes: seq<string>, cls: Class, min: nat)
    requires b + i <= |text|
    ensures FirstEnd(text, b + i, prefixes, cls, min) == Later(FirstEnd(text[b..], i, prefixes, cls, min), b)
  {
    hide PrefixEnd;
    if prefixes != [] {
      PrefixEndShift(text, b, i, prefixes[0], cls, min);
      FirstEndShift(text, b, i, prefixes[1..], cls, min);
    }
  }

  /** Whether and where a match ends depends only on the text from its start. */
  lemma MatchEndShift(sh: Shape, text: string, b: nat, i: nat)
    requires b + i <= |text|
    ensures MatchEnd(sh, text, b + i) == Later(MatchEnd(sh, text[b..], i), b)
  {
    hide PrefixEnd, FirstEnd;
    match sh {
      case Run(prefixes, cls, min) =>
        FirstEndShift(text, b, i, prefixes, cls, min);
      case Exact(p, cls, min) =>
        PrefixEndShift(text, b, i, p, cls, min);
      case Jwt =>
        PrefixEndShift(text, b, i, JWT_PREFIX, Word, JWT_MIN);
        var x := PrefixEnd(text[b..], i, JWT_PREFIX, Word, JWT_MIN);
        if x.Some? {
          PrefixEndShift(text, b, x.value, ".", Word, JWT_MIN);
          var y := PrefixEnd(text[b..], x.value, ".", Word, JWT_MIN);
          if y.Some? {
            PrefixEndShift(text, b, y.value, ".", Word, JWT_MIN);
          }
        }
    }
  }

  function LaterSpans(spans: seq<Span>, b: nat): seq<Span> {
    if spans == [] then [] else [(b + spans[0].0, b + spans[0].1)] + LaterSpans(spans[1..], b)
  }

  lemma {:induction false} SpansShift(sh: Shape, text: string, b: nat, i: nat)
    requires b + i <= |text|
    ensures Spans(sh, text, b + i) == LaterSpans(Spans(sh, text[b..], i), b)
    decreases |text| - i
  {
    hide MatchEnd, ValidSpans;
    if b + i < |text| {
      MatchEndShift(sh, text, b, i);
      var e := MatchEnd(sh, text[b..], i);
      if e.Some? && e.value > i {
        SpansShift(sh, text, b, e.value);
      } else {
        SpansShift(sh, text, b, i + 1);
      }
    }
  }

  lemma {:induction false} WeaveShift(text: string, b: nat, pos: nat, spans: seq<Span>)
    requires b <= |text| && ValidSpans(spans, pos, |text| - b)
    ensures ValidSpans(LaterSpans(spans, b), b + pos, |text|)
    ensures Weave(text, b + pos, LaterSpans(spans, b)) == Weave(text[b..], pos, spans)
    decreases |spans|
  {
    hide MaskText;
    if spans == [] {
      assert text[b..][pos..] == text[b + pos..];
    } else {
      var (x, y) := spans[0];
      WeaveShift(text, b, y, spans[1..]);
      Slice(text, b, |text|, pos, x);
      Slice(text, b, |text|, x, y);
      assert text[b..|text|] == text[b..];
      assert LaterSpans(spans, b)[1..] == LaterSpans(spans[1..], b);
    }
  }

  lemma {:induction false} NothingBefore(sh: Shape, text: string, i: nat, n: nat)
    requires i <= n && NoneFrom(sh, text, i, n)
    ensures Spans(sh, text, i) == Spans(sh, text, n)
    decreases n - i
  {
    hide MatchEnd, ValidSpans;
    if i < n {
      NothingBefore(sh, text, i + 1, n);
    }
  }

  /** `key` is the first match of the shape in the text, and the longest that starts there. */
  ghost predicate FirstMatch(sh: Shape, gap: string, key: string, rest: string) {
    && Matches(sh, key)
    && (forall j :: |key| < j <= |key + rest| ==> !Matches(sh, (key + rest)[..j]))
    && (forall i, j :: 0 <= i < |gap| && i <= j <= |gap + key + rest| ==> !Matches(sh, (gap + key + rest)[i..j]))
  }

  lemma FirstMatchIsFound(sh: Shape, gap: string, key: string, rest: string)
    requires FirstMatch(sh, gap, key, rest) && Unambiguous(sh)
    ensures NoneFrom(sh, gap + key + rest, 0, |gap|)
    ensures MatchEnd(sh, gap + key + rest, |gap|) == Some(|gap| + |key|)
  {
    hide Matches, MatchEnd, Unambiguous;
    var text := gap + key + rest;
    forall i | 0 <= i < |gap| ensures MatchEnd(sh, text, i).None? {
      MatchEndIsLongest(sh, text, i);
    }
    var g, n := |gap|, |gap| + |key|;
    assert text[g..n] == key;
    NoLongerMatch(sh, text, g, n);
    MatchEndIsLongest(sh, text, g);
    var e := MatchEnd(sh, text, g).value;
    assert text[g..e] == (key + rest)[..e - g];
  }

  lemma MasksFirst(sh: Shape, gap: string, key: string, rest: string)
    requires FirstMatch(sh, gap, key, rest) && Unambiguous(sh) && GoodShape(sh)
    ensures ReplaceAll(sh, gap + key + rest) == gap + "[REDACTED " + Fingerprint(key) + "]" + ReplaceAll(sh, rest)
  {
    hide Matches, MatchEnd, Unambiguous, FirstMatch, Fingerprint, GoodShape;
    var text := gap + key + rest;
    FirstMatchIsFound(sh, gap, key, rest);
    var g, n := |gap|, |gap| + |key|;
    NothingBefore(sh, text, 0, g);
    MatchIsNotEmpty(sh, text, g);
    assert Spans(sh, text, g) == [(g, n)] + Spans(sh, text, n);
    assert text[0..g] == gap && text[g..n] == key && text[n..] == rest;
    SpansShift(sh, text, n, 0);
    WeaveShift(text, n, 0, Spans(sh, rest, 0));
    WeaveFirst(text, g, n, Spans(sh, text, n));
    MaskedParts(gap, Fingerprint(key), ReplaceAll(sh, rest));
  }

  lemma WeaveFirst(text: string, a: nat, b: nat, spans: seq<Span>)
    requires a <= b <= |text| && ValidSpans(spans, b, |text|)
    ensures ValidSpans([(a, b)] + spans, 0, |text|)
    ensures Weave(text, 0, [(a, b)] + spans) == text[0..a] + MaskText(text[a..b]) + Weave(text, b, spans)
  {
    hide MaskText;
    assert ([(a, b)] + spans)[1..] == spans;
  }

  lemma MaskedParts(gap: string, preview: string, rest: string)
    ensures gap + ("[REDACTED " + preview + "]") + rest == gap + "[REDACTED " + preview + "]" + rest
  {
  }

  lemma DifferAt(p: string, q: string, i: nat)
    requires i < |p| && i < |q| && p[i] != q[i]
    ensures !StartsWith(p, q)
  {
    assert |q| <= |p| ==> p[..|q|][i] == p[i];
  }

  lemma StripePrefixes()
    ensures Unambiguous(ShapeAt(3))
  {
    hide StartsWith;
    var ps := ShapeAt(3).prefixes;
    forall a, b | 0 <= a < |ps| && 0 <= b < |ps| && a != b ensures !StartsWith(ps[a], ps[b]) {
      if ps[a][0] != ps[b][0] { DifferAt(ps[a], ps[b], 0); } else { DifferAt(ps[a], ps[b], 3); }
    }
  }

  lemma SupabasePrefixes()
    ensures Unambiguous(ShapeAt(5))
  {
    hide StartsWith;
    var ps := ShapeAt(5).prefixes;
    forall a, b | 0 <= a < |ps| && 0 <= b < |ps| && a != b ensures !StartsWith(ps[a], ps[b]) {
      DifferAt(ps[a], ps[b], 3);
    }
  }

  lemma VercelPrefixes(k: nat)
    requires k == 10 || k == 11
    ensures Unambiguous(ShapeAt(k))
  {
    hide StartsWith;
    var ps := ShapeAt(k).prefixes;
    forall a, b | 0 <= a < |ps| && 0 <= b < |ps| && a != b ensures !StartsWith(ps[a], ps[b]) {
      DifferAt(ps[a], ps[b], 2);
    }
  }

  lemma SlackPrefixes()
    ensures Unambiguous(ShapeAt(15))
  {
    hide StartsWith;
    var ps := ShapeAt(15).prefixes;
    forall a, b | 0 <= a < |ps| && 0 <= b < |ps| && a != b ensures !StartsWith(ps[a], ps[b]) {
      DifferAt(ps[a], ps[b], 3);
    }
  }

  lemma OnePrefix(k: nat)
    requires k < N && k !in {3, 5, 10, 11, 15}
    ensures Unambiguous(ShapeAt(k))
  {
    hide StartsWith;
  }

  lemma ShapesAreUnambiguous(k: nat)
    requires k < N
    ensures Unambiguous(ShapeAt(k))
  {
    hide Unambiguous, ShapeAt;
    if k == 3 {
      StripePrefixes();
    } else if k == 5 {
      SupabasePrefixes();
    } else if k == 10 || k == 11 {
      VercelPrefixes(k);
    } else if k == 15 {
      SlackPrefixes();
    } else {
      OnePrefix(k);
    }
  }

  /** Each pass masks the first key of its pattern, as far as it reaches, and goes on after it; everything before it stays. */
  lemma PassMasksFirst(k: nat, gap: string, key: string, rest: string)
    requires k < N && FirstMatch(ShapeAt(k), gap, key, rest)
    ensures ReplaceAll(ShapeAt(k), gap + key + rest) == gap + "[REDACTED " + Fingerprint(key) + "]" + ReplaceAll(ShapeAt(k), rest)
  {
    hide ShapeAt, FirstMatch, Unambiguous, GoodShape, Fingerprint, ReplaceAll;
    ShapesAreUnambiguous(k);
    ShapesAreGood(k);
    MasksFirst(ShapeAt(k), gap, key, rest);
  }

  /**
   * A preview shows of a long value its first and its last four characters and no more, and of a short one at most its length:
   * the values with the same preview are those that agree in this.
   */
  lemma PreviewShows(v: string, w: string)
    ensures Fingerprint(v) == Fingerprint(w)
            <==> if |v| > 8 && |w| > 8 then v[..4] == w[..4] && v[|v| - 4..] == w[|w| - 4..]
                 else |v| <= 8 && |w| <= 8 && (|v| == |w| || (|v| <= 4 && |w| <= 4))
  {
    PreviewParts(v);
    PreviewParts(w);
  }

  lemma PreviewParts(v: string)
    ensures var f := Fingerprint(v);
            if |v| > 8 then |f| == 9 && f[..4] == v[..4] && f[4] == '\U{2026}' && f[5..] == v[|v| - 4..]
            else |f| == (if |v| < 4 then 4 else |v|) && forall i :: 0 <= i < |f| ==> f[i] == '\U{2022}'
  {
  }

  // ------------------------------------------------------------------ the main results

  ghost predicate CleanUpTo(text: string, k: nat) {
    k <= N && forall j :: 0 <= j < k ==> !HasMatch(ShapeAt(j), text)
  }

  lemma PassExtendsClean(text: string, k: nat)
    requires k < N && CleanUpTo(text, k)
    ensures CleanUpTo(ReplaceAll(ShapeAt(k), text), k + 1)
  {
    hide HasMatch, GoodShape, Spans, Weave, ShapeAt;
    forall j | 0 <= j < k + 1 ensures !HasMatch(ShapeAt(j), ReplaceAll(ShapeAt(k), text)) {
      ShapesAreGood(j);
      if j < k {
        WeaveKeepsAbsence(ShapeAt(j), text, 0, Spans(ShapeAt(k), text, 0));
      } else {
        PassRemovesShape(ShapeAt(k), text, 0);
      }
    }
  }

  lemma {:induction false} RedactFromIsClean(text: string, k: nat, generic: Generic)
    requires k <= N && CleanUpTo(text, k)
    ensures !ContainsKnownShape(RedactFrom(text, k, generic))
    decreases N - k
  {
    hide HasMatch, GoodShape, ReplaceAll, Weave, ShapeAt;
    if k == N {
      forall j | 0 <= j < k ensures !HasMatch(ShapeAt(j), Weave(text, 0, generic(text))) {
        ShapesAreGood(j);
        WeaveKeepsAbsence(ShapeAt(j), text, 0, generic(text));
      }
    } else {
      PassExtendsClean(text, k);
      RedactFromIsClean(ReplaceAll(ShapeAt(k), text), k + 1, generic);
    }
  }

  /** Whatever the input and whatever the generic pass masks, the output holds no key. */
  lemma RedactedIsClean(text: string, generic: Generic)
    ensures !ContainsKnownShape(Redacted(text, generic)) && !HoldsKey(Redacted(text, generic))
  {
    hide RedactFrom, ShapeAt, ContainsKnownShape, HoldsKey;
    RedactFromIsClean(text, 0, generic);
    KnownShapesAreKeys(Redacted(text, generic));
  }

  /** Text without keys passes the patterns unchanged; only the generic pass may mask something in it. */
  lemma TextWithoutKeysStays(text: string, generic: Generic)
    requires !HoldsKey(text)
    ensures Redacted(text, generic) == Weave(text, 0, generic(text))
    ensures generic(text) == [] ==> Redacted(text, generic) == text
  {
    hide RedactFrom, ShapeAt, ContainsKnownShape, HoldsKey;
    KnownShapesAreKeys(text);
    CleanIsUntouched(text, 0, generic);
    assert text[0..] == text;
  }

  lemma {:induction false} RedactFromIsEmpty(text: string, k: nat, generic: Generic)
    requires k <= N
    ensures RedactFrom(text, k, generic) == "" <==> text == ""
    decreases N - k
  {
    hide ShapeAt, ReplaceAll, Weave, ValidSpans;
    if k == N {
      WeaveIsEmpty(text, generic(text));
    } else {
      ReplaceAllIsEmpty(ShapeAt(k), text);
      RedactFromIsEmpty(ReplaceAll(ShapeAt(k), text), k + 1, generic);
    }
  }

  lemma WeaveIsEmpty(text: string, spans: seq<Span>)
    requires ValidSpans(spans, 0, |text|)
    ensures Weave(text, 0, spans) == "" <==> text == "" && spans == []
  {
    hide Fingerprint;
  }

  lemma ReplaceAllIsEmpty(sh: Shape, text: string)
    ensures ReplaceAll(sh, text) == "" <==> text == ""
  {
    hide Weave, ValidSpans, MatchEnd;
    WeaveIsEmpty(text, Spans(sh, text, 0));
  }

  /** Redaction neither empties a text nor fills an empty one. */
  lemma RedactedIsEmpty(text: string, generic: Generic)
    ensures Redacted(text, generic) == "" <==> text == ""
  {
    hide RedactFrom;
    RedactFromIsEmpty(text, 0, generic);
  }

  lemma {:induction false} NoSpansWithoutMatch(sh: Shape, text: string, i: nat)
    requires i <= |text| && !HasMatch(sh, text)
    ensures Spans(sh, text, i) == []
    decreases |text| - i
  {
    hide Matches, MatchEnd;
    if i < |text| {
      MatchEndIsLongest(sh, text, i);
      NoSpansWithoutMatch(sh, text, i + 1);
    }
  }

  lemma PassWithoutMatch(sh: Shape, text: string)
    requires !HasMatch(sh, text)
    ensures ReplaceAll(sh, text) == text
  {
    hide HasMatch, Spans;
    NoSpansWithoutMatch(sh, text, 0);
    assert text[0..] == text;
  }

  lemma NoneOf(text: string, k: nat)
    requires k < N && !ContainsKnownShape(text)
    ensures !HasMatch(ShapeAt(k), text)
  {
    hide HasMatch, ShapeAt;
  }

  lemma {:induction false} CleanIsUntouched(text: string, k: nat, generic: Generic)
    requires k <= N && !ContainsKnownShape(text)
    ensures RedactFrom(text, k, generic) == Weave(text, 0, generic(text))
    decreases N - k
  {
    hide HasMatch, Matches, ReplaceAll, Spans, Weave, ShapeAt, ContainsKnownShape, ValidSpans;
    if k < N {
      NoneOf(text, k);
      PassWithoutMatch(ShapeAt(k), text);
      CleanIsUntouched(text, k + 1, generic);
    }
  }

  /** Text without keys passes the known shapes unchanged, so redacting twice only repeats the generic pass. */
  lemma RedactAgain(text: string, generic: Generic)
    ensures var once := Redacted(text, generic);
            Redacted(once, generic) == Weave(once, 0, generic(once))
  {
    RedactedIsClean(text, generic);
    CleanIsUntouched(Redacted(text, generic), 0, generic);
  }

  /** The redactor's loop over its passes. */
  method Redact(text: string, generic: Generic) returns (out: string)
    ensures out == Redacted(text, generic)
    ensures !HoldsKey(out)
  {
    hide HasMatch, ReplaceAll, Weave, ShapeAt, HoldsKey;
    RedactedIsClean(text, generic);
    out := text;
    for i := 0 to N
      invariant RedactFrom(out, i, generic) == Redacted(text, generic)
      invariant CleanUpTo(out, i)
    {
      PassExtendsClean(out, i);
      out := ReplaceAll(ShapeAt(i), out);
    }
    RedactFromIsClean(out, N, generic);
    out := Weave(out, 0, generic(out));
  }
}
