/** Permission manifests: what an agent asks for, and which requests are accepted. */
module Manifest {
  import opened Prelude
  import opened Text
  import opened Tables

  datatype Manifest = Manifest(agentName: string, purpose: string, requests: seq<Name>, ttlSeconds: Option<nat>)

  const MIN_TTL: nat := 60
  const MAX_TTL: nat := 604800
  const DEFAULT_TTL: nat := 3600

  function ClampTtl(requested: Option<nat>): (ttl: nat)
    ensures MIN_TTL <= ttl <= MAX_TTL
    ensures requested.Some? && MIN_TTL <= requested.value <= MAX_TTL ==> ttl == requested.value
  {
    var t := if requested.Some? then requested.value else DEFAULT_TTL;
    if t < MIN_TTL then MIN_TTL else if t > MAX_TTL then MAX_TTL else t
  }

  /** `str::len`: bytes of UTF-8. */
  function Utf8Len(s: string): nat {
    if s == "" then 0
    else
      (if s[0] < '\U{0080}' then 1 else if s[0] < '\U{0800}' then 2 else if s[0] < '\U{10000}' then 3 else 4)
      + Utf8Len(s[1..])
  }

  /** Each character counts for the bytes that hold its code: seven bits in one, then five, four and three in the first
      of two, three and four, and six in every other. */
  lemma {:induction false} Utf8LenOf(a: string, b: string)
    ensures Utf8Len(a + b) == Utf8Len(a) + Utf8Len(b)
    ensures |a| == 1 ==>
      var n := Utf8Len(a);
      a[0] as int < (if n == 1 then 128 else if n == 2 then 32 * 64 else if n == 3 then 16 * 64 * 64 else 8 * 64 * 64 * 64)
      && (n > 1 ==> a[0] as int >= if n == 2 then 128 else if n == 3 then 32 * 64 else 16 * 64 * 64)
  {
    if a == "" {
      assert a + b == b;
    } else {
      assert (a + b)[1..] == a[1..] + b;
      Utf8LenOf(a[1..], b);
    }
  }

  predicate IsValidId(s: string) {
    0 < |s| <= 64 && forall c :: c in s ==> 'a' <= c <= 'z' || '0' <= c <= '9' || c == '_' || c == '-'
  }

  predicate IsIdChar(c: char) {
    c in {'_', '-'} || 48 <= c as int < 58 || 97 <= c as int < 123
  }

  /** One to 64 characters, each an ASCII lower-case letter, a digit, an underscore or a hyphen. */
  lemma ValidIdsAre(s: string)
    ensures IsValidId(s) <==> 1 <= |s| < 65 && forall c :: c in s ==> IsIdChar(c)
  {
  }

  /** A manifest the vault accepts: a named agent with a purpose, and up to fifty different well-named keys. */
  predicate Acceptable(m: Manifest) {
    && Trim(m.agentName) != "" && Utf8Len(m.agentName) <= 128
    && Trim(m.purpose) != "" && Utf8Len(m.purpose) <= 1000
    && 0 < |m.requests| <= 50
    && (forall i :: 0 <= i < |m.requests| ==> IsValidId(m.requests[i].0) && IsValidId(m.requests[i].1))
    && (forall i, j :: 0 <= i < j < |m.requests| ==> m.requests[i] != m.requests[j])
  }

  /** The checks in order, with the set of requests seen so far. */
  method Validate(m: Manifest) returns (ok: bool)
    ensures ok <==> Acceptable(m)
  {
    hide Trim, Utf8Len, IsValidId;
    if Trim(m.agentName) == "" || Utf8Len(m.agentName) > 128 {
      return false;
    }
    if Trim(m.purpose) == "" || Utf8Len(m.purpose) > 1000 {
      return false;
    }
    if m.requests == [] || |m.requests| > 50 {
      return false;
    }
    var seen: set<Name> := {};
    for i := 0 to |m.requests|
      invariant forall r :: r in seen <==> exists j :: 0 <= j < i && m.requests[j] == r
      invariant forall j :: 0 <= j < i ==> IsValidId(m.requests[j].0) && IsValidId(m.requests[j].1)
      invariant forall j, k :: 0 <= j < k < i ==> m.requests[j] != m.requests[k]
    {
      var r := m.requests[i];
      if !IsValidId(r.0) || !IsValidId(r.1) || r in seen {
        return false;
      }
      seen := seen + {r};
    }
    return true;
  }
}
