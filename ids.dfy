/**
 * Identifier formats shared by both server trees: UUID text, session and
 * party secrets, six-character party codes, the dash stripping of the older
 * routes, and the retry-until-free code choice.
 */
module Ids {
  import opened Wrappers

  /** `UUID.toString()` is 36 characters long. */
  const UuidLength: nat := 36
  /** A UUID with its four dashes removed, as the older routes expect it. */
  const StrippedUuidLength: nat := 32
  /** Request and party secrets are `UUID.randomUUID().toString()`. */
  const SecretLength: nat := 36
  const CodeLength: nat := 6
  /** Length of the shared secret the Levelhead integration presents. */
  const LevelheadSecretLength: nat := 96

  predicate IsHexDigit(c: char) {
    '0' <= c <= '9' || 'a' <= c <= 'f'
  }

  predicate IsDashPosition(i: int) {
    i == 8 || i == 13 || i == 18 || i == 23
  }

  /** The text `java.util.UUID.toString()` produces: lower-case hex digits in groups 8-4-4-4-12. */
  predicate IsCanonicalUuid(s: string) {
    |s| == UuidLength &&
    forall i :: 0 <= i < |s| ==> if IsDashPosition(i) then s[i] == '-' else IsHexDigit(s[i])
  }

  /** The party-code alphabet `('a'..'z') + ('A'..'Z') + ('0'..'9')`. */
  predicate IsCodeChar(c: char) {
    'a' <= c <= 'z' || 'A' <= c <= 'Z' || '0' <= c <= '9'
  }

  predicate IsPartyCode(s: string) {
    |s| == CodeLength && forall i :: 0 <= i < |s| ==> IsCodeChar(s[i])
  }

  /** What six draws of `alphabet.random()` can produce, draw after draw. */
  predicate AllPartyCodes(candidates: seq<string>) {
    forall i :: 0 <= i < |candidates| ==> IsPartyCode(candidates[i])
  }

  predicate NoDashes(s: string) {
    forall i :: 0 <= i < |s| ==> s[i] != '-'
  }

  /** `s.replace("-", "")`: every dash removed, every other character kept in order. */
  function StripDashes(s: string): (r: string)
    ensures NoDashes(r)
    ensures |r| <= |s|
  {
    if s == [] then []
    else if s[0] == '-' then StripDashes(s[1..])
    else [s[0]] + StripDashes(s[1..])
  }

  /** Stripping removes every dash and nothing else. */
  lemma {:induction false} StripDashesCounts(s: string)
    ensures multiset(StripDashes(s)) == multiset(s)['-' := 0]
  {
    if s != [] {
      assert s == [s[0]] + s[1..];
      StripDashesCounts(s[1..]);
    }
  }

  lemma {:induction false} StripDashesOfDashless(s: string)
    requires NoDashes(s)
    ensures StripDashes(s) == s
  {
    if s != [] {
      StripDashesOfDashless(s[1..]);
    }
  }

  lemma {:induction false} StripDashesAppend(a: string, b: string)
    ensures StripDashes(a + b) == StripDashes(a) + StripDashes(b)
  {
    if a != [] {
      var ab := a + b;
      assert ab[0] == a[0];
      assert ab[1..] == a[1..] + b;
      StripDashesAppend(a[1..], b);
      if a[0] == '-' {
        assert StripDashes(ab) == StripDashes(ab[1..]);
        assert StripDashes(a) == StripDashes(a[1..]);
      } else {
        assert StripDashes(ab) == [a[0]] + StripDashes(ab[1..]);
        assert StripDashes(a) == [a[0]] + StripDashes(a[1..]);
      }
    } else {
      assert a + b == b;
    }
  }

  /** Stripping twice is stripping once: a stripped id is looked up as itself. */
  lemma StripDashesIdempotent(s: string)
    ensures StripDashes(StripDashes(s)) == StripDashes(s)
  {
    StripDashesOfDashless(StripDashes(s));
  }

  /** Stripping a dash-free group followed by a dash keeps the group and drops the dash. */
  lemma StripDashGroup(u: string, m: nat)
    requires m < |u| && u[m] == '-' && NoDashes(u[..m])
    ensures StripDashes(u) == u[..m] + StripDashes(u[m + 1..])
  {
    assert u == u[..m] + ([u[m]] + u[m + 1..]);
    StripDashesAppend(u[..m], [u[m]] + u[m + 1..]);
    StripDashesOfDashless(u[..m]);
    assert ([u[m]] + u[m + 1..])[1..] == u[m + 1..];
  }

  /**
   * A canonical UUID, the form the newer tree stores, passes the older
   * tree's check: with its dashes removed it has exactly 32 characters.
   */
  lemma CanonicalUuidStripsTo32(s: string)
    requires IsCanonicalUuid(s)
    ensures |StripDashes(s)| == StrippedUuidLength
  {
    assert NoDashes(s[..8]);
    StripDashGroup(s, 8);
    var u1 := s[9..];
    assert u1[..4] == s[9..13] && u1[5..] == s[14..];
    assert NoDashes(u1[..4]);
    StripDashGroup(u1, 4);
    var u2 := s[14..];
    assert u2[..4] == s[14..18] && u2[5..] == s[19..];
    assert NoDashes(u2[..4]);
    StripDashGroup(u2, 4);
    var u3 := s[19..];
    assert u3[..4] == s[19..23] && u3[5..] == s[24..];
    assert NoDashes(u3[..4]);
    StripDashGroup(u3, 4);
    assert NoDashes(s[24..]);
    StripDashesOfDashless(s[24..]);
  }

  /** ... and every one of those 32 characters is a hex digit. */
  lemma CanonicalUuidStripsToHex(s: string)
    requires IsCanonicalUuid(s)
    ensures forall i :: 0 <= i < |StripDashes(s)| ==> IsHexDigit(StripDashes(s)[i])
  {
    StripDashesCounts(s);
    forall i | 0 <= i < |StripDashes(s)|
      ensures IsHexDigit(StripDashes(s)[i])
    {
      var c := StripDashes(s)[i];
      assert c in multiset(StripDashes(s));
      assert c in s;
      var k :| 0 <= k < |s| && s[k] == c;
    }
  }

  /** The first n draws all collided with a taken code. */
  predicate AllTaken(taken: set<string>, candidates: seq<string>, n: nat)
    requires n <= |candidates|
  {
    forall j :: 0 <= j < n ==> candidates[j] in taken
  }

  /** Draw i is free and every earlier draw collided: the retry loop stops at i. */
  predicate StopsAt(taken: set<string>, candidates: seq<string>, i: nat)
  {
    i < |candidates| && candidates[i] !in taken && AllTaken(taken, candidates, i)
  }

  /**
   * The retry loop of party-code generation, over the codes drawn one after
   * the other: the first draw that is not already taken, or None when every
   * draw collides.
   */
  function FirstFreeCode(taken: set<string>, candidates: seq<string>): (r: Option<string>)
    ensures r.None? <==> AllTaken(taken, candidates, |candidates|)
    ensures r.Some? ==> exists i: nat :: StopsAt(taken, candidates, i) && candidates[i] == r.value
  {
    if candidates == [] then None
    else if candidates[0] !in taken then
      assert StopsAt(taken, candidates, 0);
      Some(candidates[0])
    else
      var r := FirstFreeCode(taken, candidates[1..]);
      FirstFreeShift(taken, candidates, r);
      r
  }

  lemma FirstFreeShift(taken: set<string>, candidates: seq<string>, r: Option<string>)
    requires candidates != [] && candidates[0] in taken
    requires r.None? <==> AllTaken(taken, candidates[1..], |candidates| - 1)
    requires r.Some? ==> exists i: nat :: StopsAt(taken, candidates[1..], i) && candidates[1..][i] == r.value
    ensures r.None? <==> AllTaken(taken, candidates, |candidates|)
    ensures r.Some? ==> exists i: nat :: StopsAt(taken, candidates, i) && candidates[i] == r.value
  {
  }

  /** A code produced from well-formed draws is itself a well-formed party code. */
  lemma FirstFreeCodeIsPartyCode(taken: set<string>, candidates: seq<string>)
    requires AllPartyCodes(candidates)
    requires FirstFreeCode(taken, candidates).Some?
    ensures IsPartyCode(FirstFreeCode(taken, candidates).value)
  {
  }
}
