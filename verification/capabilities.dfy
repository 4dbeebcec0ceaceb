/** Capability patterns: exact names, or every name below a prefix. */
module Capabilities {
  import opened Wire
  import opened Names

  /** The bytes ".*" end a wildcard. */
  predicate Wildcard(pattern: bytes) { |pattern| >= 2 && pattern[|pattern| - 2..] == [DOT, STAR] }

  /** The prefix of a wildcard, with its final dot. */
  function Prefix(pattern: bytes): bytes
    requires Wildcard(pattern)
  {
    pattern[..|pattern| - 1]
  }

  predicate StartsWith(s: bytes, prefix: bytes) { |prefix| <= |s| && s[..|prefix|] == prefix }

  /** A pattern a validated requirement list may hold. */
  predicate PatternOk(pattern: bytes) {
    if Wildcard(pattern) then DottedName(pattern[..|pattern| - 2]) else DottedName(pattern)
  }

  predicate Matches(pattern: bytes, name: bytes) {
    pattern == name || (Wildcard(pattern) && StartsWith(name, Prefix(pattern)))
  }

  predicate Grants(patterns: seq<bytes>, name: bytes) { exists i :: 0 <= i < |patterns| && Matches(patterns[i], name) }

  datatype Verdict = Answer(granted: bool) | BadName

  /** isCapabilityGranted: a malformed name is an error, not a refusal. */
  method IsCapabilityGranted(patterns: seq<bytes>, name: bytes) returns (v: Verdict)
    ensures v == if DottedName(name) then Answer(Grants(patterns, name)) else BadName
  {
    hide DottedName, Matches;
    if !DottedName(name) {
      return BadName;
    }
    for i := 0 to |patterns|
      invariant forall j :: 0 <= j < i ==> !Matches(patterns[j], name)
    {
      if Matches(patterns[i], name) {
        return Answer(true);
      }
    }
    v := Answer(false);
  }

  /** Whether one allowed pattern holds everything a wildcard requirement would admit. */
  predicate Covers(pattern: bytes, requirement: bytes)
    requires Wildcard(requirement)
  {
    pattern == requirement || (Wildcard(pattern) && StartsWith(requirement[..|requirement| - 2], Prefix(pattern)))
  }

  method IsPatternCovered(allowed: seq<bytes>, requirement: bytes) returns (v: Verdict)
    ensures v == PatternVerdict(allowed, requirement)
  {
    hide DottedName, Covers, Matches;
    if !Wildcard(requirement) {
      v := IsCapabilityGranted(allowed, requirement);
      return;
    }
    if !DottedName(requirement[..|requirement| - 2]) {
      return BadName;
    }
    for i := 0 to |allowed|
      invariant forall j :: 0 <= j < i ==> !Covers(allowed[j], requirement)
    {
      if Covers(allowed[i], requirement) {
        return Answer(true);
      }
    }
    v := Answer(false);
  }

  function PatternVerdict(allowed: seq<bytes>, requirement: bytes): Verdict {
    if !PatternOk(requirement) then BadName
    else if Wildcard(requirement) then Answer(exists i :: 0 <= i < |allowed| && Covers(allowed[i], requirement))
    else Answer(Grants(allowed, requirement))
  }

  /** A pattern admits a name exactly when it is that name, or some names joined to ".*" and the name has more after that dot. */
  lemma MatchesExactly(pattern: bytes, name: bytes)
    requires DottedName(name)
    ensures Matches(pattern, name) <==>
      pattern == name || exists base: bytes, rest: bytes :: rest != [] && pattern == base + [DOT, STAR] && name == base + [DOT] + rest
  {
    hide ValidUtf8, ContainsControl;
    if Wildcard(pattern) && StartsWith(name, Prefix(pattern)) {
      var base, rest := pattern[..|pattern| - 2], name[|pattern| - 1..];
      EndsInDot(pattern);
      assert pattern == base + [DOT, STAR] && name == base + [DOT] + rest;
      assert name[|base|] == DOT;
    }
    if exists base: bytes, rest: bytes :: rest != [] && pattern == base + [DOT, STAR] && name == base + [DOT] + rest {
      var base: bytes, rest: bytes :| rest != [] && pattern == base + [DOT, STAR] && name == base + [DOT] + rest;
      assert pattern[|pattern| - 2..] == [DOT, STAR];
      assert Prefix(pattern) == base + [DOT];
      assert name[..|base| + 1] == base + [DOT];
    }
  }

  /** A covered requirement admits nothing that is not allowed. */
  lemma CoveredIsSound(allowed: seq<bytes>, requirement: bytes, name: bytes)
    requires PatternVerdict(allowed, requirement) == Answer(true)
    requires DottedName(name) && Matches(requirement, name)
    ensures Grants(allowed, name)
  {
    hide DottedName;
    if Wildcard(requirement) {
      assert !(requirement == name) by {
        NamesHaveNoStar(name);
      }
      var i :| 0 <= i < |allowed| && Covers(allowed[i], requirement);
      CoverMatches(allowed[i], requirement, name);
    }
  }

  lemma EndsInStar(pattern: bytes)
    requires Wildcard(pattern)
    ensures STAR in pattern
  {
    assert pattern[|pattern| - 1] == pattern[|pattern| - 2..][1];
  }

  lemma NamesHaveNoStar(name: bytes)
    requires DottedName(name)
    ensures !Wildcard(name)
  {
    if Wildcard(name) {
      EndsInStar(name);
    }
  }

  lemma CoverMatches(pattern: bytes, requirement: bytes, name: bytes)
    requires Wildcard(requirement) && Covers(pattern, requirement) && StartsWith(name, Prefix(requirement))
    ensures Matches(pattern, name)
  {
    if pattern != requirement {
      var base, p := requirement[..|requirement| - 2], Prefix(pattern);
      assert base[..|p|] == requirement[..|p|] == Prefix(requirement)[..|p|] == name[..|Prefix(requirement)|][..|p|] == name[..|p|];
    }
  }

  lemma {:induction false} ValidAppend(a: bytes, c: byte, i: nat)
    requires i <= |a| && ValidFrom(a, i) && c < 0x80
    ensures ValidFrom(a + [c], i)
    decreases |a| - i
  {
    if i < |a| {
      ValidAppend(a, c, i + SequenceLength(a, i));
    } else {
      assert SequenceLength(a + [c], i) == 1;
    }
  }

  /** A letter below a wildcard's prefix is a name, if there is room for it. */
  lemma Extended(requirement: bytes, letter: byte)
    requires Wildcard(requirement) && PatternOk(requirement) && |requirement| <= 256 && 0x61 <= letter <= 0x7a
    ensures DottedName(Prefix(requirement) + [letter])
  {
    hide ValidFrom;
    var base := requirement[..|requirement| - 2];
    var name := Prefix(requirement) + [letter];
    assert name == base + [DOT] + [letter];
    ValidAppend(base, DOT, 0);
    ValidAppend(base + [DOT], letter, 0);
    forall i | 0 <= i < |name| ensures ControlAt(name, i) ==> i < |base| && ControlAt(base, i) {
    }
  }

  /** Two names below a prefix that a pattern admits fix the pattern to be a wildcard above it. */
  lemma TwoNames(pattern: bytes, requirement: bytes, a: bytes, b: bytes)
    requires Wildcard(requirement) && |requirement| > 2
    requires a == Prefix(requirement) + [0x61] && b == Prefix(requirement) + [0x62]
    requires Matches(pattern, a) && Matches(pattern, b)
    ensures Covers(pattern, requirement)
  {
    assert a[|a| - 1] != b[|b| - 1];
    assert Wildcard(pattern);
    assert a[|a| - 1] != DOT && Prefix(pattern)[|Prefix(pattern)| - 1] == DOT;
    var p, r := Prefix(pattern), Prefix(requirement);
    assert |p| <= |r| && r[..|p|] == a[..|p|] == p;
    if |p| == |r| {
      assert pattern == p + [STAR] && requirement == r + [STAR];
    } else {
      assert requirement[..|requirement| - 2][..|p|] == r[..|p|];
    }
  }

  ghost predicate AdmitsAll(pattern: bytes, requirement: bytes) {
    forall name :: DottedName(name) && Matches(requirement, name) ==> Matches(pattern, name)
  }

  lemma EndsInDot(requirement: bytes)
    requires Wildcard(requirement)
    ensures requirement[|requirement| - 2] == DOT
  {
    assert requirement[|requirement| - 2..][0] == DOT;
  }

  /** Some name lies below a wildcard exactly when the wildcard leaves room for one more byte after its dot. */
  lemma RoomBelow(requirement: bytes)
    requires Wildcard(requirement) && PatternOk(requirement)
    ensures (exists name :: DottedName(name) && Matches(requirement, name)) <==> |requirement| <= 256
  {
    if |requirement| <= 256 {
      Extended(requirement, 0x61);
      assert Matches(requirement, Prefix(requirement) + [0x61]);
    } else {
      forall name | DottedName(name) ensures !Matches(requirement, name) {
        NamesHaveNoStar(name);
        EndsInDot(requirement);
      }
    }
  }

  /**
   * A pattern admits every name a wildcard admits exactly when it covers the wildcard, or the wildcard
   * is so long that it admits none.
   */
  lemma CoversExactly(pattern: bytes, requirement: bytes)
    requires Wildcard(requirement) && PatternOk(requirement)
    ensures AdmitsAll(pattern, requirement) <==> Covers(pattern, requirement) || |requirement| > 256
  {
    hide DottedName;
    if Covers(pattern, requirement) {
      forall name | DottedName(name) && Matches(requirement, name) ensures Matches(pattern, name) {
        NamesHaveNoStar(name);
        CoverMatches(pattern, requirement, name);
      }
    }
    RoomBelow(requirement);
    if |requirement| <= 256 && AdmitsAll(pattern, requirement) {
      var a, b := Prefix(requirement) + [0x61], Prefix(requirement) + [0x62];
      Extended(requirement, 0x61);
      Extended(requirement, 0x62);
      assert Matches(requirement, a) && Matches(requirement, b);
      NotJustStar(requirement);
      TwoNames(pattern, requirement, a, b);
    }
  }

  /** Covering decides admission, for every pattern, exactly when some name lies below the wildcard. */
  lemma CoverageDecides(requirement: bytes)
    requires Wildcard(requirement) && PatternOk(requirement)
    ensures (forall pattern :: Covers(pattern, requirement) <==> AdmitsAll(pattern, requirement))
       <==> exists name :: DottedName(name) && Matches(requirement, name)
  {
    hide DottedName, AdmitsAll;
    RoomBelow(requirement);
    forall pattern ensures AdmitsAll(pattern, requirement) <==> Covers(pattern, requirement) || |requirement| > 256 {
      CoversExactly(pattern, requirement);
    }
    assert !Covers([], requirement);
  }

  lemma NotJustStar(requirement: bytes)
    requires Wildcard(requirement) && PatternOk(requirement)
    ensures |requirement| > 2
  {
  }
}
