/** The two fixed regular expressions that `Instructions.create` searches a
    description with, as hand-written matchers that follow the regex engine's
    backtracking order, each beside a declarative description of what a match is.

    version: `(?:vers|V|v).?(\d\d)`
    parts:   `(?:\s|-)([0-9]{1,2})/([0-9]{1,2})(?:\s|$)`

    `re.search` tries the start positions 0, 1, ..., |s| in turn and reports the
    first match the engine finds at the first position where there is one. */
module Patterns {
  import opened Wrappers
  import opened Chars

  /*** Search ***/

  /** `re.search` over an anchored matcher `at`: the first position from `i` on where `at` finds a match. */
  function Search<T>(s: string, i: nat, at: (string, nat) -> Option<T>): (r: Option<T>)
    decreases |s| + 1 - i
    ensures r.Some? ==> exists p :: i <= p <= |s| && at(s, p) == r
  {
    if i > |s| then None
    else
      var here := at(s, i);
      if here.Some? then here else Search(s, i + 1, at)
  }

  /** The search finds something exactly when some start position has a match, and
      then it is the match at the leftmost such position. */
  lemma {:induction false} SearchLeftmost<T>(s: string, i: nat, at: (string, nat) -> Option<T>)
    ensures Search(s, i, at).Some? <==> exists p :: i <= p <= |s| && at(s, p).Some?
    ensures Search(s, i, at).Some? ==>
      exists p :: i <= p <= |s| && Search(s, i, at) == at(s, p) &&
        forall q :: i <= q < p ==> at(s, q).None?
    decreases |s| + 1 - i
  {
    if i <= |s| && at(s, i).None? {
      SearchLeftmost(s, i + 1, at);
      if Search(s, i, at).Some? {
        var p :| i + 1 <= p <= |s| && Search(s, i + 1, at) == at(s, p) &&
          forall q :: i + 1 <= q < p ==> at(s, q).None?;
        assert forall q :: i <= q < p ==> at(s, q).None? by {
          forall q | i <= q < p ensures at(s, q).None? {
            if q > i {
              assert i + 1 <= q < p;
            }
          }
        }
      }
    }
  }

  /*** The version pattern (?:vers|V|v).?(\d\d) ***/

  /** The alternatives of `(?:vers|V|v)`, in the order the engine tries them. */
  const VersionAlternatives: seq<string> := ["vers", "V", "v"]

  predicate LiteralAt(s: string, i: nat, lit: string) {
    i + |lit| <= |s| && s[i..i + |lit|] == lit
  }

  predicate TwoDigitsAt(s: string, j: nat) {
    j + 2 <= |s| && IsDigit(s[j]) && IsDigit(s[j + 1])
  }

  /** One way the version pattern matches at `i`: alternative `k`, then `skip` (0 or 1)
      characters for `.?`, which never matches a newline, then two digits. */
  predicate VersionPath(s: string, i: nat, k: nat, skip: nat) {
    && k < 3 && skip <= 1
    && LiteralAt(s, i, VersionAlternatives[k])
    && (skip == 1 ==> i + |VersionAlternatives[k]| < |s| && s[i + |VersionAlternatives[k]|] != '\n')
    && TwoDigitsAt(s, i + |VersionAlternatives[k]| + skip)
  }

  /** Group 1 of a path: its two digits. */
  function PathGroup(s: string, i: nat, k: nat, skip: nat): string
    requires VersionPath(s, i, k, skip)
  {
    var j := i + |VersionAlternatives[k]| + skip;
    s[j..j + 2]
  }

  /** The engine's order: the alternatives left to right, and within one the greedy `.?`
      takes a character before it takes none. */
  predicate TriedBefore(k': nat, skip': nat, k: nat, skip: nat) {
    k' < k || (k' == k && skip' > skip)
  }

  /** After the literal `lit`: `.?` (greedy) and then `(\d\d)`. */
  function AfterLiteral(s: string, i: nat, lit: string): Option<string> {
    if !LiteralAt(s, i, lit) then None
    else
      var j := i + |lit|;
      if j < |s| && s[j] != '\n' && TwoDigitsAt(s, j + 1) then Some(s[j + 1..j + 3])
      else if TwoDigitsAt(s, j) then Some(s[j..j + 2])
      else None
  }

  /** The version pattern anchored at `i`: group 1 of the first match found there. */
  function VersionAt(s: string, i: nat): (r: Option<string>)
    ensures r.Some? ==> |r.value| == 2 && AllDigits(r.value)
  {
    var first := AfterLiteral(s, i, "vers");
    if first.Some? then first
    else
      var second := AfterLiteral(s, i, "V");
      if second.Some? then second else AfterLiteral(s, i, "v")
  }

  /** `INSTRUCTIONS_VERSION_PATTERN.search(s)`, reduced to its group 1. */
  function VersionSearch(s: string): (r: Option<string>)
    ensures r.Some? ==> |r.value| == 2 && AllDigits(r.value)
  {
    Search(s, 0, VersionAt)
  }

  /** One alternative: after its literal, the greedy `.?` path is taken when it matches,
      otherwise the path without a skipped character. */
  lemma AfterAlternative(s: string, i: nat, k: nat)
    requires k < 3
    ensures AfterLiteral(s, i, VersionAlternatives[k]).Some? <==>
              VersionPath(s, i, k, 1) || VersionPath(s, i, k, 0)
    ensures VersionPath(s, i, k, 1) ==>
              AfterLiteral(s, i, VersionAlternatives[k]) == Some(PathGroup(s, i, k, 1))
    ensures !VersionPath(s, i, k, 1) && VersionPath(s, i, k, 0) ==>
              AfterLiteral(s, i, VersionAlternatives[k]) == Some(PathGroup(s, i, k, 0))
  {
  }

  /** The matcher at one position agrees with the declarative paths: it succeeds exactly
      when some path matches, and it reports the group of the first path in the engine's order. */
  lemma VersionAtFirstPath(s: string, i: nat)
    ensures VersionAt(s, i).Some? <==> exists k, skip :: VersionPath(s, i, k, skip)
    ensures VersionAt(s, i).Some? ==>
      exists k, skip :: VersionPath(s, i, k, skip) && VersionAt(s, i).value == PathGroup(s, i, k, skip) &&
        forall k', skip' :: TriedBefore(k', skip', k, skip) ==> !VersionPath(s, i, k', skip')
  {
    assert VersionAlternatives[0] == "vers" && VersionAlternatives[1] == "V" && VersionAlternatives[2] == "v";
    AfterAlternative(s, i, 0);
    AfterAlternative(s, i, 1);
    AfterAlternative(s, i, 2);
    var k: nat, skip: nat;
    if VersionPath(s, i, 0, 1) {
      k, skip := 0, 1;
    } else if VersionPath(s, i, 0, 0) {
      k, skip := 0, 0;
    } else if VersionPath(s, i, 1, 1) {
      k, skip := 1, 1;
    } else if VersionPath(s, i, 1, 0) {
      k, skip := 1, 0;
    } else if VersionPath(s, i, 2, 1) {
      k, skip := 2, 1;
    } else if VersionPath(s, i, 2, 0) {
      k, skip := 2, 0;
    } else {
      assert VersionAt(s, i).None?;
      forall k', skip' ensures !VersionPath(s, i, k', skip') {
        if k' < 3 && skip' <= 1 {
          assert k' == 0 || k' == 1 || k' == 2;
          assert skip' == 0 || skip' == 1;
        }
      }
      return;
    }
    assert VersionAt(s, i).value == PathGroup(s, i, k, skip);
    forall k', skip' | TriedBefore(k', skip', k, skip) ensures !VersionPath(s, i, k', skip') {
      if k' < 3 && skip' <= 1 {
        assert k' == 0 || k' == 1 || k' == 2;
        assert skip' == 0 || skip' == 1;
      }
    }
  }

  /** A description contains a version match exactly when the search reports one, and
      the search reports the group of the first path at the leftmost matching position. */
  lemma VersionSearchFindsLeftmost(s: string)
    ensures VersionSearch(s).Some? <==> exists p: nat, k: nat, skip: nat :: p <= |s| && VersionPath(s, p, k, skip)
    ensures VersionSearch(s).Some? ==>
      exists p: nat, k: nat, skip: nat :: p <= |s| && VersionPath(s, p, k, skip) && VersionSearch(s).value == PathGroup(s, p, k, skip) &&
        (forall k', skip' :: TriedBefore(k', skip', k, skip) ==> !VersionPath(s, p, k', skip')) &&
        (forall q: nat, k': nat, skip': nat :: q < p ==> !VersionPath(s, q, k', skip'))
  {
    SearchLeftmost(s, 0, VersionAt);
    if VersionSearch(s).Some? {
      var p :| 0 <= p <= |s| && VersionSearch(s) == VersionAt(s, p) &&
        forall q :: 0 <= q < p ==> VersionAt(s, q).None?;
      VersionAtFirstPath(s, p);
      forall q: nat, k': nat, skip': nat | q < p ensures !VersionPath(s, q, k', skip') {
        VersionAtFirstPath(s, q);
      }
    } else {
      forall p: nat, k: nat, skip: nat | p <= |s| ensures !VersionPath(s, p, k, skip) {
        VersionAtFirstPath(s, p);
      }
    }
  }

  /*** The parts pattern (?:\s|-)([0-9]{1,2})/([0-9]{1,2})(?:\s|$) ***/

  predicate DigitsAt(s: string, j: nat, n: nat) {
    j + n <= |s| && AllDigits(s[j..j + n])
  }

  /** `(?:\s|$)` at `j`. Python's `$` also matches before a final newline, but there `\s`
      has already matched, so the two cases agree. */
  predicate SpaceOrEndAt(s: string, j: nat) {
    j == |s| || (j < |s| && IsSpace(s[j]))
  }

  /** One way the parts pattern matches at `i`, with `n1` and `n2` digits in the two groups. */
  predicate PartsPath(s: string, i: nat, n1: nat, n2: nat) {
    && 1 <= n1 <= 2 && 1 <= n2 <= 2
    && i < |s| && (IsSpace(s[i]) || s[i] == '-')
    && DigitsAt(s, i + 1, n1)
    && i + 1 + n1 < |s| && s[i + 1 + n1] == '/'
    && DigitsAt(s, i + 2 + n1, n2)
    && SpaceOrEndAt(s, i + 2 + n1 + n2)
  }

  /** Groups 1 and 2 of a path. */
  function PartsGroups(s: string, i: nat, n1: nat, n2: nat): (string, string)
    requires PartsPath(s, i, n1, n2)
  {
    (s[i + 1..i + 1 + n1], s[i + 2 + n1..i + 2 + n1 + n2])
  }

  /** `([0-9]{1,2})(?:\s|$)` at `j`, greedy; `first` is group 1, already matched. */
  function SecondGroup(s: string, j: nat, first: string): Option<(string, string)> {
    if DigitsAt(s, j, 2) && SpaceOrEndAt(s, j + 2) then Some((first, s[j..j + 2]))
    else if DigitsAt(s, j, 1) && SpaceOrEndAt(s, j + 1) then Some((first, s[j..j + 1]))
    else None
  }

  /** Group 1 taken with `n` digits at `j`, then `/`, then the rest. */
  function FirstGroup(s: string, j: nat, n: nat): Option<(string, string)> {
    if DigitsAt(s, j, n) && j + n < |s| && s[j + n] == '/' then SecondGroup(s, j + n + 1, s[j..j + n])
    else None
  }

  /** The parts pattern anchored at `i`: groups 1 and 2 of the first match found there. */
  function PartsAt(s: string, i: nat): (r: Option<(string, string)>)
    ensures r.Some? ==> 1 <= |r.value.0| <= 2 && AllDigits(r.value.0)
    ensures r.Some? ==> 1 <= |r.value.1| <= 2 && AllDigits(r.value.1)
  {
    if i < |s| && (IsSpace(s[i]) || s[i] == '-') then
      var greedy := FirstGroup(s, i + 1, 2);
      if greedy.Some? then greedy else FirstGroup(s, i + 1, 1)
    else None
  }

  /** `INSTRUCTIONS_PARTS_PATTERN.search(s)`, reduced to its two groups. */
  function PartsSearch(s: string): (r: Option<(string, string)>)
    ensures r.Some? ==> 1 <= |r.value.0| <= 2 && AllDigits(r.value.0)
    ensures r.Some? ==> 1 <= |r.value.1| <= 2 && AllDigits(r.value.1)
  {
    Search(s, 0, PartsAt)
  }

  /** At any position the parts pattern has at most one way to match, so the engine's
      backtracking order never changes what the groups hold. */
  lemma PartsPathUnique(s: string, i: nat, n1: nat, n2: nat, m1: nat, m2: nat)
    requires PartsPath(s, i, n1, n2) && PartsPath(s, i, m1, m2)
    ensures n1 == m1 && n2 == m2
  {
  }

  /** The matcher at one position agrees with the declarative paths: it succeeds exactly
      when a path matches, and then reports that path's groups. */
  lemma PartsAtPath(s: string, i: nat)
    ensures PartsAt(s, i).Some? <==> exists n1, n2 :: PartsPath(s, i, n1, n2)
    ensures forall n1, n2 :: PartsPath(s, i, n1, n2) ==> PartsAt(s, i) == Some(PartsGroups(s, i, n1, n2))
  {
    forall n1, n2 | PartsPath(s, i, n1, n2) ensures PartsAt(s, i) == Some(PartsGroups(s, i, n1, n2)) {
      if PartsAt(s, i).Some? {
        var m1, m2 := PathOfParts(s, i);
        PartsPathUnique(s, i, n1, n2, m1, m2);
      } else {
        assert n1 == 1 || n1 == 2;
        assert n2 == 1 || n2 == 2;
      }
    }
    if PartsAt(s, i).Some? {
      var m1, m2 := PathOfParts(s, i);
    }
  }

  /** The path behind a successful `PartsAt`. */
  lemma PathOfParts(s: string, i: nat) returns (n1: nat, n2: nat)
    requires PartsAt(s, i).Some?
    ensures PartsPath(s, i, n1, n2) && PartsAt(s, i) == Some(PartsGroups(s, i, n1, n2))
  {
    n1 := if FirstGroup(s, i + 1, 2).Some? then 2 else 1;
    var j := i + 2 + n1;
    n2 := if DigitsAt(s, j, 2) && SpaceOrEndAt(s, j + 2) then 2 else 1;
  }

  /** A description contains a parts match exactly when the search reports one, and the
      search reports the groups of the leftmost match. */
  lemma PartsSearchFindsLeftmost(s: string)
    ensures PartsSearch(s).Some? <==> exists p: nat, n1: nat, n2: nat :: p <= |s| && PartsPath(s, p, n1, n2)
    ensures PartsSearch(s).Some? ==>
      exists p: nat, n1: nat, n2: nat :: p <= |s| && PartsPath(s, p, n1, n2) && PartsSearch(s).value == PartsGroups(s, p, n1, n2) &&
        forall q: nat, m1: nat, m2: nat :: q < p ==> !PartsPath(s, q, m1, m2)
  {
    SearchLeftmost(s, 0, PartsAt);
    if PartsSearch(s).Some? {
      var p :| 0 <= p <= |s| && PartsSearch(s) == PartsAt(s, p) &&
        forall q :: 0 <= q < p ==> PartsAt(s, q).None?;
      var n1, n2 := PathOfParts(s, p);
      forall q: nat, m1: nat, m2: nat | q < p ensures !PartsPath(s, q, m1, m2) {
        PartsAtPath(s, q);
      }
    } else {
      forall p: nat, n1: nat, n2: nat | p <= |s| ensures !PartsPath(s, p, n1, n2) {
        PartsAtPath(s, p);
      }
    }
  }
}
