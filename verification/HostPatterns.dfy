/** What domain entries ask of a host, and exactly when one list of patterns covers another.

    Tags (rule sets and regular expressions) have any meaning; the other patterns are read over the
    host's text. */
module HostPatterns {
  import opened Domains
  import opened Text

  datatype Pattern =
    | Exactly(name: string)
    | Under(name: string)
    | Containing(part: string)
    | Tagged(tag: string)

  predicate HoldsAt(s: string, part: string, i: nat) { i + |part| <= |s| && s[i..i + |part|] == part }

  predicate Contains(s: string, part: string) {
    exists i | 0 <= i <= |s| :: HoldsAt(s, part, i)
  }

  // A pattern that needs no tag.
  predicate FitsName(p: Pattern, h: string) {
    match p
    case Exactly(v) => h == v
    case Under(v) => Below(h, v)
    case Containing(v) => Contains(h, v)
    case Tagged(_) => false
  }

  predicate Fits(tags: (string, string) -> bool, p: Pattern, h: string) {
    if p.Tagged? then tags(p.tag, h) else FitsName(p, h)
  }

  predicate AnyFits(tags: (string, string) -> bool, ps: seq<Pattern>, h: string) {
    exists p | p in ps :: Fits(tags, p, h)
  }

  // Whatever the tags mean, `qs` matches every host that `ps` matches.
  ghost predicate HitsWithin(ps: seq<Pattern>, qs: seq<Pattern>) {
    forall tags, h | AnyFits(tags, ps, h) :: AnyFits(tags, qs, h)
  }

  // ---------------------------------------------------------------------------------------
  // Coverage, read off the patterns
  // ---------------------------------------------------------------------------------------

  // `q` matches everything strictly below `v`.
  predicate HoldsBelow(q: Pattern, v: string) {
    (q.Under? && Below(v, q.name)) || (q.Containing? && Contains("." + v, q.part))
  }

  predicate CoversTag(qs: seq<Pattern>, t: string) { Tagged(t) in qs || Containing("") in qs }

  predicate CoversName(qs: seq<Pattern>, v: string) { exists q | q in qs :: FitsName(q, v) }

  predicate CoversPart(qs: seq<Pattern>, v: string) { exists q | q in qs :: q.Containing? && Contains(v, q.part) }

  predicate CoversBelow(qs: seq<Pattern>, v: string) { exists q | q in qs :: HoldsBelow(q, v) }

  predicate Covers(qs: seq<Pattern>, p: Pattern) {
    match p
    case Exactly(v) => CoversName(qs, v)
    case Under(v) => CoversName(qs, v) && CoversBelow(qs, v)
    case Containing(v) => CoversPart(qs, v)
    case Tagged(t) => CoversTag(qs, t)
  }

  predicate Covered(ps: seq<Pattern>, qs: seq<Pattern>) { forall p | p in ps :: Covers(qs, p) }

  function TextOf(p: Pattern): string {
    match p
    case Exactly(v) => v
    case Under(v) => v
    case Containing(v) => v
    case Tagged(t) => t
  }

  // A character of host names that occurs in none of the patterns.
  predicate FreshFor(c: char, qs: seq<Pattern>) { c != '.' && forall q | q in qs :: c !in TextOf(q) }

  lemma ContainsIsTransitive(a: string, b: string, c: string)
    requires Contains(a, b) && Contains(b, c)
    ensures Contains(a, c)
  {
    var i :| 0 <= i <= |a| && HoldsAt(a, b, i);
    var j :| 0 <= j <= |b| && HoldsAt(b, c, j);
    SliceOfSlice(a, i, i + |b|, j, j + |c|);
    assert HoldsAt(a, c, i + j);
  }

  lemma SliceOfSlice(s: string, i: nat, j: nat, k: nat, l: nat)
    requires i <= j <= |s| && k <= l <= j - i
    ensures s[i..j][k..l] == s[i + k..i + l]
  {
    var t := s[i..j];
    assert t[k..l] == s[i + k..i + l] by {
      assert forall m | 0 <= m < l - k :: t[k..l][m] == t[k + m] == s[i + k + m];
    }
  }

  lemma SuffixIsContained(h: string, s: string)
    requires |s| <= |h| && h[|h| - |s|..] == s
    ensures Contains(h, s)
  {
    assert HoldsAt(h, s, |h| - |s|);
  }

  // What avoids the first and the last character lies between them.
  lemma ContainedInside(c: char, v: string, part: string)
    requires c !in part
    ensures Contains([c] + v + [c], part) ==> Contains(v, part)
    ensures Contains([c] + v, part) ==> Contains(v, part)
  {
    assert HoldsAt(v, "", 0);
    if Contains([c] + v + [c], part) && part != "" {
      var i :| 0 <= i <= |v| + 2 && HoldsAt([c] + v + [c], part, i);
      InsideAt(c, v, [c], part, i);
    }
    if Contains([c] + v, part) && part != "" {
      var i :| 0 <= i <= |v| + 1 && HoldsAt([c] + v, part, i);
      assert [c] + v == [c] + v + "";
      InsideAt(c, v, "", part, i);
    }
  }

  lemma InsideAt(c: char, v: string, end: string, part: string, i: nat)
    requires c !in part && part != "" && (end == "" || end == [c]) && HoldsAt([c] + v + end, part, i)
    ensures i > 0 && HoldsAt(v, part, i - 1)
  {
    var h := [c] + v + end;
    assert part[0] == h[i] && part[|part| - 1] == h[i + |part| - 1];
    assert h[i..i + |part|] == v[i - 1..i - 1 + |part|];
  }

  // Each covered pattern is matched only where the list matches.
  lemma CoverSuffices(tags: (string, string) -> bool, qs: seq<Pattern>, p: Pattern, h: string)
    requires Covers(qs, p) && Fits(tags, p, h)
    ensures AnyFits(tags, qs, h)
  {
    match p
    case Exactly(v) =>
      var q :| q in qs && FitsName(q, v);
    case Under(v) =>
      if h == v {
        var q :| q in qs && FitsName(q, v);
      } else {
        var q :| q in qs && HoldsBelow(q, v);
        if q.Under? {
          BelowIsTransitive(h, v, q.name);
        } else {
          SuffixIsContained(h, "." + v);
          ContainsIsTransitive(h, "." + v, q.part);
        }
        assert Fits(tags, q, h);
      }
    case Containing(v) =>
      var q :| q in qs && q.Containing? && Contains(v, q.part);
      ContainsIsTransitive(h, v, q.part);
      assert Fits(tags, q, h);
    case Tagged(t) =>
      if Tagged(t) !in qs {
        assert HoldsAt(h, "", 0) && Fits(tags, Containing(""), h);
      }
  }

  // No pattern without the character `c` matches a host through its first character.
  lemma FreshHostNeedsMore(c: char, q: Pattern, rest: string)
    requires c != '.' && c !in TextOf(q)
    ensures FitsName(q, [c] + "." + rest) ==> HoldsBelow(q, rest)
    ensures FitsName(q, [c] + rest + [c]) ==> q.Containing? && Contains(rest, q.part)
    ensures FitsName(q, [c]) ==> q == Containing("")
  {
    var below, around, alone := [c] + "." + rest, [c] + rest + [c], [c];
    match q
    case Exactly(u) =>
      assert below[0] == c && around[0] == c && alone[0] == c;
    case Under(u) =>
      UnderFreshHost(c, u, rest);
    case Containing(k) =>
      assert below == [c] + ("." + rest);
      ContainedInside(c, "." + rest, k);
      ContainedInside(c, rest, k);
      assert alone == [c] + "";
      ContainedInside(c, "", k);
      OnlyEmptyInEmpty(k);
    case Tagged(_) =>
  }

  lemma UnderFreshHost(c: char, u: string, rest: string)
    requires c != '.' && c !in u
    ensures Below([c] + "." + rest, u) ==> Below(rest, u)
    ensures !Below([c] + rest + [c], u) && !Below([c], u)
  {
    var below, around, alone := [c] + "." + rest, [c] + rest + [c], [c];
    assert below[0] == c && around[0] == c && around[|around| - 1] == c && alone[0] == c;
    EndsAreMembers(u);
    SuffixEnds(around, u);
    SuffixEnds(alone, u);
    SuffixEnds(below, u);
    if |u| <= |rest| {
      SuffixBelow(c, u, rest);
    }
  }

  lemma EndsAreMembers(u: string)
    ensures u != "" ==> u[0] in u && u[|u| - 1] in u
  {}

  // A name above a host starts after a dot and ends as the host does.
  lemma SuffixEnds(h: string, u: string)
    ensures HasSuffix(h, "." + u) ==> h[|h| - |u| - 1] == '.'
    ensures HasSuffix(h, "." + u) && u != "" ==> u[|u| - 1] == h[|h| - 1]
  {
    if HasSuffix(h, "." + u) {
      assert h[|h| - |u| - 1..] == "." + u;
    }
  }

  lemma SuffixBelow(c: char, u: string, rest: string)
    requires |u| <= |rest|
    ensures HasSuffix([c] + "." + rest, "." + u) ==> Below(rest, u)
  {
    var below := [c] + "." + rest;
    if HasSuffix(below, "." + u) {
      assert below[|below| - |u| - 1..] == "." + u;
      if |u| < |rest| {
        assert rest[|rest| - |u| - 1..] == below[|below| - |u| - 1..];
      } else {
        assert below[2..] == rest && below[|below| - |u|..] == u;
      }
    }
  }

  lemma OnlyEmptyInEmpty(part: string)
    ensures Contains("", part) ==> part == ""
  {}

  // A host that the pattern matches is matched by some other pattern.
  lemma HitElsewhere(ps: seq<Pattern>, qs: seq<Pattern>, p: Pattern, tags: (string, string) -> bool, h: string)
    returns (q: Pattern)
    requires HitsWithin(ps, qs) && p in ps && Fits(tags, p, h)
    ensures q in qs && Fits(tags, q, h)
  {
    assert AnyFits(tags, ps, h);
    q :| q in qs && Fits(tags, q, h);
  }

  lemma FitsBelow(c: char, v: string)
    ensures FitsName(Under(v), [c] + "." + v)
  {
    var h := [c] + "." + v;
    assert h[|h| - |v| - 1..] == "." + v;
  }

  lemma FitsAround(c: char, v: string)
    ensures FitsName(Containing(v), [c] + v + [c])
  {
    assert HoldsAt([c] + v + [c], v, 1);
  }

  lemma CoverIsNeeded(ps: seq<Pattern>, qs: seq<Pattern>, p: Pattern, c: char)
    requires HitsWithin(ps, qs) && p in ps && FreshFor(c, qs)
    ensures Covers(qs, p)
  {
    var none := (_: string, _: string) => false;
    match p
    case Exactly(v) =>
      var q := HitElsewhere(ps, qs, p, none, v);
    case Under(v) =>
      var q := HitElsewhere(ps, qs, p, none, v);
      FitsBelow(c, v);
      var r := HitElsewhere(ps, qs, p, none, [c] + "." + v);
      FreshHostNeedsMore(c, r, v);
    case Containing(v) =>
      FitsAround(c, v);
      var q := HitElsewhere(ps, qs, p, none, [c] + v + [c]);
      FreshHostNeedsMore(c, q, v);
    case Tagged(t) =>
      var only := (x: string, _: string) => x == t;
      var q := HitElsewhere(ps, qs, p, only, [c]);
      FreshHostNeedsMore(c, q, "");
  }

  /** Whatever the tags mean, one list matches within another on all hosts iff each of its patterns
      is covered: tags by the same tag, names by a pattern that matches them, everything below a name
      by one at or above it or by a part of it, and parts by parts of them. */
  lemma CoverageIsExact(ps: seq<Pattern>, qs: seq<Pattern>, c: char)
    requires FreshFor(c, qs)
    ensures HitsWithin(ps, qs) <==> Covered(ps, qs)
  {
    if Covered(ps, qs) {
      forall tags, h | AnyFits(tags, ps, h) ensures AnyFits(tags, qs, h) {
        var p :| p in ps && Fits(tags, p, h);
        CoverSuffices(tags, qs, p, h);
      }
    }
    if HitsWithin(ps, qs) {
      forall p | p in ps ensures Covers(qs, p) { CoverIsNeeded(ps, qs, p, c); }
    }
  }

  lemma MemberIsCovered(qs: seq<Pattern>, p: Pattern)
    requires p in qs
    ensures Covers(qs, p)
  {
    match p
    case Exactly(v) => assert FitsName(p, v);
    case Under(v) => assert FitsName(p, v) && HoldsBelow(p, v);
    case Containing(v) => assert HoldsAt(v, v, 0);
    case Tagged(_) =>
  }

  // A list covers itself.
  lemma OwnCover(ps: seq<Pattern>)
    ensures Covered(ps, ps)
  {
    forall p | p in ps ensures Covers(ps, p) { MemberIsCovered(ps, p); }
  }

  // ---------------------------------------------------------------------------------------
  // Two readings of two lists
  // ---------------------------------------------------------------------------------------

  function Patterns(read: string -> Pattern, ds: seq<string>): (ps: seq<Pattern>)
    ensures |ps| == |ds| && forall i | 0 <= i < |ds| :: ps[i] == read(ds[i])
  {
    seq(|ds|, i requires 0 <= i < |ds| => read(ds[i]))
  }

  ghost predicate SameHosts(ps: seq<Pattern>, qs: seq<Pattern>) {
    forall tags, h :: AnyFits(tags, ps, h) <==> AnyFits(tags, qs, h)
  }

  predicate CoverEachOther(ps: seq<Pattern>, qs: seq<Pattern>) { Covered(ps, qs) && Covered(qs, ps) }

  /** Two lists match the same hosts, whatever the tags mean, iff each covers the other. */
  lemma SameHostsIffCoverEachOther(ps: seq<Pattern>, qs: seq<Pattern>, c: char)
    requires FreshFor(c, ps) && FreshFor(c, qs)
    ensures SameHosts(ps, qs) <==> CoverEachOther(ps, qs)
  {
    CoverageIsExact(ps, qs, c);
    CoverageIsExact(qs, ps, c);
    SameHostsSplits(ps, qs);
  }

  lemma SameHostsSplits(ps: seq<Pattern>, qs: seq<Pattern>)
    ensures SameHosts(ps, qs) <==> HitsWithin(ps, qs) && HitsWithin(qs, ps)
  {}

  // Covering is enough, with any characters.
  lemma CoverEachOtherSuffices(tags: (string, string) -> bool, ps: seq<Pattern>, qs: seq<Pattern>, h: string)
    requires CoverEachOther(ps, qs)
    ensures AnyFits(tags, ps, h) <==> AnyFits(tags, qs, h)
  {
    if AnyFits(tags, ps, h) {
      var p :| p in ps && Fits(tags, p, h);
      CoverSuffices(tags, qs, p, h);
    }
    if AnyFits(tags, qs, h) {
      var q :| q in qs && Fits(tags, q, h);
      CoverSuffices(tags, ps, q, h);
    }
  }
}
