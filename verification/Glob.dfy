/** Glob matching of repository paths: `*` and `?` inside a segment, `**` across segments. */
module Glob {
  import opened Prelude

  // ---------------------------------------------------------------------------
  // What a segment pattern means
  // ---------------------------------------------------------------------------

  /** `?` stands for any one character, `*` for any number of them, anything else for itself. */
  ghost predicate Means(p: string, s: string)
    decreases |p|, |s|
  {
    if p == [] then s == []
    else if p[0] == '*' then Means(p[1..], s) || (s != [] && Means(p, s[1..]))
    else s != [] && (p[0] == '?' || p[0] == s[0]) && Means(p[1..], s[1..])
  }

  /** A star leaves any suffix of the text to the rest of the pattern. */
  lemma {:induction false} StarMeans(p: string, s: string)
    requires p != [] && p[0] == '*'
    ensures Means(p, s) <==> exists k | 0 <= k <= |s| :: Means(p[1..], s[k..])
    decreases |s|
  {
    assert s[0..] == s;
    if s != [] {
      StarMeans(p, s[1..]);
      assert forall k | 0 <= k <= |s| - 1 :: s[1..][k..] == s[k + 1..];
      if k :| 0 <= k <= |s| && Means(p[1..], s[k..]) {
        if k > 0 {
          assert s[1..][k - 1..] == s[k..];
        }
      }
    }
  }

  /** What a star can match, it can match with more text in front. */
  lemma {:induction false} StarAbsorbs(p: string, s: string, start: nat, end: nat)
    requires p != [] && p[0] == '*' && start <= end <= |s|
    requires Means(p, s[end..])
    ensures Means(p, s[start..])
    decreases |s| - start
  {
    if start < end {
      StarAbsorbs(p, s, start + 1, end);
      assert s[start..][1..] == s[start + 1..];
    }
  }

  /** `q` lies over the beginning of `s`, each of its characters equal to the one below or a `?`. */
  ghost predicate Lies(q: string, s: string) {
    |q| <= |s| && forall i | 0 <= i < |q| :: q[i] == '?' || q[i] == s[i]
  }

  /** A stretch that lies over the text can match it, even if it contains stars over stars. */
  lemma {:induction false} LyingMatches(q: string, rest: string, s: string)
    requires Lies(q, s) && Means(rest, s[|q|..])
    ensures Means(q + rest, s)
    decreases |q|
  {
    if q == [] {
      assert q + rest == rest && s[0..] == s;
    } else {
      assert (q + rest)[1..] == q[1..] + rest;
      assert s[1..][|q| - 1..] == s[|q|..];
      LyingMatches(q[1..], rest, s[1..]);
      if q[0] == '*' {
        StarTakesOne(q + rest, s);
      }
    }
  }

  lemma StarTakesOne(p: string, s: string)
    requires p != [] && s != [] && p[0] == '*' && Means(p[1..], s[1..])
    ensures Means(p, s)
  {
    assert Means(p, s[1..]);
  }

  /** A stretch without stars leaves exactly the text after it to the rest of the pattern. */
  lemma {:induction false} LiteralMeans(q: string, rest: string, s: string)
    requires '*' !in q && Means(q + rest, s)
    ensures |q| <= |s| && Means(rest, s[|q|..])
    decreases |q|
  {
    if q == [] {
      assert q + rest == rest && s[0..] == s;
    } else {
      assert (q + rest)[1..] == q[1..] + rest;
      LiteralMeans(q[1..], rest, s[1..]);
      assert s[1..][|q| - 1..] == s[|q|..];
    }
  }

  // ---------------------------------------------------------------------------
  // Matching one segment
  // ---------------------------------------------------------------------------

  predicate AllStars(p: string) {
    forall c | c in p :: c == '*'
  }

  /** The state of the match: positions in pattern and text, and the last star with the text position
      it gives up next; -1 before any star. */
  datatype Cursor = Cursor(pi: nat, si: nat, starPi: int, starSi: int)

  predicate InBounds(p: string, s: string, c: Cursor) {
    c.pi <= |p| && c.si <= |s| && -1 <= c.starPi < c.pi + 1 && (c.starPi >= 0 ==> c.starPi < c.pi)
    && -1 <= c.starSi <= c.si && (c.starPi >= 0 ==> c.starSi >= 0)
  }

  /** One round of the matching loop; None when it gives up. A literal match is tried before a star. */
  function Advance(p: string, s: string, c: Cursor): (r: Option<Cursor>)
    requires InBounds(p, s, c) && c.si < |s|
    ensures r.Some? ==> InBounds(p, s, r.value)
    ensures r.Some? ==>
              r.value.starSi > c.starSi || (r.value.starSi == c.starSi && r.value.pi > c.pi)
  {
    if c.pi < |p| && (p[c.pi] == '?' || p[c.pi] == s[c.si]) then Some(c.(pi := c.pi + 1, si := c.si + 1))
    else if c.pi < |p| && p[c.pi] == '*' then Some(Cursor(c.pi + 1, c.si, c.pi, c.si))
    else if c.starPi >= 0 then Some(Cursor(c.starPi + 1, c.starSi + 1, c.starPi, c.starSi + 1))
    else None
  }

  function Greedy(p: string, s: string, c: Cursor): bool
    requires InBounds(p, s, c)
    decreases |s| - c.starSi, |p| - c.pi
  {
    if c.si == |s| then AllStars(p[c.pi..])
    else
      match Advance(p, s, c)
      case None => false
      case Some(next) => Greedy(p, s, next)
  }

  /** The result of the program's segmentMatch. */
  function Matches(p: string, s: string): bool {
    Greedy(p, s, Cursor(0, 0, -1, -1))
  }

  // ---------------------------------------------------------------------------
  // Why it is right
  // ---------------------------------------------------------------------------

  /** Since the last star (or the start) the pattern has lain over the text. */
  ghost predicate Tracking(p: string, s: string, c: Cursor) {
    && InBounds(p, s, c)
    && (if c.starPi < 0 then c.pi == c.si && Lies(p[..c.pi], s)
        else
          && p[c.starPi] == '*' && c.si - c.starSi == c.pi - (c.starPi + 1)
          && Lies(p[c.starPi + 1..c.pi], s[c.starSi..]))
  }

  /** What is still open: the attempt from here, or anything the last star can do. */
  ghost predicate StillOpen(p: string, s: string, c: Cursor)
    requires InBounds(p, s, c)
  {
    if c.starPi < 0 then Means(p[c.pi..], s[c.si..]) else Means(p[c.starPi..], s[c.starSi..])
  }

  /** Nothing impossible is open; and on text without stars, nothing possible has been closed. */
  ghost predicate Faithful(p: string, s: string, c: Cursor)
    requires InBounds(p, s, c)
  {
    (StillOpen(p, s, c) ==> Means(p, s)) && ('*' !in s ==> (Means(p, s) ==> StillOpen(p, s, c)))
  }

  lemma {:induction false} StarsMeanAnything(p: string)
    ensures Means(p, []) <==> AllStars(p)
  {
    if p != [] {
      StarsMeanAnything(p[1..]);
      assert p[0] in p && forall c | c in p[1..] :: c in p;
      assert forall c | c in p :: c == p[0] || c in p[1..];
    }
  }

  /** The current attempt is open. */
  lemma AttemptIsOpen(p: string, s: string, c: Cursor)
    requires Tracking(p, s, c) && Means(p[c.pi..], s[c.si..])
    ensures StillOpen(p, s, c)
  {
    if c.starPi >= 0 {
      var q := p[c.starPi + 1..c.pi];
      assert s[c.starSi..][|q|..] == s[c.si..];
      LyingMatches(q, p[c.pi..], s[c.starSi..]);
      assert p[c.starPi..][1..] == q + p[c.pi..];
    }
  }

  /** On text without stars the stretch since the last star has none either. */
  lemma NoStarUnderfoot(p: string, s: string, c: Cursor)
    requires Tracking(p, s, c) && c.starPi >= 0 && '*' !in s
    ensures '*' !in p[c.starPi + 1..c.pi]
  {
    var q := p[c.starPi + 1..c.pi];
    assert forall i | 0 <= i < |q| :: s[c.starSi..][i] in s;
  }

  /** A literal step keeps everything open. */
  lemma LiteralStep(p: string, s: string, c: Cursor)
    requires Tracking(p, s, c) && Faithful(p, s, c)
    requires c.si < |s| && c.pi < |p| && (p[c.pi] == '?' || p[c.pi] == s[c.si])
    ensures var next := c.(pi := c.pi + 1, si := c.si + 1); Tracking(p, s, next) && Faithful(p, s, next)
  {
    if c.starPi < 0 {
      assert p[..c.pi + 1] == p[..c.pi] + [p[c.pi]];
      assert p[c.pi..][1..] == p[c.pi + 1..] && s[c.si..][1..] == s[c.si + 1..];
      assert s[c.si] in s;
      if Means(p[c.pi + 1..], s[c.si + 1..]) && p[c.pi] == '*' {
        StarTakesOne(p[c.pi..], s[c.si..]);
      }
    } else {
      assert p[c.starPi + 1..c.pi + 1] == p[c.starPi + 1..c.pi] + [p[c.pi]];
    }
  }

  /** Entering a star: whatever an earlier star could still do, this one can do too. */
  lemma StarStep(p: string, s: string, c: Cursor)
    requires Tracking(p, s, c) && Faithful(p, s, c)
    requires c.pi < |p| && p[c.pi] == '*'
    ensures var next := Cursor(c.pi + 1, c.si, c.pi, c.si); Tracking(p, s, next) && Faithful(p, s, next)
  {
    if Means(p[c.pi..], s[c.si..]) {
      AttemptIsOpen(p, s, c);
    }
    if '*' !in s && Means(p, s) && c.starPi >= 0 {
      assert p[c.starPi..][1..] == p[c.starPi + 1..];
      StarMeans(p[c.starPi..], s[c.starSi..]);
      var k :| 0 <= k <= |s[c.starSi..]| && Means(p[c.starPi + 1..], s[c.starSi..][k..]);
      EarlierStarYields(p, s, c, k);
    }
  }

  lemma EarlierStarYields(p: string, s: string, c: Cursor, k: nat)
    requires Tracking(p, s, c) && c.starPi >= 0 && '*' !in s
    requires c.pi < |p| && p[c.pi] == '*'
    requires k <= |s[c.starSi..]| && Means(p[c.starPi + 1..], s[c.starSi..][k..])
    ensures Means(p[c.pi..], s[c.si..])
  {
    var q, rest := p[c.starPi + 1..c.pi], p[c.pi..];
    assert p[c.starPi + 1..] == q + rest;
    assert s[c.starSi..][k..] == s[c.starSi + k..];
    NoStarUnderfoot(p, s, c);
    LiteralMeans(q, rest, s[c.starSi + k..]);
    assert s[c.starSi + k..][|q|..] == s[c.si + k..];
    StarAbsorbs(rest, s, c.si, c.si + k);
  }

  /** A mismatch below a star: that star takes one more character. */
  lemma BacktrackStep(p: string, s: string, c: Cursor)
    requires Tracking(p, s, c) && Faithful(p, s, c)
    requires c.si < |s| && c.starPi >= 0
    requires c.pi == |p| || (p[c.pi] != '?' && p[c.pi] != s[c.si] && p[c.pi] != '*')
    ensures var next := Cursor(c.starPi + 1, c.starSi + 1, c.starPi, c.starSi + 1);
            Tracking(p, s, next) && Faithful(p, s, next)
  {
    assert s[c.starSi..][1..] == s[c.starSi + 1..];
    if '*' !in s && Means(p, s) {
      var q, rest := p[c.starPi + 1..c.pi], p[c.pi..];
      assert p[c.starPi..][1..] == q + rest;
      if Means(q + rest, s[c.starSi..]) {
        NoStarUnderfoot(p, s, c);
        LiteralMeans(q, rest, s[c.starSi..]);
        assert false;
      }
    }
  }

  lemma AdvanceIsFaithful(p: string, s: string, c: Cursor)
    requires Tracking(p, s, c) && Faithful(p, s, c) && c.si < |s| && Advance(p, s, c).Some?
    ensures Tracking(p, s, Advance(p, s, c).value) && Faithful(p, s, Advance(p, s, c).value)
  {
    if c.pi < |p| && (p[c.pi] == '?' || p[c.pi] == s[c.si]) {
      LiteralStep(p, s, c);
    } else if c.pi < |p| && p[c.pi] == '*' {
      StarStep(p, s, c);
    } else {
      BacktrackStep(p, s, c);
    }
  }

  lemma GiveUp(p: string, s: string, c: Cursor)
    requires InBounds(p, s, c) && Faithful(p, s, c) && c.si < |s| && Advance(p, s, c).None?
    ensures '*' !in s ==> !Means(p, s)
  {
    assert s[c.si..][0] == s[c.si];
    if c.pi < |p| {
      assert p[c.pi..][0] == p[c.pi];
    }
  }

  lemma EndIsFaithful(p: string, s: string, c: Cursor)
    requires Tracking(p, s, c) && Faithful(p, s, c) && c.si == |s|
    ensures AllStars(p[c.pi..]) ==> Means(p, s)
    ensures '*' !in s && Means(p, s) ==> AllStars(p[c.pi..])
  {
    assert s[c.si..] == [];
    StarsMeanAnything(p[c.pi..]);
    if Means(p[c.pi..], s[c.si..]) {
      AttemptIsOpen(p, s, c);
    }
    if '*' !in s && Means(p, s) && c.starPi >= 0 {
      LastStarIsSpent(p, s, c);
    }
  }

  lemma {:induction false} GreedyIsFaithful(p: string, s: string, c: Cursor)
    requires Tracking(p, s, c) && Faithful(p, s, c)
    ensures Greedy(p, s, c) ==> Means(p, s)
    ensures '*' !in s ==> (Greedy(p, s, c) <==> Means(p, s))
    decreases |s| - c.starSi, |p| - c.pi
  {
    if c.si == |s| {
      EndIsFaithful(p, s, c);
    } else {
      var next := Advance(p, s, c);
      if next.Some? {
        AdvanceIsFaithful(p, s, c);
        GreedyIsFaithful(p, s, next.value);
      } else {
        GiveUp(p, s, c);
      }
    }
  }

  /** At the end of the text the last star can do no more than the current attempt. */
  lemma LastStarIsSpent(p: string, s: string, c: Cursor)
    requires Tracking(p, s, c) && c.starPi >= 0 && '*' !in s && c.si == |s|
    requires Means(p[c.starPi..], s[c.starSi..])
    ensures Means(p[c.pi..], s[c.si..])
  {
    assert p[c.starPi..][1..] == p[c.starPi + 1..];
    StarMeans(p[c.starPi..], s[c.starSi..]);
    var k :| 0 <= k <= |s[c.starSi..]| && Means(p[c.starPi + 1..], s[c.starSi..][k..]);
    var q, rest := p[c.starPi + 1..c.pi], p[c.pi..];
    assert p[c.starPi + 1..] == q + rest;
    NoStarUnderfoot(p, s, c);
    LiteralMeans(q, rest, s[c.starSi..][k..]);
    assert k == 0;
    assert s[c.starSi..][0..] == s[c.starSi..];
    assert s[c.starSi..][|q|..] == s[c.si..];
  }

  /** A reported match is always one the pattern means. */
  lemma MatchesSound(p: string, s: string)
    ensures Matches(p, s) ==> Means(p, s)
    ensures '*' !in s ==> (Matches(p, s) <==> Means(p, s))
  {
    assert p[0..] == p && s[0..] == s && p[..0] == [];
    GreedyIsFaithful(p, s, Cursor(0, 0, -1, -1));
  }

  // ---------------------------------------------------------------------------
  // Exactly when it is exact
  // ---------------------------------------------------------------------------

  function Repeat(c: char, n: nat): string {
    seq(n, _ => c)
  }

  /** A pattern that means the segment but is not matched, for a segment with a star at position `i`. */
  function Blind(s: string, i: nat): string
    requires i < |s|
  {
    Repeat('?', i) + "*" + Repeat('?', |s| - i)
  }

  lemma {:induction false} QuestionsMean(n: nat, rest: string, s: string)
    requires n <= |s| && Means(rest, s[n..])
    ensures Means(Repeat('?', n) + rest, s)
  {
    assert Lies(Repeat('?', n), s);
    LyingMatches(Repeat('?', n), rest, s);
  }

  lemma BlindMeans(s: string, i: nat)
    requires i < |s|
    ensures Means(Blind(s, i), s)
  {
    var tail := Repeat('?', |s| - i);
    assert s[i..][|s| - i..] == [];
    QuestionsMean(|s| - i, [], s[i..]);
    assert tail + [] == tail;
    assert ("*" + tail)[1..] == tail;
    assert Means("*" + tail, s[i..]);
    QuestionsMean(i, "*" + tail, s);
    assert Repeat('?', i) + ("*" + tail) == Blind(s, i);
  }

  /** Lying over the text from here on, the match never looks back. */
  lemma {:induction false} GreedyWalks(p: string, s: string, k: nat)
    requires k <= |s| < |p| && Lies(p[..|s|], s) && !AllStars(p[|s|..])
    ensures !Greedy(p, s, Cursor(k, k, -1, -1))
    decreases |s| - k
  {
    if k < |s| {
      assert p[..|s|][k] == p[k];
      GreedyWalks(p, s, k + 1);
    }
  }

  lemma BlindFails(s: string, i: nat)
    requires i < |s| && s[i] == '*'
    ensures !Matches(Blind(s, i), s)
  {
    var p := Blind(s, i);
    assert p[|s|] == '?' && p[|s|..][0] == '?' && p[|s|..][0] in p[|s|..];
    assert forall j | 0 <= j < |s| :: p[..|s|][j] == if j == i then '*' else '?';
    GreedyWalks(p, s, 0);
  }

  /** The matcher agrees with the meaning on every pattern exactly for the segments without a star. */
  lemma MatchesExactIff(s: string)
    ensures (forall p :: Matches(p, s) <==> Means(p, s)) <==> '*' !in s
  {
    if '*' in s {
      var i :| 0 <= i < |s| && s[i] == '*';
      BlindMeans(s, i);
      BlindFails(s, i);
    } else {
      forall p ensures Matches(p, s) <==> Means(p, s) {
        MatchesSound(p, s);
      }
    }
  }

  method SegmentMatch(pattern: string, segment: string) returns (matches: bool)
    ensures matches == Matches(pattern, segment)
    ensures matches ==> Means(pattern, segment)
    ensures '*' !in segment ==> (matches <==> Means(pattern, segment))
  {
    MatchesSound(pattern, segment);
    var pi, si, starPi, starSi := 0, 0, -1, -1;
    while si < |segment|
      invariant 0 <= pi && 0 <= si && InBounds(pattern, segment, Cursor(pi, si, starPi, starSi))
      invariant Matches(pattern, segment) == Greedy(pattern, segment, Cursor(pi, si, starPi, starSi))
      decreases |segment| - starSi, |pattern| - pi
    {
      if pi < |pattern| && (pattern[pi] == '?' || pattern[pi] == segment[si]) {
        pi, si := pi + 1, si + 1;
      } else if pi < |pattern| && pattern[pi] == '*' {
        starPi, starSi := pi, si;
        pi := pi + 1;
      } else if starPi >= 0 {
        pi := starPi + 1;
        starSi := starSi + 1;
        si := starSi;
      } else {
        return false;
      }
    }
    ghost var rest := pi;
    while pi < |pattern| && pattern[pi] == '*'
      invariant rest <= pi <= |pattern|
      invariant AllStars(pattern[rest..pi])
    {
      assert pattern[rest..pi + 1] == pattern[rest..pi] + ['*'];
      pi := pi + 1;
    }
    if pi < |pattern| {
      assert pattern[rest..][pi - rest] == pattern[pi];
      assert pattern[pi] in pattern[rest..];
    } else {
      assert pattern[rest..pi] == pattern[rest..];
    }
    return pi == |pattern|;
  }

  // ---------------------------------------------------------------------------
  // Whole paths
  // ---------------------------------------------------------------------------

  /** `**` stands for any number of whole segments; every other part means exactly one. */
  ghost predicate PathMeans(g: seq<string>, p: seq<string>)
    decreases |g|
  {
    if g == [] then p == []
    else if g[0] == "**" then exists n | 0 <= n <= |p| :: PathMeans(g[1..], p[n..])
    else p != [] && Means(g[0], p[0]) && PathMeans(g[1..], p[1..])
  }

  /** The same with the segment matcher of the program in place of the meaning. */
  ghost predicate PathMatches(g: seq<string>, p: seq<string>)
    decreases |g|
  {
    if g == [] then p == []
    else if g[0] == "**" then exists n | 0 <= n <= |p| :: PathMatches(g[1..], p[n..])
    else p != [] && Matches(g[0], p[0]) && PathMatches(g[1..], p[1..])
  }

  lemma DoubleStarSteps(g: seq<string>, p: seq<string>)
    requires g != [] && g[0] == "**"
    ensures p == [] ==> (PathMatches(g, p) <==> PathMatches(g[1..], p))
    ensures p != [] ==> (PathMatches(g, p) <==> PathMatches(g[1..], p) || PathMatches(g, p[1..]))
  {
    assert p[0..] == p;
    if p != [] {
      assert forall n | 0 <= n <= |p| - 1 :: p[1..][n..] == p[n + 1..];
      if n :| 0 <= n <= |p| && PathMatches(g[1..], p[n..]) {
        if n > 0 {
          assert p[1..][n - 1..] == p[n..];
        }
      }
    }
  }

  lemma DoubleStarAt(g: seq<string>, p: seq<string>, gi: nat, pi: nat)
    requires gi < |g| && pi <= |p| && g[gi] == "**"
    ensures pi == |p| ==> (PathMatches(g[gi..], p[pi..]) <==> PathMatches(g[gi + 1..], p[pi..]))
    ensures pi < |p| ==>
              (PathMatches(g[gi..], p[pi..]) <==> PathMatches(g[gi + 1..], p[pi..]) || PathMatches(g[gi..], p[pi + 1..]))
  {
    DoubleStarSteps(g[gi..], p[pi..]);
    assert g[gi..][1..] == g[gi + 1..];
    if pi < |p| {
      assert p[pi..][1..] == p[pi + 1..];
    }
  }

  lemma SegmentAt(g: seq<string>, p: seq<string>, gi: nat, pi: nat)
    requires gi < |g| && pi <= |p| && g[gi] != "**"
    ensures pi == |p| ==> !PathMatches(g[gi..], p[pi..])
    ensures pi < |p| ==>
              (PathMatches(g[gi..], p[pi..]) <==> Matches(g[gi], p[pi]) && PathMatches(g[gi + 1..], p[pi + 1..]))
  {
    assert g[gi..][0] == g[gi] && g[gi..][1..] == g[gi + 1..];
    if pi < |p| {
      assert p[pi..][0] == p[pi] && p[pi..][1..] == p[pi + 1..];
    }
  }

  method GlobMatch(g: seq<string>, p: seq<string>, startGi: nat, startPi: nat) returns (matches: bool)
    requires startGi <= |g| && startPi <= |p|
    ensures matches <==> PathMatches(g[startGi..], p[startPi..])
    decreases |g| - startGi + |p| - startPi
  {
    var gi, pi := startGi, startPi;
    while gi < |g| && pi < |p|
      invariant startGi <= gi <= |g| && startPi <= pi <= |p|
      invariant PathMatches(g[startGi..], p[startPi..]) <==> PathMatches(g[gi..], p[pi..])
    {
      if g[gi] == "**" {
        DoubleStarAt(g, p, gi, pi);
        matches := GlobMatch(g, p, gi + 1, pi);
        if matches {
          return;
        }
        matches := GlobMatch(g, p, gi, pi + 1);
        return;
      }
      SegmentAt(g, p, gi, pi);
      var one := SegmentMatch(g[gi], p[pi]);
      if !one {
        return false;
      }
      gi, pi := gi + 1, pi + 1;
    }
    matches := OnlyDoubleStars(g, p, gi, pi);
  }

  /** Once either list is used up, only double stars may be left over. */
  method OnlyDoubleStars(g: seq<string>, p: seq<string>, startGi: nat, pi: nat) returns (matches: bool)
    requires startGi <= |g| && pi <= |p| && (startGi == |g| || pi == |p|)
    ensures matches <==> PathMatches(g[startGi..], p[pi..])
  {
    var gi := startGi;
    while gi < |g| && g[gi] == "**"
      invariant startGi <= gi <= |g|
      invariant PathMatches(g[startGi..], p[pi..]) <==> PathMatches(g[gi..], p[pi..])
    {
      DoubleStarAt(g, p, gi, pi);
      gi := gi + 1;
    }
    if gi < |g| {
      SegmentAt(g, p, gi, pi);
    }
    return gi == |g| && pi == |p|;
  }

  // ---------------------------------------------------------------------------
  // Paths as strings
  // ---------------------------------------------------------------------------

  function Normalize(path: string): string {
    Map(path, (c: char) => if c == '\\' then '/' else c)
  }

  /** Backslashes separate as slashes do; nothing else changes. */
  lemma NormalizeIs(path: string, i: nat)
    requires i < |path|
    ensures |Normalize(path)| == |path| && Normalize(path)[i] == (if path[i] == '\\' then '/' else path[i])
  {
  }

  function Join(parts: seq<string>): string {
    if parts == [] then [] else if |parts| == 1 then parts[0] else parts[0] + "/" + Join(parts[1..])
  }

  /** Splits at every slash: joining the parts gives the path back, and no part contains a slash. */
  function Split(path: string): (parts: seq<string>)
    ensures parts != [] && Join(parts) == path
    ensures forall part | part in parts :: '/' !in part
  {
    if path == [] then [[]]
    else
      var rest := Split(path[1..]);
      if path[0] == '/' then
        assert path == [] + "/" + path[1..];
        [[]] + rest
      else
        var parts := [[path[0]] + rest[0]] + rest[1..];
        assert Join(parts) == [path[0]] + Join(rest);
        parts
  }

  /** Across whole paths the segment matcher loses nothing but stars in the path. */
  lemma {:induction false} PathMatchesSound(g: seq<string>, p: seq<string>)
    ensures PathMatches(g, p) ==> PathMeans(g, p)
    ensures (forall part | part in p :: '*' !in part) ==> (PathMatches(g, p) <==> PathMeans(g, p))
    decreases |g|
  {
    if g != [] {
      if g[0] == "**" {
        forall n | 0 <= n <= |p|
          ensures PathMatches(g[1..], p[n..]) ==> PathMeans(g[1..], p[n..])
          ensures (forall part | part in p :: '*' !in part) ==>
                    (PathMatches(g[1..], p[n..]) <==> PathMeans(g[1..], p[n..]))
        {
          PathMatchesSound(g[1..], p[n..]);
        }
      } else if p != [] {
        MatchesSound(g[0], p[0]);
        PathMatchesSound(g[1..], p[1..]);
      }
    }
  }

  function StarAt(s: string): (i: nat)
    ensures '*' in s ==> i < |s| && s[i] == '*'
  {
    if s == [] || s[0] == '*' then 0 else 1 + StarAt(s[1..])
  }

  /** A pattern that means the segment but, if the segment has a star, is not matched by it. */
  function BlindSegment(s: string): string {
    if '*' in s then Blind(s, StarAt(s)) else Repeat('?', |s|)
  }

  lemma BlindSegmentMeans(s: string)
    ensures Means(BlindSegment(s), s) && BlindSegment(s) != "**"
    ensures '*' in s ==> !Matches(BlindSegment(s), s)
  {
    if '*' in s {
      BlindMeans(s, StarAt(s));
      BlindFails(s, StarAt(s));
      assert BlindSegment(s)[|s|] == '?';
    } else {
      assert s[|s|..] == [] && Repeat('?', |s|) + [] == Repeat('?', |s|);
      QuestionsMean(|s|, [], s);
      if s != [] {
        assert Repeat('?', |s|)[0] == '?';
      }
    }
  }

  lemma {:induction false} BlindPathMeans(p: seq<string>)
    ensures PathMeans(Map(p, BlindSegment), p)
    ensures (exists part | part in p :: '*' in part) ==> !PathMatches(Map(p, BlindSegment), p)
  {
    if p != [] {
      var g := Map(p, BlindSegment);
      BlindSegmentMeans(p[0]);
      BlindPathMeans(p[1..]);
      assert g[1..] == Map(p[1..], BlindSegment);
      assert p == [p[0]] + p[1..];
    }
  }

  /** The path matcher agrees with the meaning on every glob exactly for the paths without a star. */
  lemma PathMatchesExactIff(p: seq<string>)
    ensures (forall g :: PathMatches(g, p) <==> PathMeans(g, p)) <==> forall part | part in p :: '*' !in part
  {
    if forall part | part in p :: '*' !in part {
      forall g ensures PathMatches(g, p) <==> PathMeans(g, p) {
        PathMatchesSound(g, p);
      }
    } else {
      BlindPathMeans(p);
    }
  }

  lemma {:induction false} NoStarInParts(parts: seq<string>)
    requires '*' !in Join(parts)
    ensures forall part | part in parts :: '*' !in part
  {
    if |parts| > 1 {
      assert Join(parts) == parts[0] + "/" + Join(parts[1..]);
      NoStarInParts(parts[1..]);
    }
  }

  /** The whole matcher: a match is always meant, and on paths without a star it is exact. */
  method MatchGlob(glob: string, path: string) returns (matches: bool)
    ensures var g, p := Split(Normalize(glob)), Split(Normalize(path));
            && (matches <==> PathMatches(g, p))
            && (matches ==> PathMeans(g, p))
            && ('*' !in path ==> (matches <==> PathMeans(g, p)))
  {
    var g, p := Split(Normalize(glob)), Split(Normalize(path));
    matches := GlobMatch(g, p, 0, 0);
    assert g[0..] == g && p[0..] == p;
    PathMatchesSound(g, p);
    if '*' !in path {
      assert forall i | 0 <= i < |path| :: path[i] in path;
      NoStarInParts(p);
    }
  }
}
