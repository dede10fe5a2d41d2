/** The nonce lock file as interleaved steps of any number of acquirers: exclusive create, write, read
    back, unlink. An acquirer is known by the fresh nonce of its attempt. */
module RepoLock {
  import opened Prelude

  /** The file at the lock path: who created it, and whether its metadata has been written yet. */
  datatype LockFile = Unwritten(creator: nat) | Written(creator: nat)

  datatype Step =
    /** Opens the path for exclusive creation. */
    | Create(nonce: nat)
    /** Writes the metadata through the descriptor of the create and returns the handle. */
    | Write(nonce: nat)
    /** A release reads the file and compares the nonce with its own. */
    | ReadBack(nonce: nat)
    /** The release that read its own nonce unlinks the path, whatever is there by now. */
    | Unlink(nonce: nat)

  /** `live`: between a successful create and its unlink; `handles`: returned by an acquire;
      `confirmed`: releases that read their own nonce and have not unlinked yet. */
  datatype Lock = Lock(
    file: Option<LockFile>, used: set<nat>, live: set<nat>, handles: set<nat>, confirmed: multiset<nat>)

  const Unlocked := Lock(None, {}, {}, {}, multiset{})

  function Next(s: Lock, step: Step): Lock {
    match step
    case Create(n) =>
      if n in s.used then s
      else if s.file.Some? then s.(used := s.used + {n})
      else s.(file := Some(Unwritten(n)), used := s.used + {n}, live := s.live + {n})
    case Write(n) =>
      if n !in s.live || n in s.handles then s
      else s.(file := if s.file == Some(Unwritten(n)) then Some(Written(n)) else s.file, handles := s.handles + {n})
    case ReadBack(n) =>
      if n in s.handles && s.file == Some(Written(n)) then s.(confirmed := s.confirmed + multiset{n}) else s
    case Unlink(n) =>
      if s.confirmed[n] == 0 then s
      else if s.file.None? then s.(confirmed := s.confirmed - multiset{n})
      else s.(file := None, live := s.live - {n}, confirmed := s.confirmed - multiset{n})
  }

  function Run(steps: seq<Step>): Lock {
    Fold(Next, Unlocked, steps)
  }

  /** At no moment have two releases of one handle both read their nonce without either having unlinked. */
  ghost predicate NoOverlap(steps: seq<Step>) {
    forall k, n | 0 <= k <= |steps| :: Run(steps[..k]).confirmed[n] <= 1
  }

  /** Whoever is live made the file now at the path, and a confirmed release is live. */
  ghost predicate LockInv(s: Lock) {
    && s.live <= s.used && s.handles <= s.used
    && (forall n | n in s.live :: s.file == Some(if n in s.handles then Written(n) else Unwritten(n)))
    && (s.file.Some? ==> s.file.value.creator in s.live)
    && (forall n | n in s.confirmed :: n in s.live && n in s.handles)
  }

  lemma CreateKeepsInv(s: Lock, n: nat)
    requires LockInv(s)
    ensures LockInv(Next(s, Create(n)))
  {
  }

  lemma WriteKeepsInv(s: Lock, n: nat)
    requires LockInv(s)
    ensures LockInv(Next(s, Write(n)))
  {
  }

  lemma ReadBackKeepsInv(s: Lock, n: nat)
    requires LockInv(s)
    ensures LockInv(Next(s, ReadBack(n)))
  {
  }

  lemma UnlinkKeepsInv(s: Lock, n: nat)
    requires LockInv(s) && s.confirmed[n] <= 1
    ensures LockInv(Next(s, Unlink(n)))
  {
    if s.confirmed[n] == 1 {
      assert n in s.confirmed && forall m | m in s.confirmed :: m == n;
    }
  }

  lemma {:induction false} EveryRunKeepsInv(steps: seq<Step>)
    requires NoOverlap(steps)
    ensures LockInv(Run(steps))
  {
    if steps != [] {
      var before, s := steps[..|steps| - 1], Run(steps[..|steps| - 1]);
      forall k, n | 0 <= k <= |before| ensures Run(before[..k]).confirmed[n] <= 1 {
        assert before[..k] == steps[..k];
      }
      EveryRunKeepsInv(before);
      match steps[|steps| - 1]
      case Create(n) => CreateKeepsInv(s, n);
      case Write(n) => WriteKeepsInv(s, n);
      case ReadBack(n) => ReadBackKeepsInv(s, n);
      case Unlink(n) => UnlinkKeepsInv(s, n);
    }
  }

  /** At most one acquirer at a time is between its create and its unlink, over every interleaving in which
      the releases of a handle do not overlap. */
  lemma LockExcludes(steps: seq<Step>, a: nat, b: nat)
    requires NoOverlap(steps) && a in Run(steps).live && b in Run(steps).live
    ensures a == b
  {
    EveryRunKeepsInv(steps);
  }

  /** And that is what exclusion needs: wherever two releases of a handle overlap, the others can go on so
      that two acquirers are live at once. */
  lemma OverlapBreaksExclusion(steps: seq<Step>, n: nat) returns (more: seq<Step>, a: nat, b: nat)
    requires Run(steps).confirmed[n] >= 2
    ensures a != b && a in Run(steps + more).live && b in Run(steps + more).live
  {
    var s := Run(steps);
    ConfirmedIsUsed(steps);
    a := Fresh(s.used, 0);
    b := Fresh(s.used + {a}, 0);
    if s.file.Some? {
      more := [Unlink(n), Create(a), Unlink(n), Create(b)];
      FoldFour(Next, Unlocked, steps, Unlink(n), Create(a), Unlink(n), Create(b));
      var s1 := Next(s, Unlink(n));
      assert s1.file.None? && s1.confirmed[n] >= 1 && a !in s1.used;
      AdmitsTwo(s1, n, a, b);
    } else {
      more := [Create(a), Unlink(n), Create(b)];
      FoldThree(Next, Unlocked, steps, Create(a), Unlink(n), Create(b));
      AdmitsTwo(s, n, a, b);
    }
  }

  /** With the path free and a release of `n` still to unlink. */
  lemma AdmitsTwo(s: Lock, n: nat, a: nat, b: nat)
    requires s.file.None? && s.confirmed[n] >= 1 && a !in s.used && b !in s.used && a != b
    requires n != a
    ensures var end := Next(Next(Next(s, Create(a)), Unlink(n)), Create(b)); a in end.live && b in end.live
  {
  }

  lemma Fresh(used: set<nat>, from: nat) returns (n: nat)
    ensures n !in used && n >= from
    decreases |used|
  {
    if from in used {
      n := Fresh(used - {from}, from + 1);
    } else {
      n := from;
    }
  }

  /** Whatever the interleaving, only nonces of earlier creates are ever confirmed. */
  lemma {:induction false} ConfirmedIsUsed(steps: seq<Step>)
    ensures var s := Run(steps); s.live <= s.used && s.handles <= s.used && forall n | n in s.confirmed :: n in s.used
  {
    if steps != [] {
      ConfirmedIsUsed(steps[..|steps| - 1]);
    }
  }

  /** The release of a handle reports success exactly while its acquirer is live: the first one finds its
      own nonce, and one that comes after the unlink finds nothing or somebody else's. */
  lemma ReleaseSucceedsIff(steps: seq<Step>, n: nat)
    requires NoOverlap(steps) && n in Run(steps).handles
    ensures Run(steps).file == Some(Written(n)) <==> n in Run(steps).live
  {
    EveryRunKeepsInv(steps);
  }

  /** A live acquirer keeps everyone else out: no create succeeds until it unlinks. */
  lemma HeldLockRefuses(steps: seq<Step>, n: nat, other: nat)
    requires NoOverlap(steps) && n in Run(steps).live && other != n
    ensures other !in Next(Run(steps), Create(other)).live
  {
    EveryRunKeepsInv(steps);
  }

  /** And a free lock is there for the taking: create, write, read back and unlink by a fresh nonce make its
      acquirer live with a handle to its own file, then free the path again. */
  lemma FreeLockIsTaken(steps: seq<Step>, n: nat)
    requires Run(steps).file.None? && n !in Run(steps).used
    ensures var created := Next(Run(steps), Create(n));
            var held := Next(created, Write(n));
            var released := Next(Next(held, ReadBack(n)), Unlink(n));
            && n in created.live
            && held.file == Some(Written(n)) && n in held.live && n in held.handles
            && released.file.None? && n !in released.live
  {
    ConfirmedIsUsed(steps);
  }

  function Acquired(): Lock { Next(Next(Unlocked, Create(1)), Write(1)) }

  function Overlapping(): Lock { Lock(Some(Written(1)), {1}, {1}, {1}, multiset{1, 1}) }

  lemma OverlapStates()
    ensures Next(Next(Acquired(), ReadBack(1)), ReadBack(1)) == Overlapping()
  {
    assert Acquired() == Lock(Some(Written(1)), {1}, {1}, {1}, multiset{});
    assert Next(Acquired(), ReadBack(1)).confirmed == multiset{1};
  }

  lemma BrokenStates()
    ensures Next(Next(Next(Next(Overlapping(), Unlink(1)), Create(2)), Unlink(1)), Create(3)).live == {2, 3}
  {
    var s := Next(Next(Overlapping(), Unlink(1)), Create(2));
    assert s == Lock(Some(Unwritten(2)), {1, 2}, {2}, {1}, multiset{1});
    assert Next(s, Unlink(1)) == Lock(None, {1, 2}, {2}, {1}, multiset{});
  }

  /** Such an overlap is reachable: two releases that both read the nonce before either unlinks. */
  lemma DoubleReleaseBreaksExclusion()
    ensures var steps := [Create(1), Write(1), ReadBack(1), ReadBack(1)];
            Run(steps).confirmed[1] == 2 && Run(steps + [Unlink(1), Create(2), Unlink(1), Create(3)]).live == {2, 3}
  {
    var steps := [Create(1), Write(1), ReadBack(1), ReadBack(1)];
    assert Run(steps) == Overlapping() by {
      FoldFour(Next, Unlocked, [], Create(1), Write(1), ReadBack(1), ReadBack(1));
      assert [] + steps == steps;
      OverlapStates();
    }
    FoldFour(Next, Unlocked, steps, Unlink(1), Create(2), Unlink(1), Create(3));
    BrokenStates();
  }
}
