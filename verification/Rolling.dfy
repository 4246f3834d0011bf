/** The theory behind a rolling window: keep what is recent relative to the newest item seen. */
module Rolling {
  import opened Common

  /** An item with the time it was emitted at. */
  datatype Stamped<T> = Stamped(emittedAt: int, item: T)

  /** The elements of `s` no older than `cutoff`, in order. */
  function Recent<T>(s: seq<Stamped<T>>, cutoff: int): (r: seq<Stamped<T>>)
    ensures |r| <= |s|
  {
    if s == [] then []
    else if s[|s| - 1].emittedAt >= cutoff then Recent(s[..|s| - 1], cutoff) + [s[|s| - 1]]
    else Recent(s[..|s| - 1], cutoff)
  }

  /** The greatest time in `s`, but never less than zero. */
  function Newest<T>(s: seq<Stamped<T>>): int {
    if s == [] then 0 else Max(Newest(s[..|s| - 1]), s[|s| - 1].emittedAt)
  }

  lemma RecentStep<T>(s: seq<Stamped<T>>, x: Stamped<T>, cutoff: int)
    ensures Recent(s + [x], cutoff) ==
            if x.emittedAt >= cutoff then Recent(s, cutoff) + [x] else Recent(s, cutoff)
  {
    assert (s + [x])[..|s + [x]| - 1] == s;
  }

  lemma {:induction false} RecentMembers<T>(s: seq<Stamped<T>>, cutoff: int)
    ensures forall x :: x in Recent(s, cutoff) <==> x in s && x.emittedAt >= cutoff
  {
    if s != [] {
      RecentMembers(s[..|s| - 1], cutoff);
      assert s == s[..|s| - 1] + [s[|s| - 1]];
    }
  }

  /** Keeping what is recent at an earlier cutoff first makes no difference. */
  lemma {:induction false} RecentLater<T>(s: seq<Stamped<T>>, early: int, late: int)
    requires early <= late
    ensures Recent(Recent(s, early), late) == Recent(s, late)
  {
    if s != [] {
      var x, rest := s[|s| - 1], s[..|s| - 1];
      RecentLater(rest, early, late);
      if x.emittedAt >= early {
        RecentStep(Recent(rest, early), x, late);
      }
    }
  }

  /** Appending to what was recent, then moving the cutoff forward, is moving it over everything. */
  lemma RecentAppend<T>(s: seq<Stamped<T>>, x: Stamped<T>, early: int, late: int)
    requires early <= late
    ensures Recent(Recent(s, early) + [x], late) == Recent(s + [x], late)
  {
    RecentStep(Recent(s, early), x, late);
    RecentLater(s, early, late);
    RecentStep(s, x, late);
  }

  lemma {:induction false} RecentDistinct<T>(s: seq<Stamped<T>>, cutoff: int)
    requires Distinct(s)
    ensures Distinct(Recent(s, cutoff))
  {
    if s != [] {
      RecentDistinct(s[..|s| - 1], cutoff);
      RecentMembers(s[..|s| - 1], cutoff);
    }
  }

  /** Writing `x` at the write index `n` extends what is kept and leaves the unread rest alone. */
  lemma WriteBehind<T>(s: seq<T>, n: nat, i: nat, x: T)
    requires n <= i < |s|
    ensures s[n := x][..n + 1] == s[..n] + [x] && s[n := x][i + 1..] == s[i..][1..]
    ensures s[i + 1..] == s[i..][1..]
  {
  }

  /** Nothing is newer than the newest, which is zero or the time of some element. */
  lemma {:induction false} NewestBounds<T>(s: seq<Stamped<T>>)
    ensures Newest(s) >= 0
    ensures forall x :: x in s ==> x.emittedAt <= Newest(s)
    ensures Newest(s) == 0 || exists x :: x in s && x.emittedAt == Newest(s)
  {
    if s != [] {
      var x, rest := s[|s| - 1], s[..|s| - 1];
      NewestBounds(rest);
      assert s == rest + [x];
      assert x in s && forall y :: y in rest ==> y in s;
    }
  }

  lemma NewestOfSameElements<T>(s: seq<Stamped<T>>, t: seq<Stamped<T>>)
    requires forall x :: x in s <==> x in t
    ensures Newest(s) == Newest(t)
  {
    NewestBounds(s);
    NewestBounds(t);
  }

  /** A duplicate-free sequence is as long as its set of elements is large. */
  lemma {:induction false} DistinctLength<T>(s: seq<T>)
    requires Distinct(s)
    ensures |s| == |set x | x in s|
  {
    if s != [] {
      var x, rest := s[|s| - 1], s[..|s| - 1];
      DistinctLength(rest);
      assert s == rest + [x];
      assert (set y | y in s) == (set y | y in rest) + {x};
    }
  }
}
