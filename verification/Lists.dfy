/** Order-preserving selection from a sequence, by position and by membership. */
module Lists {

  function Min(a: int, b: int): int { if a < b then a else b }

  function Max(a: int, b: int): int { if a < b then b else a }

  /** The elements of `s` at the positions in `keep`, in order. */
  function Pick<T>(s: seq<T>, keep: set<nat>): (r: seq<T>)
    ensures |r| <= |s|
  {
    if s == [] then []
    else
      var n := |s| - 1;
      Pick(s[..n], keep) + (if n in keep then [s[n]] else [])
  }

  /** The elements of `s` that are in `keep`, in order. */
  function FilterIn<T(==)>(s: seq<T>, keep: set<T>): (r: seq<T>)
    ensures |r| <= |s|
  {
    if s == [] then []
    else
      var n := |s| - 1;
      FilterIn(s[..n], keep) + (if s[n] in keep then [s[n]] else [])
  }

  lemma {:induction false} FilterIsPick<T>(s: seq<T>, members: set<T>, keep: set<nat>)
    requires forall i: nat :: i < |s| ==> (s[i] in members <==> i in keep)
    ensures FilterIn(s, members) == Pick(s, keep)
  {
    if s != [] {
      var t := s[..|s| - 1];
      assert forall i: nat :: i < |t| ==> t[i] == s[i];
      FilterIsPick(t, members, keep);
    }
  }

  lemma {:induction false} PickAll<T>(s: seq<T>, keep: set<nat>)
    requires forall i: nat :: i < |s| ==> i in keep
    ensures Pick(s, keep) == s
  {
    if s != [] {
      PickAll(s[..|s| - 1], keep);
    }
  }

  /** Where everything from `start` on is kept, selection only acts in front of `start`. */
  lemma {:induction false} PickSplit<T>(s: seq<T>, keep: set<nat>, start: nat)
    requires start <= |s|
    requires forall i: nat :: start <= i < |s| ==> i in keep
    ensures Pick(s, keep) == Pick(s[..start], keep) + s[start..]
  {
    if start == |s| {
      assert s[..start] == s;
    } else {
      var t := s[..|s| - 1];
      PickSplit(t, keep, start);
      assert t[..start] == s[..start];
      assert s[start..] == t[start..] + [s[|s| - 1]];
    }
  }

  /** Membership in a selection, both ways. */
  lemma {:induction false} PickMembers<T>(s: seq<T>, keep: set<nat>, x: T)
    ensures x in Pick(s, keep) <==> exists i: nat :: i < |s| && i in keep && s[i] == x
  {
    if s != [] {
      var n: nat := |s| - 1;
      var t := s[..n];
      PickMembers(t, keep, x);
      assert forall i: nat :: i < |t| ==> t[i] == s[i];
      if x in Pick(s, keep) {
        if x in Pick(t, keep) {
          var i: nat :| i < |t| && i in keep && t[i] == x;
          assert i < |s| && i in keep && s[i] == x;
        } else {
          assert n < |s| && n in keep && s[n] == x;
        }
      }
      if i: nat :| i < |s| && i in keep && s[i] == x {
        if i < n {
          assert t[i] == x;
        }
      }
    }
  }

  /** A selection that keeps a prefix whole starts with that prefix. */
  lemma {:induction false} PickKeepsPrefix<T>(s: seq<T>, keep: set<nat>, n: nat)
    requires n <= |s|
    requires forall i: nat :: i < n ==> i in keep
    ensures n <= |Pick(s, keep)| && Pick(s, keep)[..n] == s[..n]
  {
    if n == |s| {
      PickAll(s, keep);
    } else {
      PickKeepsPrefix(s[..|s| - 1], keep, n);
      assert s[..|s| - 1][..n] == s[..n];
    }
  }

  function Map<A, B>(f: A -> B, s: seq<A>): (r: seq<B>)
    ensures |r| == |s|
    ensures forall i :: 0 <= i < |s| ==> r[i] == f(s[i])
  {
    seq(|s|, i requires 0 <= i < |s| => f(s[i]))
  }

  lemma {:induction false} PickOfMap<A, B>(f: A -> B, s: seq<A>, keep: set<nat>)
    ensures Pick(Map(f, s), keep) == Map(f, Pick(s, keep))
  {
    if s != [] {
      var t := s[..|s| - 1];
      PickOfMap(f, t, keep);
      assert Map(f, s)[..|s| - 1] == Map(f, t);
    }
  }

  lemma {:induction false} PickOfFullLength<T>(s: seq<T>, keep: set<nat>)
    requires |Pick(s, keep)| == |s|
    ensures Pick(s, keep) == s
  {
    if s != [] {
      PickOfFullLength(s[..|s| - 1], keep);
    }
  }
}
