/**
 * The observer registry of `OrderSubject` (src/TaxiSystem.py): a list of
 * drivers without repetitions, extended by `attach`, shrunk by `detach`, and
 * walked by `notify`. Observers are compared by identity, as Python's `in`
 * and `list.remove` do for objects without `__eq__`.
 */
module Observers {
  import opened Drivers

  /** No element occurs twice. */
  predicate Distinct<T(==)>(s: seq<T>)
  {
    forall i, j :: 0 <= i < j < |s| ==> s[i] != s[j]
  }

  /** The list after `attach(x)`: `x` is appended unless already present. */
  function Attached<T(==)>(s: seq<T>, x: T): seq<T>
  {
    if x in s then s else s + [x]
  }

  /** The list after `list.remove(x)`: the first occurrence of `x` is dropped. */
  function RemoveFirst<T(==)>(s: seq<T>, x: T): seq<T>
    requires x in s
  {
    if s[0] == x then s[1..] else [s[0]] + RemoveFirst(s[1..], x)
  }

  /** Attaching keeps the list free of repetitions, contains exactly the old
      elements and `x`, and a second attach of the same observer changes nothing. */
  lemma AttachedProperties<T>(s: seq<T>, x: T)
    requires Distinct(s)
    ensures Distinct(Attached(s, x))
    ensures forall y :: y in Attached(s, x) <==> y in s || y == x
    ensures Attached(Attached(s, x), x) == Attached(s, x)
  {
  }

  /** `list.remove` drops one occurrence and keeps everything else in order:
      its multiset of elements loses exactly one `x`. */
  lemma {:induction false} RemoveFirstMultiset<T>(s: seq<T>, x: T)
    requires x in s
    ensures multiset(RemoveFirst(s, x)) == multiset(s) - multiset{x}
    ensures |RemoveFirst(s, x)| == |s| - 1
  {
    if s[0] != x {
      RemoveFirstMultiset(s[1..], x);
      assert s == [s[0]] + s[1..];
    } else {
      assert s == [x] + s[1..];
    }
  }

  /** On a list without repetitions, detaching `x` removes `x` altogether and
      keeps the list free of repetitions. */
  lemma RemoveFirstDistinct<T>(s: seq<T>, x: T)
    requires x in s && Distinct(s)
    ensures Distinct(RemoveFirst(s, x))
    ensures forall y :: y in RemoveFirst(s, x) <==> y in s && y != x
  {
    RemoveFirstMultiset(s, x);
    var r := RemoveFirst(s, x);
    forall y ensures y in r <==> y in s && y != x {
      assert y in r <==> y in multiset(r);
      assert y in s <==> y in multiset(s);
      if y == x {
        assert multiset(s)[x] == 1 by { DistinctCount(s, x); }
      }
    }
    forall i, j | 0 <= i < j < |r| ensures r[i] != r[j] {
      if r[i] == r[j] {
        assert multiset(r)[r[i]] >= 2 by { TwoOccurrences(r, i, j); }
        assert multiset(s)[r[i]] >= 2;
        DistinctCount(s, r[i]);
        assert false;
      }
    }
  }

  /** In a list without repetitions an element occurs at most once. */
  lemma {:induction false} DistinctCount<T>(s: seq<T>, x: T)
    requires Distinct(s)
    ensures multiset(s)[x] <= 1
  {
    if s != [] {
      assert s == [s[0]] + s[1..];
      DistinctCount(s[1..], x);
      assert x == s[0] ==> x !in s[1..];
    }
  }

  /** Two positions holding the same value make its count at least two. */
  lemma TwoOccurrences<T>(s: seq<T>, i: nat, j: nat)
    requires i < j < |s| && s[i] == s[j]
    ensures multiset(s)[s[i]] >= 2
  {
    assert s == s[..j] + [s[j]] + s[j + 1..];
    assert s[i] in s[..j];
  }

  /** Detaching an observer right after attaching a new one restores the list. */
  lemma {:induction false} DetachUndoesAttach<T>(s: seq<T>, x: T)
    requires x !in s
    ensures RemoveFirst(Attached(s, x), x) == s
  {
    if s != [] {
      assert (s + [x])[1..] == s[1..] + [x];
      DetachUndoesAttach(s[1..], x);
    }
  }

  /** The observers `notify` calls `update` on: those available at the time of
      the call, in attach order. */
  function AvailableAmong(obs: seq<Driver>): (r: seq<Driver>)
    reads obs
    ensures forall i :: 0 <= i < |r| ==> r[i] in obs && r[i].isAvailable
    ensures forall i :: 0 <= i < |obs| && obs[i].isAvailable ==> obs[i] in r
    ensures |r| <= |obs|
  {
    if obs == [] then []
    else
      var last := obs[|obs| - 1];
      AvailableAmong(obs[..|obs| - 1]) + (if last.isAvailable then [last] else [])
  }

  /** Notifying the observers of a concatenation notifies those of the first
      part and then those of the second: the filter keeps attach order. */
  lemma {:induction false} AvailableAmongAppend(a: seq<Driver>, b: seq<Driver>)
    ensures AvailableAmong(a + b) == AvailableAmong(a) + AvailableAmong(b)
    decreases |b|
  {
    if b == [] {
      assert a + b == a;
    } else {
      var b' := b[..|b| - 1];
      assert (a + b)[..|a + b| - 1] == a + b';
      assert (a + b)[|a + b| - 1] == b[|b| - 1];
      AvailableAmongAppend(a, b');
    }
  }

  /** Each available observer is notified once per attachment and an
      unavailable one not at all. */
  lemma {:induction false} AvailableAmongCount(obs: seq<Driver>, x: Driver)
    ensures multiset(AvailableAmong(obs))[x] == (if x.isAvailable then multiset(obs)[x] else 0)
  {
    if obs != [] {
      var init := obs[..|obs| - 1];
      assert obs == init + [obs[|obs| - 1]];
      AvailableAmongCount(init, x);
    }
  }

  /** Of two available observers, the one attached earlier is notified earlier. */
  lemma AvailableAmongOrder(obs: seq<Driver>, i: int, j: int)
    requires 0 <= i < j < |obs| && obs[i].isAvailable && obs[j].isAvailable
    ensures exists p, q :: 0 <= p < q < |AvailableAmong(obs)| &&
              AvailableAmong(obs)[p] == obs[i] && AvailableAmong(obs)[q] == obs[j]
  {
    var front, back := obs[..j], obs[j..];
    assert obs == front + back;
    assert back == [obs[j]] + back[1..];
    AvailableAmongAppend(front, back);
    AvailableAmongAppend([obs[j]], back[1..]);
    assert AvailableAmong([obs[j]]) == [obs[j]] by {
      assert [obs[j]][..0] == [];
    }
    var r, rf := AvailableAmong(obs), AvailableAmong(front);
    assert obs[i] == front[i];
    var p :| 0 <= p < |rf| && rf[p] == obs[i];
    assert r[p] == obs[i] && r[|rf|] == obs[j];
  }
}
