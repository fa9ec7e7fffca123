/** Sorting, largest key first (what the callers of slices.SortFunc and Array.sort rely on), and distinctness. */
module Lists {

  ghost predicate Descending<T(!new)>(s: seq<T>, key: T -> int) {
    forall i, j :: 0 <= i < j < |s| ==> key(s[i]) >= key(s[j])
  }

  function Insert<T>(x: T, s: seq<T>, key: T -> int): (r: seq<T>)
    ensures multiset(r) == multiset(s) + multiset{x}
  {
    if s == [] then [x]
    else
      assert s == [s[0]] + s[1..];
      if key(s[0]) < key(x) then [x] + s else [s[0]] + Insert(x, s[1..], key)
  }

  lemma SameElements<T>(a: seq<T>, b: seq<T>)
    requires multiset(a) == multiset(b)
    ensures |a| == |b| && forall y :: y in a <==> y in b
  {
    assert |multiset(a)| == |a| && |multiset(b)| == |b|;
    forall y ensures y in a <==> y in b { assert y in multiset(a) <==> y in multiset(b); }
  }

  lemma {:induction false} InsertHas<T>(x: T, s: seq<T>, key: T -> int, y: T)
    requires y in Insert(x, s, key)
    ensures y == x || y in s
  {
    if s != [] && key(s[0]) >= key(x) && y != s[0] { InsertHas(x, s[1..], key, y); }
  }

  lemma Prepended<T(!new)>(x: T, s: seq<T>, key: T -> int)
    requires Descending(s, key) && forall i :: 0 <= i < |s| ==> key(x) >= key(s[i])
    ensures Descending([x] + s, key)
  {
  }

  lemma {:induction false} InsertKeepsOrder<T(!new)>(x: T, s: seq<T>, key: T -> int)
    requires Descending(s, key)
    ensures Descending(Insert(x, s, key), key)
  {
    if s != [] && key(s[0]) < key(x) {
      Prepended(x, s, key);
    } else if s != [] {
      var rest := Insert(x, s[1..], key);
      InsertKeepsOrder(x, s[1..], key);
      forall i | 0 <= i < |rest| ensures key(s[0]) >= key(rest[i]) {
        InsertHas(x, s[1..], key, rest[i]);
      }
      Prepended(s[0], rest, key);
    }
  }

  function Sorted<T>(s: seq<T>, key: T -> int): (r: seq<T>)
    ensures multiset(r) == multiset(s)
  {
    if s == [] then []
    else
      assert s == s[..|s|-1] + [s[|s|-1]];
      Insert(s[|s|-1], Sorted(s[..|s|-1], key), key)
  }

  lemma {:induction false} SortedDescends<T(!new)>(s: seq<T>, key: T -> int)
    ensures Descending(Sorted(s, key), key)
    ensures |Sorted(s, key)| == |s| && forall y :: y in Sorted(s, key) <==> y in s
  {
    if s != [] {
      SortedDescends(s[..|s|-1], key);
      InsertKeepsOrder(s[|s|-1], Sorted(s[..|s|-1], key), key);
    }
    SameElements(Sorted(s, key), s);
  }

  predicate Distinct<T(==)>(s: seq<T>) {
    forall i, j :: 0 <= i < j < |s| ==> s[i] != s[j]
  }

  function Elements<T>(s: seq<T>): set<T> {
    set x | x in s
  }

  /** A sequence has as many elements as distinct ones exactly when none repeats. */
  lemma {:induction false} ElementsCount<T>(s: seq<T>)
    ensures |Elements(s)| <= |s|
    ensures |Elements(s)| == |s| <==> Distinct(s)
  {
    if s != [] {
      var rest, last := s[..|s|-1], s[|s|-1];
      ElementsCount(rest);
      if last in rest {
        assert Elements(s) == Elements(rest);
        var i :| 0 <= i < |rest| && rest[i] == last;
        assert s[i] == s[|s|-1];
      } else {
        assert Elements(s) == Elements(rest) + {last};
        assert Distinct(s) <==> Distinct(rest) by {
          assert forall i :: 0 <= i < |rest| ==> rest[i] == s[i];
        }
      }
    }
  }

  /** Positions in a list of length n, in order: what a loop that skips some rows leaves. */
  ghost predicate Positions(at: seq<nat>, n: nat) {
    && (forall k :: 0 <= k < |at| ==> at[k] < n)
    && (forall j, k :: 0 <= j < k < |at| ==> at[j] < at[k])
  }

  /** One more position, taken or not. */
  lemma PositionsGrow(before: seq<nat>, n: nat, take: bool) returns (at: seq<nat>)
    requires Positions(before, n)
    ensures at == if take then before + [n] else before
    ensures Positions(at, n + 1)
    ensures forall i :: 0 <= i < n ==> (i in at <==> i in before)
    ensures n in at <==> take
  {
    at := if take then before + [n] else before;
  }

  /** `picked` is what stands at these positions, which are exactly those of the elements to keep:
      each such element as often as in the list and in its order. */
  ghost predicate Picks<T(!new)>(s: seq<T>, keep: T -> bool, picked: seq<T>, at: seq<nat>) {
    && Positions(at, |s|) && |at| == |picked|
    && (forall k :: 0 <= k < |at| ==> picked[k] == s[at[k]])
    && (forall i :: 0 <= i < |s| ==> (i in at <==> keep(s[i])))
  }

  lemma PicksNext<T(!new)>(s: seq<T>, keep: T -> bool, picked: seq<T>, before: seq<nat>, next: T) returns (at: seq<nat>)
    requires Picks(s, keep, picked, before)
    ensures Picks(s + [next], keep, picked + if keep(next) then [next] else [], at)
  {
    var n := |s|;
    at := PositionsGrow(before, n, keep(next));
    var s', picked' := s + [next], picked + if keep(next) then [next] else [];
    forall k | 0 <= k < |at| ensures picked'[k] == s'[at[k]] {
      if k < |before| {
        assert at[k] == before[k] < n;
      } else {
        assert at[k] == n;
      }
    }
    forall i | 0 <= i < |s'| ensures i in at <==> keep(s'[i]) {
      if i < n { assert s'[i] == s[i]; }
    }
  }
}
