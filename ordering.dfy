/** OrderByDescending over an order timestamp, as the order views use it.
    A missing timestamp (a null SubmittedAt) sorts after every present one,
    as NULL does in a descending ORDER BY. Ties may come out in any order,
    so the specification is "sorted and a permutation", nothing more. */
module Ordering {
  import opened Models

  /** The column an order list is sorted by. */
  datatype OrderKey = BySubmittedAt | ByCreatedAt

  function KeyOf(o: Order, key: OrderKey): Option<Time>
  {
    match key
    case BySubmittedAt => o.submittedAt
    case ByCreatedAt => Some(o.createdAt)
  }

  /** `a` may come before `b` in newest-first order. */
  predicate NotOlder(a: Option<Time>, b: Option<Time>)
  {
    b.None? || (a.Some? && a.value >= b.value)
  }

  predicate NewestFirst(s: seq<Order>, key: OrderKey)
  {
    forall i, j :: 0 <= i < j < |s| ==> NotOlder(KeyOf(s[i], key), KeyOf(s[j], key))
  }

  /** Inserts `o` into a newest-first list. */
  function Insert(o: Order, s: seq<Order>, key: OrderKey): (r: seq<Order>)
    requires NewestFirst(s, key)
    ensures NewestFirst(r, key)
    ensures multiset(r) == multiset(s) + multiset{o}
    ensures |r| == |s| + 1
  {
    if s == [] then [o]
    else if NotOlder(KeyOf(o, key), KeyOf(s[0], key)) then [o] + s
    else
      var rest := Insert(o, s[1..], key);
      assert s == [s[0]] + s[1..];
      HeadNotOlder(o, s, rest, key);
      [s[0]] + rest
  }

  /** The head of a sorted list that is newer than `o` stays ahead of
      everything `o` is inserted among. */
  lemma HeadNotOlder(o: Order, s: seq<Order>, rest: seq<Order>, key: OrderKey)
    requires s != [] && NewestFirst(s, key)
    requires !NotOlder(KeyOf(o, key), KeyOf(s[0], key))
    requires multiset(rest) == multiset(s[1..]) + multiset{o}
    ensures forall j :: 0 <= j < |rest| ==> NotOlder(KeyOf(s[0], key), KeyOf(rest[j], key))
  {
    forall j | 0 <= j < |rest|
      ensures NotOlder(KeyOf(s[0], key), KeyOf(rest[j], key))
    {
      assert rest[j] in multiset(rest);
      if rest[j] != o {
        assert rest[j] in multiset(s[1..]);
        var i :| 0 <= i < |s[1..]| && s[1..][i] == rest[j];
        assert s[i + 1] == rest[j];
      }
    }
  }

  /** The orders of `s`, newest first. */
  function SortNewestFirst(s: seq<Order>, key: OrderKey): (r: seq<Order>)
    ensures NewestFirst(r, key)
    ensures multiset(r) == multiset(s)
    ensures |r| == |s|
  {
    if s == [] then []
    else
      assert s == [s[0]] + s[1..];
      Insert(s[0], SortNewestFirst(s[1..], key), key)
  }
}
