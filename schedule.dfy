/**
 * The task store and the due/pending split of runner.py.
 *
 * A store row has the columns user, action, value and datetime. Timestamps are
 * modelled as integers (for example seconds since some epoch), so they are
 * totally ordered; the reference time `now` is a parameter.
 */
module Schedule {

  /** One row of the task store. */
  datatype Task = Task(user: string, action: string, value: string, time: int)

  /** The rows the cycle runs: `df[df['datetime'] <= now]`, in store order. */
  function Due(s: seq<Task>, now: int): (r: seq<Task>)
    ensures |r| <= |s|
    ensures forall t :: t in r <==> t in s && t.time <= now
  {
    if s == [] then []
    else if s[0].time <= now then [s[0]] + Due(s[1..], now)
    else Due(s[1..], now)
  }

  /** The rows written back: `df[df['datetime'] > now]`, in store order. */
  function Pending(s: seq<Task>, now: int): (r: seq<Task>)
    ensures |r| <= |s|
    ensures forall t :: t in r <==> t in s && t.time > now
  {
    if s == [] then []
    else if s[0].time > now then [s[0]] + Pending(s[1..], now)
    else Pending(s[1..], now)
  }

  /** `s` is a merge of `a` and `b` that keeps the order of each. */
  predicate Interleaves(s: seq<Task>, a: seq<Task>, b: seq<Task>)
    decreases |s|
  {
    if s == [] then a == [] && b == []
    else
      (a != [] && a[0] == s[0] && Interleaves(s[1..], a[1..], b))
      || (b != [] && b[0] == s[0] && Interleaves(s[1..], a, b[1..]))
  }

  /** Every row of `a` is due and every row of `b` is not. */
  predicate OnEitherSide(a: seq<Task>, b: seq<Task>, now: int)
  {
    (forall i :: 0 <= i < |a| ==> a[i].time <= now)
    && (forall i :: 0 <= i < |b| ==> b[i].time > now)
  }

  /** Due and Pending split the store without reordering, losing or duplicating a row. */
  lemma {:induction false} PartitionSplits(s: seq<Task>, now: int)
    ensures Interleaves(s, Due(s, now), Pending(s, now))
    ensures OnEitherSide(Due(s, now), Pending(s, now), now)
  {
    if s != [] {
      PartitionSplits(s[1..], now);
    }
  }

  /**
   * The split is the only one: any order-keeping merge into due rows and
   * not-yet-due rows is exactly (Due, Pending).
   */
  lemma {:induction false} PartitionUnique(s: seq<Task>, a: seq<Task>, b: seq<Task>, now: int)
    requires Interleaves(s, a, b)
    requires OnEitherSide(a, b, now)
    ensures a == Due(s, now) && b == Pending(s, now)
  {
    if s != [] {
      if s[0].time <= now {
        assert a != [] && a[0] == s[0] && Interleaves(s[1..], a[1..], b);
        PartitionUnique(s[1..], a[1..], b, now);
      } else {
        assert b != [] && b[0] == s[0] && Interleaves(s[1..], a, b[1..]);
        PartitionUnique(s[1..], a, b[1..], now);
      }
    }
  }

  /** An order-keeping merge is also a multiset union. */
  lemma {:induction false} InterleavesMultiset(s: seq<Task>, a: seq<Task>, b: seq<Task>)
    requires Interleaves(s, a, b)
    ensures multiset(a) + multiset(b) == multiset(s)
  {
    if s != [] {
      assert s == [s[0]] + s[1..];
      if a != [] && a[0] == s[0] && Interleaves(s[1..], a[1..], b) {
        InterleavesMultiset(s[1..], a[1..], b);
        assert a == [a[0]] + a[1..];
      } else {
        InterleavesMultiset(s[1..], a, b[1..]);
        assert b == [b[0]] + b[1..];
      }
    }
  }

  /** Due plus Pending is the store as a multiset, so their sizes add up. */
  lemma PartitionMultiset(s: seq<Task>, now: int)
    ensures multiset(Due(s, now)) + multiset(Pending(s, now)) == multiset(s)
    ensures |Due(s, now)| + |Pending(s, now)| == |s|
  {
    PartitionSplits(s, now);
    InterleavesMultiset(s, Due(s, now), Pending(s, now));
    assert |multiset(Due(s, now)) + multiset(Pending(s, now))| == |multiset(s)|;
  }

  /** When nothing is due, the rows to keep are the whole store. */
  lemma {:induction false} NothingDueKeepsAll(s: seq<Task>, now: int)
    requires Due(s, now) == []
    ensures Pending(s, now) == s
  {
    if s != [] {
      assert s[0] in s;
      assert s[0].time > now;
      assert Due(s[1..], now) == [];
      NothingDueKeepsAll(s[1..], now);
      assert Pending(s, now) == [s[0]] + Pending(s[1..], now);
    }
  }

  /** Keeping the pending rows a second time keeps all of them. */
  lemma {:induction false} PendingIdempotent(s: seq<Task>, now: int)
    ensures Pending(Pending(s, now), now) == Pending(s, now)
    ensures Due(Pending(s, now), now) == []
  {
    if s != [] {
      PendingIdempotent(s[1..], now);
    }
  }
}
