/** Recovering the order of one field's history: a pruned, budgeted search over the permutations of
    records that share a timestamp, whose one answer has to be the only one. */
module ChainOrder {
  import opened Prelude
  import opened StringOrder

  /** One history record of a field. */
  datatype Change = Change(when: string, who: string, oldValue: Option<string>, newValue: Option<string>)

  /** Records with equal keys are interchangeable. */
  function Key(c: Change): (string, Option<string>, Option<string>)
  {
    (c.who, c.oldValue, c.newValue)
  }

  function Keys(s: seq<Change>): (r: seq<(string, Option<string>, Option<string>)>)
    ensures |r| == |s| && forall i | 0 <= i < |s| :: r[i] == Key(s[i])
  {
    seq(|s|, i requires 0 <= i < |s| => Key(s[i]))
  }

  // ----- What an ordering is -----

  predicate Linked(s: seq<Change>, carried: Option<string>)
  {
    s == [] || ((carried.None? || s[0].oldValue == carried) && Linked(s[1..], s[0].newValue))
  }

  function Carried(s: seq<Change>, carried: Option<string>): Option<string>
  {
    if s == [] then carried else s[|s| - 1].newValue
  }

  predicate SortedByWhen(s: seq<Change>)
  {
    forall i, j | 0 <= i < j < |s| :: !Earlier(s[j].when, s[i].when)
  }

  /** All the records, in timestamp order, each picking up the value the one before left, and ending
      at the field's current value. */
  predicate IsOrdering(records: seq<Change>, final: Option<string>, o: seq<Change>)
  {
    && multiset(o) == multiset(records)
    && SortedByWhen(o) && Linked(o, None)
    && (final.None? || Carried(o, None) == final)
  }

  // ----- Permutations, in the order `itertools.permutations` gives them -----

  function Drop<T>(s: seq<T>, i: nat): (r: seq<T>)
    requires i < |s|
    ensures |r| == |s| - 1 && multiset(s) == multiset(r) + multiset{s[i]}
  {
    assert s == s[..i] + [s[i]] + s[i + 1..];
    s[..i] + s[i + 1..]
  }

  function Prepend<T>(x: T, lists: seq<seq<T>>): (r: seq<seq<T>>)
    ensures |r| == |lists| && forall i | 0 <= i < |lists| :: r[i] == [x] + lists[i]
  {
    seq(|lists|, i requires 0 <= i < |lists| => [x] + lists[i])
  }

  /** The permutations of `s` that start with one of its first `k` items. */
  function StartingWith<T>(s: seq<T>, k: nat): seq<seq<T>>
    requires k <= |s|
    decreases |s|, k
  {
    if k == 0 then []
    else StartingWith(s, k - 1) + Prepend(s[k - 1], Permutations(Drop(s, k - 1)))
  }

  function Permutations<T>(s: seq<T>): seq<seq<T>>
    decreases |s|, |s| + 1
  {
    if s == [] then [[]] else StartingWith(s, |s|)
  }

  lemma {:induction false} StartingWithRearrange<T>(s: seq<T>, k: nat, p: seq<T>)
    requires k <= |s| && p in StartingWith(s, k)
    ensures multiset(p) == multiset(s)
    decreases |s|, k
  {
    var rest := Drop(s, k - 1);
    var last := Prepend(s[k - 1], Permutations(rest));
    assert StartingWith(s, k) == StartingWith(s, k - 1) + last;
    hide Permutations, StartingWith;
    if p in last {
      var i :| 0 <= i < |last| && last[i] == p;
      var tail := Permutations(rest)[i];
      PermutationsRearrange(rest, tail);
      assert p == [s[k - 1]] + tail;
    } else {
      StartingWithRearrange(s, k - 1, p);
    }
  }

  lemma {:induction false} PermutationsRearrange<T>(s: seq<T>, p: seq<T>)
    requires p in Permutations(s)
    ensures multiset(p) == multiset(s) && |p| == |s|
    decreases |s|, |s| + 1
  {
    if s != [] { StartingWithRearrange(s, |s|, p); }
    assert |multiset(p)| == |multiset(s)|;
  }

  lemma PermutationSizes<T>(s: seq<T>)
    ensures forall p | p in Permutations(s) :: |p| == |s|
  {
    forall p | p in Permutations(s) ensures |p| == |s| { PermutationsRearrange(s, p); }
  }

  lemma {:induction false} StartingWithContains<T>(s: seq<T>, k: nat, i: nat, p: seq<T>)
    requires i < k <= |s| && p in Permutations(Drop(s, i))
    ensures [s[i]] + p in StartingWith(s, k)
    decreases k
  {
    if i == k - 1 {
      var all := Permutations(Drop(s, i));
      var j :| 0 <= j < |all| && all[j] == p;
      assert Prepend(s[i], all)[j] == [s[i]] + p;
    } else {
      StartingWithContains(s, k - 1, i, p);
    }
  }

  /** Every rearrangement is enumerated. */
  lemma {:induction false} PermutationsComplete<T>(s: seq<T>, p: seq<T>)
    requires multiset(p) == multiset(s)
    ensures p in Permutations(s)
    decreases |s|
  {
    if s == [] {
      assert |multiset(p)| == 0;
      assert p == [];
    } else {
      assert |multiset(p)| == |multiset(s)|;
      assert p == [p[0]] + p[1..];
      assert p[0] in multiset(s);
      var i :| 0 <= i < |s| && s[i] == p[0];
      assert multiset(p[1..]) == multiset(p) - multiset{p[0]};
      PermutationsComplete(Drop(s, i), p[1..]);
      StartingWithContains(s, |s|, i, p[1..]);
    }
  }

  function Factorial(n: nat): nat { if n == 0 then 1 else n * Factorial(n - 1) }

  lemma {:induction false} StartingWithCount<T>(s: seq<T>, k: nat)
    requires 0 < |s| && k <= |s|
    ensures |StartingWith(s, k)| == k * Factorial(|s| - 1)
    decreases |s|, k
  {
    hide Factorial, Permutations;
    if k > 0 {
      var added := Prepend(s[k - 1], Permutations(Drop(s, k - 1)));
      assert StartingWith(s, k) == StartingWith(s, k - 1) + added;
      hide StartingWith;
      StartingWithCount(s, k - 1);
      PermutationsCount(Drop(s, k - 1));
      TimesNext(k, Factorial(|s| - 1));
    }
  }

  lemma TimesNext(k: nat, f: nat)
    ensures (k - 1) * f + f == k * f
  {
  }

  lemma {:induction false} PermutationsCount<T>(s: seq<T>)
    ensures |Permutations(s)| == Factorial(|s|)
    decreases |s|, |s| + 1
  {
    if s != [] { StartingWithCount(s, |s|); }
  }

  // ----- Buckets -----

  predicate SameWhen(bucket: seq<Change>)
  {
    bucket != [] && forall i | 0 <= i < |bucket| :: bucket[i].when == bucket[0].when
  }

  function Flatten(buckets: seq<seq<Change>>): seq<Change>
  {
    if buckets == [] then [] else buckets[0] + Flatten(buckets[1..])
  }

  /** One bucket a timestamp, in timestamp order. */
  predicate Bucketed(buckets: seq<seq<Change>>)
  {
    && (forall i | 0 <= i < |buckets| :: SameWhen(buckets[i]))
    && (forall i, j | 0 <= i < j < |buckets| :: Earlier(buckets[i][0].when, buckets[j][0].when))
  }

  /** `o` takes the buckets in order, each rearranged, and links from `carried` to the final value. */
  predicate Continues(buckets: seq<seq<Change>>, carried: Option<string>, final: Option<string>, o: seq<Change>)
    decreases |buckets|
  {
    if buckets == [] then o == [] && (final.None? || carried == final)
    else
      var size := |buckets[0]|;
      && size <= |o| && multiset(o[..size]) == multiset(buckets[0]) && Linked(o[..size], carried)
      && Continues(buckets[1..], Carried(o[..size], carried), final, o[size..])
  }

  lemma {:induction false} LinkedConcat(a: seq<Change>, b: seq<Change>, carried: Option<string>)
    ensures Linked(a + b, carried) <==> Linked(a, carried) && Linked(b, Carried(a, carried))
  {
    if a == [] {
      assert a + b == b;
    } else {
      assert (a + b)[1..] == a[1..] + b;
      LinkedConcat(a[1..], b, a[0].newValue);
    }
  }

  /** Everything in the later buckets is later than everything in the first. */
  lemma {:induction false} FlattenMembers(buckets: seq<seq<Change>>, c: Change) returns (i: nat)
    requires c in Flatten(buckets)
    ensures i < |buckets| && c in buckets[i]
  {
    if c in buckets[0] { i := 0; } else { i := FlattenMembers(buckets[1..], c); i := i + 1; }
  }

  lemma FirstIsEarlier(buckets: seq<seq<Change>>, c: Change)
    requires Bucketed(buckets) && buckets != [] && c in Flatten(buckets[1..])
    ensures Earlier(buckets[0][0].when, c.when)
  {
    var i := FlattenMembers(buckets[1..], c);
    assert SameWhen(buckets[i + 1]);
  }

  lemma SortedConcat(a: seq<Change>, b: seq<Change>)
    requires SortedByWhen(a) && SortedByWhen(b)
    requires forall x, y | x in a && y in b :: !Earlier(y.when, x.when)
    ensures SortedByWhen(a + b)
  {
  }

  /** A first bucket, rearranged, before a sorted arrangement of the others. */
  lemma BucketThenSorted(buckets: seq<seq<Change>>, head: seq<Change>, tail: seq<Change>)
    requires Bucketed(buckets) && buckets != [] && multiset(head) == multiset(buckets[0])
    requires multiset(tail) == multiset(Flatten(buckets[1..])) && SortedByWhen(tail)
    ensures SortedByWhen(head + tail)
  {
    forall x | x in head ensures x.when == buckets[0][0].when {
      assert x in multiset(head);
      assert x in buckets[0] && SameWhen(buckets[0]);
    }
    forall x, y | x in head && y in tail ensures !Earlier(y.when, x.when) {
      assert y in multiset(tail);
      FirstIsEarlier(buckets, y);
      EarlierTotal(x.when, y.when);
    }
    OneWhenSorted(head, buckets[0][0].when);
    SortedConcat(head, tail);
  }

  /** A continuation is an ordering of the flattened buckets. */
  lemma {:induction false} ContinuationOrders(buckets: seq<seq<Change>>, carried: Option<string>, final: Option<string>,
                                              o: seq<Change>)
    requires Bucketed(buckets) && Continues(buckets, carried, final, o)
    ensures multiset(o) == multiset(Flatten(buckets)) && SortedByWhen(o) && Linked(o, carried)
    ensures final.None? || Carried(o, carried) == final
    decreases |buckets|
  {
    hide SortedByWhen, Linked;
    if buckets == [] {
      assert SortedByWhen(o) && Linked(o, carried) by { EmptyOrders(carried); }
    } else {
      var head, tail := o[..|buckets[0]|], o[|buckets[0]|..];
      ContinuationOrders(buckets[1..], Carried(head, carried), final, tail);
      assert o == head + tail;
      LinkedConcat(head, tail, carried);
      BucketThenSorted(buckets, head, tail);
    }
  }

  lemma EmptyOrders(carried: Option<string>)
    ensures SortedByWhen([]) && Linked([], carried)
  {
  }

  lemma OneWhenSorted(s: seq<Change>, when: string)
    requires forall x | x in s :: x.when == when
    ensures SortedByWhen(s)
  {
    EarlierTotal(when, when);
  }

  lemma SubmultisetOfSameSize<T>(a: multiset<T>, b: multiset<T>)
    requires a <= b && |a| == |b|
    ensures a == b
  {
    assert b == a + (b - a);
    assert |b - a| == 0;
  }

  lemma Cancel<T>(a: multiset<T>, b: multiset<T>, c: multiset<T>)
    requires a + b == a + c
    ensures b == c
  {
    assert b == (a + b) - a && c == (a + c) - a;
  }

  /** Nothing of the earliest timestamp comes after a later record. */
  lemma EarliestBefore(bucket: seq<Change>, rest: seq<Change>, o: seq<Change>, i: nat)
    requires SameWhen(bucket) && SortedByWhen(o) && i < |o|
    requires multiset(o) == multiset(bucket) + multiset(rest)
    requires Earlier(bucket[0].when, o[i].when)
    ensures |bucket| <= i
  {
    var before, after := o[..i], o[i..];
    assert o == before + after;
    forall c | c in multiset(bucket) ensures multiset(bucket)[c] <= multiset(before)[c] {
      forall j | 0 <= j < |after| ensures after[j] != c {
        assert after[j] == o[i + j];
        EarlierTotal(o[i].when, o[i].when);
      }
      assert c !in multiset(after);
      assert multiset(o)[c] == multiset(before)[c] + multiset(after)[c];
    }
    assert multiset(bucket) <= multiset(before);
    assert |multiset(before)| == |multiset(bucket)| + |multiset(before) - multiset(bucket)|;
  }

  lemma FirstBucketFirst(bucket: seq<Change>, rest: seq<Change>, o: seq<Change>)
    requires SameWhen(bucket) && SortedByWhen(o)
    requires multiset(o) == multiset(bucket) + multiset(rest)
    requires forall y | y in rest :: Earlier(bucket[0].when, y.when)
    ensures |bucket| <= |o|
    ensures multiset(o[..|bucket|]) == multiset(bucket) && multiset(o[|bucket|..]) == multiset(rest)
  {
    assert |multiset(o)| == |bucket| + |rest|;
    var head, tail := o[..|bucket|], o[|bucket|..];
    assert o == head + tail;
    assert multiset(o) == multiset(head) + multiset(tail);
    forall i | 0 <= i < |head| ensures head[i] !in rest {
      assert head[i] == o[i];
      if head[i] in rest { EarliestBefore(bucket, rest, o, i); }
    }
    forall c | c in multiset(head) ensures multiset(head)[c] <= multiset(bucket)[c] {
      assert c in head && c !in rest;
      assert multiset(o)[c] == multiset(bucket)[c] + multiset(rest)[c];
    }
    SubmultisetOfSameSize(multiset(head), multiset(bucket));
    Cancel(multiset(bucket), multiset(tail), multiset(rest));
  }

  lemma BucketedTail(buckets: seq<seq<Change>>)
    requires Bucketed(buckets) && buckets != []
    ensures Bucketed(buckets[1..]) && SameWhen(buckets[0])
  {
  }

  lemma SortedTail(s: seq<Change>, k: nat)
    requires SortedByWhen(s) && k <= |s|
    ensures SortedByWhen(s[k..])
  {
  }

  /** Every ordering of the flattened buckets is a continuation. */
  lemma {:induction false} OrderingContinues(buckets: seq<seq<Change>>, carried: Option<string>, final: Option<string>,
                                             o: seq<Change>)
    requires Bucketed(buckets)
    requires multiset(o) == multiset(Flatten(buckets)) && SortedByWhen(o) && Linked(o, carried)
    requires final.None? || Carried(o, carried) == final
    ensures Continues(buckets, carried, final, o)
    decreases |buckets|
  {
    if buckets == [] {
      assert |multiset(o)| == 0;
    } else {
      var size, rest := |buckets[0]|, Flatten(buckets[1..]);
      assert multiset(o) == multiset(buckets[0]) + multiset(rest);
      BucketedTail(buckets);
      hide SortedByWhen, Linked, Bucketed, SameWhen, Flatten, Earlier;
      forall y | y in rest ensures Earlier(buckets[0][0].when, y.when) { FirstIsEarlier(buckets, y); }
      FirstBucketFirst(buckets[0], rest, o);
      var head, tail := o[..size], o[size..];
      assert o == head + tail;
      LinkedConcat(head, tail, carried);
      SortedTail(o, size);
      OrderingContinues(buckets[1..], Carried(head, carried), final, tail);
    }
  }

  // ----- What the search has settled -----

  /** Some recorded solution has the same keys. */
  ghost predicate Covered(solutions: seq<seq<Change>>, o: seq<Change>)
  {
    exists i | 0 <= i < |solutions| :: Keys(solutions[i]) == Keys(o)
  }

  /** Every continuation of `acc` is covered. */
  ghost predicate Covers(solutions: seq<seq<Change>>, buckets: seq<seq<Change>>, carried: Option<string>,
                         final: Option<string>, acc: seq<Change>)
  {
    forall o :: Continues(buckets, carried, final, o) ==> Covered(solutions, acc + o)
  }

  /** Every continuation of `acc` that starts with this permutation of the first bucket is covered. */
  ghost predicate CoversHead(solutions: seq<seq<Change>>, buckets: seq<seq<Change>>, carried: Option<string>,
                             final: Option<string>, acc: seq<Change>, head: seq<Change>)
  {
    forall rest :: Continues(buckets, carried, final, head + rest) ==> Covered(solutions, acc + (head + rest))
  }

  ghost predicate CoversHeads(solutions: seq<seq<Change>>, buckets: seq<seq<Change>>, carried: Option<string>,
                              final: Option<string>, acc: seq<Change>, heads: seq<seq<Change>>)
  {
    forall head | head in heads :: CoversHead(solutions, buckets, carried, final, acc, head)
  }

  ghost predicate Extends(solution: seq<Change>, buckets: seq<seq<Change>>, carried: Option<string>,
                          final: Option<string>, acc: seq<Change>)
  {
    acc <= solution && Continues(buckets, carried, final, solution[|acc|..])
  }

  ghost predicate DistinctKeys(solutions: seq<seq<Change>>)
  {
    forall i, j | 0 <= i < j < |solutions| :: Keys(solutions[i]) != Keys(solutions[j])
  }

  /** No recorded solution agrees with `acc` as far as `acc` goes. */
  ghost predicate Fresh(solutions: seq<seq<Change>>, acc: seq<Change>)
  {
    forall i | 0 <= i < |solutions| :: !(Keys(acc) <= Keys(solutions[i]))
  }

  function KeySet(lists: seq<seq<Change>>): set<seq<(string, Option<string>, Option<string>)>>
  {
    set p | p in lists :: Keys(p)
  }

  lemma KeySetGrows(lists: seq<seq<Change>>, p: seq<Change>)
    ensures KeySet(lists + [p]) == KeySet(lists) + {Keys(p)}
    ensures KeySet([]) == {}
  {
    hide Keys;
    forall q | q in lists + [p] ensures Keys(q) in KeySet(lists) + {Keys(p)} {}
    assert p in lists + [p];
  }

  lemma KeysConcat(a: seq<Change>, b: seq<Change>)
    ensures Keys(a + b) == Keys(a) + Keys(b)
  {
  }

  /** Linking and the value carried on depend on keys alone. */
  lemma {:induction false} LinkedByKeys(p: seq<Change>, q: seq<Change>, carried: Option<string>)
    requires Keys(p) == Keys(q)
    ensures Linked(p, carried) == Linked(q, carried) && Carried(p, carried) == Carried(q, carried)
  {
    assert |p| == |Keys(p)| == |q|;
    if p != [] {
      assert Key(p[0]) == Keys(p)[0] == Key(q[0]);
      assert Keys(p[1..]) == Keys(p)[1..] == Keys(q[1..]);
      LinkedByKeys(p[1..], q[1..], p[0].newValue);
      assert Key(p[|p| - 1]) == Keys(p)[|p| - 1] == Key(q[|p| - 1]);
    }
  }

  /** Skipping a permutation whose keys were seen loses nothing. */
  lemma DuplicateCovered(solutions: seq<seq<Change>>, buckets: seq<seq<Change>>, carried: Option<string>,
                         final: Option<string>, acc: seq<Change>, head: seq<Change>, earlier: seq<Change>)
    requires buckets != [] && multiset(head) == multiset(buckets[0]) == multiset(earlier)
    requires Keys(head) == Keys(earlier) && CoversHead(solutions, buckets, carried, final, acc, earlier)
    ensures CoversHead(solutions, buckets, carried, final, acc, head)
  {
    assert |head| == |multiset(buckets[0])| == |earlier| == |buckets[0]|;
    forall rest | Continues(buckets, carried, final, head + rest) ensures Covered(solutions, acc + (head + rest)) {
      assert (head + rest)[..|head|] == head && (head + rest)[|head|..] == rest;
      assert (earlier + rest)[..|head|] == earlier && (earlier + rest)[|head|..] == rest;
      LinkedByKeys(head, earlier, carried);
      assert Continues(buckets, carried, final, earlier + rest);
      KeysConcat(head, rest);
      KeysConcat(earlier, rest);
      KeysConcat(acc, head + rest);
      KeysConcat(acc, earlier + rest);
    }
  }

  /** A permutation that does not link has no continuation. */
  lemma UnlinkedCovered(solutions: seq<seq<Change>>, buckets: seq<seq<Change>>, carried: Option<string>,
                        final: Option<string>, acc: seq<Change>, head: seq<Change>)
    requires buckets != [] && |head| == |buckets[0]| && !Linked(head, carried)
    ensures CoversHead(solutions, buckets, carried, final, acc, head)
  {
    forall rest ensures !Continues(buckets, carried, final, head + rest) {
      assert (head + rest)[..|head|] == head;
    }
  }

  /** What the recursive call settled is settled for this permutation. */
  lemma ChildCovered(solutions: seq<seq<Change>>, buckets: seq<seq<Change>>, carried: Option<string>,
                     final: Option<string>, acc: seq<Change>, head: seq<Change>)
    requires buckets != [] && |head| == |buckets[0]|
    requires Covers(solutions, buckets[1..], Carried(head, carried), final, acc + head)
    ensures CoversHead(solutions, buckets, carried, final, acc, head)
  {
    forall rest | Continues(buckets, carried, final, head + rest) ensures Covered(solutions, acc + (head + rest)) {
      assert (head + rest)[..|head|] == head && (head + rest)[|head|..] == rest;
      assert acc + (head + rest) == (acc + head) + rest;
    }
  }

  lemma ChildExtends(solution: seq<Change>, buckets: seq<seq<Change>>, carried: Option<string>,
                     final: Option<string>, acc: seq<Change>, head: seq<Change>)
    requires buckets != [] && multiset(head) == multiset(buckets[0]) && Linked(head, carried)
    requires Extends(solution, buckets[1..], Carried(head, carried), final, acc + head)
    ensures Extends(solution, buckets, carried, final, acc)
  {
    assert |head| == |multiset(head)| == |buckets[0]|;
    var o := solution[|acc|..];
    assert solution[..|acc| + |head|] == acc + head;
    assert o[..|head|] == head && o[|head|..] == solution[|acc + head|..];
  }

  /** All permutations of the first bucket settled: every continuation is. */
  lemma AllHeadsCovered(solutions: seq<seq<Change>>, buckets: seq<seq<Change>>, carried: Option<string>,
                        final: Option<string>, acc: seq<Change>)
    requires buckets != []
    requires CoversHeads(solutions, buckets, carried, final, acc, Permutations(buckets[0]))
    ensures Covers(solutions, buckets, carried, final, acc)
  {
    forall o | Continues(buckets, carried, final, o) ensures Covered(solutions, acc + o) {
      var head, rest := o[..|buckets[0]|], o[|buckets[0]|..];
      PermutationsComplete(buckets[0], head);
      assert o == head + rest;
      assert CoversHead(solutions, buckets, carried, final, acc, head);
    }
  }

  lemma CoversMore(solutions: seq<seq<Change>>, more: seq<seq<Change>>, buckets: seq<seq<Change>>,
                   carried: Option<string>, final: Option<string>, acc: seq<Change>, head: seq<Change>)
    requires CoversHead(solutions, buckets, carried, final, acc, head) && solutions <= more
    ensures CoversHead(more, buckets, carried, final, acc, head)
  {
    forall rest | Continues(buckets, carried, final, head + rest) ensures Covered(more, acc + (head + rest)) {
      var i :| 0 <= i < |solutions| && Keys(solutions[i]) == Keys(acc + (head + rest));
      assert more[i] == solutions[i];
    }
  }

  // ----- The search -----

  const MAX_BUCKET := 7
  const SEARCH_BUDGET := 10_000

  /** `_links`. */
  method Links(permutation: seq<Change>, carried: Option<string>) returns (linked: bool)
    ensures linked == Linked(permutation, carried)
  {
    var previous := carried;
    for i := 0 to |permutation|
      invariant previous == Carried(permutation[..i], carried)
      invariant Linked(permutation, carried) == Linked(permutation[i..], previous)
    {
      var record := permutation[i];
      assert permutation[i..] == [record] + permutation[i + 1..];
      if previous.Some? && record.oldValue != previous {
        return false;
      }
      previous := record.newValue;
      assert permutation[..i + 1][i] == record;
    }
    return true;
  }

  /** The most permutations a search through these buckets can enumerate. */
  function Bound(buckets: seq<seq<Change>>): nat
  {
    if buckets == [] then 0 else Times(Factorial(|buckets[0]|), 1 + Bound(buckets[1..]))
  }

  /** `k` branches of `cost` each. */
  function Times(k: nat, cost: nat): nat
  {
    if k == 0 then 0 else Times(k - 1, cost) + cost
  }

  lemma {:induction false} TimesGrows(j: nat, k: nat, cost: nat)
    requires j <= k
    ensures Times(j, cost) <= Times(k, cost)
  {
    if j < k { TimesGrows(j, k - 1, cost); }
  }

  lemma BoundStep(buckets: seq<seq<Change>>)
    requires buckets != []
    ensures Bound(buckets) == Times(Factorial(|buckets[0]|), 1 + Bound(buckets[1..]))
  {
  }

  /** The state `walk` shares across its recursive calls. */
  class Search {
    const buckets: seq<seq<Change>>
    const final: Option<string>
    var budget: int
    var solutions: seq<seq<Change>>

    constructor (buckets: seq<seq<Change>>, final: Option<string>)
      ensures this.buckets == buckets && this.final == final
      ensures budget == SEARCH_BUDGET && solutions == []
    {
      this.buckets, this.final := buckets, final;
      budget, solutions := SEARCH_BUDGET, [];
    }

    /** `walk`: all continuations of `acc` through the buckets from `index` on, unless the budget
        runs out or a second solution turns up. */
    method Walk(index: nat, carried: Option<string>, acc: seq<Change>)
      requires index <= |buckets| && DistinctKeys(solutions) && Fresh(solutions, acc)
      requires forall i | 0 <= i < |buckets| :: buckets[i] != []
      modifies this
      ensures old(solutions) <= solutions && DistinctKeys(solutions)
      ensures forall i | |old(solutions)| <= i < |solutions| ::
        Extends(solutions[i], buckets[index..], carried, final, acc)
      ensures budget > 0 && |solutions| <= 1 ==> Covers(solutions, buckets[index..], carried, final, acc)
      ensures old(budget) - Bound(buckets[index..]) <= budget <= old(budget)
      decreases |buckets| - index, 1
    {
      hide Continues, Linked, Keys, Permutations, DistinctKeys, Factorial, Covers, CoversHead, CoversHeads, Extends,
        StartsSeen, Fresh, KeySet, Bound;
      if |solutions| > 1 || budget <= 0 {
        return;
      }
      if index == |buckets| {
        RecordEnd(solutions, carried, final, acc);
        if final.None? || carried == final { solutions := solutions + [acc]; }
        return;
      }
      var left := buckets[index..];
      assert left[1..] == buckets[index + 1..] && left[0] == buckets[index];
      var seen := {};
      var all := Permutations(buckets[index]);
      PermutationsCount(buckets[index]);
      PermutationSizes(buckets[index]);
      KeySetGrows([], acc);
      ghost var cost := 1 + Bound(left[1..]);
      BoundStep(left);
      NoHeads(solutions, left, carried, final, acc);
      for j := 0 to |all|
        invariant old(solutions) <= solutions && DistinctKeys(solutions)
        invariant seen == KeySet(all[..j])
        invariant forall i | |old(solutions)| <= i < |solutions| :: Extends(solutions[i], left, carried, final, acc)
        invariant forall i | |old(solutions)| <= i < |solutions| :: StartsSeen(solutions[i], acc, seen)
        invariant budget > 0 && |solutions| <= 1 ==> CoversHeads(solutions, left, carried, final, acc, all[..j])
        invariant old(budget) - Times(j, cost) <= budget <= old(budget)
      {
        ghost var before := solutions;
        budget := budget - 1;
        if budget <= 0 {
          TimesGrows(j + 1, |all|, cost);
          return;
        }
        var permutation := all[j];
        assert all[..j + 1] == all[..j] + [permutation];
        KeySetGrows(all[..j], permutation);
        PermutationsRearrange(buckets[index], permutation);
        var key := Keys(permutation);
        if key in seen {
          SeenCovered(solutions, left, carried, final, acc, all, j);
        } else {
          FreshChild(old(solutions), solutions, acc, permutation, seen, all[..j]);
          seen := seen + {key};
          Visit(index, carried, acc, permutation);
          StartSeen(before, solutions, acc, permutation, seen);
          if |solutions| <= 1 && budget > 0 { HeadsMore(before, solutions, left, carried, final, acc, all[..j]); }
        }
        HeadCovered(solutions, left, carried, final, acc, all[..j], permutation);
      }
      assert all[..|all|] == all;
      if |solutions| <= 1 && budget > 0 { AllHeadsCovered(solutions, left, carried, final, acc); }
    }

    /** One permutation of the bucket at `index`: descends only if it links. */
    method Visit(index: nat, carried: Option<string>, acc: seq<Change>, permutation: seq<Change>)
      requires index < |buckets| && DistinctKeys(solutions) && Fresh(solutions, acc + permutation)
      requires forall i | 0 <= i < |buckets| :: buckets[i] != []
      requires multiset(permutation) == multiset(buckets[index]) && |permutation| == |buckets[index]|
      modifies this
      ensures old(solutions) <= solutions && DistinctKeys(solutions)
      ensures forall i | |old(solutions)| <= i < |solutions| ::
        Extends(solutions[i], buckets[index..], carried, final, acc) && acc + permutation <= solutions[i]
      ensures budget > 0 && |solutions| <= 1 ==>
        CoversHead(solutions, buckets[index..], carried, final, acc, permutation)
      ensures old(budget) - Bound(buckets[index + 1..]) <= budget <= old(budget)
      decreases |buckets| - index, 0
    {
      hide Continues, Linked, Keys, Permutations, DistinctKeys, Factorial, Covers, CoversHead;
      var left := buckets[index..];
      assert left[1..] == buckets[index + 1..] && left[0] == buckets[index];
      var linked := Links(permutation, carried);
      if linked {
        Walk(index + 1, Carried(permutation, carried), acc + permutation);
        forall i | |old(solutions)| <= i < |solutions| ensures Extends(solutions[i], left, carried, final, acc) {
          ChildExtends(solutions[i], left, carried, final, acc, permutation);
        }
        if |solutions| <= 1 && budget > 0 { ChildCovered(solutions, left, carried, final, acc, permutation); }
      } else {
        UnlinkedCovered(solutions, left, carried, final, acc, permutation);
      }
    }
  }

  /** The solution follows `acc` with one of the seen key sequences. */
  ghost predicate StartsSeen(solution: seq<Change>, acc: seq<Change>,
                             seen: set<seq<(string, Option<string>, Option<string>)>>)
  {
    exists k | k in seen :: Keys(acc) + k <= Keys(solution)
  }

  /** At the end of the buckets, `acc` itself is the one continuation. */
  lemma RecordEnd(solutions: seq<seq<Change>>, carried: Option<string>, final: Option<string>, acc: seq<Change>)
    requires DistinctKeys(solutions) && Fresh(solutions, acc)
    ensures DistinctKeys(solutions + [acc])
    ensures final.None? || carried == final ==>
      Extends(acc, [], carried, final, acc) && Covers(solutions + [acc], [], carried, final, acc)
    ensures !(final.None? || carried == final) ==> Covers(solutions, [], carried, final, acc)
  {
    forall o | Continues([], carried, final, o) ensures Covered(solutions + [acc], acc + o) {
      assert acc + o == acc;
      assert (solutions + [acc])[|solutions|] == acc;
    }
  }

  lemma SeenCovered(solutions: seq<seq<Change>>, buckets: seq<seq<Change>>, carried: Option<string>,
                    final: Option<string>, acc: seq<Change>, all: seq<seq<Change>>, j: nat)
    requires buckets != [] && all == Permutations(buckets[0]) && j < |all|
    requires Keys(all[j]) in KeySet(all[..j])
    ensures CoversHeads(solutions, buckets, carried, final, acc, all[..j]) ==>
      CoversHead(solutions, buckets, carried, final, acc, all[j])
  {
    if CoversHeads(solutions, buckets, carried, final, acc, all[..j]) {
      var p :| p in all[..j] && Keys(p) == Keys(all[j]);
      PermutationsRearrange(buckets[0], p);
      PermutationsRearrange(buckets[0], all[j]);
      DuplicateCovered(solutions, buckets, carried, final, acc, all[j], p);
    }
  }

  /** A permutation with new keys starts solutions no earlier one did. */
  lemma FreshChild(entered: seq<seq<Change>>, solutions: seq<seq<Change>>, acc: seq<Change>, head: seq<Change>,
                   seen: set<seq<(string, Option<string>, Option<string>)>>, earlier: seq<seq<Change>>)
    requires entered <= solutions && Fresh(entered, acc) && Keys(head) !in seen
    requires seen == KeySet(earlier)
    requires forall p | p in earlier :: |p| == |head|
    requires forall i | |entered| <= i < |solutions| :: StartsSeen(solutions[i], acc, seen)
    ensures Fresh(solutions, acc + head)
  {
    KeysConcat(acc, head);
    forall i | 0 <= i < |solutions| ensures !(Keys(acc + head) <= Keys(solutions[i])) {
      if i < |entered| {
        assert entered[i] == solutions[i];
        assert Keys(acc) <= Keys(acc + head);
      } else {
        var k :| k in seen && Keys(acc) + k <= Keys(solutions[i]);
        if Keys(acc) + Keys(head) <= Keys(solutions[i]) { SamePrefix(Keys(acc), k, Keys(head), Keys(solutions[i])); }
      }
    }
  }

  lemma SamePrefix<T>(a: seq<T>, x: seq<T>, y: seq<T>, s: seq<T>)
    requires a + x <= s && a + y <= s && |x| == |y|
    ensures x == y
  {
    assert x == (a + x)[|a|..] == s[..|a + x|][|a|..];
    assert y == (a + y)[|a|..] == s[..|a + y|][|a|..];
  }

  /** What a visit recorded starts with the key just seen, and the earlier solutions still do. */
  lemma StartSeen(before: seq<seq<Change>>, after: seq<seq<Change>>, acc: seq<Change>, head: seq<Change>,
                  seen: set<seq<(string, Option<string>, Option<string>)>>)
    requires before <= after && Keys(head) in seen
    requires forall i | |before| <= i < |after| :: acc + head <= after[i]
    ensures forall i | |before| <= i < |after| :: StartsSeen(after[i], acc, seen)
    ensures forall s, fewer | StartsSeen(s, acc, fewer) && fewer <= seen :: StartsSeen(s, acc, seen)
  {
    forall i | |before| <= i < |after| ensures StartsSeen(after[i], acc, seen) {
      KeysConcat(acc, head);
      KeysPrefix(acc + head, after[i]);
    }
  }

  lemma KeysPrefix(a: seq<Change>, b: seq<Change>)
    requires a <= b
    ensures Keys(a) <= Keys(b)
  {
    assert b == a + b[|a|..];
    KeysConcat(a, b[|a|..]);
  }

  lemma HeadsMore(before: seq<seq<Change>>, after: seq<seq<Change>>, buckets: seq<seq<Change>>,
                  carried: Option<string>, final: Option<string>, acc: seq<Change>, heads: seq<seq<Change>>)
    requires before <= after && CoversHeads(before, buckets, carried, final, acc, heads)
    ensures CoversHeads(after, buckets, carried, final, acc, heads)
  {
    forall p | p in heads ensures CoversHead(after, buckets, carried, final, acc, p) {
      CoversMore(before, after, buckets, carried, final, acc, p);
    }
  }

  lemma NoHeads(solutions: seq<seq<Change>>, buckets: seq<seq<Change>>, carried: Option<string>,
                final: Option<string>, acc: seq<Change>)
    ensures forall heads | heads == [] :: CoversHeads(solutions, buckets, carried, final, acc, heads)
  {
  }

  lemma HeadCovered(solutions: seq<seq<Change>>, buckets: seq<seq<Change>>, carried: Option<string>,
                    final: Option<string>, acc: seq<Change>, heads: seq<seq<Change>>, head: seq<Change>)
    ensures CoversHeads(solutions, buckets, carried, final, acc, heads)
         && CoversHead(solutions, buckets, carried, final, acc, head)
        ==> CoversHeads(solutions, buckets, carried, final, acc, heads + [head])
  {
  }

  // ----- Bucketing by timestamp -----

  /** The records of one timestamp, in the order they came. */
  function Group(records: seq<Change>, when: string): (r: seq<Change>)
    ensures forall c | c in r :: c.when == when
  {
    if records == [] then []
    else
      var last := records[|records| - 1];
      Group(records[..|records| - 1], when) + if last.when == when then [last] else []
  }

  function Whens(records: seq<Change>): set<string>
  {
    set c | c in records :: c.when
  }

  function Groups(records: seq<Change>, whens: seq<string>): (r: seq<seq<Change>>)
    ensures |r| == |whens| && forall i | 0 <= i < |r| :: r[i] == Group(records, whens[i])
  {
    seq(|whens|, i requires 0 <= i < |whens| => Group(records, whens[i]))
  }

  ghost function Buckets(records: seq<Change>): seq<seq<Change>>
  {
    Groups(records, Ascending(Whens(records)))
  }

  lemma OneMore(records: seq<Change>, i: nat)
    requires i < |records|
    ensures Whens(records[..i + 1]) == Whens(records[..i]) + {records[i].when}
    ensures Group(records[..i + 1], records[i].when) == Group(records[..i], records[i].when) + [records[i]]
    ensures forall w | w != records[i].when :: Group(records[..i + 1], w) == Group(records[..i], w)
  {
    var more := records[..i + 1];
    assert more[..i] == records[..i] && more == records[..i] + [records[i]];
    forall w | w in Whens(records[..i]) + {records[i].when} ensures w in Whens(more) {
      assert records[i] in more;
    }
  }

  /** `_by_when`. */
  method ByWhen(records: seq<Change>) returns (buckets: map<string, seq<Change>>)
    ensures buckets.Keys == Whens(records)
    ensures forall w | w in buckets :: buckets[w] == Group(records, w)
  {
    hide Group, Whens;
    buckets := map[];
    assert Whens([]) == {} && forall w :: Group([], w) == [] by { NoRecords(); }
    for i := 0 to |records|
      invariant buckets.Keys == Whens(records[..i])
      invariant forall w | w in buckets :: buckets[w] == Group(records[..i], w)
      invariant forall w | w !in buckets :: Group(records[..i], w) == []
    {
      var record := records[i];
      OneMore(records, i);
      var sofar := if record.when in buckets then buckets[record.when] else [];
      buckets := buckets[record.when := sofar + [record]];
    }
    assert records[..|records|] == records;
  }

  lemma NoRecords()
    ensures Whens([]) == {} && forall w :: Group([], w) == []
  {
  }

  lemma {:induction false} GroupCount(records: seq<Change>, when: string, c: Change)
    ensures multiset(Group(records, when))[c] == if c.when == when then multiset(records)[c] else 0
  {
    if records != [] {
      var shorter := records[..|records| - 1];
      assert records == shorter + [records[|records| - 1]];
      GroupCount(shorter, when, c);
    }
  }

  lemma {:induction false} GroupsCount(records: seq<Change>, whens: seq<string>, c: Change)
    requires Distinct(whens)
    ensures multiset(Flatten(Groups(records, whens)))[c] == if c.when in whens then multiset(records)[c] else 0
  {
    if whens != [] {
      assert Groups(records, whens)[1..] == Groups(records, whens[1..]);
      assert whens == [whens[0]] + whens[1..];
      GroupCount(records, whens[0], c);
      GroupsCount(records, whens[1..], c);
    }
  }

  lemma BucketsAreBucketed(records: seq<Change>)
    ensures Bucketed(Buckets(records)) && multiset(Flatten(Buckets(records))) == multiset(records)
    ensures forall i | 0 <= i < |Buckets(records)| :: Buckets(records)[i] != []
  {
    var whens := Ascending(Whens(records));
    AscendingMembers(Whens(records));
    forall i, j | 0 <= i < j < |whens| ensures whens[i] != whens[j] { EarlierTotal(whens[i], whens[j]); }
    forall i | 0 <= i < |whens| ensures SameWhen(Group(records, whens[i])) {
      assert whens[i] in whens;
      var c :| c in records && c.when == whens[i];
      GroupCount(records, whens[i], c);
      assert c in multiset(Group(records, whens[i]));
    }
    forall c: Change ensures multiset(Flatten(Buckets(records)))[c] == multiset(records)[c] {
      GroupsCount(records, whens, c);
      if c in records { assert c.when in Whens(records); }
    }
  }

  // ----- The answer -----

  datatype Outcome = Ordered(order: seq<Change>) | Unlinked | Ambiguous | Oversized

  /** The search stops unsettled only here: a timestamp with too many records, or too many
      permutations in all. */
  ghost predicate TooLarge(buckets: seq<seq<Change>>)
  {
    Crowded(buckets) || Bound(buckets) >= SEARCH_BUDGET
  }

  predicate Crowded(buckets: seq<seq<Change>>)
  {
    exists i | 0 <= i < |buckets| :: |buckets[i]| > MAX_BUCKET
  }

  ghost predicate TwoAnswers(records: seq<Change>, final: Option<string>)
  {
    exists o, o' :: IsOrdering(records, final, o) && IsOrdering(records, final, o') && Keys(o) != Keys(o')
  }

  lemma OrderingsAreContinuations(records: seq<Change>, final: Option<string>, o: seq<Change>)
    requires records != []
    ensures IsOrdering(records, final, o) <==> Continues(Buckets(records), None, final, o)
  {
    BucketsAreBucketed(records);
    if IsOrdering(records, final, o) { OrderingContinues(Buckets(records), None, final, o); }
    if Continues(Buckets(records), None, final, o) { ContinuationOrders(Buckets(records), None, final, o); }
  }

  /** `o` is an ordering, and the only one up to interchangeable records. */
  ghost predicate SoleOrdering(records: seq<Change>, final: Option<string>, o: seq<Change>)
  {
    IsOrdering(records, final, o) && forall other | IsOrdering(records, final, other) :: Keys(other) == Keys(o)
  }

  ghost predicate NoOrdering(records: seq<Change>, final: Option<string>)
  {
    forall o :: !IsOrdering(records, final, o)
  }

  /** `chain_order`: an answer is the only one up to interchangeable records, "unlinked" means there
      is none, "ambiguous" means there are two, and only a large input goes unsettled. */
  method OrderChain(records: seq<Change>, final: Option<string>) returns (outcome: Outcome)
    ensures records == [] ==> outcome == Ordered([])
    ensures records != [] && outcome.Ordered? ==> SoleOrdering(records, final, outcome.order)
    ensures outcome.Unlinked? ==> NoOrdering(records, final)
    ensures outcome.Ambiguous? ==> TwoAnswers(records, final)
    ensures outcome.Oversized? ==> TooLarge(Buckets(records))
    ensures Crowded(Buckets(records)) ==> outcome.Oversized?
  {
    if records == [] {
      assert Whens(records) == {};
      return Ordered([]);
    }
    var buckets := SortedBuckets(records);
    BucketsAreBucketed(records);
    if Crowded(buckets) {
      return Oversized;
    }
    hide Buckets, TwoAnswers, Bound, Bucketed, Flatten, SoleOrdering, NoOrdering, Crowded;
    outcome := Decide(records, final, buckets);
  }

  /** The search over uncrowded buckets. */
  method Decide(records: seq<Change>, final: Option<string>, buckets: seq<seq<Change>>) returns (outcome: Outcome)
    requires records != [] && buckets == Buckets(records) && forall i | 0 <= i < |buckets| :: buckets[i] != []
    ensures outcome.Ordered? ==> SoleOrdering(records, final, outcome.order)
    ensures outcome.Unlinked? ==> NoOrdering(records, final)
    ensures outcome.Ambiguous? ==> TwoAnswers(records, final)
    ensures outcome.Oversized? ==> Bound(buckets) >= SEARCH_BUDGET
  {
    hide Buckets, IsOrdering, Keys, Covers, Extends, TwoAnswers, Bound, SoleOrdering, NoOrdering;
    var search := new Search(buckets, final);
    search.Walk(0, None, []);
    assert buckets[0..] == buckets;
    Settled(records, final, search.solutions);
    outcome :=
      if search.budget <= 0 then Oversized
      else if |search.solutions| == 1 then Ordered(search.solutions[0])
      else if |search.solutions| > 1 then Ambiguous
      else Unlinked;
  }

  /** The buckets of `_by_when`, sorted by key. */
  method SortedBuckets(records: seq<Change>) returns (buckets: seq<seq<Change>>)
    ensures buckets == Buckets(records)
  {
    var byWhen := ByWhen(records);
    var whens := SortedStrings(byWhen.Keys);
    AscendingMembers(byWhen.Keys);
    buckets := seq(|whens|, i requires 0 <= i < |whens| => assert whens[i] in whens; byWhen[whens[i]]);
    assert forall i | 0 <= i < |whens| :: whens[i] in whens && buckets[i] == Group(records, whens[i]);
  }

  /** What the recorded solutions say about all orderings. */
  lemma Settled(records: seq<Change>, final: Option<string>, solutions: seq<seq<Change>>)
    requires records != [] && DistinctKeys(solutions)
    requires forall i | 0 <= i < |solutions| :: Extends(solutions[i], Buckets(records), None, final, [])
    ensures |solutions| > 1 ==> TwoAnswers(records, final)
    ensures Covers(solutions, Buckets(records), None, final, []) ==>
      && (|solutions| == 1 ==> SoleOrdering(records, final, solutions[0]))
      && (|solutions| == 0 ==> NoOrdering(records, final))
  {
    forall i | 0 <= i < |solutions| ensures IsOrdering(records, final, solutions[i]) {
      assert solutions[i][0..] == solutions[i];
      OrderingsAreContinuations(records, final, solutions[i]);
    }
    hide IsOrdering, Keys;
    if |solutions| > 1 {
      assert IsOrdering(records, final, solutions[0]) && IsOrdering(records, final, solutions[1]);
      assert Keys(solutions[0]) != Keys(solutions[1]);
    }
    if Covers(solutions, Buckets(records), None, final, []) {
      forall o | IsOrdering(records, final, o) ensures Covered(solutions, o) {
        OrderingsAreContinuations(records, final, o);
        assert [] + o == o;
      }
    }
  }

  lemma {:induction false} TimesOne(k: nat)
    ensures Times(k, 1) == k
  {
    if k > 0 { TimesOne(k - 1); }
  }

  /** Records of one timestamp are always settled unless there are more than seven. */
  lemma OneTimestampSettles(bucket: seq<Change>)
    ensures TooLarge([bucket]) <==> |bucket| > MAX_BUCKET
  {
    if |bucket| <= MAX_BUCKET {
      assert Factorial(3) == 6 && Factorial(4) == 24 && Factorial(5) == 120 && Factorial(6) == 720
          && Factorial(7) == 5040;
      TimesOne(Factorial(|bucket|));
      assert Factorial(0) == 1 && Factorial(1) == 1 && Factorial(2) == 2;
      assert [bucket][1..] == [] && Bound([bucket]) == Times(Factorial(|bucket|), 1);
    } else {
      assert |[bucket][0]| > MAX_BUCKET;
    }
  }

  // ----- The actors of the ordering -----

  /** `at` picks `wanted` out of `actual`, in order. */
  ghost predicate Embeds(wanted: seq<string>, actual: seq<string>, at: seq<nat>)
  {
    && |at| == |wanted|
    && (forall i, j | 0 <= i < j < |at| :: at[i] < at[j])
    && forall i | 0 <= i < |at| :: at[i] < |actual| && actual[at[i]] == wanted[i]
  }

  ghost predicate IsSubsequence(wanted: seq<string>, actual: seq<string>)
  {
    exists at :: Embeds(wanted, actual, at)
  }

  /** Every embedding of the first `i` items reaches at least `from`. */
  ghost predicate NoneSooner(wanted: seq<string>, actual: seq<string>, i: nat, from: nat)
    requires i <= |wanted|
  {
    if i == 0 then from == 0 else forall at | Embeds(wanted[..i], actual, at) :: from <= at[i - 1] + 1
  }

  lemma StillNoneSooner(wanted: seq<string>, actual: seq<string>, i: nat, from: nat, found: nat)
    requires i < |wanted| && NoneSooner(wanted, actual, i, from) && from <= found
    requires forall k | from <= k < found && k < |actual| :: actual[k] != wanted[i]
    ensures forall at | Embeds(wanted[..i + 1], actual, at) :: found <= at[i]
  {
    forall at | Embeds(wanted[..i + 1], actual, at) ensures found <= at[i] {
      assert Embeds(wanted[..i], actual, at[..i]);
      assert actual[at[i]] == wanted[..i + 1][i];
      assert i > 0 ==> at[..i][i - 1] < at[i];
    }
  }

  lemma PrefixEmbeds(wanted: seq<string>, actual: seq<string>, at: seq<nat>, k: nat)
    requires Embeds(wanted, actual, at) && k <= |wanted|
    ensures Embeds(wanted[..k], actual, at[..k])
  {
  }

  lemma NotFound(wanted: seq<string>, actual: seq<string>, i: nat)
    requires i < |wanted| && forall at | Embeds(wanted[..i + 1], actual, at) :: |actual| <= at[i]
    ensures !IsSubsequence(wanted, actual)
  {
    if IsSubsequence(wanted, actual) {
      var at :| Embeds(wanted, actual, at);
      assert at[..i + 1][i] == at[i];
      PrefixEmbeds(wanted, actual, at, i + 1);
    }
  }

  /** `_subsequence`: each item is sought only in what follows the previous one. */
  method Subsequence(wanted: seq<string>, actual: seq<string>) returns (found: bool)
    ensures found <==> IsSubsequence(wanted, actual)
  {
    var next := 0;
    ghost var at: seq<nat> := [];
    for i := 0 to |wanted|
      invariant next <= |actual| && Embeds(wanted[..i], actual, at)
      invariant forall k | 0 <= k < i :: at[k] < next
      invariant NoneSooner(wanted, actual, i, next)
    {
      var from := next;
      while next < |actual| && actual[next] != wanted[i]
        invariant from <= next <= |actual|
        invariant forall k | from <= k < next :: actual[k] != wanted[i]
      {
        next := next + 1;
      }
      StillNoneSooner(wanted, actual, i, from, next);
      if next == |actual| {
        NotFound(wanted, actual, i);
        return false;
      }
      assert wanted[..i + 1] == wanted[..i] + [wanted[i]];
      at := at + [next];
      next := next + 1;
    }
    assert wanted[..|wanted|] == wanted;
    return true;
  }

  function Actors(o: seq<Change>): (r: seq<string>)
    ensures |r| == |o| && forall i | 0 <= i < |r| :: r[i] == o[i].who
  {
    seq(|o|, i requires 0 <= i < |o| => o[i].who)
  }

  /** The actor sequence compared with the declared one does not depend on which ordering the search
      happened to return. */
  lemma ActorsAreSettled(records: seq<Change>, final: Option<string>, o: seq<Change>, other: seq<Change>)
    requires SoleOrdering(records, final, o) && IsOrdering(records, final, other)
    ensures Actors(other) == Actors(o)
  {
    assert |other| == |Keys(other)| == |Keys(o)| == |o|;
    forall i | 0 <= i < |o| ensures other[i].who == o[i].who {
      assert Keys(other)[i] == Key(other[i]) && Keys(o)[i] == Key(o[i]);
    }
  }
}
