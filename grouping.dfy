/** The insertion-ordered group-by that the pages build by reducing an array
    into a dictionary of arrays (creating the entry for a key on first sight,
    then pushing) and then read back with `Object.values` / `Object.entries`. Keys are
    non-numeric strings, so a JavaScript object enumerates them in insertion
    order: the result is a sequence of groups in order of first appearance. */
module Grouping {
  import opened Seqs

  /** One entry of the accumulator: a key and the elements pushed under it. */
  datatype Group<K, V> = Group(key: K, members: seq<V>)

  /** The predicate "has key `k`", named so that every use denotes the same function. */
  function KeyIs<K(==, !new), V>(key: V -> K, k: K): V -> bool
  {
    x => key(x) == k
  }

  /** The elements of `xs` with key `k`, in their original order. */
  function Members<K(==, !new), V>(xs: seq<V>, key: V -> K, k: K): seq<V>
  {
    Filter(xs, KeyIs(key, k))
  }

  /** The distinct keys of `xs` in order of first appearance. */
  function Keys<K(==, !new), V>(xs: seq<V>, key: V -> K): (ks: seq<K>)
    ensures forall k :: k in ks <==> exists i :: 0 <= i < |xs| && key(xs[i]) == k
  {
    if xs == [] then []
    else
      var init := xs[..|xs| - 1];
      var ks := Keys(init, key);
      assert forall i :: 0 <= i < |init| ==> init[i] == xs[i];
      if key(xs[|xs| - 1]) in ks then ks else ks + [key(xs[|xs| - 1])]
  }

  /** The groups for the keys `ks`, in that order. */
  function GroupsFor<K(==, !new), V>(xs: seq<V>, key: V -> K, ks: seq<K>): (gs: seq<Group<K, V>>)
    ensures |gs| == |ks|
    ensures forall j :: 0 <= j < |ks| ==> gs[j] == Group(ks[j], Members(xs, key, ks[j]))
  {
    if ks == [] then [] else [Group(ks[0], Members(xs, key, ks[0]))] + GroupsFor(xs, key, ks[1..])
  }

  /** What the reduce followed by `Object.entries` yields. */
  function Grouped<K(==, !new), V>(xs: seq<V>, key: V -> K): seq<Group<K, V>>
  {
    GroupsFor(xs, key, Keys(xs, key))
  }

  /** The reduce itself: a dictionary accumulator whose keys are remembered in
      insertion order, then read back as a sequence of entries. */
  method GroupBy<K(==, !new), V>(xs: seq<V>, key: V -> K) returns (groups: seq<Group<K, V>>)
    ensures groups == Grouped(xs, key)
  {
    var order: seq<K> := [];
    var acc: map<K, seq<V>> := map[];
    for i := 0 to |xs|
      invariant Accumulated(order, acc, xs[..i], key)
    {
      var k := key(xs[i]);
      assert xs[..i + 1] == xs[..i] + [xs[i]];
      AccumulateStep(order, acc, xs[..i], xs[i], key);
      if k !in acc {
        order := order + [k];
        acc := acc[k := []];
      }
      acc := acc[k := acc[k] + [xs[i]]];
    }
    assert xs[..|xs|] == xs;
    groups := [];
    for j := 0 to |order|
      invariant |groups| == j
      invariant forall q :: 0 <= q < j ==> groups[q] == Group(order[q], acc[order[q]])
    {
      groups := groups + [Group(order[j], acc[order[j]])];
    }
  }

  /** The accumulator `acc`, with its keys in insertion order `order`, holds the
      groups of `xs`. */
  ghost predicate Accumulated<K(!new), V>(order: seq<K>, acc: map<K, seq<V>>, xs: seq<V>, key: V -> K)
  {
    order == Keys(xs, key) &&
    (forall k :: k in acc <==> k in order) &&
    (forall k :: k in acc ==> acc[k] == Members(xs, key, k))
  }

  /** One step of the reduce: the element joins its key's group, which is
      created empty, and its key appended to the order, on first sight. */
  lemma AccumulateStep<K(!new), V>(order: seq<K>, acc: map<K, seq<V>>, xs: seq<V>, x: V, key: V -> K)
    requires Accumulated(order, acc, xs, key)
    ensures var k := key(x);
            var created := if k in acc then acc else acc[k := []];
            Accumulated(if k in acc then order else order + [k], created[k := created[k] + [x]], xs + [x], key)
  {
    if key(x) in acc {
      AccumulateSeen(order, acc, xs, x, key);
    } else {
      AccumulateNew(order, acc, xs, x, key);
    }
  }

  /** The element's key already has a group: the element is pushed onto it. */
  lemma AccumulateSeen<K(!new), V>(order: seq<K>, acc: map<K, seq<V>>, xs: seq<V>, x: V, key: V -> K)
    requires Accumulated(order, acc, xs, key) && key(x) in acc
    ensures Accumulated(order, acc[key(x) := acc[key(x)] + [x]], xs + [x], key)
  {
    KeysSnoc(xs, x, key);
    var acc' := acc[key(x) := acc[key(x)] + [x]];
    forall k | k in acc'
      ensures acc'[k] == Members(xs + [x], key, k)
    {
      MembersSnoc(xs, x, key, k);
    }
  }

  /** The element's key is new: its group is created holding just the element. */
  lemma AccumulateNew<K(!new), V>(order: seq<K>, acc: map<K, seq<V>>, xs: seq<V>, x: V, key: V -> K)
    requires Accumulated(order, acc, xs, key) && key(x) !in acc
    ensures Accumulated(order + [key(x)], acc[key(x) := [] + [x]], xs + [x], key)
  {
    KeysSnoc(xs, x, key);
    var acc' := acc[key(x) := [] + [x]];
    forall k | k in acc'
      ensures acc'[k] == Members(xs + [x], key, k)
    {
      MembersSnoc(xs, x, key, k);
      if k == key(x) {
        NoMembers(xs, key, k);
      }
    }
  }

  /** The members of a key after one more element. */
  lemma MembersSnoc<K(!new), V>(xs: seq<V>, x: V, key: V -> K, k: K)
    ensures Members(xs + [x], key, k) == Members(xs, key, k) + (if key(x) == k then [x] else [])
  {
    FilterSnoc(xs, x, KeyIs(key, k));
  }

  /** One more element adds its key at the end when the key is new, and leaves
      the keys alone otherwise. */
  lemma KeysSnoc<K(!new), V>(xs: seq<V>, x: V, key: V -> K)
    ensures Keys(xs + [x], key) == if key(x) in Keys(xs, key) then Keys(xs, key) else Keys(xs, key) + [key(x)]
  {
    assert (xs + [x])[..|xs|] == xs;
  }

  /** No key is listed twice: each key gets exactly one group. */
  lemma {:induction false} KeysDistinct<K(!new), V>(xs: seq<V>, key: V -> K)
    ensures forall p, q :: 0 <= p < q < |Keys(xs, key)| ==> Keys(xs, key)[p] != Keys(xs, key)[q]
  {
    if xs != [] {
      KeysDistinct(xs[..|xs| - 1], key);
    }
  }

  /** The index of the first element with key `k`. */
  function FirstIndex<K(==, !new), V>(xs: seq<V>, key: V -> K, k: K): (i: nat)
    requires exists i :: 0 <= i < |xs| && key(xs[i]) == k
    ensures i < |xs| && key(xs[i]) == k
    ensures forall j :: 0 <= j < i ==> key(xs[j]) != k
  {
    if key(xs[0]) == k then 0
    else
      assert exists i :: 0 <= i < |xs[1..]| && key(xs[1..][i]) == k by {
        var i :| 0 <= i < |xs| && key(xs[i]) == k;
        assert i > 0 && key(xs[1..][i - 1]) == k;
      }
      1 + FirstIndex(xs[1..], key, k)
  }

  /** Keys are listed in order of first appearance: an earlier key's first
      element comes before a later key's first element. */
  lemma {:induction false} KeysInFirstSeenOrder<K(!new), V>(xs: seq<V>, key: V -> K, p: nat, q: nat)
    requires p < q < |Keys(xs, key)|
    ensures Keys(xs, key)[p] in Keys(xs, key) && Keys(xs, key)[q] in Keys(xs, key)
    ensures FirstIndex(xs, key, Keys(xs, key)[p]) < FirstIndex(xs, key, Keys(xs, key)[q])
  {
    var init := xs[..|xs| - 1];
    var ks := Keys(init, key);
    assert Keys(xs, key)[..|ks|] == ks;
    FirstIndexOfInit(xs, key, Keys(xs, key)[p]);
    if q < |ks| {
      KeysInFirstSeenOrder(init, key, p, q);
      FirstIndexOfInit(xs, key, Keys(xs, key)[q]);
    } else {
      FirstIndexOfLast(xs, key);
    }
  }

  /** A key already seen before the last element keeps its first index. */
  lemma FirstIndexOfInit<K(!new), V>(xs: seq<V>, key: V -> K, k: K)
    requires xs != [] && k in Keys(xs[..|xs| - 1], key)
    ensures k in Keys(xs, key)
    ensures FirstIndex(xs, key, k) == FirstIndex(xs[..|xs| - 1], key, k)
  {
    var init := xs[..|xs| - 1];
    var i := FirstIndex(init, key, k);
    assert forall j :: 0 <= j <= i ==> init[j] == xs[j];
    FirstIndexUnique(xs, key, k, i);
  }

  /** A key new at the last element is first seen there. */
  lemma FirstIndexOfLast<K(!new), V>(xs: seq<V>, key: V -> K)
    requires xs != [] && key(xs[|xs| - 1]) !in Keys(xs[..|xs| - 1], key)
    ensures key(xs[|xs| - 1]) in Keys(xs, key)
    ensures FirstIndex(xs, key, key(xs[|xs| - 1])) == |xs| - 1
  {
    var init := xs[..|xs| - 1];
    assert forall j :: 0 <= j < |init| ==> init[j] == xs[j];
    FirstIndexUnique(xs, key, key(xs[|xs| - 1]), |xs| - 1);
  }

  /** The first index is the one index with key `k` that no earlier element shares. */
  lemma FirstIndexUnique<K(!new), V>(xs: seq<V>, key: V -> K, k: K, i: nat)
    requires i < |xs| && key(xs[i]) == k
    requires forall j :: 0 <= j < i ==> key(xs[j]) != k
    ensures FirstIndex(xs, key, k) == i
  {
    var f := FirstIndex(xs, key, k);
    assert !(f < i) && !(i < f);
  }

  /** Members distribute over the front element. */
  lemma MembersCons<K(!new), V>(x: V, xs: seq<V>, key: V -> K, k: K)
    ensures Members([x] + xs, key, k) == (if key(x) == k then [x] else []) + Members(xs, key, k)
  {
    assert ([x] + xs)[1..] == xs;
  }

  /** Each group is non-empty and starts with the first element carrying its key;
      this is the element whose attributes the accumulator records on creation. */
  lemma {:induction false} GroupStartsWithFirstSeen<K(!new), V>(xs: seq<V>, key: V -> K, k: K)
    requires k in Keys(xs, key)
    ensures Members(xs, key, k) != []
    ensures Members(xs, key, k)[0] == xs[FirstIndex(xs, key, k)]
  {
    MembersCons(xs[0], xs[1..], key, k);
    assert [xs[0]] + xs[1..] == xs;
    if key(xs[0]) != k {
      var i :| 0 <= i < |xs| && key(xs[i]) == k;
      assert key(xs[1..][i - 1]) == k;
      GroupStartsWithFirstSeen(xs[1..], key, k);
    }
  }

  /** Every element lands in exactly one group: the one keyed by its own key. */
  lemma ExactlyOneGroup<K(!new), V>(xs: seq<V>, key: V -> K, i: nat)
    requires i < |xs|
    ensures exists p :: (0 <= p < |Grouped(xs, key)| && Grouped(xs, key)[p].key == key(xs[i]) &&
                         xs[i] in Grouped(xs, key)[p].members)
    ensures forall p, q ::
              (0 <= p < |Grouped(xs, key)| && 0 <= q < |Grouped(xs, key)| &&
               xs[i] in Grouped(xs, key)[p].members && xs[i] in Grouped(xs, key)[q].members) ==> p == q
  {
    var ks := Keys(xs, key);
    var gs := Grouped(xs, key);
    KeysDistinct(xs, key);
    assert key(xs[i]) in ks;
    var p :| 0 <= p < |ks| && ks[p] == key(xs[i]);
    assert xs[i] in gs[p].members;
  }

  /** All members of a group carry the group's key. */
  lemma GroupMembersHaveKey<K(!new), V>(xs: seq<V>, key: V -> K, p: nat)
    requires p < |Grouped(xs, key)|
    ensures forall x :: x in Grouped(xs, key)[p].members ==> key(x) == Grouped(xs, key)[p].key
  {
  }

  /** Sum of the group sizes. */
  function TotalSize<K, V>(gs: seq<Group<K, V>>): nat
  {
    if gs == [] then 0 else |gs[0].members| + TotalSize(gs[1..])
  }

  /** How many times `a` is listed in `ks`. */
  function Occurrences<K(==, !new)>(ks: seq<K>, a: K): nat
  {
    if ks == [] then 0 else (if ks[0] == a then 1 else 0) + Occurrences(ks[1..], a)
  }

  lemma {:induction false} OccurrencesOfDistinct<K(!new)>(ks: seq<K>, a: K)
    requires forall p, q :: 0 <= p < q < |ks| ==> ks[p] != ks[q]
    ensures Occurrences(ks, a) == if a in ks then 1 else 0
  {
    if ks != [] {
      OccurrencesOfDistinct(ks[1..], a);
      assert a in ks[1..] ==> ks[0] != a;
      assert a in ks <==> ks[0] == a || a in ks[1..];
    }
  }

  lemma {:induction false} TotalSizeCons<K(!new), V>(x: V, xs: seq<V>, key: V -> K, ks: seq<K>)
    ensures TotalSize(GroupsFor([x] + xs, key, ks)) ==
      Occurrences(ks, key(x)) + TotalSize(GroupsFor(xs, key, ks))
  {
    if ks != [] {
      MembersCons(x, xs, key, ks[0]);
      TotalSizeCons(x, xs, key, ks[1..]);
    }
  }

  lemma {:induction false} TotalSizeEmpty<K(!new), V>(key: V -> K, ks: seq<K>)
    ensures TotalSize(GroupsFor([], key, ks)) == 0
  {
    if ks != [] {
      TotalSizeEmpty(key, ks[1..]);
    }
  }

  /** Groups over any duplicate-free list of keys that covers every element
      hold all the elements between them. */
  lemma {:induction false} TotalSizeCovering<K(!new), V>(xs: seq<V>, key: V -> K, ks: seq<K>)
    requires forall p, q :: 0 <= p < q < |ks| ==> ks[p] != ks[q]
    requires forall i :: 0 <= i < |xs| ==> key(xs[i]) in ks
    ensures TotalSize(GroupsFor(xs, key, ks)) == |xs|
  {
    if xs == [] {
      TotalSizeEmpty(key, ks);
    } else {
      assert [xs[0]] + xs[1..] == xs;
      TotalSizeCons(xs[0], xs[1..], key, ks);
      OccurrencesOfDistinct(ks, key(xs[0]));
      TotalSizeCovering(xs[1..], key, ks);
    }
  }

  /** Group sizes add up to the number of elements grouped. */
  lemma GroupSizesSum<K(!new), V>(xs: seq<V>, key: V -> K)
    ensures TotalSize(Grouped(xs, key)) == |xs|
  {
    KeysDistinct(xs, key);
    TotalSizeCovering(xs, key, Keys(xs, key));
  }

  /** `acc[k]` read back from the entries: the group pushed under `k`, if any. */
  function Lookup<K(==, !new), V>(gs: seq<Group<K, V>>, k: K): seq<V>
  {
    if gs == [] then [] else if gs[0].key == k then gs[0].members else Lookup(gs[1..], k)
  }

  /** Looking a key up among the groups yields exactly its members (empty for a
      key that never occurs). */
  lemma LookupGrouped<K(!new), V>(xs: seq<V>, key: V -> K, k: K)
    ensures Lookup(Grouped(xs, key), k) == Members(xs, key, k)
  {
    var ks := Keys(xs, key);
    KeysDistinct(xs, key);
    LookupGroupsFor(xs, key, ks, k);
    if k !in ks {
      NoMembers(xs, key, k);
    }
  }

  lemma {:induction false} LookupGroupsFor<K(!new), V>(xs: seq<V>, key: V -> K, ks: seq<K>, k: K)
    ensures Lookup(GroupsFor(xs, key, ks), k) == if k in ks then Members(xs, key, k) else []
  {
    if ks != [] {
      LookupGroupsFor(xs, key, ks[1..], k);
      assert k in ks <==> ks[0] == k || k in ks[1..];
    }
  }

  lemma {:induction false} NoMembers<K(!new), V>(xs: seq<V>, key: V -> K, k: K)
    requires forall i :: 0 <= i < |xs| ==> key(xs[i]) != k
    ensures Members(xs, key, k) == []
  {
    if xs != [] {
      NoMembers(xs[1..], key, k);
    }
  }
}
