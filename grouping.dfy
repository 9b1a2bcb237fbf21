/**
 * The train grouping of `compute`: when a title declares train groups, the
 * corporation's trains are split by the first declared group naming them
 * (trains no group names share one "none" group), each group keeping the
 * trains' order and the groups ordered by first appearance; the router then
 * runs once per group.  Without declared groups all trains form one group.
 */
module Grouping {
  import opened Wrappers
  import opened Routes

  /** `groups.index { |g| g.include?(name) }`: the first declared group naming the train. */
  function GroupIndex(groups: seq<seq<string>>, name: string): (r: Option<nat>)
    ensures r.Some? ==> r.value < |groups| && name in groups[r.value]
    ensures r.Some? ==> forall k :: 0 <= k < r.value ==> name !in groups[k]
    ensures r.None? ==> forall k :: 0 <= k < |groups| ==> name !in groups[k]
  {
    if |groups| == 0 then None
    else if name in groups[0] then Some(0)
    else match GroupIndex(groups[1..], name)
      case None => None
      case Some(i) => Some(i + 1)
  }

  /** One entry of the `group_by` hash: its key and its trains. */
  datatype Bucket = Bucket(key: Option<nat>, trains: seq<Train>)

  /** Where the key's entry is, if the hash has one. */
  function FindKey(buckets: seq<Bucket>, key: Option<nat>): (r: Option<nat>)
    ensures r.Some? ==> r.value < |buckets| && buckets[r.value].key == key
    ensures r.None? ==> forall i :: 0 <= i < |buckets| ==> buckets[i].key != key
  {
    if |buckets| == 0 then None
    else if buckets[|buckets| - 1].key == key then Some(|buckets| - 1)
    else FindKey(buckets[..|buckets| - 1], key)
  }

  /** Append a train to its key's entry, opening the entry at the end the first time the key is seen. */
  function Place(buckets: seq<Bucket>, key: Option<nat>, t: Train): seq<Bucket>
  {
    match FindKey(buckets, key)
    case None => buckets + [Bucket(key, [t])]
    case Some(i) => buckets[i := Bucket(key, buckets[i].trains + [t])]
  }

  /** `group_by`: the trains placed one by one. */
  function Buckets(groups: seq<seq<string>>, trains: seq<Train>): seq<Bucket>
  {
    if |trains| == 0 then []
    else
      var t := trains[|trains| - 1];
      Place(Buckets(groups, trains[..|trains| - 1]), GroupIndex(groups, t.name), t)
  }

  /** `.values` of the hash. */
  function Values(buckets: seq<Bucket>): (r: seq<seq<Train>>)
    ensures |r| == |buckets| && forall i :: 0 <= i < |r| ==> r[i] == buckets[i].trains
  {
    if |buckets| == 0 then [] else Values(buckets[..|buckets| - 1]) + [buckets[|buckets| - 1].trains]
  }

  /** The train groups of `compute`: all trains together without declared groups, else the `group_by` values. */
  function TrainGroups(groups: Option<seq<seq<string>>>, trains: seq<Train>): seq<seq<Train>>
  {
    match groups
    case None => [trains]
    case Some(g) => Values(Buckets(g, trains))
  }

  /** The trains with the key, in their order. */
  function WithKey(groups: seq<seq<string>>, trains: seq<Train>, key: Option<nat>): seq<Train>
  {
    if |trains| == 0 then []
    else
      var t := trains[|trains| - 1];
      WithKey(groups, trains[..|trains| - 1], key) + (if GroupIndex(groups, t.name) == key then [t] else [])
  }

  /** Where the key first appears among the trains: the index of its first train, or |trains| if none has it. */
  function FirstAt(groups: seq<seq<string>>, trains: seq<Train>, key: Option<nat>): (r: nat)
    ensures r <= |trains|
    ensures r < |trains| ==> GroupIndex(groups, trains[r].name) == key
    ensures forall k :: 0 <= k < r ==> GroupIndex(groups, trains[k].name) != key
  {
    if |trains| == 0 then 0
    else
      var init := trains[..|trains| - 1];
      var f := FirstAt(groups, init, key);
      if f < |init| then f
      else if GroupIndex(groups, trains[|trains| - 1].name) == key then |init|
      else |trains|
  }

  /** The groups laid end to end. */
  function Concat(groups: seq<seq<Train>>): seq<Train>
  {
    if |groups| == 0 then [] else Concat(groups[..|groups| - 1]) + groups[|groups| - 1]
  }

  /**
   * What `group_by` keeps of the trains: each entry holds, in order,
   * exactly the trains with its key and at least one of them, no key has
   * two entries, and every train's key has one.
   */
  ghost predicate Grouped(groups: seq<seq<string>>, trains: seq<Train>, buckets: seq<Bucket>)
  {
    && (forall i :: 0 <= i < |buckets| ==> buckets[i].trains == WithKey(groups, trains, buckets[i].key))
    && (forall i :: 0 <= i < |buckets| ==> |buckets[i].trains| > 0)
    && (forall i, j :: 0 <= i < j < |buckets| ==> buckets[i].key != buckets[j].key)
    && (forall t :: t in trains ==> FindKey(buckets, GroupIndex(groups, t.name)).Some?)
  }

  /** No train has the key: its selection is empty. */
  lemma {:induction false} WithKeyAbsent(groups: seq<seq<string>>, trains: seq<Train>, key: Option<nat>)
    requires forall t :: t in trains ==> GroupIndex(groups, t.name) != key
    ensures WithKey(groups, trains, key) == []
    decreases |trains|
  {
    if |trains| > 0 {
      var init := trains[..|trains| - 1];
      assert forall t :: t in init ==> t in trains;
      WithKeyAbsent(groups, init, key);
      assert trains[|trains| - 1] in trains;
    }
  }

  lemma WithKeySnoc(groups: seq<seq<string>>, trains: seq<Train>, t: Train, key: Option<nat>)
    ensures WithKey(groups, trains + [t], key) ==
      WithKey(groups, trains, key) + (if GroupIndex(groups, t.name) == key then [t] else [])
  {
    assert (trains + [t])[..|trains|] == trains;
  }

  /** Placing one more train keeps the grouping exact. */
  lemma PlaceGrouped(groups: seq<seq<string>>, all: seq<Train>, buckets: seq<Bucket>)
    requires |all| > 0 && Grouped(groups, all[..|all| - 1], buckets)
    ensures Grouped(groups, all, Place(buckets, GroupIndex(groups, all[|all| - 1].name), all[|all| - 1]))
  {
    var trains := all[..|all| - 1];
    var t := all[|all| - 1];
    var key := GroupIndex(groups, t.name);
    PlaceContents(groups, trains, buckets, t);
    PlaceDistinct(buckets, key, t);
    PlaceCovers(groups, trains, buckets, t);
    assert all == trains + [t];
  }

  lemma PlaceContents(groups: seq<seq<string>>, trains: seq<Train>, buckets: seq<Bucket>, t: Train)
    requires Grouped(groups, trains, buckets)
    ensures var placed := Place(buckets, GroupIndex(groups, t.name), t);
      forall i :: 0 <= i < |placed| ==>
        placed[i].trains == WithKey(groups, trains + [t], placed[i].key) && |placed[i].trains| > 0
  {
    var key := GroupIndex(groups, t.name);
    var placed := Place(buckets, key, t);
    forall i | 0 <= i < |placed|
      ensures placed[i].trains == WithKey(groups, trains + [t], placed[i].key) && |placed[i].trains| > 0
    {
      WithKeySnoc(groups, trains, t, placed[i].key);
      if i < |buckets| && placed[i] == buckets[i] {
        assert buckets[i].key != key || FindKey(buckets, key) == Some(i);
      } else if i == |buckets| {
        assert FindKey(buckets, key).None?;
        assert forall u :: u in trains ==> GroupIndex(groups, u.name) != key;
        WithKeyAbsent(groups, trains, key);
      }
    }
  }

  lemma PlaceDistinct(buckets: seq<Bucket>, key: Option<nat>, t: Train)
    requires forall i, j :: 0 <= i < j < |buckets| ==> buckets[i].key != buckets[j].key
    ensures var placed := Place(buckets, key, t);
      forall i, j :: 0 <= i < j < |placed| ==> placed[i].key != placed[j].key
  {
    var placed := Place(buckets, key, t);
    assert forall i :: 0 <= i < |buckets| ==> placed[i].key == buckets[i].key;
  }

  lemma PlaceCovers(groups: seq<seq<string>>, trains: seq<Train>, buckets: seq<Bucket>, t: Train)
    requires forall u :: u in trains ==> FindKey(buckets, GroupIndex(groups, u.name)).Some?
    ensures var placed := Place(buckets, GroupIndex(groups, t.name), t);
      forall u :: u in trains + [t] ==> FindKey(placed, GroupIndex(groups, u.name)).Some?
  {
    var key := GroupIndex(groups, t.name);
    var placed := Place(buckets, key, t);
    assert forall i :: 0 <= i < |buckets| ==> placed[i].key == buckets[i].key;
    forall u | u in trains + [t]
      ensures FindKey(placed, GroupIndex(groups, u.name)).Some?
    {
      if u in trains {
        var i := FindKey(buckets, GroupIndex(groups, u.name)).value;
        assert placed[i].key == GroupIndex(groups, u.name);
      } else {
        assert u == t;
        match FindKey(buckets, key)
        case None => assert placed[|buckets|].key == key;
        case Some(i) => assert placed[i].key == key;
      }
    }
  }

  /** `group_by` groups exactly. */
  lemma {:induction false} BucketsGrouped(groups: seq<seq<string>>, trains: seq<Train>)
    ensures Grouped(groups, trains, Buckets(groups, trains))
    decreases |trains|
  {
    if |trains| > 0 {
      var init := trains[..|trains| - 1];
      var t := trains[|trains| - 1];
      BucketsGrouped(groups, init);
      PlaceGrouped(groups, trains, Buckets(groups, init));
    }
  }

  /** The entries come in the order their keys first appear among the trains. */
  ghost predicate Ordered(groups: seq<seq<string>>, trains: seq<Train>, buckets: seq<Bucket>)
  {
    && (forall i :: 0 <= i < |buckets| ==> FirstAt(groups, trains, buckets[i].key) < |trains|)
    && (forall i, j :: 0 <= i < j < |buckets| ==>
          FirstAt(groups, trains, buckets[i].key) < FirstAt(groups, trains, buckets[j].key))
  }

  /** Placing one more train keeps the entries in order of first appearance. */
  lemma PlaceOrdered(groups: seq<seq<string>>, all: seq<Train>, buckets: seq<Bucket>)
    requires |all| > 0
    requires forall u :: u in all[..|all| - 1] ==> FindKey(buckets, GroupIndex(groups, u.name)).Some?
    requires Ordered(groups, all[..|all| - 1], buckets)
    ensures Ordered(groups, all, Place(buckets, GroupIndex(groups, all[|all| - 1].name), all[|all| - 1]))
  {
    var init := all[..|all| - 1];
    var t := all[|all| - 1];
    var key := GroupIndex(groups, t.name);
    var placed := Place(buckets, key, t);
    assert forall i :: 0 <= i < |buckets| ==> placed[i].key == buckets[i].key;
    match FindKey(buckets, key)
    case Some(_) =>
      OrderedSameKeys(groups, all, buckets, placed);
    case None =>
      forall k | 0 <= k < |init|
        ensures GroupIndex(groups, all[k].name) != key
      {
        assert all[k] == init[k] && init[k] in init;
      }
      FirstAtNew(groups, all);
      OrderedAppend(groups, all, buckets, placed);
  }

  /** Entries with the same keys as before stay in order after one more train. */
  lemma OrderedSameKeys(groups: seq<seq<string>>, all: seq<Train>, buckets: seq<Bucket>, placed: seq<Bucket>)
    requires |all| > 0 && Ordered(groups, all[..|all| - 1], buckets)
    requires |placed| == |buckets| && forall i :: 0 <= i < |buckets| ==> placed[i].key == buckets[i].key
    ensures Ordered(groups, all, placed)
  {
    forall i | 0 <= i < |buckets|
      ensures FirstAt(groups, all, placed[i].key) == FirstAt(groups, all[..|all| - 1], buckets[i].key)
    {
      FirstAtKept(groups, all, buckets[i].key);
    }
  }

  /** An entry opened at the end for a key first seen at the last train keeps the order. */
  lemma OrderedAppend(groups: seq<seq<string>>, all: seq<Train>, buckets: seq<Bucket>, placed: seq<Bucket>)
    requires |all| > 0 && Ordered(groups, all[..|all| - 1], buckets)
    requires |placed| == |buckets| + 1 && forall i :: 0 <= i < |buckets| ==> placed[i].key == buckets[i].key
    requires FirstAt(groups, all, placed[|buckets|].key) == |all| - 1
    ensures Ordered(groups, all, placed)
  {
    forall i | 0 <= i < |buckets|
      ensures FirstAt(groups, all, placed[i].key) < |all| - 1
    {
      FirstAtKept(groups, all, buckets[i].key);
    }
    forall i, j | 0 <= i < j < |placed|
      ensures FirstAt(groups, all, placed[i].key) < FirstAt(groups, all, placed[j].key)
    {
      if j < |buckets| {
        FirstAtKept(groups, all, buckets[i].key);
        FirstAtKept(groups, all, buckets[j].key);
      }
    }
  }

  /** A key seen before the last train keeps its first appearance. */
  lemma FirstAtKept(groups: seq<seq<string>>, all: seq<Train>, key: Option<nat>)
    requires |all| > 0 && FirstAt(groups, all[..|all| - 1], key) < |all| - 1
    ensures FirstAt(groups, all, key) == FirstAt(groups, all[..|all| - 1], key)
  {
  }

  /** A key no earlier train has first appears at the last train, when that train has it. */
  lemma FirstAtNew(groups: seq<seq<string>>, all: seq<Train>)
    requires |all| > 0
    requires forall k :: 0 <= k < |all| - 1 ==> GroupIndex(groups, all[k].name) != GroupIndex(groups, all[|all| - 1].name)
    ensures FirstAt(groups, all, GroupIndex(groups, all[|all| - 1].name)) == |all| - 1
  {
  }

  /** `group_by` keeps its entries in order of first appearance. */
  lemma {:induction false} BucketsOrdered(groups: seq<seq<string>>, trains: seq<Train>)
    ensures Ordered(groups, trains, Buckets(groups, trains))
    decreases |trains|
  {
    if |trains| > 0 {
      var init := trains[..|trains| - 1];
      BucketsOrdered(groups, init);
      BucketsGrouped(groups, init);
      PlaceOrdered(groups, trains, Buckets(groups, init));
    }
  }

  /** Placing a train adds it to the trains laid end to end. */
  lemma PlaceConcat(buckets: seq<Bucket>, key: Option<nat>, t: Train)
    ensures multiset(Concat(Values(Place(buckets, key, t)))) == multiset(Concat(Values(buckets))) + multiset{t}
  {
    match FindKey(buckets, key)
    case None =>
      var placed := buckets + [Bucket(key, [t])];
      assert placed[..|buckets|] == buckets;
      assert Values(placed) == Values(buckets) + [[t]];
      assert Concat(Values(placed)) == Concat(Values(buckets)) + [t];
    case Some(i) =>
      var g := buckets[i].trains + [t];
      var vs := Values(buckets);
      ConcatUpdate(vs, i, g);
      assert Values(buckets[i := Bucket(key, g)]) == vs[i := g];
      assert multiset(g) == multiset(vs[i]) + multiset{t};
      Cancel(multiset(Concat(vs[i := g])), multiset(vs[i]), multiset(Concat(vs)), t);
  }

  lemma Cancel(p: multiset<Train>, x: multiset<Train>, q: multiset<Train>, t: Train)
    requires p + x == q + (x + multiset{t})
    ensures p == q + multiset{t}
  {
    forall y
      ensures p[y] == (q + multiset{t})[y]
    {
      assert (p + x)[y] == (q + (x + multiset{t}))[y];
    }
  }

  lemma Rebalance(a: multiset<Train>, c: multiset<Train>, l: multiset<Train>, x: multiset<Train>, m: multiset<Train>)
    requires a + x == c + m
    ensures a + l + x == c + l + m
  {
    forall y
      ensures (a + l + x)[y] == (c + l + m)[y]
    {
      assert (a + x)[y] == (c + m)[y];
    }
  }

  /** Replacing one group changes the concatenation by exactly that group. */
  lemma {:induction false} ConcatUpdate(gs: seq<seq<Train>>, i: nat, g: seq<Train>)
    requires i < |gs|
    ensures multiset(Concat(gs[i := g])) + multiset(gs[i]) == multiset(Concat(gs)) + multiset(g)
    decreases |gs|
  {
    var n := |gs|;
    var hs := gs[i := g];
    var init := gs[..n - 1];
    var last := gs[n - 1];
    assert Concat(gs) == Concat(init) + last;
    assert multiset(Concat(gs)) == multiset(Concat(init)) + multiset(last);
    if i == n - 1 {
      assert hs[..n - 1] == init;
      assert Concat(hs) == Concat(init) + g;
      assert multiset(Concat(hs)) == multiset(Concat(init)) + multiset(g);
    } else {
      var init' := init[i := g];
      assert hs[..n - 1] == init' && hs[n - 1] == last;
      assert Concat(hs) == Concat(init') + last;
      assert multiset(Concat(hs)) == multiset(Concat(init')) + multiset(last);
      ConcatUpdate(init, i, g);
      assert init[i] == gs[i];
      Rebalance(multiset(Concat(init')), multiset(Concat(init)), multiset(last), multiset(gs[i]), multiset(g));
    }
  }

  /**
   * The train groups of `compute`: together they hold every train exactly
   * once; with declared groups each group is non-empty, holds in order
   * exactly the trains of one key, and no two groups share a key.
   */
  lemma TrainGroupsPartition(groups: Option<seq<seq<string>>>, trains: seq<Train>)
    ensures multiset(Concat(TrainGroups(groups, trains))) == multiset(trains)
    ensures groups.Some? ==> forall i :: 0 <= i < |TrainGroups(groups, trains)| ==>
      && |TrainGroups(groups, trains)[i]| > 0
      && TrainGroups(groups, trains)[i] == WithKey(groups.value, trains, Buckets(groups.value, trains)[i].key)
    ensures groups.Some? ==> forall i, j :: 0 <= i < j < |Buckets(groups.value, trains)| ==>
      Buckets(groups.value, trains)[i].key != Buckets(groups.value, trains)[j].key
    ensures groups.Some? ==> forall t :: t in trains ==>
      exists i :: 0 <= i < |Buckets(groups.value, trains)| && Buckets(groups.value, trains)[i].key == GroupIndex(groups.value, t.name)
    ensures groups.Some? ==> forall i, j :: 0 <= i < j < |Buckets(groups.value, trains)| ==>
      FirstAt(groups.value, trains, Buckets(groups.value, trains)[i].key)
        < FirstAt(groups.value, trains, Buckets(groups.value, trains)[j].key)
  {
    match groups
    case None =>
      assert Concat([trains]) == Concat([trains][..0]) + trains;
    case Some(g) =>
      BucketsGrouped(g, trains);
      BucketsConcat(g, trains);
      BucketsOrdered(g, trains);
      var bs := Buckets(g, trains);
      forall t | t in trains
        ensures exists i :: 0 <= i < |bs| && bs[i].key == GroupIndex(g, t.name)
      {
        var i := FindKey(bs, GroupIndex(g, t.name)).value;
        assert bs[i].key == GroupIndex(g, t.name);
      }
  }

  lemma {:induction false} BucketsConcat(groups: seq<seq<string>>, trains: seq<Train>)
    ensures multiset(Concat(Values(Buckets(groups, trains)))) == multiset(trains)
    decreases |trains|
  {
    if |trains| > 0 {
      var init := trains[..|trains| - 1];
      var t := trains[|trains| - 1];
      var before := Buckets(groups, init);
      var after := Place(before, GroupIndex(groups, t.name), t);
      BucketsConcat(groups, init);
      assert Buckets(groups, trains) == after;
      PlaceConcat(before, GroupIndex(groups, t.name), t);
      MultisetSnoc(trains);
      Chain(multiset(Concat(Values(after))), multiset(Concat(Values(before))), multiset(init), multiset(trains), t);
    }
  }

  lemma MultisetSnoc(s: seq<Train>)
    requires |s| > 0
    ensures multiset(s) == multiset(s[..|s| - 1]) + multiset{s[|s| - 1]}
  {
    assert s == s[..|s| - 1] + [s[|s| - 1]];
  }

  lemma Chain(placed: multiset<Train>, before: multiset<Train>, init: multiset<Train>, all: multiset<Train>, t: Train)
    requires placed == before + multiset{t} && before == init && all == init + multiset{t}
    ensures placed == all
  {
  }
}
