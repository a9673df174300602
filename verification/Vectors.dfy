/**
  The vectors of the stored document: entries that carry a key, found by a first-match scan.
  Nothing here assumes that keys are unique, because a document loaded from disk may repeat one.
 */
module Vectors {
  import opened Wrappers

  /** `iter().find(..)`: the position of the first entry with key `k`. */
  function IndexOf<T, K(==)>(s: seq<T>, key: T -> K, k: K): (r: Option<nat>)
    ensures r.Some? ==> r.value < |s| && key(s[r.value]) == k && forall j | 0 <= j < r.value :: key(s[j]) != k
    ensures r.None? ==> forall j | 0 <= j < |s| :: key(s[j]) != k
  {
    if s == [] then None
    else
      var before := IndexOf(s[..|s| - 1], key, k);
      if before.Some? then before
      else if key(s[|s| - 1]) == k then Some(|s| - 1)
      else None
  }

  function Find<T, K(==)>(s: seq<T>, key: T -> K, k: K): Option<T> {
    match IndexOf(s, key, k)
    case Some(i) => Some(s[i])
    case None => None
  }

  /** Overwrite the first entry with the same key, or push at the end. */
  function Upserted<T, K(==)>(s: seq<T>, key: T -> K, x: T): seq<T> {
    match IndexOf(s, key, key(x))
    case Some(i) => s[i := x]
    case None => s + [x]
  }

  /** `retain(|x| key(x) != k)`. */
  function Without<T, K(==)>(s: seq<T>, key: T -> K, k: K): seq<T> {
    if s == [] then []
    else Without(s[..|s| - 1], key, k) + (if key(s[|s| - 1]) != k then [s[|s| - 1]] else [])
  }

  /** `iter().filter(|x| group(x) == g)`. */
  function Where<T, G(==)>(s: seq<T>, group: T -> G, g: G): seq<T> {
    if s == [] then []
    else Where(s[..|s| - 1], group, g) + (if group(s[|s| - 1]) == g then [s[|s| - 1]] else [])
  }

  ghost predicate Unique<T, K>(s: seq<T>, key: T -> K) {
    forall i, j | 0 <= i < j < |s| :: key(s[i]) != key(s[j])
  }

  ghost function KeysOf<T, K>(s: seq<T>, key: T -> K): (ks: seq<K>)
    ensures |ks| == |s| && forall i | 0 <= i < |s| :: ks[i] == key(s[i])
  {
    seq(|s|, i requires 0 <= i < |s| => key(s[i]))
  }

  /** The map a vector stands for when every lookup takes the first match. */
  ghost function View<T, K(!new)>(s: seq<T>, key: T -> K): (m: map<K, T>)
    ensures forall k :: k in m <==> IndexOf(s, key, k).Some?
    ensures forall k | k in m :: m[k] == s[IndexOf(s, key, k).value]
  {
    if s == [] then map[]
    else
      var last := s[|s| - 1];
      var before := View(s[..|s| - 1], key);
      if key(last) in before then before else before[key(last) := last]
  }

  // ---------- what the scans do, position by position ----------

  ghost predicate IsFirst<T>(s: seq<T>, i: nat, same: T -> bool) {
    i < |s| && same(s[i]) && forall j | 0 <= j < i :: !same(s[j])
  }

  /** `x` stands in place of the first entry that is the same, or at the end if there is none. */
  ghost predicate PutInPlace<T>(s: seq<T>, s': seq<T>, x: T, same: T -> bool) {
    && (forall i: nat | IsFirst(s, i, same) :: s' == s[i := x])
    && ((forall y | y in s :: !same(y)) ==> s' == s + [x])
  }

  lemma UpsertedInPlace<T, K>(s: seq<T>, key: T -> K, x: T, same: T -> bool)
    requires forall y | y in s :: same(y) <==> key(y) == key(x)
    ensures PutInPlace(s, Upserted(s, key, x), x, same)
  {
    FindIsFirst(s, key, key(x), same);
  }

  lemma FindIsFirst<T, K>(s: seq<T>, key: T -> K, k: K, same: T -> bool)
    requires forall y | y in s :: same(y) <==> key(y) == k
    ensures forall i: nat | IsFirst(s, i, same) :: IndexOf(s, key, k) == Some(i) && Find(s, key, k) == Some(s[i])
    ensures Find(s, key, k).None? <==> forall y | y in s :: !same(y)
  {
    forall i: nat | IsFirst(s, i, same)
      ensures IndexOf(s, key, k) == Some(i)
    {
      assert s[i] in s;
      assert IndexOf(s, key, k).Some? ==> s[IndexOf(s, key, k).value] in s;
    }
    match IndexOf(s, key, k) {
      case Some(i) => assert s[i] in s;
      case None =>
        forall y | y in s
          ensures !same(y)
        {
          var j :| 0 <= j < |s| && s[j] == y;
        }
    }
  }

  ghost predicate StandsAt<T>(r: seq<T>, s: seq<T>, at: seq<nat>) {
    && |at| == |r|
    && (forall i, j | 0 <= i < j < |at| :: at[i] < at[j])
    && (forall i | 0 <= i < |at| :: at[i] < |s| && r[i] == s[at[i]])
  }

  /** The entries of `r` stand in `s` as well, in the same order. */
  ghost predicate Subsequence<T>(r: seq<T>, s: seq<T>) {
    exists at :: StandsAt(r, s, at)
  }

  lemma SubsequenceSnoc<T>(r: seq<T>, s: seq<T>, x: T)
    requires Subsequence(r, s)
    ensures Subsequence(r, s + [x]) && Subsequence(r + [x], s + [x])
  {
    var at: seq<nat> :| StandsAt(r, s, at);
    assert StandsAt(r, s + [x], at);
    assert StandsAt(r + [x], s + [x], at + [|s|]);
  }

  lemma {:induction false} WhereInOrder<T, G>(s: seq<T>, group: T -> G, g: G)
    ensures Subsequence(Where(s, group, g), s)
  {
    if s == [] {
      assert StandsAt(Where(s, group, g), s, []);
    } else {
      var init, last := s[..|s| - 1], s[|s| - 1];
      WhereInOrder(init, group, g);
      SubsequenceSnoc(Where(init, group, g), init, last);
      assert init + [last] == s;
      assert group(last) != g ==> Where(s, group, g) == Where(init, group, g);
    }
  }

  lemma {:induction false} WhereCounts<T, G>(s: seq<T>, group: T -> G, g: G, x: T)
    ensures multiset(Where(s, group, g))[x] == if group(x) == g then multiset(s)[x] else 0
  {
    if s == [] {
    } else {
      WhereCounts(s[..|s| - 1], group, g, x);
      assert s == s[..|s| - 1] + [s[|s| - 1]];
    }
  }

  lemma {:induction false} WithoutInOrder<T, K>(s: seq<T>, key: T -> K, k: K)
    ensures Subsequence(Without(s, key, k), s)
  {
    if s == [] {
      assert StandsAt(Without(s, key, k), s, []);
    } else {
      var init, last := s[..|s| - 1], s[|s| - 1];
      WithoutInOrder(init, key, k);
      SubsequenceSnoc(Without(init, key, k), init, last);
      assert init + [last] == s;
      assert key(last) == k ==> Without(s, key, k) == Without(init, key, k);
    }
  }

  lemma {:induction false} WithoutCounts<T, K>(s: seq<T>, key: T -> K, k: K, x: T)
    ensures multiset(Without(s, key, k))[x] == if key(x) != k then multiset(s)[x] else 0
  {
    if s == [] {
    } else {
      WithoutCounts(s[..|s| - 1], key, k, x);
      assert s == s[..|s| - 1] + [s[|s| - 1]];
    }
  }

  // ---------- the vectors refine a map, duplicates included ----------

  lemma UpsertedFirstIndex<T, K(!new)>(s: seq<T>, key: T -> K, x: T, k: K)
    ensures k != key(x) ==> IndexOf(Upserted(s, key, x), key, k) == IndexOf(s, key, k)
    ensures k == key(x) ==> Find(Upserted(s, key, x), key, k) == Some(x)
  {
    var s' := Upserted(s, key, x);
    match IndexOf(s, key, key(x)) {
      case Some(i) =>
        assert forall j | 0 <= j < |s| :: key(s'[j]) == key(s[j]);
      case None =>
        assert s'[|s|] == x;
        assert forall j | 0 <= j < |s| :: s'[j] == s[j];
    }
  }

  /** Upsert is map update on the first-match view. */
  lemma UpsertIsMapUpdate<T, K(!new)>(s: seq<T>, key: T -> K, x: T)
    ensures View(Upserted(s, key, x), key) == View(s, key)[key(x) := x]
  {
    var s' := Upserted(s, key, x);
    forall k: K
      ensures k in View(s', key) <==> k in View(s, key)[key(x) := x]
      ensures k in View(s', key) ==> View(s', key)[k] == View(s, key)[key(x) := x][k]
    {
      UpsertedFirstIndex(s, key, x, k);
      if k != key(x) && IndexOf(s, key, k).Some? {
        assert s'[IndexOf(s, key, k).value] == s[IndexOf(s, key, k).value];
      }
    }
  }

  lemma ViewSnoc<T, K(!new)>(s: seq<T>, key: T -> K, x: T)
    ensures View(s + [x], key) == if key(x) in View(s, key) then View(s, key) else View(s, key)[key(x) := x]
  {
    assert (s + [x])[..|s|] == s;
  }

  /** Delete removes the key entirely from the first-match view: no later duplicate takes its place. */
  lemma {:induction false} RemoveIsMapRemove<T, K(!new)>(s: seq<T>, key: T -> K, k: K)
    ensures View(Without(s, key, k), key) == View(s, key) - {k}
  {
    if s == [] {
    } else {
      var init, last := s[..|s| - 1], s[|s| - 1];
      RemoveIsMapRemove(init, key, k);
      var kept := Without(init, key, k);
      assert View(s, key) == View(init + [last], key) by { assert s == init + [last]; }
      ViewSnoc(init, key, last);
      if key(last) == k {
        assert Without(s, key, k) == kept;
        RemoveAfterUpdate(View(init, key), k, last);
      } else {
        assert Without(s, key, k) == kept + [last];
        ViewSnoc(kept, key, last);
        RemoveElsewhere(View(init, key), k, key(last), last);
      }
    }
  }

  lemma RemoveAfterUpdate<K, T>(m: map<K, T>, k: K, x: T)
    ensures m[k := x] - {k} == m - {k}
  {
  }

  lemma RemoveElsewhere<K, T>(m: map<K, T>, k: K, k': K, x: T)
    requires k != k'
    ensures m[k' := x] - {k} == (m - {k})[k' := x]
  {
  }

  /** An upsert keeps every key where it stood and adds a new one only at the end. */
  lemma UpsertKeepsOrder<T, K(!new)>(s: seq<T>, key: T -> K, x: T)
    ensures KeysOf(Upserted(s, key, x), key)
         == KeysOf(s, key) + (if key(x) in KeysOf(s, key) then [] else [key(x)])
    ensures Unique(s, key) ==> Unique(Upserted(s, key, x), key)
  {
    match IndexOf(s, key, key(x)) {
      case Some(i) => assert KeysOf(s, key)[i] == key(x);
      case None =>
    }
  }

  lemma {:induction false} WithoutMembers<T, K>(s: seq<T>, key: T -> K, k: K, x: T)
    ensures x in Without(s, key, k) <==> x in s && key(x) != k
  {
    if s == [] {
    } else {
      WithoutMembers(s[..|s| - 1], key, k, x);
      assert s == s[..|s| - 1] + [s[|s| - 1]];
    }
  }

  /** `retain` keeps unique keys unique. */
  lemma {:induction false} WithoutKeepsUnique<T, K>(s: seq<T>, key: T -> K, k: K)
    requires Unique(s, key)
    ensures Unique(Without(s, key, k), key)
  {
    if s == [] {
    } else {
      var init := s[..|s| - 1];
      WithoutKeepsUnique(init, key, k);
      var kept := Without(init, key, k);
      forall i | 0 <= i < |kept|
        ensures key(kept[i]) != key(s[|s| - 1])
      {
        WithoutMembers(init, key, k, kept[i]);
        var j :| 0 <= j < |init| && init[j] == kept[i];
        assert key(s[j]) != key(s[|s| - 1]);
      }
    }
  }

  /** `retain` keeps the survivors in order: it acts on each part of the vector separately. */
  lemma {:induction false} WithoutConcat<T, K>(a: seq<T>, b: seq<T>, key: T -> K, k: K)
    ensures Without(a + b, key, k) == Without(a, key, k) + Without(b, key, k)
  {
    if b == [] {
      assert a + b == a;
    } else {
      WithoutConcat(a, b[..|b| - 1], key, k);
      assert (a + b)[..|a + b| - 1] == a + b[..|b| - 1];
    }
  }

  /** Those of the listed keys that are in `kept`, in order. */
  ghost function Among<K>(ks: seq<K>, kept: set<K>): seq<K> {
    if ks == [] then []
    else Among(ks[..|ks| - 1], kept) + (if ks[|ks| - 1] in kept then [ks[|ks| - 1]] else [])
  }

  lemma {:induction false} AmongConcat<K>(a: seq<K>, b: seq<K>, kept: set<K>)
    ensures Among(a + b, kept) == Among(a, kept) + Among(b, kept)
  {
    if b == [] {
      assert a + b == a;
    } else {
      AmongConcat(a, b[..|b| - 1], kept);
      assert (a + b)[..|a + b| - 1] == a + b[..|b| - 1];
    }
  }

  /** `retain` moves no key but the one it removes. */
  lemma {:induction false} WithoutKeepsOrder<T, K(!new)>(s: seq<T>, key: T -> K, k: K, kept: set<K>)
    requires k !in kept
    ensures Among(KeysOf(Without(s, key, k), key), kept) == Among(KeysOf(s, key), kept)
  {
    if s == [] {
    } else {
      var init, last := s[..|s| - 1], s[|s| - 1];
      WithoutKeepsOrder(init, key, k, kept);
      assert KeysOf(s, key)[..|s| - 1] == KeysOf(init, key);
      if key(last) != k {
        var ks := KeysOf(Without(s, key, k), key);
        assert ks[..|ks| - 1] == KeysOf(Without(init, key, k), key);
      } else {
        assert Without(s, key, k) == Without(init, key, k);
      }
    }
  }

  // ---------- per-network lists are a partition ----------

  /** Listing respects the vector's order: a list of a concatenation is the concatenation of lists. */
  lemma {:induction false} WhereConcat<T, G>(a: seq<T>, b: seq<T>, group: T -> G, g: G)
    ensures Where(a + b, group, g) == Where(a, group, g) + Where(b, group, g)
  {
    if b == [] {
      assert a + b == a;
    } else {
      var init, last := b[..|b| - 1], b[|b| - 1];
      WhereConcat(a, init, group, g);
      assert (a + b)[..|a + b| - 1] == a + init;
    }
  }

  /** All the lists of the groups `gs`, added up. */
  ghost function AllLists<T, G>(s: seq<T>, group: T -> G, gs: seq<G>): multiset<T> {
    if gs == [] then multiset{}
    else multiset(Where(s, group, gs[0])) + AllLists(s, group, gs[1..])
  }

  lemma {:induction false} AllListsSnoc<T, G>(s: seq<T>, x: T, group: T -> G, gs: seq<G>)
    requires forall i, j | 0 <= i < j < |gs| :: gs[i] != gs[j]
    ensures AllLists(s + [x], group, gs)
         == AllLists(s, group, gs) + (if group(x) in gs then multiset{x} else multiset{})
  {
    if gs == [] {
    } else {
      AllListsSnoc(s, x, group, gs[1..]);
      assert (s + [x])[..|s|] == s;
      assert group(x) in gs <==> group(x) == gs[0] || group(x) in gs[1..];
    }
  }

  /** Over any list of distinct groups that covers the vector, each entry is listed exactly once. */
  lemma {:induction false} ListsPartition<T, G>(s: seq<T>, group: T -> G, gs: seq<G>)
    requires forall i, j | 0 <= i < j < |gs| :: gs[i] != gs[j]
    requires forall x | x in s :: group(x) in gs
    ensures AllLists(s, group, gs) == multiset(s)
  {
    if s == [] {
      AllListsOfNothing(group, gs);
    } else {
      var init, last := s[..|s| - 1], s[|s| - 1];
      assert s == init + [last];
      ListsPartition(init, group, gs);
      AllListsSnoc(init, last, group, gs);
    }
  }

  lemma {:induction false} AllListsOfNothing<T, G>(group: T -> G, gs: seq<G>)
    ensures AllLists([], group, gs) == multiset{}
  {
    if gs == [] {
    } else {
      AllListsOfNothing(group, gs[1..]);
    }
  }

  /** The entry `x`, as a one-entry list of group `g` or as nothing. */
  ghost function Share<T, G>(x: T, group: T -> G, g: G): multiset<T> {
    if group(x) == g then multiset{x} else multiset{}
  }

  lemma WhereAround<T, G>(a: seq<T>, x: T, b: seq<T>, group: T -> G, g: G)
    ensures Where(a + [x] + b, group, g)
         == Where(a, group, g) + (if group(x) == g then [x] else []) + Where(b, group, g)
    ensures multiset(Where(a + [x] + b, group, g))
         == multiset(Where(a, group, g)) + Share(x, group, g) + multiset(Where(b, group, g))
  {
    WhereConcat(a + [x], b, group, g);
    assert (a + [x])[..|a|] == a;
  }

  /**
    An upsert that may move a key between groups takes the old first match out of its list,
    puts the new entry into its own, and changes no other list.
   */
  lemma UpsertMovesOneEntry<T, K, G>(s: seq<T>, key: T -> K, group: T -> G, x: T, g: G)
    ensures var was := Find(s, key, key(x)); var s' := Upserted(s, key, x);
      && (g != group(x) && (was.Some? ==> g != group(was.value)) ==> Where(s', group, g) == Where(s, group, g))
      && multiset(Where(s', group, g)) + (if was.Some? then Share(was.value, group, g) else multiset{})
      == multiset(Where(s, group, g)) + Share(x, group, g)
  {
    match IndexOf(s, key, key(x)) {
      case None =>
        WhereAround(s, x, [], group, g);
        assert s + [x] + [] == s + [x];
        assert Where([], group, g) == [];
      case Some(i) =>
        var a, b := s[..i], s[i + 1..];
        assert s == a + [s[i]] + b;
        assert Upserted(s, key, x) == a + [x] + b;
        WhereAround(a, s[i], b, group, g);
        WhereAround(a, x, b, group, g);
    }
  }
}
