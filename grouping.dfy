/**
 * Grouping by a string key in first-appearance order: the meaning of the JavaScript
 * `Map` accumulators that the client fills with `forEach` (a key keeps the position of
 * its first `set`, later records only add to its entry).
 */
module Grouping {
  import opened Wrappers
  import opened Seqs

  /** One `Map` entry: its key and the records that went into it, in list order. */
  datatype Group<T> = Group(key: string, members: seq<T>)

  /** The records whose key is `k`. */
  function KeyIs<T>(key: T -> string, k: string): T -> bool {
    x => key(x) == k
  }

  /** The position of the first group with key `k`, or -1. */
  function FindKey<T>(gs: seq<Group<T>>, k: string): (i: int)
    ensures -1 <= i < |gs|
    ensures i >= 0 ==> gs[i].key == k
    ensures i < 0 <==> forall j :: 0 <= j < |gs| ==> gs[j].key != k
  {
    if gs == [] then -1
    else if gs[0].key == k then 0
    else
      var r := FindKey(gs[1..], k);
      if r < 0 then -1 else r + 1
  }

  /** `if (!map.has(k)) map.set(k, ...)` followed by adding `x` to that entry. */
  function Insert<T>(gs: seq<Group<T>>, k: string, x: T): seq<Group<T>> {
    var i := FindKey(gs, k);
    if i < 0 then gs + [Group(k, [x])]
    else gs[i := Group(k, gs[i].members + [x])]
  }

  /** The entries of the `Map` after `s.forEach` has inserted every record. */
  function GroupBy<T>(s: seq<T>, key: T -> string): seq<Group<T>>
    decreases |s|
  {
    if s == [] then []
    else Insert(GroupBy(s[..|s| - 1], key), key(s[|s| - 1]), s[|s| - 1])
  }

  predicate KeysUnique<T>(gs: seq<Group<T>>) {
    forall i, j :: 0 <= i < j < |gs| ==> gs[i].key != gs[j].key
  }

  /** The sum of `f` over the members of one group. */
  function GroupSum<T>(f: T -> real): Group<T> -> real {
    (g: Group<T>) => Sum(g.members, f)
  }

  /**
   * `gs` is the grouping of `s`: distinct keys, every record's key has a group, and each
   * group holds exactly the records with its key, in their original order, never none.
   */
  ghost predicate GroupsOf<T>(gs: seq<Group<T>>, s: seq<T>, key: T -> string) {
    && KeysUnique(gs)
    && (forall j :: 0 <= j < |s| ==> FindKey(gs, key(s[j])) >= 0)
    && (forall i :: 0 <= i < |gs| ==> gs[i].members == Filter(s, KeyIs(key, gs[i].key)))
    && (forall i :: 0 <= i < |gs| ==> gs[i].members != [])
  }

  lemma InsertKeysUnique<T>(gs: seq<Group<T>>, k: string, x: T)
    requires KeysUnique(gs)
    ensures KeysUnique(Insert(gs, k, x))
  {
  }

  lemma {:induction false} InsertCovers<T>(gs: seq<Group<T>>, s: seq<T>, key: T -> string, x: T)
    requires forall j :: 0 <= j < |s| ==> FindKey(gs, key(s[j])) >= 0
    ensures forall j :: 0 <= j < |s + [x]| ==>
      FindKey(Insert(gs, key(x), x), key((s + [x])[j])) >= 0
  {
    var r := Insert(gs, key(x), x);
    var idx := FindKey(gs, key(x));
    forall j | 0 <= j < |s + [x]|
      ensures FindKey(r, key((s + [x])[j])) >= 0
    {
      if j < |s| {
        var m := FindKey(gs, key(s[j]));
        assert r[m].key == key(s[j]);
      } else if idx < 0 {
        assert r[|gs|].key == key(x);
      } else {
        assert r[idx].key == key(x);
      }
    }
  }

  lemma {:induction false} InsertMembers<T>(gs: seq<Group<T>>, s: seq<T>, key: T -> string, x: T)
    requires GroupsOf(gs, s, key)
    ensures forall i :: 0 <= i < |Insert(gs, key(x), x)| ==>
      Insert(gs, key(x), x)[i].members == Filter(s + [x], KeyIs(key, Insert(gs, key(x), x)[i].key))
  {
    var r := Insert(gs, key(x), x);
    var idx := FindKey(gs, key(x));
    assert (s + [x])[..|s|] == s;
    forall i | 0 <= i < |r|
      ensures r[i].members == Filter(s + [x], KeyIs(key, r[i].key))
    {
      var p := KeyIs(key, r[i].key);
      assert Filter(s + [x], p) == Filter(s, p) + (if p(x) then [x] else []);
      if idx < 0 && i == |gs| {
        assert forall j :: 0 <= j < |s| ==> !p(s[j]);
        FilterNone(s, p);
      }
    }
  }

  lemma InsertNonEmpty<T>(gs: seq<Group<T>>, k: string, x: T)
    requires forall i :: 0 <= i < |gs| ==> gs[i].members != []
    ensures forall i :: 0 <= i < |Insert(gs, k, x)| ==> Insert(gs, k, x)[i].members != []
  {
  }

  /** Inserting one more record keeps the groups the grouping of the longer list. */
  lemma InsertGroupsOf<T>(gs: seq<Group<T>>, s: seq<T>, key: T -> string, x: T)
    requires GroupsOf(gs, s, key)
    ensures GroupsOf(Insert(gs, key(x), x), s + [x], key)
  {
    InsertKeysUnique(gs, key(x), x);
    InsertCovers(gs, s, key, x);
    InsertMembers(gs, s, key, x);
    InsertNonEmpty(gs, key(x), x);
  }

  /** The grouping described by `GroupsOf` is what `GroupBy` computes. */
  lemma {:induction false} GroupByShape<T>(s: seq<T>, key: T -> string)
    ensures GroupsOf(GroupBy(s, key), s, key)
  {
    if s != [] {
      var init := s[..|s| - 1];
      var x := s[|s| - 1];
      InitLast(s);
      GroupByShape(init, key);
      InsertGroupsOf(GroupBy(init, key), init, key, x);
    }
  }

  /** Summing the group totals gives the total over all records. */
  lemma {:induction false} GroupBySum<T>(s: seq<T>, key: T -> string, f: T -> real)
    ensures Sum(GroupBy(s, key), GroupSum(f)) == Sum(s, f)
  {
    if s != [] {
      var init := s[..|s| - 1];
      var x := s[|s| - 1];
      var gs := GroupBy(init, key);
      GroupBySum(init, key, f);
      var idx := FindKey(gs, key(x));
      var g := GroupSum(f);
      if idx < 0 {
        var ng := Group(key(x), [x]);
        SumAppend(gs, [ng], g);
        assert [ng][..0] == [];
        assert [x][..0] == [];
        assert g(ng) == Sum([x], f) == f(x);
      } else {
        var ng := Group(key(x), gs[idx].members + [x]);
        SumUpdate(gs, idx, ng, g);
        assert (gs[idx].members + [x])[..|gs[idx].members|] == gs[idx].members;
      }
    }
  }

  // ---------------------------------------------------------------- accumulating entries

  /**
   * The entry a `Map` accumulator holds once the records `m` of one key have gone in:
   * none before the first; the first record creates it with `init`, and each record
   * (the first included) then updates it with `upd`.
   */
  function Entry<T, A>(init: T -> A, upd: (A, T) -> A, m: seq<T>): (r: Option<A>)
    ensures r.Some? <==> m != []
    decreases |m|
  {
    if m == [] then None
    else
      var x := m[|m| - 1];
      var prev := Entry(init, upd, m[..|m| - 1]);
      Some(upd(if prev.Some? then prev.value else init(x), x))
  }

  /** `index` maps each of `keys` to its position, and nothing else. */
  ghost predicate Indexes(keys: seq<string>, index: map<string, nat>) {
    && (forall k :: k in index <==> k in keys)
    && (forall k :: k in index ==> index[k] < |keys| && keys[index[k]] == k)
  }

  /** `if (!map.has(k)) map.set(k, ...)` keeps the index in step with the keys. */
  lemma IndexesInsert(keys: seq<string>, index: map<string, nat>, k: string,
                      keys': seq<string>, index': map<string, nat>)
    requires Indexes(keys, index)
    requires k !in index ==> index' == index[k := |keys|] && keys' == keys + [k]
    requires k in index ==> index' == index && keys' == keys
    ensures Indexes(keys', index')
  {
  }

  /** The accumulator's keys, entries and key-to-position index hold the groups `gs`. */
  ghost predicate Holds<T, A>(gs: seq<Group<T>>, keys: seq<string>, accs: seq<A>, index: map<string, nat>,
                              init: T -> A, upd: (A, T) -> A) {
    && |keys| == |accs| == |gs|
    && (forall i :: 0 <= i < |gs| ==> keys[i] == gs[i].key && Entry(init, upd, gs[i].members) == Some(accs[i]))
    && Indexes(keys, index)
  }

  /** One record going into the accumulator keeps it in step with `Insert`. */
  lemma HoldsInsert<T, A>(gs: seq<Group<T>>, keys: seq<string>, accs: seq<A>, index: map<string, nat>,
                          init: T -> A, upd: (A, T) -> A, k: string, x: T,
                          keys': seq<string>, accs': seq<A>, index': map<string, nat>)
    requires Holds(gs, keys, accs, index, init, upd) && KeysUnique(gs)
    requires k !in index ==> && index' == index[k := |accs|] && keys' == keys + [k]
                             && accs' == accs + [upd(init(x), x)]
    requires k in index ==> && index' == index && keys' == keys
                            && accs' == accs[index[k] := upd(accs[index[k]], x)]
    ensures Holds(Insert(gs, k, x), keys', accs', index', init, upd)
  {
    var gs' := Insert(gs, k, x);
    var idx := FindKey(gs, k);
    IndexesInsert(keys, index, k, keys', index');
    if k in index {
      assert idx == index[k];
    } else {
      assert idx < 0;
    }
    forall j | 0 <= j < |gs'|
      ensures keys'[j] == gs'[j].key && Entry(init, upd, gs'[j].members) == Some(accs'[j])
    {
      if j == |gs| {
        assert gs'[j].members == [x];
        assert [x][..0] == [];
      } else if j == idx {
        var m := gs[j].members + [x];
        assert m[..|m| - 1] == gs[j].members;
      }
    }
  }

  /**
   * `s.forEach((x) => { const k = key(x); if (!map.has(k)) map.set(k, init(x));
   * map.set(k, upd(map.get(k), x)); })` followed by reading the keys and the entries:
   * one entry per group of `GroupBy`, in the same order, each the accumulation of the
   * group's records.
   */
  method AccumulateByKey<T, A>(s: seq<T>, key: T -> string, init: T -> A, upd: (A, T) -> A)
    returns (keys: seq<string>, accs: seq<A>)
    ensures var gs := GroupBy(s, key);
      && |keys| == |accs| == |gs|
      && forall i :: 0 <= i < |gs| ==> keys[i] == gs[i].key && Entry(init, upd, gs[i].members) == Some(accs[i])
  {
    var index: map<string, nat> := map[];
    keys, accs := [], [];
    for n := 0 to |s|
      invariant Holds(GroupBy(s[..n], key), keys, accs, index, init, upd)
    {
      var x := s[n];
      var k := key(x);
      ghost var gs := GroupBy(s[..n], key);
      ghost var keys0, accs0, index0 := keys, accs, index;
      GroupByShape(s[..n], key);
      assert s[..n + 1][..n] == s[..n];
      assert GroupBy(s[..n + 1], key) == Insert(gs, k, x);
      if k !in index {
        index := index[k := |accs|];
        keys := keys + [k];
        accs := accs + [init(x)];
      }
      var i := index[k];
      accs := accs[i := upd(accs[i], x)];
      if k !in index0 {
        assert i == |accs0|;
        UpdateLast(accs0, init(x), upd(init(x), x));
      } else {
        assert i == index0[k];
      }
      HoldsInsert(gs, keys0, accs0, index0, init, upd, k, x, keys, accs, index);
    }
    assert s[..|s|] == s;
  }
}
