/**
 * A Python `dict` from strings to strings, which remembers insertion order:
 * a sequence of items. `IsDict` says its keys are distinct; `ToMap` forgets
 * the order.
 */
module Dict {
  import opened Wrappers

  datatype Item = Item(key: string, value: string)

  type Items = seq<Item>

  function Keys(d: Items): seq<string> {
    seq(|d|, i requires 0 <= i < |d| => d[i].key)
  }

  /** The dict pairing `ks[i]` with `vs[i]`. */
  function Zip(ks: seq<string>, vs: seq<string>): (d: Items)
    requires |ks| == |vs|
    ensures |d| == |ks| && Keys(d) == ks
    ensures forall i :: 0 <= i < |d| ==> d[i] == Item(ks[i], vs[i])
  {
    seq(|ks|, i requires 0 <= i < |ks| => Item(ks[i], vs[i]))
  }

  predicate Distinct(ks: seq<string>) {
    forall i, j :: 0 <= i < j < |ks| ==> ks[i] != ks[j]
  }

  predicate IsDict(d: Items) {
    Distinct(Keys(d))
  }

  /** The first position of `k` in `ks`. */
  function IndexOf(ks: seq<string>, k: string): (r: Option<nat>)
    ensures r.None? <==> k !in ks
    ensures r.Some? ==> r.value < |ks| && ks[r.value] == k
    ensures r.Some? ==> forall j :: 0 <= j < r.value ==> ks[j] != k
  {
    if ks == [] then None
    else if ks[0] == k then Some(0)
    else match IndexOf(ks[1..], k)
      case None => None
      case Some(i) => Some(i + 1)
  }

  /** In a sequence without repetitions, the position of `ks[i]` is `i`. */
  lemma IndexOfDistinct(ks: seq<string>, i: nat)
    requires Distinct(ks) && i < |ks|
    ensures IndexOf(ks, ks[i]) == Some(i)
  {
  }

  /** `d[k]`; `None` is the `KeyError`. */
  function Get(d: Items, k: string): (r: Option<string>)
    ensures r.Some? <==> k in Keys(d)
    ensures r.Some? ==> Item(k, r.value) in d
  {
    match IndexOf(Keys(d), k)
    case None => None
    case Some(i) => Some(d[i].value)
  }

  /** In a dict, looking a key up gives exactly the value of its item. */
  lemma GetInDict(d: Items, k: string, v: string)
    requires IsDict(d)
    ensures Get(d, k) == Some(v) <==> Item(k, v) in d
  {
    if Item(k, v) in d {
      var i :| 0 <= i < |d| && d[i] == Item(k, v);
      assert Keys(d)[i] == k;
      IndexOfDistinct(Keys(d), i);
    }
  }

  /** The order-forgetting view of a dict. */
  function ToMap(d: Items): (m: map<string, string>)
    ensures m.Keys == set k | k in Keys(d)
  {
    map k | k in Keys(d) :: Get(d, k).value
  }

  /** `d[k] = v`: an existing key keeps its position and gets `v`; a new key goes last. */
  function Assign(d: Items, k: string, v: string): (r: Items)
    ensures k !in Keys(d) ==> r == d + [Item(k, v)]
    ensures k in Keys(d) ==> Keys(r) == Keys(d)
    ensures k !in Keys(d) ==> Keys(r) == Keys(d) + [k]
    ensures IsDict(d) ==> IsDict(r)
    ensures Get(r, k) == Some(v)
    ensures forall k' :: k' != k ==> Get(r, k') == Get(d, k')
  {
    match IndexOf(Keys(d), k)
    case None =>
      var r := d + [Item(k, v)];
      assert Keys(r) == Keys(d) + [k];
      assert forall k' :: k' != k && k' in Keys(d) ==> IndexOf(Keys(r), k') == IndexOf(Keys(d), k') by {
        forall k' | k' != k && k' in Keys(d) ensures IndexOf(Keys(r), k') == IndexOf(Keys(d), k') {
          IndexOfAppend(Keys(d), k, k');
        }
      }
      IndexOfAppend(Keys(d), k, k);
      r
    case Some(i) =>
      var r := d[i := Item(k, v)];
      assert Keys(r) == Keys(d);
      r
  }

  /** Looking up in `ks + [x]` finds what `ks` finds, else the new last position. */
  lemma {:induction false} IndexOfAppend(ks: seq<string>, x: string, k: string)
    ensures IndexOf(ks + [x], k) == if k in ks then IndexOf(ks, k) else if k == x then Some(|ks|) else None
  {
    if ks != [] {
      assert (ks + [x])[1..] == ks[1..] + [x];
      IndexOfAppend(ks[1..], x, k);
    }
  }

  /** `d` without its item at position `i`. */
  function RemoveAt(d: Items, i: nat): (r: Items)
    requires i < |d|
    ensures |r| == |d| - 1
    ensures forall a :: 0 <= a < |r| ==> r[a] == d[if a < i then a else a + 1]
  {
    d[..i] + d[i + 1..]
  }

  /** Removing an item of a dict leaves a dict without that key. */
  lemma RemoveAtKeys(d: Items, i: nat)
    requires IsDict(d) && i < |d|
    ensures IsDict(RemoveAt(d, i)) && d[i].key !in Keys(RemoveAt(d, i))
  {
    var rest := RemoveAt(d, i);
    forall a, b | 0 <= a < b < |rest| ensures Keys(rest)[a] != Keys(rest)[b] {
      assert Keys(rest)[a] == Keys(d)[if a < i then a else a + 1];
      assert Keys(rest)[b] == Keys(d)[if b < i then b else b + 1];
    }
    forall a | 0 <= a < |rest| ensures Keys(rest)[a] != d[i].key {
      assert Keys(rest)[a] == Keys(d)[if a < i then a else a + 1];
      assert Keys(d)[i] == d[i].key;
    }
  }

  /** Removing an item of a dict keeps exactly the items with another key. */
  lemma RemoveAtItems(d: Items, i: nat)
    requires IsDict(d) && i < |d|
    ensures forall it :: it in RemoveAt(d, i) <==> it in d && it.key != d[i].key
  {
    var rest := RemoveAt(d, i);
    RemoveAtKeys(d, i);
    forall it | it in rest ensures it in d && it.key != d[i].key {
      var a :| 0 <= a < |rest| && rest[a] == it;
      assert Keys(rest)[a] == it.key;
    }
    forall it | it in d && it.key != d[i].key ensures it in rest {
      var b :| 0 <= b < |d| && d[b] == it;
      assert b != i;
      var a := if b < i then b else b - 1;
      assert rest[a] == d[b];
    }
  }

  /**
   * `d.pop(k)`: the value of `k` and `d` without its item; `None` is the
   * `KeyError` raised when `k` is missing.
   */
  function Pop(d: Items, k: string): (r: Option<(string, Items)>)
    ensures r.Some? <==> k in Keys(d)
    ensures r.Some? ==> Get(d, k) == Some(r.value.0)
    ensures r.Some? && IsDict(d) ==> IsDict(r.value.1) && k !in Keys(r.value.1)
    ensures r.Some? && IsDict(d) ==> forall it :: it in r.value.1 <==> it in d && it.key != k
  {
    match IndexOf(Keys(d), k)
    case None => None
    case Some(i) =>
      if IsDict(d) then
        RemoveAtKeys(d, i);
        RemoveAtItems(d, i);
        Some((d[i].value, RemoveAt(d, i)))
      else
        Some((d[i].value, RemoveAt(d, i)))
  }

  /** Popping removes exactly one item. */
  lemma PopLength(d: Items, k: string)
    requires k in Keys(d)
    ensures |Pop(d, k).value.1| == |d| - 1
  {
  }

  /** Popping `k` leaves every other lookup as it was. */
  lemma PopOthers(d: Items, k: string, k': string)
    requires IsDict(d) && k in Keys(d) && k' != k
    ensures Get(Pop(d, k).value.1, k') == Get(d, k')
  {
    var rest := Pop(d, k).value.1;
    if k' in Keys(d) {
      var w := Get(d, k').value;
      GetInDict(d, k', w);
      assert Item(k', w) in rest;
      var a :| 0 <= a < |rest| && rest[a] == Item(k', w);
      assert Keys(rest)[a] == k';
      GetInDict(rest, k', w);
    } else {
      forall a | 0 <= a < |rest| ensures Keys(rest)[a] != k' {
        assert rest[a] in d;
        var b :| 0 <= b < |d| && d[b] == rest[a];
        assert Keys(d)[b] == rest[a].key;
      }
    }
  }

  /** The items of `d` whose value is not the empty string, in their order. */
  function NonEmptyItems(d: Items): (r: Items)
    ensures forall it :: it in r <==> it in d && it.value != ""
  {
    if d == [] then []
    else (if d[0].value != "" then [d[0]] else []) + NonEmptyItems(d[1..])
  }

  /** Filtering distributes over concatenation: it keeps the order of `d`. */
  lemma {:induction false} NonEmptyItemsAppend(a: Items, b: Items)
    ensures NonEmptyItems(a + b) == NonEmptyItems(a) + NonEmptyItems(b)
  {
    if a == [] {
      assert a + b == b;
    } else {
      assert (a + b)[0] == a[0];
      assert (a + b)[1..] == a[1..] + b;
      NonEmptyItemsAppend(a[1..], b);
    }
  }

  lemma KeysCons(it: Item, t: Items)
    ensures Keys([it] + t) == [it.key] + Keys(t)
  {
  }

  lemma DistinctCons(x: string, ks: seq<string>)
    ensures Distinct([x] + ks) <==> x !in ks && Distinct(ks)
  {
    if Distinct([x] + ks) {
      forall a, b | 0 <= a < b < |ks| ensures ks[a] != ks[b] {
        assert ([x] + ks)[a + 1] == ks[a] && ([x] + ks)[b + 1] == ks[b];
      }
      forall a | 0 <= a < |ks| ensures ks[a] != x {
        assert ([x] + ks)[a + 1] == ks[a] && ([x] + ks)[0] == x;
      }
    }
    if x !in ks && Distinct(ks) {
      forall a, b | 0 <= a < b < |[x] + ks| ensures ([x] + ks)[a] != ([x] + ks)[b] {
        assert ([x] + ks)[b] == ks[b - 1];
        if a > 0 {
          assert ([x] + ks)[a] == ks[a - 1];
        }
      }
    }
  }

  /** Dropping items cannot make two keys collide. */
  lemma {:induction false} NonEmptyItemsIsDict(d: Items)
    requires IsDict(d)
    ensures IsDict(NonEmptyItems(d))
  {
    if d != [] {
      assert d == [d[0]] + d[1..];
      KeysCons(d[0], d[1..]);
      DistinctCons(d[0].key, Keys(d[1..]));
      NonEmptyItemsIsDict(d[1..]);
      var tail := NonEmptyItems(d[1..]);
      if d[0].value != "" {
        forall a | 0 <= a < |tail| ensures Keys(tail)[a] != d[0].key {
          assert tail[a] in d[1..];
          var b :| 0 <= b < |d[1..]| && d[1..][b] == tail[a];
          assert Keys(d[1..])[b] == tail[a].key;
        }
        assert NonEmptyItems(d) == [d[0]] + tail;
        KeysCons(d[0], tail);
        DistinctCons(d[0].key, Keys(tail));
      } else {
        assert NonEmptyItems(d) == tail;
      }
    }
  }

  /**
   * `{k: v for k, v in ps}`: the items assigned one by one, so a repeated
   * key keeps its first position and its last value.
   */
  function Comprehension(ps: Items): (r: Items)
    ensures IsDict(r)
    ensures forall k :: k in Keys(r) <==> k in Keys(ps)
  {
    if ps == [] then []
    else
      var last := ps[|ps| - 1];
      assert Keys(ps) == Keys(ps[..|ps| - 1]) + [last.key];
      Assign(Comprehension(ps[..|ps| - 1]), last.key, last.value)
  }

  /** A comprehension over pairs whose keys are already distinct rebuilds them unchanged. */
  lemma {:induction false} ComprehensionOfDict(ps: Items)
    requires IsDict(ps)
    ensures Comprehension(ps) == ps
  {
    if ps != [] {
      var n := |ps| - 1;
      InitOfDict(ps);
      ComprehensionOfDict(ps[..n]);
      assert ps[..n] + [Item(ps[n].key, ps[n].value)] == ps;
    }
  }

  /** All but the last item of a dict form a dict that lacks the last key. */
  lemma InitOfDict(ps: Items)
    requires IsDict(ps) && ps != []
    ensures IsDict(ps[..|ps| - 1]) && ps[|ps| - 1].key !in Keys(ps[..|ps| - 1])
  {
    var n := |ps| - 1;
    assert Keys(ps[..n]) == Keys(ps)[..n];
    assert Keys(ps)[n] == ps[n].key;
  }


}
