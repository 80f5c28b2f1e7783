/**
 * `sort_posts` (utils.py): reorders the caller's result list in place by
 * one field, descending unless `ascending` is given, using Python's
 * `list.sort`, which is stable also when `reverse=True`. A post is a
 * dictionary; the model keeps its integer-valued fields.
 */
module PostSort {

  /** A post as a dictionary from field names to (integer) values. */
  type Record = map<string, int>

  /** The Python exceptions `sort_posts` can let escape. */
  datatype Exception = IndexError | KeyError

  /** What a call of `sort_posts` ends with: a returned boolean or a raised exception. */
  datatype SortOutcome = Returned(sorted: bool) | Raised(error: Exception)

  /** Every record has the field `key`. */
  predicate AllHave(s: seq<Record>, key: string)
  {
    forall i :: 0 <= i < |s| ==> key in s[i]
  }

  /** Whether a record with key value `a` may stand before one with value `b`. */
  predicate InOrder(a: int, b: int, descending: bool)
  {
    if descending then a >= b else a <= b
  }

  /** Non-increasing (descending) or non-decreasing (ascending) by `key`. */
  predicate Ordered(s: seq<Record>, key: string, descending: bool)
    requires AllHave(s, key)
  {
    forall i, j :: 0 <= i < j < |s| ==> InOrder(s[i][key], s[j][key], descending)
  }

  /** The records whose `key` field equals `v`, in their order in `s`. */
  function WithValue(s: seq<Record>, key: string, v: int): seq<Record>
    requires AllHave(s, key)
  {
    if |s| == 0 then []
    else (if s[0][key] == v then [s[0]] else []) + WithValue(s[1..], key, v)
  }

  /** Puts `x` in front of the first record it may stand before. */
  function Insert(x: Record, s: seq<Record>, key: string, descending: bool): (r: seq<Record>)
    requires key in x && AllHave(s, key)
    ensures multiset(r) == multiset(s) + multiset{x}
    ensures AllHave(r, key)
  {
    if |s| == 0 || InOrder(x[key], s[0][key], descending) then [x] + s
    else
      assert s == [s[0]] + s[1..];
      [s[0]] + Insert(x, s[1..], key, descending)
  }

  /**
   * The order `list.sort(key=lambda post: post[key], reverse=descending)`
   * leaves the list in: a stable insertion sort, specified by the lemmas
   * below. The result is a permutation of the input.
   */
  function StableSort(s: seq<Record>, key: string, descending: bool): (r: seq<Record>)
    requires AllHave(s, key)
    ensures multiset(r) == multiset(s)
    ensures AllHave(r, key)
  {
    if |s| == 0 then []
    else
      assert s == [s[0]] + s[1..];
      Insert(s[0], StableSort(s[1..], key, descending), key, descending)
  }

  /** The Python list object holding the current results. */
  class PostList {
    var items: seq<Record>

    constructor (items: seq<Record>)
      ensures this.items == items
    {
      this.items := items;
    }

    /**
     * `list.sort`: all keys are computed first; if one record lacks the
     * field, `KeyError` escapes and the list is left as it was.
     */
    method Sort(key: string, descending: bool) returns (raised: bool)
      modifies this
      ensures raised <==> !AllHave(old(items), key)
      ensures raised ==> items == old(items)
      ensures !raised ==> items == StableSort(old(items), key, descending)
    {
      raised := !AllHave(items, key);
      if !raised {
        items := StableSort(items, key, descending);
      }
    }
  }

  /**
   * `sort_posts(post_results, sort_by, ascending)`. The field is looked up
   * on the first post only; an empty list raises `IndexError`, a field
   * missing from the first post returns `False`, and a field missing from
   * a later post makes the sort raise `KeyError`. In each of these cases
   * the list is unchanged. Otherwise the list is stably sorted and `True`
   * is returned.
   */
  method SortPosts(postResults: PostList, sortBy: string, ascending: bool := false) returns (outcome: SortOutcome)
    modifies postResults
    ensures old(postResults.items) == [] ==>
      outcome == Raised(IndexError) && postResults.items == old(postResults.items)
    ensures old(postResults.items) != [] && sortBy !in old(postResults.items)[0] ==>
      outcome == Returned(false) && postResults.items == old(postResults.items)
    ensures old(postResults.items) != [] && sortBy in old(postResults.items)[0]
            && !AllHave(old(postResults.items), sortBy) ==>
      outcome == Raised(KeyError) && postResults.items == old(postResults.items)
    ensures old(postResults.items) != [] && AllHave(old(postResults.items), sortBy) ==>
      outcome == Returned(true)
      && postResults.items == StableSort(old(postResults.items), sortBy, !ascending)
  {
    if |postResults.items| == 0 {
      return Raised(IndexError);
    }
    if sortBy !in postResults.items[0] {
      return Returned(false);
    }
    var raised := postResults.Sort(sortBy, !ascending);
    if raised {
      return Raised(KeyError);
    }
    return Returned(true);
  }

  lemma {:induction false} InsertOrdered(x: Record, s: seq<Record>, key: string, descending: bool)
    requires key in x && AllHave(s, key) && Ordered(s, key, descending)
    ensures Ordered(Insert(x, s, key, descending), key, descending)
  {
    var r := Insert(x, s, key, descending);
    if |s| == 0 || InOrder(x[key], s[0][key], descending) {
      assert r == [x] + s;
    } else {
      var tail := Insert(x, s[1..], key, descending);
      assert r == [s[0]] + tail;
      InsertOrdered(x, s[1..], key, descending);
      forall j | 0 <= j < |tail|
        ensures InOrder(s[0][key], tail[j][key], descending)
      {
        assert tail[j] in multiset(tail);
        if tail[j] != x {
          assert tail[j] in multiset(s[1..]);
          var k :| 0 <= k < |s[1..]| && s[1..][k] == tail[j];
          assert s[k + 1] == tail[j];
        }
      }
    }
  }

  /** The sorted list is ordered by the key: non-increasing by default, non-decreasing when ascending. */
  lemma {:induction false} StableSortOrdered(s: seq<Record>, key: string, descending: bool)
    requires AllHave(s, key)
    ensures Ordered(StableSort(s, key, descending), key, descending)
  {
    if |s| > 0 {
      StableSortOrdered(s[1..], key, descending);
      InsertOrdered(s[0], StableSort(s[1..], key, descending), key, descending);
    }
  }

  /** Filtering a list with a record in front. */
  lemma WithValueCons(x: Record, s: seq<Record>, key: string, v: int)
    requires key in x && AllHave(s, key)
    ensures WithValue([x] + s, key, v) == (if x[key] == v then [x] else []) + WithValue(s, key, v)
  {
    assert ([x] + s)[0] == x && ([x] + s)[1..] == s;
  }

  /** Inserting `x` puts it before every record with the same key value. */
  lemma {:induction false} InsertKeepsTies(x: Record, s: seq<Record>, key: string, descending: bool, v: int)
    requires key in x && AllHave(s, key)
    ensures WithValue(Insert(x, s, key, descending), key, v)
            == (if x[key] == v then [x] else []) + WithValue(s, key, v)
  {
    if |s| == 0 || InOrder(x[key], s[0][key], descending) {
      WithValueCons(x, s, key, v);
    } else {
      var tail := Insert(x, s[1..], key, descending);
      InsertKeepsTies(x, s[1..], key, descending, v);
      WithValueCons(s[0], tail, key, v);
      WithValueCons(s[0], s[1..], key, v);
      assert s == [s[0]] + s[1..];
      assert s[0][key] != x[key];
    }
  }

  /**
   * Stability: for every key value, the records carrying it appear in the
   * sorted list in exactly their original relative order.
   */
  lemma {:induction false} StableSortKeepsTies(s: seq<Record>, key: string, descending: bool, v: int)
    requires AllHave(s, key)
    ensures WithValue(StableSort(s, key, descending), key, v) == WithValue(s, key, v)
  {
    if |s| > 0 {
      StableSortKeepsTies(s[1..], key, descending, v);
      InsertKeepsTies(s[0], StableSort(s[1..], key, descending), key, descending, v);
    }
  }

  /** A list that is already ordered is left exactly as it is. */
  lemma {:induction false} StableSortOfOrdered(s: seq<Record>, key: string, descending: bool)
    requires AllHave(s, key) && Ordered(s, key, descending)
    ensures StableSort(s, key, descending) == s
  {
    if |s| > 0 {
      StableSortOfOrdered(s[1..], key, descending);
      assert s == [s[0]] + s[1..];
    }
  }

  /** Repeating the same sort changes nothing. */
  lemma StableSortIdempotent(s: seq<Record>, key: string, descending: bool)
    requires AllHave(s, key)
    ensures StableSort(StableSort(s, key, descending), key, descending) == StableSort(s, key, descending)
  {
    StableSortOrdered(s, key, descending);
    StableSortOfOrdered(StableSort(s, key, descending), key, descending);
  }

  /** A record with key value `v` shows up in the records filtered by `v`. */
  lemma {:induction false} WithValueHasMember(s: seq<Record>, key: string, i: nat)
    requires AllHave(s, key) && i < |s|
    ensures s[i] in WithValue(s, key, s[i][key])
  {
    if i > 0 {
      WithValueHasMember(s[1..], key, i - 1);
    }
  }

  /** Every record filtered by `v` is a record of `s` with key value `v`. */
  lemma {:induction false} WithValueMembers(s: seq<Record>, key: string, v: int, y: Record)
    requires AllHave(s, key) && y in WithValue(s, key, v)
    ensures exists i :: 0 <= i < |s| && s[i] == y && y[key] == v
  {
    if s[0][key] == v && y == s[0] {
      assert s[0] == y;
    } else {
      WithValueMembers(s[1..], key, v, y);
      var i :| 0 <= i < |s[1..]| && s[1..][i] == y && y[key] == v;
      assert s[i + 1] == y;
    }
  }

  /**
   * Two ordered lists with the same records per key value, in the same
   * order, are equal: the order and the ties determine a sorted list.
   */
  lemma {:induction false} OrderedWithSameTiesAreEqual(a: seq<Record>, b: seq<Record>, key: string, descending: bool)
    requires AllHave(a, key) && AllHave(b, key)
    requires Ordered(a, key, descending) && Ordered(b, key, descending)
    requires forall v :: WithValue(a, key, v) == WithValue(b, key, v)
    ensures a == b
  {
    if |a| == 0 || |b| == 0 {
      if |a| > 0 {
        WithValueHasMember(a, key, 0);
        assert false;
      } else if |b| > 0 {
        WithValueHasMember(b, key, 0);
        assert false;
      }
    } else {
      var va, vb := a[0][key], b[0][key];
      WithValueHasMember(b, key, 0);
      WithValueMembers(a, key, vb, b[0]);
      WithValueHasMember(a, key, 0);
      WithValueMembers(b, key, va, a[0]);
      assert va == vb;
      assert WithValue(a, key, va) == [a[0]] + WithValue(a[1..], key, va);
      assert WithValue(b, key, va) == [b[0]] + WithValue(b[1..], key, va);
      assert WithValue(a, key, va)[0] == a[0];
      assert a[0] == b[0];
      forall v
        ensures WithValue(a[1..], key, v) == WithValue(b[1..], key, v)
      {
        var head := if a[0][key] == v then [a[0]] else [];
        assert WithValue(a, key, v) == head + WithValue(a[1..], key, v);
        assert WithValue(b, key, v) == head + WithValue(b[1..], key, v);
        assert WithValue(a, key, v) == WithValue(b, key, v);
        assert (head + WithValue(a[1..], key, v))[|head|..] == WithValue(a[1..], key, v);
        assert (head + WithValue(b[1..], key, v))[|head|..] == WithValue(b[1..], key, v);
      }
      OrderedWithSameTiesAreEqual(a[1..], b[1..], key, descending);
      assert a == [a[0]] + a[1..] && b == [b[0]] + b[1..];
    }
  }

  /**
   * Sorting twice by the same field leaves the order of the second sort
   * alone: whatever direction came first, the result is what sorting the
   * original list in the second direction gives.
   */
  lemma LastSortWins(s: seq<Record>, key: string, first: bool, second: bool)
    requires AllHave(s, key)
    ensures StableSort(StableSort(s, key, first), key, second) == StableSort(s, key, second)
  {
    var once := StableSort(s, key, first);
    var twice := StableSort(once, key, second);
    var direct := StableSort(s, key, second);
    StableSortOrdered(once, key, second);
    StableSortOrdered(s, key, second);
    forall v
      ensures WithValue(twice, key, v) == WithValue(direct, key, v)
    {
      StableSortKeepsTies(once, key, second, v);
      StableSortKeepsTies(s, key, first, v);
      StableSortKeepsTies(s, key, second, v);
    }
    OrderedWithSameTiesAreEqual(twice, direct, key, second);
  }

  /**
   * Two distinct posts with equal values of the field: sorting ascending
   * keeps them in place, and sorting that result descending keeps them in
   * place too, so the descending order is not the reverse of the
   * ascending one.
   */
  lemma TiedPairKeepsOrder(a: Record, b: Record, key: string)
    requires key in a && key in b && a[key] == b[key] && a != b
    ensures StableSort([a, b], key, false) == [a, b]
    ensures StableSort(StableSort([a, b], key, false), key, true) == [a, b]
    ensures [a, b] != [b, a]
  {
    var none: seq<Record> := [];
    assert [a, b][1..] == [b] && [b][1..] == none;
    assert StableSort([b], key, false) == [b];
    assert StableSort([b], key, true) == [b];
  }
}
