/**
 Counting what is owned. An item is a job in somebody's possession together with what is left
 of its plan; a token function says which tokens an item stands for, and `Total` collects the
 tokens of a list of items.
 */
module Tokens {
  import opened Jobs

  datatype Item = Nothing | Item(job: Job, rest: seq<Act>)

  /** The message itself. */
  function MessageToken(i: Item): multiset<int> {
    if i.Item? then multiset{i.job.id} else multiset{}
  }

  /** The right and duty to close a descriptor. */
  function CloseToken(i: Item): multiset<int> {
    if i.Item? && Close in i.rest then multiset{i.job.fd} else multiset{}
  }

  function Total(items: seq<Item>, f: Item -> multiset<int>): multiset<int> {
    if items == [] then multiset{} else f(items[0]) + Total(items[1..], f)
  }

  lemma {:induction false} TotalAppend(items: seq<Item>, x: Item, f: Item -> multiset<int>)
    ensures Total(items + [x], f) == Total(items, f) + f(x)
  {
    if items == [] {
      assert items + [x] == [x];
    } else {
      assert (items + [x])[1..] == items[1..] + [x];
      TotalAppend(items[1..], x, f);
    }
  }

  lemma {:induction false} TotalUpdate(items: seq<Item>, k: nat, x: Item, f: Item -> multiset<int>)
    requires k < |items|
    ensures Total(items[k := x], f) + f(items[k]) == Total(items, f) + f(x)
  {
    if k == 0 {
      assert items[0 := x][1..] == items[1..];
    } else {
      var rest := items[1..];
      TotalUpdate(rest, k - 1, x, f);
      assert items[k := x][1..] == rest[k - 1 := x] && rest[k - 1] == items[k];
      var after := Total(rest[k - 1 := x], f);
      calc {
        Total(items[k := x], f) + f(items[k]);
        (f(items[0]) + after) + f(items[k]);
        f(items[0]) + (after + f(rest[k - 1]));
        f(items[0]) + (Total(rest, f) + f(x));
        Total(items, f) + f(x);
      }
    }
  }

  lemma {:induction false} TotalHas(items: seq<Item>, k: nat, f: Item -> multiset<int>)
    requires k < |items|
    ensures f(items[k]) <= Total(items, f)
  {
    if k > 0 {
      TotalHas(items[1..], k - 1, f);
    }
  }

  /** A token that occurs in two different items occurs at least twice in the total. */
  lemma {:induction false} TotalHasTwo(items: seq<Item>, j: nat, k: nat, f: Item -> multiset<int>)
    requires j < k < |items|
    ensures f(items[j]) + f(items[k]) <= Total(items, f)
  {
    if j == 0 {
      TotalHas(items[1..], k - 1, f);
    } else {
      TotalHasTwo(items[1..], j - 1, k - 1, f);
    }
  }

  /** A token in the total is in some item. */
  lemma {:induction false} TotalFrom(items: seq<Item>, x: int, f: Item -> multiset<int>) returns (k: nat)
    requires x in Total(items, f)
    ensures k < |items| && x in f(items[k])
  {
    if x in f(items[0]) {
      k := 0;
    } else {
      k := TotalFrom(items[1..], x, f);
      k := k + 1;
    }
  }

  lemma Cancel(a: multiset<int>, b: multiset<int>, x: multiset<int>)
    requires a + x == b + x
    ensures a == b
  {
    forall k ensures a[k] == b[k] {
      assert (a + x)[k] == (b + x)[k];
    }
  }

  /** Three places that together account for everything. */
  predicate Balance(owned: multiset<int>, b: multiset<int>, c: multiset<int>, all: multiset<int>) {
    owned + b + c == all
  }

  lemma MoveToSecond(a: multiset<int>, a': multiset<int>, b: multiset<int>, c: multiset<int>, all: multiset<int>,
                     x: multiset<int>)
    requires Balance(a, b, c, all) && a' + x == a
    ensures Balance(a', b + x, c, all)
  {
    assert a' + (b + x) + c == (a' + x) + b + c;
  }

  lemma MoveToThird(a: multiset<int>, a': multiset<int>, b: multiset<int>, c: multiset<int>, all: multiset<int>,
                     x: multiset<int>)
    requires Balance(a, b, c, all) && a' + x == a
    ensures Balance(a', b, c + x, all)
  {
    assert a' + b + (c + x) == (a' + x) + b + c;
  }

  lemma Spend(a: multiset<int>, a': multiset<int>, b: multiset<int>, c: multiset<int>,
              all: multiset<int>, all': multiset<int>, x: multiset<int>)
    requires Balance(a, b, c, all) && a' + x == a && all' + x == all
    ensures Balance(a', b, c, all')
  {
    assert (a' + b + c) + x == (a' + x) + b + c;
    Cancel(a' + b + c, all', x);
  }

  lemma Earn(a: multiset<int>, a': multiset<int>, b: multiset<int>, c: multiset<int>,
             all: multiset<int>, all': multiset<int>, x: multiset<int>)
    requires Balance(a, b, c, all) && a' == a + x && all' == all + x
    ensures Balance(a', b, c, all')
  {
  }
}
