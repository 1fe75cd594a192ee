/** `Init` of the two restore managers: the work stack is filled from an ordered map and reversed, so that
    popping from its end hands the entries out by ascending region id. */
module RegionStack {
  import opened NonEmpty
  import opened Sequences
  import opened WorkerPool
  import opened WorkerPoolProofs
  import opened WorkerPoolTheorems

  predicate IsLeast(k: int, s: set<int>) {
    k in s && forall m :: m in s ==> k <= m
  }

  lemma {:induction false} LeastExists(s: set<int>)
    requires |s| > 0
    ensures exists k :: IsLeast(k, s)
  {
    SomeInt(s);
    var x :| x in s;
    assert forall m :: m in s ==> m == x || m in s - {x};
    if s - {x} == {} {
      assert IsLeast(x, s);
    } else {
      LeastExists(s - {x});
      var k :| IsLeast(k, s - {x});
      assert IsLeast(if x < k then x else k, s);
    }
  }

  /** The keys of an ordered map in iteration order. */
  ghost function SortedKeys(s: set<int>): (keys: seq<int>)
    ensures |keys| == |s|
    ensures forall i :: 0 <= i < |keys| ==> keys[i] in s
    ensures forall i, j :: 0 <= i < j < |keys| ==> keys[i] < keys[j]
  {
    if |s| == 0 then []
    else
      LeastExists(s);
      var k :| IsLeast(k, s);
      [k] + SortedKeys(s - {k})
  }

  ghost function Listed(kvs: map<int, Item>, keys: seq<int>): (items: seq<Item>)
    requires forall i :: 0 <= i < |keys| ==> keys[i] in kvs
    ensures |items| == |keys|
    ensures forall i :: 0 <= i < |keys| ==> items[i] == kvs[keys[i]]
  {
    if keys == [] then [] else [kvs[keys[0]]] + Listed(kvs, keys[1..])
  }

  ghost function Ahead(kvs: map<int, Item>, rest: set<int>): seq<Item>
    requires rest <= kvs.Keys
  {
    Listed(kvs, SortedKeys(rest))
  }

  lemma AheadStep(kvs: map<int, Item>, rest: set<int>, k: int)
    requires rest <= kvs.Keys && IsLeast(k, rest)
    ensures Ahead(kvs, rest) == [kvs[k]] + Ahead(kvs, rest - {k})
  {
    LeastFirst(rest, k);
  }

  /** The ordered map is walked from its least key on. */
  method Collect(kvs: map<int, Item>) returns (list: seq<Item>)
    ensures list == Ahead(kvs, kvs.Keys)
  {
    list := [];
    var rest := kvs.Keys;
    while |rest| > 0
      invariant rest <= kvs.Keys
      invariant list + Ahead(kvs, rest) == Ahead(kvs, kvs.Keys)
      decreases rest
    {
      LeastExists(rest);
      var k :| IsLeast(k, rest);
      AheadStep(kvs, rest, k);
      Regroup(list, [kvs[k]], Ahead(kvs, rest - {k}));
      list := list + [kvs[k]];
      rest := rest - {k};
    }
    NothingAhead(kvs, rest);
  }

  lemma NothingAhead(kvs: map<int, Item>, rest: set<int>)
    requires rest <= kvs.Keys && |rest| == 0
    ensures Ahead(kvs, rest) == []
  {
  }

  method Init(kvs: map<int, Item>) returns (stack: seq<Item>)
    ensures Reverse(stack) == Listed(kvs, SortedKeys(kvs.Keys))
    ensures (forall k :: k in kvs ==> kvs[k].id == k) ==> Ascending(Reverse(stack))
    // which is the stack that the workers of `WorkerPool` start with
    ensures forall c: Config :: c.items == Listed(kvs, SortedKeys(kvs.Keys)) ==> Start(c).stack == stack
  {
    stack := Collect(kvs);
    ReverseTwice(stack);
    if |stack| > 1 {
      stack := Reverse(stack);
    } else {
      assert Reverse(stack) == stack;
    }
  }

  lemma LeastFirst(s: set<int>, k: int)
    requires k in s && forall m :: m in s ==> k <= m
    ensures |SortedKeys(s)| > 0 && SortedKeys(s)[0] == k && SortedKeys(s)[1..] == SortedKeys(s - {k})
  {
    LeastExists(s);
    var m :| IsLeast(m, s) && SortedKeys(s) == [m] + SortedKeys(s - {m});
    assert m == k;
  }
}
