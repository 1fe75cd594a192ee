/** The order of the keys in a `std::map<std::string, ...>`. */
module StringOrder {
  import opened NonEmpty

  predicate Less(a: string, b: string) {
    if b == [] then false
    else if a == [] then true
    else a[0] < b[0] || (a[0] == b[0] && Less(a[1..], b[1..]))
  }

  lemma {:induction false} LessTotal(a: string, b: string)
    ensures a == b || Less(a, b) || Less(b, a)
    ensures !(Less(a, b) && Less(b, a)) && !Less(a, a)
  {
    if a != [] {
      LessTotal(a[1..], a[1..]);
      if b != [] {
        LessTotal(a[1..], b[1..]);
        assert a == [a[0]] + a[1..] && b == [b[0]] + b[1..];
      }
    }
  }

  lemma {:induction false} LessTransitive(a: string, b: string, c: string)
    requires Less(a, b) && Less(b, c)
    ensures Less(a, c)
  {
    if a != [] && a[0] == b[0] == c[0] {
      LessTransitive(a[1..], b[1..], c[1..]);
    }
  }

  predicate IsLeast(k: string, keys: set<string>) {
    k in keys && forall m :: m in keys ==> m == k || Less(k, m)
  }

  lemma {:induction false} LeastExists(keys: set<string>)
    requires keys != {}
    ensures exists k :: IsLeast(k, keys)
    decreases keys
  {
    SomeString(keys);
    var x :| x in keys;
    var rest := keys - {x};
    if rest == {} {
      assert forall m :: m in keys ==> m == x || m in rest;
      assert IsLeast(x, keys);
    } else {
      LeastExists(rest);
      var k :| IsLeast(k, rest);
      LessTotal(x, k);
      if Less(k, x) {
        assert IsLeast(k, keys);
      } else {
        forall m | m in keys
          ensures m == x || Less(x, m)
        {
          if m != x && m != k {
            LessTransitive(x, k, m);
          }
        }
        assert IsLeast(x, keys);
      }
    }
  }
}
