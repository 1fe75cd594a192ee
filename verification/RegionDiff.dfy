/** The `diff` tool: when it calls two backups of the same region files equal. */
module RegionDiff {
  import opened NonEmpty
  import opened Options
  import opened Decimal
  import opened Entities

  /** The key under which the metas of a group are matched up. */
  function CommonId(m: SstMeta): string {
    ToString(m.regionId) + "-" + m.cf
  }

  lemma OnlyDigitsInside(n: int, i: nat)
    requires 0 < i < |ToString(n)|
    ensures ToString(n)[i] != '-'
  {
    var digits := Digits(if n < 0 then -n else n);
    assert forall j :: 0 <= j < |digits| ==> IsDigit(digits[j]);
    if n < 0 {
      assert ToString(n)[i] == digits[i - 1];
    }
  }

  lemma ShorterIdDiffers(a: SstMeta, b: SstMeta)
    requires |ToString(a.regionId)| < |ToString(b.regionId)|
    ensures CommonId(a) != CommonId(b)
  {
    var n := |ToString(a.regionId)|;
    OnlyDigitsInside(b.regionId, n);
    assert CommonId(a)[n] == '-';
    assert CommonId(b)[n] == ToString(b.regionId)[n];
  }

  /** The minus sign of an id is never taken for the separator. */
  lemma CommonIdInjective(a: SstMeta, b: SstMeta)
    ensures CommonId(a) == CommonId(b) <==> a.regionId == b.regionId && a.cf == b.cf
  {
    var p, q := ToString(a.regionId), ToString(b.regionId);
    if |p| < |q| {
      ShorterIdDiffers(a, b);
    } else if |q| < |p| {
      ShorterIdDiffers(b, a);
    } else {
      assert p == CommonId(a)[..|p|] && q == CommonId(b)[..|q|];
      assert a.cf == CommonId(a)[|p| + 1..] && b.cf == CommonId(b)[|q| + 1..];
      Injective(a.regionId, b.regionId);
    }
  }

  /** The last meta of a group for a column family of a region. */
  function Latest(g: Group, id: Id, cf: string): Option<SstMeta> {
    if g == [] then None
    else if g[|g| - 1].regionId == id && g[|g| - 1].cf == cf then Some(g[|g| - 1])
    else Latest(g[..|g| - 1], id, cf)
  }

  ghost predicate Agree(g: Group, h: Group, id: Id, cf: string) {
    Latest(g, id, cf) == Latest(h, id, cf)
  }

  /** Equal for the tool: the same latest meta everywhere. */
  ghost predicate SameGroup(g: Group, h: Group) {
    forall id, cf :: Agree(g, h, id, cf)
  }

  function ByCommonId(g: Group): map<string, SstMeta> {
    if g == [] then map[] else ByCommonId(g[..|g| - 1])[CommonId(g[|g| - 1]) := g[|g| - 1]]
  }

  method Tabulate(g: Group) returns (table: map<string, SstMeta>)
    ensures table == ByCommonId(g)
  {
    table := map[];
    for i := 0 to |g|
      invariant table == ByCommonId(g[..i])
    {
      assert g[..i + 1][..i] == g[..i];
      table := table[CommonId(g[i]) := g[i]];
    }
    assert g[..|g|] == g;
  }

  lemma {:induction false} TableEntry(g: Group, m: SstMeta)
    ensures CommonId(m) in ByCommonId(g) <==> Latest(g, m.regionId, m.cf).Some?
    ensures CommonId(m) in ByCommonId(g) ==> ByCommonId(g)[CommonId(m)] == Latest(g, m.regionId, m.cf).value
  {
    if g != [] {
      TableEntry(g[..|g| - 1], m);
      CommonIdInjective(g[|g| - 1], m);
    }
  }

  lemma {:induction false} TableKey(g: Group, k: string)
    requires k in ByCommonId(g)
    ensures CommonId(ByCommonId(g)[k]) == k
  {
    if k != CommonId(g[|g| - 1]) {
      TableKey(g[..|g| - 1], k);
    }
  }

  /** Comparing the tables is comparing the latest metas. */
  lemma TablesDecide(g: Group, h: Group)
    ensures ByCommonId(g) == ByCommonId(h) <==> SameGroup(g, h)
  {
    if ByCommonId(g) == ByCommonId(h) {
      forall id, cf
        ensures Agree(g, h, id, cf)
      {
        var m := SstMeta(cf, id, "", 0, "", "");
        TableEntry(g, m);
        TableEntry(h, m);
      }
    }
    if SameGroup(g, h) {
      forall k | k in ByCommonId(g)
        ensures k in ByCommonId(h) && ByCommonId(g)[k] == ByCommonId(h)[k]
      {
        SameEntry(g, h, k);
      }
      forall k | k in ByCommonId(h)
        ensures k in ByCommonId(g)
      {
        forall id, cf
          ensures Agree(h, g, id, cf)
        {
          assert Agree(g, h, id, cf);
        }
        SameEntry(h, g, k);
      }
      assert ByCommonId(g) == ByCommonId(h);
    }
  }

  lemma SameEntry(g: Group, h: Group, k: string)
    requires SameGroup(g, h) && k in ByCommonId(g)
    ensures k in ByCommonId(h) && ByCommonId(g)[k] == ByCommonId(h)[k]
  {
    var m := ByCommonId(g)[k];
    TableKey(g, k);
    TableEntry(g, m);
    TableEntry(h, m);
    assert Agree(g, h, m.regionId, m.cf);
  }

  /** Field by field; the verdict can only turn to false. */
  method CompareMeta(a: Option<SstMeta>, b: Option<SstMeta>, same: bool) returns (isSame: bool)
    requires a.Some? || b.Some?
    ensures isSame <==> same && a == b
  {
    isSame := same;
    if a.None? || b.None? {
      isSame := false;
    } else {
      if a.value.cf != b.value.cf { isSame := false; }
      if a.value.regionId != b.value.regionId { isSame := false; }
      if a.value.dirName != b.value.dirName { isSame := false; }
      if a.value.fileSize != b.value.fileSize { isSame := false; }
      if a.value.encryption != b.value.encryption { isSame := false; }
      if a.value.fileName != b.value.fileName { isSame := false; }
    }
  }

  function Find<T>(m: map<string, T>, k: string): Option<T> {
    if k in m then Some(m[k]) else None
  }

  /** One pass over the left table: every entry must be on the right. */
  method CompareTables(t: map<string, SstMeta>, u: map<string, SstMeta>, same: bool) returns (isSame: bool)
    ensures isSame <==> same && forall k :: k in t ==> k in u && t[k] == u[k]
  {
    isSame := same;
    var rest := t.Keys;
    while rest != {}
      invariant rest <= t.Keys
      invariant isSame <==> same && forall k :: k in t && k !in rest ==> k in u && t[k] == u[k]
    {
      SomeString(rest);
      var k :| k in rest;
      isSame := CompareMeta(Some(t[k]), Find(u, k), isSame);
      rest := rest - {k};
    }
  }

  method CompareGroup(g: Group, h: Group, same: bool) returns (isSame: bool)
    ensures isSame <==> same && SameGroup(g, h)
  {
    var t := Tabulate(g);
    var u := Tabulate(h);
    isSame := same;
    if |t| != |u| {
      isSame := false;
    }
    isSame := CompareTables(t, u, isSame);
    isSame := CompareMissing(t, u, isSame);
    TablesDecide(g, h);
  }

  /** One pass over the right table: nothing may be new. */
  method CompareMissing(t: map<string, SstMeta>, u: map<string, SstMeta>, same: bool) returns (isSame: bool)
    ensures isSame <==> same && u.Keys <= t.Keys
  {
    isSame := same;
    var rest := u.Keys;
    while rest != {}
      invariant rest <= u.Keys
      invariant isSame <==> same && u.Keys - rest <= t.Keys
    {
      SomeString(rest);
      var k :| k in rest;
      if k !in t {
        isSame := CompareMeta(None, Some(u[k]), false);
      }
      rest := rest - {k};
    }
  }

  ghost predicate SameCf(a: map<string, Group>, b: map<string, Group>) {
    a.Keys == b.Keys && forall k :: k in a ==> SameGroup(a[k], b[k])
  }

  /** The comparison of the sizes compares one size with itself; the verdict is right all the same. */
  method CompareRegionCf(a: map<string, Group>, b: map<string, Group>) returns (isSame: bool)
    ensures isSame <==> SameCf(a, b)
  {
    isSame := true;
    if |b| != |b| {
      isSame := false;
    }
    var rest := a.Keys;
    while rest != {}
      invariant rest <= a.Keys
      invariant isSame <==> forall k :: k in a && k !in rest ==> k in b && SameGroup(a[k], b[k])
    {
      SomeString(rest);
      var k :| k in rest;
      if k !in b {
        isSame := false;
      } else {
        isSame := CompareGroup(a[k], b[k], isSame);
      }
      rest := rest - {k};
    }
    ghost var left := isSame;
    rest := b.Keys;
    while rest != {}
      invariant rest <= b.Keys
      invariant isSame <==> left && b.Keys - rest <= a.Keys
    {
      SomeString(rest);
      var k :| k in rest;
      if k !in a {
        isSame := false;
      }
      rest := rest - {k};
    }
  }

  /** Key/value files: unequal sizes settle it, then both directions are compared. */
  method CompareRegionData(a: map<string, string>, b: map<string, string>) returns (isSame: bool)
    ensures isSame <==> a == b
  {
    if |a| != |b| {
      return false;
    }
    isSame := CompareValues(a, b);
    if isSame {
      isSame := CompareValues(b, a);
    }
  }

  method CompareValues(a: map<string, string>, b: map<string, string>) returns (isSame: bool)
    ensures isSame <==> forall k :: k in a ==> k in b && a[k] == b[k]
  {
    isSame := true;
    var rest := a.Keys;
    while rest != {}
      invariant rest <= a.Keys
      invariant isSame <==> forall k :: k in a && k !in rest ==> k in b && a[k] == b[k]
    {
      SomeString(rest);
      var k :| k in rest;
      if k !in b {
        isSame := false;
      } else if a[k] != b[k] {
        isSame := false;
      }
      rest := rest - {k};
    }
  }

  ghost predicate OnePerCf(g: Group) {
    forall i, j :: 0 <= i < j < |g| ==> g[i].regionId != g[j].regionId || g[i].cf != g[j].cf
  }

  lemma {:induction false} LatestOfOnly(g: Group, i: nat)
    requires OnePerCf(g) && i < |g|
    ensures Latest(g, g[i].regionId, g[i].cf) == Some(g[i])
  {
    if i < |g| - 1 {
      LatestOfOnly(g[..|g| - 1], i);
    }
  }

  lemma {:induction false} LatestIsMember(g: Group, id: Id, cf: string)
    requires Latest(g, id, cf).Some?
    ensures var m := Latest(g, id, cf).value; m in g && m.regionId == id && m.cf == cf
  {
    if !(g[|g| - 1].regionId == id && g[|g| - 1].cf == cf) {
      LatestIsMember(g[..|g| - 1], id, cf);
    }
  }

  lemma SameMembers(g: Group, h: Group)
    requires OnePerCf(g) && OnePerCf(h) && SameGroup(g, h)
    ensures forall m :: m in g ==> m in h
  {
    forall m | m in g
      ensures m in h
    {
      var i :| 0 <= i < |g| && g[i] == m;
      LatestOfOnly(g, i);
      assert Agree(g, h, m.regionId, m.cf);
      LatestIsMember(h, m.regionId, m.cf);
    }
  }

  lemma AgreeByMembers(g: Group, h: Group, id: Id, cf: string)
    requires OnePerCf(g) && OnePerCf(h) && forall m :: m in g <==> m in h
    ensures Agree(g, h, id, cf)
  {
    if Latest(g, id, cf).Some? {
      LatestIsMember(g, id, cf);
      var i :| 0 <= i < |h| && h[i] == Latest(g, id, cf).value;
      LatestOfOnly(h, i);
    } else if Latest(h, id, cf).Some? {
      LatestIsMember(h, id, cf);
      var i :| 0 <= i < |g| && g[i] == Latest(h, id, cf).value;
      LatestOfOnly(g, i);
    }
  }

  /** For groups with one file per column family, equal means: the same metas, in any order. */
  lemma SameUpToOrder(g: Group, h: Group)
    requires OnePerCf(g) && OnePerCf(h)
    ensures SameGroup(g, h) <==> forall m :: m in g <==> m in h
  {
    if SameGroup(g, h) {
      SameMembers(g, h);
      forall id, cf
        ensures Agree(h, g, id, cf)
      {
        assert Agree(g, h, id, cf);
      }
      SameMembers(h, g);
    }
    if forall m :: m in g <==> m in h {
      forall id, cf
        ensures Agree(g, h, id, cf)
      {
        AgreeByMembers(g, h, id, cf);
      }
    }
  }

  /** Without that, two different groups can count as equal: an earlier file of the same column family is not seen. */
  lemma HiddenDifference(m: SstMeta, n: SstMeta)
    requires m.regionId == n.regionId && m.cf == n.cf && m != n
    ensures SameGroup([m, n], [n]) && [m, n] != [n]
  {
    forall id, cf
      ensures Agree([m, n], [n], id, cf)
    {
      assert [m, n][..1] == [m] && [n][..0] == [] && [m][..0] == [];
    }
  }
}
