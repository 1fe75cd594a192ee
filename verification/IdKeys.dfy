/** Files keyed by region ids: ids become decimal keys on the way out and are read back on the way in. */
module IdKeys {
  import opened Options
  import opened Decimal
  import opened Entities
  import opened StringOrder

  function Keys(ids: set<Id>): (keys: set<string>)
    ensures forall k :: k in keys ==> Stoll(k).Some? && IsInt64(Stoll(k).value) && Stoll(k).value in ids
    ensures forall k :: k in keys ==> k == ToString(Stoll(k).value)
    ensures forall id :: id in ids ==> ToString(id) in keys && Stoll(ToString(id)) == Some(id)
  {
    AllRoundTrip(ids);
    set id | id in ids :: ToString(id)
  }

  lemma AllRoundTrip(ids: set<Id>)
    ensures forall id :: id in ids ==> Stoll(ToString(id)) == Some(id)
  {
    forall id | id in ids
      ensures Stoll(ToString(id)) == Some(id)
    {
      RoundTrip(id);
    }
  }

  /** The file that holds `m`. */
  function Encode(m: map<Id, Blob>): (f: File)
    ensures f.Keys == Keys(m.Keys)
    ensures forall id :: id in m ==> ToString(id) in f && f[ToString(id)] == m[id]
  {
    map k | k in Keys(m.Keys) :: m[Stoll(k).value]
  }

  lemma KeyOf(m: map<Id, Blob>, id: Id)
    ensures ToString(id) in Encode(m) <==> id in m
  {
    RoundTrip(id);
  }

  lemma KeysAdd(ids: set<Id>, id: Id)
    ensures Keys(ids + {id}) == Keys(ids) + {ToString(id)}
  {
  }

  ghost predicate Holds(f: File, m: map<Id, Blob>) {
    && f.Keys == Keys(m.Keys)
    && forall id :: id in m ==> ToString(id) in f && f[ToString(id)] == m[id]
  }

  lemma OneEncoding(f: File, m: map<Id, Blob>)
    requires Holds(f, m)
    ensures f == Encode(m)
  {
    var g := Encode(m);
    forall k | k in f
      ensures f[k] == g[k]
    {
      assert k in Keys(m.Keys);
      var id: Id := Stoll(k).value;
      assert id in m && k == ToString(id);
    }
  }

  lemma HoldsAdd(f: File, m: map<Id, Blob>, id: Id, b: Blob)
    requires Holds(f, m) && id !in m
    ensures Holds(f[ToString(id) := b], m[id := b])
  {
    var g, n := f[ToString(id) := b], m[id := b];
    assert g.Keys == Keys(n.Keys) by {
      assert n.Keys == m.Keys + {id};
      KeysAdd(m.Keys, id);
    }
    forall i | i in n
      ensures ToString(i) in g && g[ToString(i)] == n[i]
    {
      Injective(i, id);
    }
  }

  /** Adding an entry to the file is adding it to what the file holds. */
  lemma EncodeAdd(m: map<Id, Blob>, id: Id, b: Blob)
    requires id !in m
    ensures Encode(m[id := b]) == Encode(m)[ToString(id) := b]
  {
    HoldsAdd(Encode(m), m, id, b);
    OneEncoding(Encode(m)[ToString(id) := b], m[id := b]);
  }

  ghost predicate ReadsInto(k: string, ids: set<Id>) {
    Stoll(k).Some? && IsInt64(Stoll(k).value) && Stoll(k).value in ids
  }

  /** The first of the keys that read as `id`. */
  ghost predicate FirstKey(f: File, id: Id, k: string) {
    k in f && Stoll(k) == Some(id) && forall j :: j in f && Stoll(j) == Some(id) ==> j == k || Less(k, j)
  }

  ghost predicate HasKeyFor(f: File, id: Id, b: Blob) {
    exists k :: FirstKey(f, id, k) && f[k] == b
  }

  /** What comes back from a file: per id, the value of the first key that reads as that id. */
  ghost predicate Decodes(f: File, m: map<Id, Blob>) {
    && (forall k :: k in f ==> ReadsInto(k, m.Keys))
    && (forall id :: id in m ==> HasKeyFor(f, id, m[id]))
  }

  /** There is no choice. */
  lemma DecodesUnique(f: File, m: map<Id, Blob>, n: map<Id, Blob>)
    requires Decodes(f, m) && Decodes(f, n)
    ensures m == n
  {
    SameIds(f, m, n);
    SameIds(f, n, m);
    forall id | id in m
      ensures m[id] == n[id]
    {
      var k :| FirstKey(f, id, k) && f[k] == m[id];
      var j :| FirstKey(f, id, j) && f[j] == n[id];
      LessTotal(k, j);
    }
  }

  lemma SameIds(f: File, m: map<Id, Blob>, n: map<Id, Blob>)
    requires Decodes(f, m) && Decodes(f, n)
    ensures forall id :: id in m ==> id in n
  {
    forall id | id in m
      ensures id in n
    {
      var k :| FirstKey(f, id, k) && f[k] == m[id];
      assert ReadsInto(k, n.Keys);
    }
  }

  lemma FirstKeyStays(f: File, id: Id, k: string, b: Blob, j: string)
    requires FirstKey(f, id, j) && k !in f && forall i :: i in f ==> Less(i, k)
    ensures FirstKey(f[k := b], id, j)
  {
  }

  lemma NewKeyFirst(f: File, ids: set<Id>, k: string, b: Blob, id: Id)
    requires k !in f && (forall j :: j in f ==> ReadsInto(j, ids)) && id !in ids && Stoll(k) == Some(id)
    ensures FirstKey(f[k := b], id, k)
  {
  }

  lemma OldKeyStays(f: File, k: string, b: Blob, id: Id, v: Blob)
    requires HasKeyFor(f, id, v) && k !in f && forall i :: i in f ==> Less(i, k)
    ensures HasKeyFor(f[k := b], id, v)
  {
    var j :| FirstKey(f, id, j) && f[j] == v;
    FirstKeyStays(f, id, k, b, j);
    assert f[k := b][j] == v;
  }

  /** What is held after one more pair: the first value of an id stays. */
  function Added(m: map<Id, Blob>, id: Id, b: Blob): map<Id, Blob> {
    if id in m then m else m[id := b]
  }

  lemma AddedId(f: File, m: map<Id, Blob>, k: string, b: Blob, id: Id, i: Id)
    requires Decodes(f, m) && k !in f && (forall j :: j in f ==> Less(j, k)) && Stoll(k) == Some(id)
    requires i in Added(m, id, b)
    ensures HasKeyFor(f[k := b], i, Added(m, id, b)[i])
  {
    if i in m {
      OldKeyStays(f, k, b, i, m[i]);
    } else {
      NewKeyFirst(f, m.Keys, k, b, i);
      assert f[k := b][k] == b;
    }
  }

  lemma AddedKey(f: File, m: map<Id, Blob>, k: string, b: Blob, id: Id, j: string)
    requires Decodes(f, m) && Stoll(k) == Some(id) && j in f[k := b]
    ensures ReadsInto(j, Added(m, id, b).Keys)
  {
    if j != k {
      assert ReadsInto(j, m.Keys);
    }
  }

  /** Reading one more pair, with a key behind all the others. */
  lemma DecodesAdd(f: File, m: map<Id, Blob>, k: string, b: Blob, id: Id)
    requires Decodes(f, m) && k !in f && (forall i :: i in f ==> Less(i, k)) && Stoll(k) == Some(id)
    ensures Decodes(f[k := b], Added(m, id, b))
  {
    forall i | i in Added(m, id, b)
      ensures HasKeyFor(f[k := b], i, Added(m, id, b)[i])
    {
      AddedId(f, m, k, b, id, i);
    }
    forall j | j in f[k := b]
      ensures ReadsInto(j, Added(m, id, b).Keys)
    {
      AddedKey(f, m, k, b, id, j);
    }
  }

  lemma OwnKeyFirst(m: map<Id, Blob>, id: Id)
    requires id in m
    ensures FirstKey(Encode(m), id, ToString(id)) && HasKeyFor(Encode(m), id, m[id])
  {
    RoundTrip(id);
    forall j | j in Encode(m) && Stoll(j) == Some(id)
      ensures j == ToString(id)
    {
      assert j in Keys(m.Keys);
    }
  }

  lemma EncodeDecodes(m: map<Id, Blob>)
    ensures Decodes(Encode(m), m)
  {
    forall id | id in m
      ensures HasKeyFor(Encode(m), id, m[id])
    {
      OwnKeyFirst(m, id);
    }
    forall k | k in Encode(m)
      ensures ReadsInto(k, m.Keys)
    {
      assert k in Keys(m.Keys);
    }
  }

  /** Reading back gives exactly what was written, and nothing else can come back. */
  lemma DecodeInverts(m: map<Id, Blob>, n: map<Id, Blob>)
    ensures Decodes(Encode(m), n) <==> n == m
  {
    EncodeDecodes(m);
    if Decodes(Encode(m), n) {
      DecodesUnique(Encode(m), m, n);
    }
  }
}
