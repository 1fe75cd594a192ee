/** The names of a region's SST files: how the store builds them and how the `diff` tool takes them apart. */
module FileName {
  import opened Options
  import opened Sequences
  import opened Decimal
  import opened Entities

  /** The parts of `s` between the delimiters. */
  function Pieces(s: string, d: char): (parts: seq<string>)
    ensures parts != []
  {
    if s == [] then [[]]
    else if s[0] == d then [[]] + Pieces(s[1..], d)
    else var rest := Pieces(s[1..], d); [[s[0]] + rest[0]] + rest[1..]
  }

  function Join(parts: seq<string>, d: char): string
    requires parts != []
  {
    if |parts| == 1 then parts[0] else parts[0] + [d] + Join(parts[1..], d)
  }

  lemma {:induction false} PiecesOfOne(a: string, d: char)
    requires d !in a
    ensures Pieces(a, d) == [a]
  {
    if a != [] {
      PiecesOfOne(a[1..], d);
      assert [a[0]] + a[1..] == a;
    }
  }

  lemma {:induction false} PiecesOfMore(a: string, rest: string, d: char)
    requires d !in a
    ensures Pieces(a + [d] + rest, d) == [a] + Pieces(rest, d)
  {
    var s := a + [d] + rest;
    if a == [] {
      assert s[1..] == rest;
    } else {
      PiecesOfMore(a[1..], rest, d);
      assert s[1..] == a[1..] + [d] + rest;
      assert [a[0]] + a[1..] == a;
    }
  }

  /** Splitting and joining are inverse: no part holds the delimiter, and the parts are the text. */
  lemma {:induction false} JoinOfPieces(s: string, d: char)
    ensures Join(Pieces(s, d), d) == s
    ensures forall i :: 0 <= i < |Pieces(s, d)| ==> d !in Pieces(s, d)[i]
  {
    if s != [] {
      var parts, rest := Pieces(s, d), Pieces(s[1..], d);
      JoinOfPieces(s[1..], d);
      assert s == [s[0]] + s[1..];
      assert parts[1..] == if s[0] == d then rest else rest[1..];
      forall i | 0 <= i < |parts|
        ensures d !in parts[i]
      {
        assert s[0] == d && i > 0 ==> parts[i] == rest[i - 1];
        assert s[0] != d && i > 0 ==> parts[i] == rest[i];
        assert s[0] != d && i == 0 ==> parts[i] == [s[0]] + rest[0];
      }
    }
  }

  /** There is one more part than there are delimiters. */
  lemma {:induction false} PiecesCount(s: string, d: char)
    ensures |Pieces(s, d)| == multiset(s)[d] + 1
  {
    if s != [] {
      PiecesCount(s[1..], d);
      assert s == [s[0]] + s[1..];
    }
  }

  lemma {:induction false} PiecesOfJoin(parts: seq<string>, d: char)
    requires parts != [] && forall i :: 0 <= i < |parts| ==> d !in parts[i]
    ensures Pieces(Join(parts, d), d) == parts
  {
    if |parts| == 1 {
      PiecesOfOne(parts[0], d);
    } else {
      PiecesOfJoin(parts[1..], d);
      PiecesOfMore(parts[0], Join(parts[1..], d), d);
    }
  }

  ghost predicate IsNext(s: string, d: char, start: nat, found: Option<nat>)
    requires start <= |s|
  {
    match found
    case None => d !in s[start..]
    case Some(end) => start <= end < |s| && s[end] == d && d !in s[start..end]
  }

  /** The first delimiter at or after `start`. */
  method Find(s: string, d: char, start: nat) returns (found: Option<nat>)
    requires start <= |s|
    ensures IsNext(s, d, start, found)
  {
    for i := start to |s|
      invariant d !in s[start..i]
    {
      if s[i] == d {
        return Some(i);
      }
    }
    return None;
  }

  /** `parts` are the parts before `start`. */
  ghost predicate SplitUpTo(s: string, d: char, start: nat, parts: seq<string>) {
    start <= |s| && parts + Pieces(s[start..], d) == Pieces(s, d)
  }

  lemma SplitMore(s: string, d: char, start: nat, end: nat, parts: seq<string>)
    requires SplitUpTo(s, d, start, parts) && IsNext(s, d, start, Some(end))
    ensures SplitUpTo(s, d, end + 1, parts + [s[start..end]])
  {
    PiecesOfMore(s[start..end], s[end + 1..], d);
    assert s[start..] == s[start..end] + s[end..];
    assert s[end..] == [d] + s[end + 1..];
    assert s[start..end] + [d] + s[end + 1..] == s[start..end] + ([d] + s[end + 1..]);
    Regroup(parts, [s[start..end]], Pieces(s[end + 1..], d));
  }

  method Split(s: string, d: char) returns (parts: seq<string>)
    ensures parts == Pieces(s, d)
  {
    parts := [];
    var start := 0;
    assert s[0..] == s;
    var end := Find(s, d, 0);
    while end.Some?
      invariant SplitUpTo(s, d, start, parts) && IsNext(s, d, start, end)
      decreases |s| - start, end.Some?
    {
      SplitMore(s, d, start, end.value, parts);
      parts := parts + [s[start..end.value]];
      start := end.value + 1;
      end := Find(s, d, start);
    }
    PiecesOfOne(s[start..], d);
    parts := parts + [s[start..]];
  }

  datatype Parsed =
    | Parsed(id: string, epoch: string, hash: string, time: int, cf: string)
    | Rejected
    | OutOfBounds
    | Thrown

  function Parse(name: string): Parsed {
    var dotted := Pieces(name, '.');
    if |dotted| != 2 then Rejected else
      var parts := Pieces(dotted[0], '_');
      if |parts| < 5 then OutOfBounds
      else if Stoll(parts[3]).None? then Thrown
      else Parsed(parts[0], parts[1], parts[2], Stoll(parts[3]).value, Join(parts[4..], '_'))
  }

  /** The guard for the number of parts asks for fewer than five and more than nine, so it never rejects; with fewer
      than five parts the code reads past the end of the list. */
  method ParseFileName(name: string) returns (r: Parsed)
    ensures r == Parse(name)
  {
    var dotted := Split(name, '.');
    if |dotted| != 2 {
      return Rejected;
    }
    var parts := Split(dotted[0], '_');
    if |parts| < 5 {
      return OutOfBounds;
    }
    var cf := parts[4];
    for i := 5 to |parts|
      invariant cf == Join(parts[4..i], '_')
    {
      JoinMore(parts[4..i], parts[i]);
      assert parts[4..i] + [parts[i]] == parts[4..i + 1];
      cf := cf + "_" + parts[i];
    }
    assert parts[4..|parts|] == parts[4..];
    if Stoll(parts[3]).None? {
      return Thrown;
    }
    r := Parsed(parts[0], parts[1], parts[2], Stoll(parts[3]).value, cf);
  }

  /** When the list is read past its end: exactly one dot, and fewer than four underscores before it. */
  lemma OutOfBoundsExactly(stem: string, extension: string)
    requires '.' !in extension
    ensures Parse(stem + "." + extension).OutOfBounds? <==> '.' !in stem && multiset(stem)['_'] < 4
  {
    var name := stem + "." + extension;
    PiecesCount(name, '.');
    assert multiset(name)['.'] == multiset(stem)['.'] + 1 + multiset(extension)['.'];
    if '.' !in stem {
      PiecesOfMore(stem, extension, '.');
      PiecesOfOne(extension, '.');
      assert name == stem + ['.'] + extension;
      PiecesCount(stem, '_');
    }
  }

  /** Names that the guard was meant to reject: just a number and an extension. */
  lemma TooFewParts(id: Id)
    ensures Parse(ToString(id) + "." + "sst").OutOfBounds?
  {
    NumberHasNo(id, '.');
    NumberHasNo(id, '_');
    OutOfBoundsExactly(ToString(id), "sst");
  }

  lemma {:induction false} JoinMore(parts: seq<string>, last: string)
    requires parts != []
    ensures Join(parts + [last], '_') == Join(parts, '_') + "_" + last
  {
    if |parts| > 1 {
      JoinMore(parts[1..], last);
      assert (parts + [last])[1..] == parts[1..] + [last];
    }
  }

  function Stem(id: Id, conf: Id, version: Id, hash: string, time: Id, cf: string): string {
    ToString(id) + "_" + (EpochText(conf, version) + "_" + (hash + "_" + (ToString(time) + "_" + cf)))
  }

  function EpochText(conf: Id, version: Id): string {
    ToString(conf) + "-" + ToString(version)
  }

  /** The name the store gives to a file of column family `cf`. */
  function Build(id: Id, conf: Id, version: Id, hash: string, time: Id, cf: string): string {
    Stem(id, conf, version, hash, time, cf) + ".sst"
  }

  lemma NumberHasNo(n: int, c: char)
    requires c != '-' && !IsDigit(c)
    ensures c !in ToString(n)
  {
    var digits := Digits(if n < 0 then -n else n);
    assert forall i :: 0 <= i < |digits| ==> digits[i] != c;
  }

  lemma StemPieces(id: Id, conf: Id, version: Id, hash: string, time: Id, cf: string)
    requires '_' !in hash
    ensures Pieces(Stem(id, conf, version, hash, time, cf), '_') ==
      [ToString(id), EpochText(conf, version), hash, ToString(time)] + Pieces(cf, '_')
  {
    NumberHasNo(id, '_');
    NumberHasNo(conf, '_');
    NumberHasNo(version, '_');
    NumberHasNo(time, '_');
    var tail := hash + "_" + (ToString(time) + "_" + cf);
    PiecesOfTwo(hash, ToString(time), cf);
    PiecesOfTwo(ToString(id), EpochText(conf, version), tail);
  }

  lemma PiecesOfTwo(a: string, b: string, rest: string)
    requires '_' !in a && '_' !in b
    ensures Pieces(a + "_" + (b + "_" + rest), '_') == [a, b] + Pieces(rest, '_')
  {
    PiecesOfMore(a, b + "_" + rest, '_');
    PiecesOfMore(b, rest, '_');
  }

  lemma StemDots(id: Id, conf: Id, version: Id, hash: string, time: Id, cf: string)
    requires '.' !in hash
    ensures '.' in Stem(id, conf, version, hash, time, cf) <==> '.' in cf
  {
    NumberHasNo(id, '.');
    NumberHasNo(conf, '.');
    NumberHasNo(version, '.');
    NumberHasNo(time, '.');
    assert Stem(id, conf, version, hash, time, cf) ==
      (ToString(id) + "_" + EpochText(conf, version) + "_" + hash + "_" + ToString(time) + "_") + cf;
  }

  lemma {:induction false} DotsSplit(s: string)
    ensures |Pieces(s + ".sst", '.')| == |Pieces(s, '.')| + 1
    ensures |Pieces(s, '.')| == 1 <==> '.' !in s
  {
    if s == [] {
      PiecesOfMore([], "sst", '.');
      PiecesOfOne("sst", '.');
      assert [] + ['.'] + "sst" == s + ".sst";
    } else {
      DotsSplit(s[1..]);
      assert (s + ".sst")[1..] == s[1..] + ".sst";
    }
  }

  /** The tool recovers every part of a name the store has built, whatever underscores the column family has, if and
      only if the column family has no dot. */
  lemma BuiltNameParses(id: Id, conf: Id, version: Id, hash: string, time: Id, cf: string)
    requires '_' !in hash && '.' !in hash
    ensures '.' !in cf <==>
      Parse(Build(id, conf, version, hash, time, cf)) == Parsed(ToString(id), EpochText(conf, version), hash, time, cf)
  {
    var stem := Stem(id, conf, version, hash, time, cf);
    StemDots(id, conf, version, hash, time, cf);
    DotsSplit(stem);
    if '.' !in cf {
      PiecesOfMore(stem, "sst", '.');
      PiecesOfOne("sst", '.');
      assert stem + ['.'] + "sst" == stem + ".sst";
      StemPieces(id, conf, version, hash, time, cf);
      var parts := Pieces(stem, '_');
      assert parts[4..] == Pieces(cf, '_');
      JoinOfPieces(cf, '_');
      RoundTrip(time);
    }
  }

  /** And it never makes anything up: a parsed name is its parts, put together again. */
  lemma ParsedIsName(name: string)
    requires Parse(name).Parsed?
    ensures exists time, extension ::
      && Stoll(time) == Some(Parse(name).time)
      && name == Join([Parse(name).id, Parse(name).epoch, Parse(name).hash, time, Parse(name).cf], '_') + "." + extension
  {
    var dotted := Pieces(name, '.');
    JoinOfPieces(name, '.');
    assert Join(dotted[1..], '.') == dotted[1];
    var parts := Pieces(dotted[0], '_');
    JoinOfPieces(dotted[0], '_');
    var r := Parse(name);
    var whole := [r.id, r.epoch, r.hash, parts[3], r.cf];
    JoinFrom(parts, 4);
    assert whole == parts[..4] + [r.cf];
    assert name == Join(whole, '_') + "." + dotted[1];
  }

  lemma {:induction false} JoinFrom(parts: seq<string>, k: nat)
    requires k < |parts|
    ensures Join(parts, '_') == Join(parts[..k] + [Join(parts[k..], '_')], '_')
  {
    var whole := parts[..k] + [Join(parts[k..], '_')];
    if k == 0 {
      assert parts[0..] == parts;
    } else {
      JoinFrom(parts[1..], k - 1);
      assert parts[1..][..k - 1] == parts[1..k] && parts[1..][k - 1..] == parts[k..];
      assert whole[1..] == parts[1..k] + [Join(parts[k..], '_')];
    }
  }
}
