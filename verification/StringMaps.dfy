/**
  String maps as Go has them (a nil map is not an empty one), their canonical
  key order, and their JSON form.
*/
module StringMaps {
  import opened Options
  import opened Json

  datatype Params = Nil | Entries(m: map<string, string>)

  // ---- the order sort.Strings and encoding/json use ----

  /** Lexicographic order by scalar value, which is the byte order of the UTF-8 forms. */
  predicate LexLeq(a: string, b: string) {
    a == "" || (b != "" && (a[0] < b[0] || (a[0] == b[0] && LexLeq(a[1..], b[1..]))))
  }

  lemma {:induction false} LexTotal(a: string, b: string)
    ensures LexLeq(a, b) || LexLeq(b, a)
    ensures LexLeq(a, b) && LexLeq(b, a) ==> a == b
  {
    if a != "" && b != "" {
      LexTotal(a[1..], b[1..]);
      assert a == [a[0]] + a[1..] && b == [b[0]] + b[1..];
    }
  }

  lemma {:induction false} LexTransitive(a: string, b: string, c: string)
    requires LexLeq(a, b) && LexLeq(b, c)
    ensures LexLeq(a, c)
  {
    if a != "" && a[0] == b[0] == c[0] {
      LexTransitive(a[1..], b[1..], c[1..]);
    }
  }

  /** a comes before b: it is the start of b, or has the smaller character where they first differ. */
  ghost predicate Precedes(a: string, b: string) {
    a <= b || exists i :: FirstDifference(a, b, i) && a[i] < b[i]
  }

  ghost predicate FirstDifference(a: string, b: string, i: int) {
    0 <= i < |a| && i < |b| && a[..i] == b[..i] && a[i] != b[i]
  }

  lemma DifferenceBehind(a: string, b: string, i: int)
    requires a != "" && b != "" && a[0] == b[0]
    ensures FirstDifference(a, b, i) <==> FirstDifference(a[1..], b[1..], i - 1)
    ensures a <= b <==> a[1..] <= b[1..]
  {
    assert a == [a[0]] + a[1..] && b == [b[0]] + b[1..];
    if 1 <= i <= |a| && i <= |b| {
      assert a[..i] == [a[0]] + a[1..][..i - 1] && b[..i] == [b[0]] + b[1..][..i - 1];
      assert a[..i][1..] == a[1..][..i - 1] && b[..i][1..] == b[1..][..i - 1];
    }
  }

  lemma {:induction false} LexLeqPrecedes(a: string, b: string)
    ensures LexLeq(a, b) <==> Precedes(a, b)
  {
    if a != "" && b != "" && a[0] == b[0] {
      var a', b' := a[1..], b[1..];
      LexLeqPrecedes(a', b');
      DifferenceBehind(a, b, 0);
      if i :| FirstDifference(a', b', i) && a'[i] < b'[i] {
        DifferenceBehind(a, b, i + 1);
      }
      if i :| FirstDifference(a, b, i) && a[i] < b[i] {
        DifferenceBehind(a, b, i);
      }
    } else if a != "" && b != "" && a[0] < b[0] {
      assert FirstDifference(a, b, 0);
    }
  }

  predicate IsLeast(k: string, s: set<string>) {
    k in s && forall k' | k' in s :: LexLeq(k, k')
  }

  lemma {:induction false} LeastExists(s: set<string>)
    requires s != {}
    ensures exists k :: IsLeast(k, s)
  {
    var x :| x in s;
    var rest := s - {x};
    LexTotal(x, x);
    if rest == {} {
      assert s == {x};
      assert IsLeast(x, s);
    } else {
      LeastExists(rest);
      var k :| IsLeast(k, rest);
      LexTotal(x, k);
      if LexLeq(k, x) {
        assert IsLeast(k, s);
      } else {
        forall k' | k' in s ensures LexLeq(x, k') {
          if k' != x { LexTransitive(x, k, k'); }
        }
        assert IsLeast(x, s);
      }
    }
  }

  function Least(s: set<string>): (k: string)
    requires s != {}
    ensures IsLeast(k, s)
  {
    LeastExists(s);
    assert forall k, k' | IsLeast(k, s) && IsLeast(k', s) :: k == k' by {
      forall k, k' | IsLeast(k, s) && IsLeast(k', s) ensures k == k' { LexTotal(k, k'); }
    }
    var k :| IsLeast(k, s);
    k
  }

  ghost predicate InOrder(ks: seq<string>) {
    forall i, j | 0 <= i < j < |ks| :: LexLeq(ks[i], ks[j]) && ks[i] != ks[j]
  }

  /** The keys in ascending order, each once. */
  function SortedKeys(s: set<string>): (ks: seq<string>)
    ensures forall k :: k in ks <==> k in s
    ensures |ks| == |s|
    ensures InOrder(ks)
    decreases |s|
  {
    if s == {} then []
    else
      var k := Least(s);
      var rest := SortedKeys(s - {k});
      LeastFirst(s, k, rest);
      [k] + rest
  }

  lemma LeastFirst(s: set<string>, k: string, rest: seq<string>)
    requires IsLeast(k, s) && |rest| == |s - {k}| && (forall k' :: k' in rest <==> k' in s - {k})
    requires InOrder(rest)
    ensures |[k] + rest| == |s| && forall k' :: k' in [k] + rest <==> k' in s
    ensures InOrder([k] + rest)
  {
    hide LexLeq;
    assert s == (s - {k}) + {k};
    forall j | 0 <= j < |rest| ensures LexLeq(k, rest[j]) && k != rest[j] {
      assert rest[j] in rest;
    }
  }

  // ---- JSON ----

  function MapFields(ks: seq<string>, m: map<string, string>): Fields
    requires forall k | k in ks :: k in m
  {
    if ks == [] then End else Field(ks[0], Text(m[ks[0]]), MapFields(ks[1..], m))
  }

  function MapJson(p: Params): Value {
    match p
    case Nil => Null
    case Entries(m) => Object(MapFields(SortedKeys(m.Keys), m))
  }

  /** Later entries win, as when decoding into a Go map. */
  function FieldsToMap(fs: Fields): Option<map<string, string>> {
    match fs
    case End => Some(map[])
    case Field(k, v, rest) =>
      var m :- FieldsToMap(rest);
      if v.Text? then Some(map[k := v.s] + m) else None
  }

  function MapFromJson(v: Value): Option<Params> {
    match v
    case Null => Some(Nil)
    case Object(fs) =>
      var m :- FieldsToMap(fs);
      Some(Entries(m))
    case _ => None
  }

  lemma {:induction false} FieldsToMapInverts(ks: seq<string>, m: map<string, string>)
    requires forall k | k in ks :: k in m
    ensures FieldsToMap(MapFields(ks, m)) == Some(map k | k in ks :: m[k])
  {
    if ks != [] {
      FieldsToMapInverts(ks[1..], m);
      assert (map k | k in ks :: m[k]) == map[ks[0] := m[ks[0]]] + (map k | k in ks[1..] :: m[k]);
    }
  }

  lemma MapRoundTrip(p: Params)
    ensures MapFromJson(MapJson(p)) == Some(p)
  {
    hide SortedKeys, MapFields, FieldsToMap;
    if p.Entries? {
      var ks := SortedKeys(p.m.Keys);
      assert forall k | k in ks :: k in p.m;
      FieldsToMapInverts(ks, p.m);
      var m' := map k | k in ks :: p.m[k];
      assert m'.Keys == p.m.Keys;
      assert m' == p.m;
    }
  }

  // ---- struct fields ----

  /** The value of the first field, if it has that name, and the fields after it. */
  function Take(fs: Fields, name: string): Option<(Value, Fields)> {
    if fs.Field? && fs.name == name then Some((fs.value, fs.rest)) else None
  }

  /** The value a field name stands for. */
  ghost function FieldOf(fs: Fields, name: string): Option<Value> {
    if fs.End? then None else if fs.name == name then Some(fs.value) else FieldOf(fs.rest, name)
  }

  /** The first two of some fields are looked up one after the other. */
  lemma TwoFields(fs: Fields)
    requires fs.Field? && fs.rest.Field?
    ensures forall name ::
              FieldOf(fs, name) ==
              if name == fs.name then Some(fs.value)
              else if name == fs.rest.name then Some(fs.rest.value)
              else FieldOf(fs.rest.rest, name)
  {
  }

  lemma LastField(fs: Fields)
    requires fs.Field?
    ensures FieldOf(fs, fs.name) == Some(fs.value)
  {
  }

  function TakeText(fs: Fields, name: string): Option<(string, Fields)> {
    var (v, rest) :- Take(fs, name);
    if v.Text? then Some((v.s, rest)) else None
  }

  function TakeInt(fs: Fields, name: string): Option<(int, Fields)> {
    var (v, rest) :- Take(fs, name);
    if v.Number? then Some((v.n, rest)) else None
  }

  function TakeParams(fs: Fields, name: string): Option<(Params, Fields)> {
    var (v, rest) :- Take(fs, name);
    var p :- MapFromJson(v);
    Some((p, rest))
  }
}
