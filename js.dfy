/**
 * The slice of JavaScript's value semantics that the editor and the export
 * controller rely on: JSON-like values, plain objects as ordered entry lists
 * (the order `Object.entries` and spreads observe), object spread, optional
 * chaining, truthiness with `||`, strict equality, and the string conversion
 * a template literal performs.
 */
module Js {

  datatype Option<+T> = None | Some(value: T)

  /** A JSON-like value; `undefined` is `None` in an `Option<Value>`. */
  datatype Value =
    | Null
    | Bool(b: bool)
    | Num(n: int)
    | Str(s: string)
    | Arr(items: seq<Value>)
    | Obj(entries: seq<(string, Value)>)

  /** A plain object: its own enumerable properties, in insertion order. */
  type Object = seq<(string, Value)>

  function Keys(o: Object): (ks: seq<string>)
    ensures |ks| == |o|
    ensures forall i :: 0 <= i < |o| ==> ks[i] == o[i].0
  {
    seq(|o|, i requires 0 <= i < |o| => o[i].0)
  }

  /** A JavaScript object never holds one key twice. */
  predicate UniqueKeys(o: Object) {
    forall i, j :: 0 <= i < j < |o| ==> o[i].0 != o[j].0
  }

  lemma KeysTail(o: Object)
    requires o != []
    ensures Keys(o) == [o[0].0] + Keys(o[1..])
  {
  }

  /** Property read `o[k]` on a plain object. */
  function Get(o: Object, k: string): (r: Option<Value>)
    ensures r.Some? <==> k in Keys(o)
    ensures r.Some? ==> exists i :: 0 <= i < |o| && o[i] == (k, r.value)
  {
    if o == [] then None
    else
      KeysTail(o);
      if o[0].0 == k then Some(o[0].1) else Get(o[1..], k)
  }

  /**
   * `{...o, [k]: v}`: an existing key keeps its position and takes the new
   * value; a new key goes last.
   */
  function Put(o: Object, k: string, v: Value): Object
  {
    if o == [] then [(k, v)]
    else if o[0].0 == k then [(k, v)] + o[1..]
    else [o[0]] + Put(o[1..], k, v)
  }

  lemma {:induction false} GetPut(o: Object, k: string, v: Value, k': string)
    ensures Get(Put(o, k, v), k') == if k' == k then Some(v) else Get(o, k')
  {
    if o != [] && o[0].0 != k {
      GetPut(o[1..], k, v, k');
    }
  }

  lemma {:induction false} KeysPut(o: Object, k: string, v: Value)
    ensures Keys(Put(o, k, v)) == if k in Keys(o) then Keys(o) else Keys(o) + [k]
  {
    if o != [] {
      KeysTail(o);
      KeysTail(Put(o, k, v));
      if o[0].0 != k {
        KeysPut(o[1..], k, v);
      }
    }
  }

  lemma KeysUnique(o: Object)
    ensures UniqueKeys(o) <==> o == [] || (o[0].0 !in Keys(o[1..]) && UniqueKeys(o[1..]))
  {
    if o != [] {
      KeysTail(o);
      if UniqueKeys(o) {
        forall i | 0 <= i < |o[1..]| ensures o[1..][i].0 != o[0].0 {
          assert o[1..][i] == o[i + 1];
        }
      }
      if o[0].0 !in Keys(o[1..]) && UniqueKeys(o[1..]) {
        forall i, j | 0 <= i < j < |o| ensures o[i].0 != o[j].0 {
          assert o[j] == o[1..][j - 1];
          if i > 0 { assert o[i] == o[1..][i - 1]; }
        }
      }
    }
  }

  lemma {:induction false} PutUnique(o: Object, k: string, v: Value)
    requires UniqueKeys(o)
    ensures UniqueKeys(Put(o, k, v))
  {
    var r := Put(o, k, v);
    KeysPut(o, k, v);
    var ko, kr := Keys(o), Keys(r);
    forall i, j | 0 <= i < j < |r| ensures r[i].0 != r[j].0 {
      assert r[i].0 == kr[i] && r[j].0 == kr[j];
      if j < |o| {
        assert kr[i] == ko[i] == o[i].0 && kr[j] == ko[j] == o[j].0;
      } else {
        assert kr[j] == k && kr[i] == ko[i];
      }
    }
  }

  /**
   * `{...o, ...p}` where p is a plain object: p's entries are put into o
   * one at a time, left to right.
   */
  function Spread(o: Object, p: Object): Object
    decreases |p|
  {
    if p == [] then o else Spread(Put(o, p[0].0, p[0].1), p[1..])
  }

  /** After a spread, a key of p reads p's value and every other key reads o's. */
  lemma {:induction false} GetSpread(o: Object, p: Object, k: string)
    requires UniqueKeys(p)
    ensures Get(Spread(o, p), k) == if k in Keys(p) then Get(p, k) else Get(o, k)
    decreases |p|
  {
    if p != [] {
      KeysTail(p);
      KeysUnique(p);
      GetSpread(Put(o, p[0].0, p[0].1), p[1..], k);
      GetPut(o, p[0].0, p[0].1, k);
    }
  }

  lemma {:induction false} SpreadUnique(o: Object, p: Object)
    requires UniqueKeys(o)
    ensures UniqueKeys(Spread(o, p))
    decreases |p|
  {
    if p != [] {
      PutUnique(o, p[0].0, p[0].1);
      SpreadUnique(Put(o, p[0].0, p[0].1), p[1..]);
    }
  }

  /** Decimal digits of a natural number, as `String(n)` writes them. */
  function NatToString(n: nat): (r: string)
    ensures |r| >= 1
    ensures forall i :: 0 <= i < |r| ==> '0' <= r[i] <= '9'
    ensures r[0] == '0' ==> n == 0
  {
    if n < 10 then [DigitChar(n)] else NatToString(n / 10) + [DigitChar(n % 10)]
  }

  function DigitChar(d: nat): (c: char)
    requires d < 10
    ensures '0' <= c <= '9'
  {
    "0123456789"[d]
  }

  /** Reads back a string of decimal digits: the partner of NatToString. */
  function ParseDigits(s: string): nat
  {
    if s == [] then 0
    else
      var c := s[|s| - 1];
      var d := if '0' <= c <= '9' then c as int - '0' as int else 0;
      ParseDigits(s[..|s| - 1]) * 10 + d
  }

  lemma {:induction false} ParseNatToString(n: nat)
    ensures ParseDigits(NatToString(n)) == n
  {
    var s := NatToString(n);
    if n < 10 {
      DigitValue(n);
      assert s[..0] == [];
    } else {
      assert s[..|s| - 1] == NatToString(n / 10);
      DigitValue(n % 10);
      ParseNatToString(n / 10);
    }
  }

  lemma DigitValue(d: nat)
    requires d < 10
    ensures DigitChar(d) as int - '0' as int == d
  {
  }

  lemma NatToStringInjective(a: nat, b: nat)
    requires NatToString(a) == NatToString(b)
    ensures a == b
  {
    ParseNatToString(a);
    ParseNatToString(b);
  }

  /** `String(n)` for an integral number. */
  function IntToString(n: int): (r: string)
    ensures n >= 0 ==> r == NatToString(n)
    ensures n < 0 ==> r == "-" + NatToString(-n)
  {
    if n < 0 then "-" + NatToString(-n) else NatToString(n)
  }

  /** `parts.join(sep)` */
  function Join(parts: seq<string>, sep: string): (r: string)
    ensures |parts| == 1 ==> r == parts[0]
  {
    if parts == [] then ""
    else if |parts| == 1 then parts[0]
    else parts[0] + sep + Join(parts[1..], sep)
  }

  lemma {:induction false} JoinAppend(a: seq<string>, b: seq<string>, sep: string)
    requires a != [] && b != []
    ensures Join(a + b, sep) == Join(a, sep) + sep + Join(b, sep)
  {
    if |a| == 1 {
      assert (a + b)[1..] == b;
    } else {
      assert (a + b)[1..] == a[1..] + b;
      JoinAppend(a[1..], b, sep);
    }
  }

  /** The own enumerable entries of a value: what `{...v}` and `Object.entries(v)` see. */
  function OwnEntries(v: Option<Value>): (r: Object)
    ensures v.Some? && v.value.Obj? ==> r == v.value.entries
    ensures (v.Some? && v.value.Obj? ==> UniqueKeys(v.value.entries)) ==> UniqueKeys(r)
    ensures !(v.Some? && (v.value.Obj? || v.value.Arr? || v.value.Str?)) ==> r == []
  {
    match v
    case Some(Obj(e)) => e
    case Some(Arr(items)) =>
      var r := seq(|items|, i requires 0 <= i < |items| => (NatToString(i), items[i]));
      forall i, j | 0 <= i < j < |r| ensures r[i].0 != r[j].0 {
        if r[i].0 == r[j].0 { NatToStringInjective(i, j); }
      }
      r
    case Some(Str(s)) =>
      var r := seq(|s|, i requires 0 <= i < |s| => (NatToString(i), Str([s[i]])));
      forall i, j | 0 <= i < j < |r| ensures r[i].0 != r[j].0 {
        if r[i].0 == r[j].0 { NatToStringInjective(i, j); }
      }
      r
    case _ => []
  }

  /** `v.k` on a value that is not null or undefined. */
  function Prop(v: Value, k: string): (r: Option<Value>)
    ensures v.Obj? ==> r == Get(v.entries, k)
    ensures !v.Obj? ==> r == None
  {
    if v.Obj? then Get(v.entries, k) else None
  }

  /** `v?.k` */
  function OptionalProp(v: Option<Value>, k: string): (r: Option<Value>)
    ensures v == None || v == Some(Null) ==> r == None
    ensures r.Some? ==> v.Some? && v.value.Obj? && Get(v.value.entries, k) == r
  {
    match v
    case None => None
    case Some(x) => Prop(x, k)
  }

  predicate Truthy(v: Option<Value>) {
    match v
    case None => false
    case Some(Null) => false
    case Some(Bool(b)) => b
    case Some(Num(n)) => n != 0
    case Some(Str(s)) => s != ""
    case Some(_) => true
  }

  /** `a || d` */
  function Or(a: Option<Value>, d: Value): (r: Value)
    ensures Truthy(a) ==> Some(r) == a
    ensures !Truthy(a) ==> r == d
  {
    if Truthy(a) then a.value else d
  }

  /**
   * `a === b`. Two arrays or two objects are taken to be distinct
   * references, so they are never strictly equal here.
   */
  predicate StrictEquals(a: Option<Value>, b: Option<Value>) {
    match (a, b)
    case (None, None) => true
    case (Some(Null), Some(Null)) => true
    case (Some(Bool(x)), Some(Bool(y))) => x == y
    case (Some(Num(x)), Some(Num(y))) => x == y
    case (Some(Str(x)), Some(Str(y))) => x == y
    case _ => false
  }

  /** `String(v)`: the text a template literal substitutes for a value. */
  function Render(v: Value): string
    decreases v
  {
    match v
    case Null => "null"
    case Bool(b) => if b then "true" else "false"
    case Num(n) => IntToString(n)
    case Str(s) => s
    case Arr(items) =>
      // Array.prototype.toString joins with "," and writes null as ""
      Join(seq(|items|, i requires 0 <= i < |items| => if items[i] == Null then "" else Render(items[i])), ",")
    case Obj(_) => "[object Object]"
  }

  /** `${v}` where v may be undefined. */
  function Interpolate(v: Option<Value>): (r: string)
    ensures v == None ==> r == "undefined"
    ensures v.Some? && v.value.Str? ==> r == v.value.s
  {
    match v
    case None => "undefined"
    case Some(x) => Render(x)
  }

  /** `sub` occurs in `s` starting at position i. */
  predicate OccursAt(sub: string, s: string, i: nat) {
    i + |sub| <= |s| && s[i..i + |sub|] == sub
  }

  ghost predicate Occurs(sub: string, s: string) {
    exists i: nat :: OccursAt(sub, s, i)
  }

  /** sub ends s = a + sub. */
  lemma OccursAfter(a: string, sub: string)
    ensures Occurs(sub, a + sub)
  {
    assert (a + sub)[|a|..|a| + |sub|] == sub;
    assert OccursAt(sub, a + sub, |a|);
  }

  /** An occurrence in s is still one after text is appended to s. */
  lemma OccursExtend(sub: string, s: string, t: string)
    requires Occurs(sub, s)
    ensures Occurs(sub, s + t)
  {
    var i: nat :| OccursAt(sub, s, i);
    assert (s + t)[i..i + |sub|] == s[i..i + |sub|];
    assert OccursAt(sub, s + t, i);
  }

  /** The pieces of a template literal, substituted and concatenated left to right. */
  function Concat(parts: seq<string>): string
  {
    if parts == [] then "" else Concat(parts[..|parts| - 1]) + parts[|parts| - 1]
  }

  lemma {:induction false} OccursInConcat(parts: seq<string>, k: nat)
    requires k < |parts|
    ensures Occurs(parts[k], Concat(parts))
    decreases |parts|
  {
    var init := parts[..|parts| - 1];
    if k == |parts| - 1 {
      OccursAfter(Concat(init), parts[k]);
    } else {
      assert init[k] == parts[k];
      OccursInConcat(init, k);
      OccursExtend(parts[k], Concat(init), parts[|parts| - 1]);
    }
  }

  /** An occurrence in s is still one after text is put in front of s. */
  lemma OccursPrepend(sub: string, a: string, s: string)
    requires Occurs(sub, s)
    ensures Occurs(sub, a + s)
  {
    var i: nat :| OccursAt(sub, s, i);
    assert (a + s)[|a| + i..|a| + i + |sub|] == s[i..i + |sub|];
    assert OccursAt(sub, a + s, |a| + i);
  }

  lemma OccursTrans(x: string, y: string, z: string)
    requires Occurs(x, y) && Occurs(y, z)
    ensures Occurs(x, z)
  {
    var i: nat :| OccursAt(x, y, i);
    var j: nat :| OccursAt(y, z, j);
    forall m | 0 <= m < |x| ensures z[j + i + m] == x[m] {
      assert z[j + i + m] == z[j..j + |y|][i + m] == y[i + m];
      assert y[i + m] == y[i..i + |x|][m];
    }
    assert z[j + i..j + i + |x|] == x;
    assert OccursAt(x, z, j + i);
  }

  /** Every part occurs in the joined string. */
  lemma {:induction false} OccursInJoin(parts: seq<string>, sep: string, k: nat)
    requires k < |parts|
    ensures Occurs(parts[k], Join(parts, sep))
    decreases |parts|
  {
    if |parts| == 1 {
      OccursAfter("", parts[0]);
      assert "" + parts[0] == parts[0];
    } else if k == 0 {
      OccursAfter("", parts[0]);
      assert "" + parts[0] == parts[0];
      OccursExtend(parts[0], parts[0], sep);
      OccursExtend(parts[0], parts[0] + sep, Join(parts[1..], sep));
    } else {
      assert parts[1..][k - 1] == parts[k];
      OccursInJoin(parts[1..], sep, k - 1);
      OccursPrepend(parts[k], parts[0] + sep, Join(parts[1..], sep));
    }
  }

  lemma OccursInConcat3(p0: string, p1: string, p2: string)
    ensures Occurs(p1, Concat([p0, p1, p2]))
  {
    OccursInConcat([p0, p1, p2], 1);
  }

  lemma OccursInConcat5(p0: string, p1: string, p2: string, p3: string, p4: string)
    ensures var r := Concat([p0, p1, p2, p3, p4]);
      Occurs(p0, r) && Occurs(p1, r) && Occurs(p3, r)
  {
    var parts := [p0, p1, p2, p3, p4];
    OccursInConcat(parts, 0);
    OccursInConcat(parts, 1);
    OccursInConcat(parts, 3);
  }

  lemma OccursInConcat7(p0: string, p1: string, p2: string, p3: string, p4: string, p5: string, p6: string)
    ensures var r := Concat([p0, p1, p2, p3, p4, p5, p6]);
      Occurs(p0, r) && Occurs(p1, r) && Occurs(p3, r) && Occurs(p5, r)
  {
    var parts := [p0, p1, p2, p3, p4, p5, p6];
    OccursInConcat(parts, 0);
    OccursInConcat(parts, 1);
    OccursInConcat(parts, 3);
    OccursInConcat(parts, 5);
  }

  lemma OccursInConcat9(p0: string, p1: string, p2: string, p3: string, p4: string,
                        p5: string, p6: string, p7: string, p8: string)
    ensures var r := Concat([p0, p1, p2, p3, p4, p5, p6, p7, p8]);
      Occurs(p1, r) && Occurs(p3, r) && Occurs(p5, r) && Occurs(p7, r)
  {
    var parts := [p0, p1, p2, p3, p4, p5, p6, p7, p8];
    OccursInConcat(parts, 1);
    OccursInConcat(parts, 3);
    OccursInConcat(parts, 5);
    OccursInConcat(parts, 7);
  }
}
