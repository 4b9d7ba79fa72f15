/**
 Decoded JSON values as the Team services hold them, and the exact type-sensitive equality a Routine plan compares
 them with.  A value read from the wire has unique member names; `Unique` states that.
 */
module Json {
  import opened Basics

  /** A number keeps its exact value; a float also keeps the text Python writes for it. */
  datatype Number = Int(whole: int) | Float(exact: real, repr: string)

  datatype Value =
    | Null
    | Bool(flag: bool)
    | Num(number: Number)
    | Str(text: string)
    | Arr(items: seq<Value>)
    | Obj(members: seq<Member>)

  datatype Member = Member(key: string, value: Value)

  function Exact(n: Number): real {
    match n
    case Int(i) => i as real
    case Float(r, _) => r
  }

  predicate IsInteger(v: Value) { v.Num? && v.number.Int? }

  /** The place of the first member named `key`, or the number of members. */
  function Place(members: seq<Member>, key: string): (k: nat)
    ensures k <= |members|
    ensures k < |members| ==> members[k].key == key
    ensures forall i :: 0 <= i < k ==> members[i].key != key
  {
    if members == [] then 0
    else if members[0].key == key then 0
    else 1 + Place(members[1..], key)
  }

  /** `value.get(key)`: the first member of that name of an object. */
  function Get(v: Value, key: string): (r: Option<Value>)
    ensures r.Some? ==> v.Obj? && r.value < v
  {
    if v.Obj? && Place(v.members, key) < |v.members|
    then Some(v.members[Place(v.members, key)].value)
    else None
  }

  predicate UniqueKeys(members: seq<Member>) {
    forall i, j :: 0 <= i < j < |members| ==> members[i].key != members[j].key
  }

  /** Every object inside the value has unique member names, as the strict parser guarantees. */
  predicate Unique(v: Value) {
    match v
    case Arr(items) => forall i :: 0 <= i < |items| ==> Unique(items[i])
    case Obj(members) =>
      UniqueKeys(members) && forall i :: 0 <= i < |members| ==> Unique(members[i].value)
    case _ => true
  }

  lemma UniquePlace(members: seq<Member>, i: nat)
    requires UniqueKeys(members) && i < |members|
    ensures Place(members, members[i].key) == i
  {
  }

  /** Exact JSON equality: numbers by value, objects as maps, a boolean never equal to a number. */
  predicate Same(a: Value, b: Value)
    decreases a
  {
    match (a, b)
    case (Null, Null) => true
    case (Bool(x), Bool(y)) => x == y
    case (Num(x), Num(y)) => Exact(x) == Exact(y)
    case (Str(x), Str(y)) => x == y
    case (Arr(x), Arr(y)) => |x| == |y| && forall i :: 0 <= i < |x| ==> Same(x[i], y[i])
    case (Obj(x), Obj(y)) =>
      && |x| == |y|
      && forall i :: 0 <= i < |x| ==>
           Place(y, x[i].key) < |y| && Same(x[i].value, y[Place(y, x[i].key)].value)
    case _ => false
  }

  /** The places the members of `x` have in `y`. */
  ghost function Matches(x: seq<Member>, y: seq<Member>): (m: seq<int>)
    ensures |m| == |x| && forall i :: 0 <= i < |x| ==> m[i] == Place(y, x[i].key)
  {
    seq(|x|, i requires 0 <= i < |x| => Place(y, x[i].key))
  }

  /** The first `n` natural numbers. */
  ghost function Below(n: nat): (s: set<int>)
    ensures |s| == n && forall i :: i in s <==> 0 <= i < n
  {
    if n == 0 then {} else Below(n - 1) + {n - 1}
  }

  /** Distinct numbers below their count leave none out. */
  lemma Surjective(m: seq<int>, target: nat)
    requires forall i :: 0 <= i < |m| ==> 0 <= m[i] < |m|
    requires forall i, j :: 0 <= i < j < |m| ==> m[i] != m[j]
    requires target < |m|
    ensures target in m
  {
    var image := set i | 0 <= i < |m| :: m[i];
    ImageSize(m, |m|);
    if target !in m {
      SubsetSize(image, Below(|m|) - {target});
    }
  }

  lemma SubsetSize<T>(a: set<T>, b: set<T>)
    requires a <= b
    ensures |a| <= |b|
  {
    assert b == a + (b - a);
  }

  lemma ImageSize(m: seq<int>, n: nat)
    requires n <= |m|
    requires forall i, j :: 0 <= i < j < |m| ==> m[i] != m[j]
    ensures |set i | 0 <= i < n :: m[i]| == n
  {
    if n > 0 {
      ImageSize(m, n - 1);
      var before := set i | 0 <= i < n - 1 :: m[i];
      assert (set i | 0 <= i < n :: m[i]) == before + {m[n - 1]};
      assert m[n - 1] !in before;
    }
  }

  /** Objects of the same members name the same keys, whichever side one starts from. */
  lemma SameKeys(x: seq<Member>, y: seq<Member>, j: nat)
    requires UniqueKeys(x) && UniqueKeys(y) && Same(Obj(x), Obj(y)) && j < |y|
    ensures Place(x, y[j].key) < |x| && Place(y, x[Place(x, y[j].key)].key) == j
  {
    var m := Matches(x, y);
    forall a, b | 0 <= a < b < |m| ensures m[a] != m[b] {
      assert y[m[a]].key == x[a].key && y[m[b]].key == x[b].key;
    }
    Surjective(m, j);
    var i :| 0 <= i < |m| && m[i] == j;
    UniquePlace(x, i);
    assert x[i].key == y[j].key;
  }

  lemma {:induction false} SameSymmetric(a: Value, b: Value)
    requires Unique(a) && Unique(b) && Same(a, b)
    ensures Same(b, a)
    decreases a
  {
    match (a, b)
    case (Arr(x), Arr(y)) =>
      forall i | 0 <= i < |x| ensures Same(y[i], x[i]) {
        SameSymmetric(x[i], y[i]);
      }
    case (Obj(x), Obj(y)) =>
      forall j | 0 <= j < |y|
        ensures Place(x, y[j].key) < |x| && Same(y[j].value, x[Place(x, y[j].key)].value)
      {
        SameKeys(x, y, j);
        var i := Place(x, y[j].key);
        SameSymmetric(x[i].value, y[j].value);
      }
    case _ =>
  }

  lemma {:induction false} SameTransitive(a: Value, b: Value, c: Value)
    requires Same(a, b) && Same(b, c)
    ensures Same(a, c)
    decreases a
  {
    match (a, b, c)
    case (Arr(x), Arr(y), Arr(z)) =>
      forall i | 0 <= i < |x| ensures Same(x[i], z[i]) {
        SameTransitive(x[i], y[i], z[i]);
      }
    case (Obj(x), Obj(y), Obj(z)) =>
      forall i | 0 <= i < |x|
        ensures Place(z, x[i].key) < |z| && Same(x[i].value, z[Place(z, x[i].key)].value)
      {
        var k := Place(y, x[i].key);
        assert y[k].key == x[i].key;
        SameTransitive(x[i].value, y[k].value, z[Place(z, y[k].key)].value);
      }
    case _ =>
  }
}
