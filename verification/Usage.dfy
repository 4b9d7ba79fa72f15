/**
 What a chat turn's model calls used: per-model totals kept in key order, sorted, clamped and cut to the wire's first
 models when they are shown or carried, and still exact when they are joined.
 */
module Usage {
  import opened TextOrder

  const MAX_MODELS: nat := 16
  const MAX_TOKENS: nat := 1_000_000_000
  const MAX_DURATION_MS: int := 86_400_000

  /** A provider and model. */
  datatype Key = Key(provider: string, model: string)

  /** One model's input and output tokens. */
  datatype Count = Count(key: Key, inputs: nat, outputs: nat)

  // ----- The key order ---------------------------------------------------------------------------------------------

  predicate Before(a: Key, b: Key) {
    Less(a.provider, b.provider) || (a.provider == b.provider && Less(a.model, b.model))
  }

  lemma BeforeTotal(a: Key, b: Key)
    ensures a == b || Before(a, b) || Before(b, a)
  {
    TextTotal(a.provider, b.provider);
    TextTotal(a.model, b.model);
  }

  lemma BeforeAsymmetric(a: Key, b: Key)
    requires Before(a, b)
    ensures a != b && !Before(b, a)
  {
    if Before(b, a) {
      if a.provider != b.provider {
        TextAntisymmetric(a.provider, b.provider);
      } else {
        TextAntisymmetric(a.model, b.model);
      }
    }
  }

  lemma BeforeTransitive(a: Key, b: Key, c: Key)
    requires Before(a, b) && Before(b, c)
    ensures Before(a, c)
  {
    if a.provider == b.provider == c.provider {
      LessTransitive(a.model, b.model, c.model);
    } else if a.provider != b.provider && b.provider != c.provider {
      LessTransitive(a.provider, b.provider, c.provider);
    }
  }

  lemma LessTransitive(a: string, b: string, c: string)
    requires Less(a, b) && Less(b, c)
    ensures Less(a, c)
  {
    TextTransitive(a, b, c);
    if a == c {
      TextAntisymmetric(a, b);
    }
  }

  // ----- Totals ----------------------------------------------------------------------------------------------------

  /** Totals in strictly increasing key order, as the ordered map holds them. */
  predicate Ordered(t: seq<Count>) { forall i, j :: 0 <= i < j < |t| ==> Before(t[i].key, t[j].key) }

  /** Adds a count to its key's entry, a new one when it has none. */
  function Add(t: seq<Count>, c: Count): (r: seq<Count>)
    ensures r != []
  {
    if t == [] || Before(c.key, t[0].key) then [c] + t
    else if c.key == t[0].key then [Count(c.key, t[0].inputs + c.inputs, t[0].outputs + c.outputs)] + t[1..]
    else [t[0]] + Add(t[1..], c)
  }

  function AddAll(t: seq<Count>, counts: seq<Count>): seq<Count> {
    if counts == [] then t else Add(AddAll(t, counts[..|counts| - 1]), counts[|counts| - 1])
  }

  /** The keys of an added entry come from the entry or the totals. */
  lemma {:induction false} AddKeys(t: seq<Count>, c: Count, i: nat)
    requires i < |Add(t, c)|
    ensures Add(t, c)[i].key == c.key || exists k :: 0 <= k < |t| && t[k].key == Add(t, c)[i].key
    decreases |t|
  {
    if t == [] || Before(c.key, t[0].key) || c.key == t[0].key {
      assert i > 0 && c.key != Add(t, c)[i].key ==> exists k :: 0 <= k < |t| && t[k].key == Add(t, c)[i].key by {
        if i > 0 {
          assert Add(t, c)[i] == if t == [] || Before(c.key, t[0].key) then t[i - 1] else t[i];
        }
      }
    } else if i > 0 {
      AddKeys(t[1..], c, i - 1);
    } else {
      assert t[0].key == Add(t, c)[0].key;
    }
  }

  lemma {:induction false} AddOrdered(t: seq<Count>, c: Count)
    requires Ordered(t)
    ensures Ordered(Add(t, c))
    decreases |t|
  {
    if t == [] {
    } else if Before(c.key, t[0].key) {
      forall j | 0 <= j < |t| ensures Before(c.key, t[j].key) {
        if j > 0 {
          BeforeTransitive(c.key, t[0].key, t[j].key);
        }
      }
    } else if c.key != t[0].key {
      BeforeTotal(c.key, t[0].key);
      AddOrdered(t[1..], c);
      var rest := Add(t[1..], c);
      forall j | 0 <= j < |rest| ensures Before(t[0].key, rest[j].key) {
        AddKeys(t[1..], c, j);
      }
    }
  }

  lemma {:induction false} AddAllOrdered(t: seq<Count>, counts: seq<Count>)
    requires Ordered(t)
    ensures Ordered(AddAll(t, counts))
    decreases |counts|
  {
    if counts != [] {
      AddAllOrdered(t, counts[..|counts| - 1]);
      AddOrdered(AddAll(t, counts[..|counts| - 1]), counts[|counts| - 1]);
    }
  }

  /** Two counts may be added in either order. */
  lemma {:induction false} AddCommutes(t: seq<Count>, a: Count, b: Count)
    requires Ordered(t)
    ensures Add(Add(t, a), b) == Add(Add(t, b), a)
    decreases |t|
  {
    BeforeTotal(a.key, b.key);
    if Before(a.key, b.key) {
      AddApart(t, a, b);
    } else if Before(b.key, a.key) {
      AddApart(t, b, a);
    } else {
      AddSame(t, a, b);
    }
  }

  lemma {:induction false} AddApart(t: seq<Count>, a: Count, b: Count)
    requires Ordered(t) && Before(a.key, b.key)
    ensures Add(Add(t, a), b) == Add(Add(t, b), a)
    decreases |t|
  {
    BeforeAsymmetric(a.key, b.key);
    if t == [] {
      assert Add([a], b) == [a] + Add([], b) by { assert [a][1..] == []; }
    } else {
      BeforeTotal(a.key, t[0].key);
      BeforeTotal(b.key, t[0].key);
      if Before(a.key, t[0].key) {
        assert Add(t, a)[1..] == t;
      } else if a.key == t[0].key {
        assert Add(t, a)[1..] == t[1..];
        assert Add(t, b) == [t[0]] + Add(t[1..], b);
        assert Add(t, b)[1..] == Add(t[1..], b);
      } else {
        BeforeTransitive(t[0].key, a.key, b.key);
        BeforeAsymmetric(t[0].key, a.key);
        BeforeAsymmetric(t[0].key, b.key);
        AddApart(t[1..], a, b);
        assert Add(t, a)[1..] == Add(t[1..], a) && Add(t, b)[1..] == Add(t[1..], b);
      }
    }
  }

  lemma {:induction false} AddSame(t: seq<Count>, a: Count, b: Count)
    requires Ordered(t) && a.key == b.key
    ensures Add(Add(t, a), b) == Add(Add(t, b), a)
    ensures Add(Add(t, a), b) == Add(t, Count(a.key, a.inputs + b.inputs, a.outputs + b.outputs))
  {
    AddSum(t, a, b);
    AddSum(t, b, a);
  }

  lemma {:induction false} AddSum(t: seq<Count>, a: Count, b: Count)
    requires Ordered(t) && a.key == b.key
    ensures Add(Add(t, a), b) == Add(t, Count(a.key, a.inputs + b.inputs, a.outputs + b.outputs))
    decreases |t|
  {
    if t == [] || Before(a.key, t[0].key) {
      assert ([a] + t)[1..] == t;
    } else if a.key == t[0].key {
      assert Add(t, a)[1..] == t[1..];
    } else {
      AddSum(t[1..], a, b);
      assert Add(t, a)[1..] == Add(t[1..], a);
    }
  }

  // ----- The wire bounds -------------------------------------------------------------------------------------------

  /** Whether a provider or model name may be shown. */
  type Shown = string -> bool

  predicate Visible(shown: Shown, key: Key) { shown(key.provider) && shown(key.model) }

  function Clamp(n: nat): nat { if n <= MAX_TOKENS then n else MAX_TOKENS }

  function Clamped(c: Count): Count { Count(c.key, Clamp(c.inputs), Clamp(c.outputs)) }

  /** The first `n` visible models, clamped. */
  function Bounded(shown: Shown, t: seq<Count>, n: nat): seq<Count> {
    if t == [] || n == 0 then []
    else if Visible(shown, t[0].key) then [Clamped(t[0])] + Bounded(shown, t[1..], n - 1)
    else Bounded(shown, t[1..], n)
  }

  lemma {:induction false} BoundedKeys(shown: Shown, t: seq<Count>, n: nat, i: nat)
    requires i < |Bounded(shown, t, n)|
    ensures exists k :: 0 <= k < |t| && t[k].key == Bounded(shown, t, n)[i].key
    decreases |t|
  {
    if Visible(shown, t[0].key) {
      if i == 0 {
        assert t[0].key == Bounded(shown, t, n)[0].key;
      } else {
        BoundedKeys(shown, t[1..], n - 1, i - 1);
      }
    } else {
      BoundedKeys(shown, t[1..], n, i);
    }
  }

  /** Cutting again at or below the first cut is cutting once. */
  lemma {:induction false} BoundedAgain(shown: Shown, t: seq<Count>, n: nat, m: nat)
    requires m <= n
    ensures Bounded(shown, Bounded(shown, t, n), m) == Bounded(shown, t, m)
    decreases |t|
  {
    if t != [] && n > 0 {
      if Visible(shown, t[0].key) {
        assert Bounded(shown, t, n)[1..] == Bounded(shown, t[1..], n - 1);
        if m > 0 {
          BoundedAgain(shown, t[1..], n - 1, m - 1);
        }
      } else {
        BoundedAgain(shown, t[1..], n, m);
      }
    }
  }

  /** A count that is not shown changes nothing that is. */
  lemma {:induction false} HiddenAdd(shown: Shown, t: seq<Count>, c: Count, n: nat)
    requires !Visible(shown, c.key)
    ensures Bounded(shown, Add(t, c), n) == Bounded(shown, t, n)
    decreases |t|
  {
    if t == [] || Before(c.key, t[0].key) {
      assert ([c] + t)[1..] == t;
    } else if c.key == t[0].key {
      assert Add(t, c)[1..] == t[1..];
    } else {
      assert Add(t, c)[1..] == Add(t[1..], c);
      if Visible(shown, t[0].key) {
        if n > 0 {
          HiddenAdd(shown, t[1..], c, n - 1);
        }
      } else {
        HiddenAdd(shown, t[1..], c, n);
      }
    }
  }

  /** Adding to the cut totals and cutting again is adding to the whole totals and cutting. */
  lemma {:induction false} BoundedAdd(shown: Shown, t: seq<Count>, c: Count, n: nat)
    requires Ordered(t)
    ensures Bounded(shown, Add(Bounded(shown, t, n), c), n) == Bounded(shown, Add(t, c), n)
    decreases |t|
  {
    if !Visible(shown, c.key) {
      HiddenAdd(shown, Bounded(shown, t, n), c, n);
      HiddenAdd(shown, t, c, n);
      BoundedAgain(shown, t, n, n);
    } else if n == 0 || t == [] {
    } else {
      BeforeTotal(c.key, t[0].key);
      if Before(c.key, t[0].key) {
        NewFirst(shown, t, c, n);
      } else if c.key == t[0].key {
        SameFirst(shown, t, c, n);
      } else {
        BeforeAsymmetric(t[0].key, c.key);
        assert Add(t, c)[1..] == Add(t[1..], c);
        if Visible(shown, t[0].key) {
          BoundedAdd(shown, t[1..], c, n - 1);
          var cut := Bounded(shown, t, n);
          assert cut[1..] == Bounded(shown, t[1..], n - 1);
          assert Add(cut, c)[1..] == Add(cut[1..], c);
        } else {
          BoundedAdd(shown, t[1..], c, n);
        }
      }
    }
  }

  lemma {:induction false} NewFirst(shown: Shown, t: seq<Count>, c: Count, n: nat)
    requires Ordered(t) && t != [] && n > 0 && Visible(shown, c.key) && Before(c.key, t[0].key)
    ensures Bounded(shown, Add(Bounded(shown, t, n), c), n) == Bounded(shown, Add(t, c), n)
  {
    var cut := Bounded(shown, t, n);
    if cut != [] {
      BoundedKeys(shown, t, n, 0);
      var k :| 0 <= k < |t| && t[k].key == cut[0].key;
      if k > 0 {
        BeforeTransitive(c.key, t[0].key, t[k].key);
      }
    }
    assert Add(cut, c)[1..] == cut && Add(t, c)[1..] == t;
    BoundedAgain(shown, t, n, n - 1);
  }

  lemma {:induction false} SameFirst(shown: Shown, t: seq<Count>, c: Count, n: nat)
    requires Ordered(t) && t != [] && n > 0 && Visible(shown, c.key) && c.key == t[0].key
    ensures Bounded(shown, Add(Bounded(shown, t, n), c), n) == Bounded(shown, Add(t, c), n)
  {
    var cut := Bounded(shown, t, n);
    if Before(c.key, t[0].key) {
      BeforeAsymmetric(c.key, t[0].key);
    }
    assert cut[1..] == Bounded(shown, t[1..], n - 1);
    assert Add(cut, c)[1..] == cut[1..] && Add(t, c)[1..] == t[1..];
    BoundedAgain(shown, t[1..], n - 1, n - 1);
  }

  /** However many counts are added, the cut may be made before and after or only after. */
  lemma {:induction false} BoundedAddAll(shown: Shown, t: seq<Count>, counts: seq<Count>, n: nat)
    requires Ordered(t) && Ordered(Bounded(shown, t, n))
    ensures Bounded(shown, AddAll(Bounded(shown, t, n), counts), n) == Bounded(shown, AddAll(t, counts), n)
    decreases |counts|
  {
    if counts == [] {
      BoundedAgain(shown, t, n, n);
    } else {
      var front, last := counts[..|counts| - 1], counts[|counts| - 1];
      BoundedAddAll(shown, t, front, n);
      AddAllOrdered(t, front);
      AddAllOrdered(Bounded(shown, t, n), front);
      BoundedAdd(shown, AddAll(t, front), last, n);
      BoundedAdd(shown, AddAll(Bounded(shown, t, n), front), last, n);
    }
  }

  lemma {:induction false} BoundedOrdered(shown: Shown, t: seq<Count>, n: nat)
    requires Ordered(t)
    ensures Ordered(Bounded(shown, t, n))
    decreases |t|
  {
    if t != [] && n > 0 {
      if Visible(shown, t[0].key) {
        BoundedOrdered(shown, t[1..], n - 1);
        var rest := Bounded(shown, t[1..], n - 1);
        forall i | 0 <= i < |rest| ensures Before(t[0].key, rest[i].key) {
          BoundedKeys(shown, t[1..], n - 1, i);
        }
      } else {
        BoundedOrdered(shown, t[1..], n);
      }
    }
  }

  // ----- Sums of totals --------------------------------------------------------------------------------------------

  lemma {:induction false} AddAllConcat(t: seq<Count>, a: seq<Count>, b: seq<Count>)
    ensures AddAll(t, a + b) == AddAll(AddAll(t, a), b)
    decreases |b|
  {
    if b == [] {
      assert a + b == a;
    } else {
      assert (a + b)[..|a + b| - 1] == a + b[..|b| - 1];
      AddAllConcat(t, a, b[..|b| - 1]);
    }
  }

  lemma AddAllFirst(t: seq<Count>, c: Count, rest: seq<Count>)
    ensures AddAll(t, [c] + rest) == AddAll(Add(t, c), rest)
  {
    AddAllConcat(t, [c], rest);
    assert [c][..0] == [];
  }

  /** A count added first may be added last. */
  lemma {:induction false} AddFirst(t: seq<Count>, c: Count, counts: seq<Count>)
    requires Ordered(t)
    ensures AddAll(Add(t, c), counts) == Add(AddAll(t, counts), c)
    decreases |counts|
  {
    if counts != [] {
      var front, last := counts[..|counts| - 1], counts[|counts| - 1];
      AddFirst(t, c, front);
      AddAllOrdered(t, front);
      AddCommutes(AddAll(t, front), c, last);
    }
  }

  lemma AddedSame(t: seq<Count>, head: Count, rest: seq<Count>, c: Count)
    requires Ordered(t) && c.key == head.key
    ensures AddAll(t, [Count(c.key, head.inputs + c.inputs, head.outputs + c.outputs)] + rest)
      == Add(AddAll(t, [head] + rest), c)
  {
    AddAllFirst(t, head, rest);
    AddAllFirst(t, Count(c.key, head.inputs + c.inputs, head.outputs + c.outputs), rest);
    AddSame(t, head, c);
    AddOrdered(t, head);
    AddFirst(Add(t, head), c, rest);
  }

  /** Adding a total that a count was added to is adding the total and then the count. */
  lemma {:induction false} AddedTotal(t: seq<Count>, u: seq<Count>, c: Count)
    requires Ordered(t) && Ordered(u)
    ensures AddAll(t, Add(u, c)) == Add(AddAll(t, u), c)
    decreases |u|
  {
    if u == [] || Before(c.key, u[0].key) {
      AddAllFirst(t, c, u);
      AddFirst(t, c, u);
    } else {
      var head, rest := u[0], u[1..];
      assert u == [head] + rest;
      AddOrdered(t, head);
      if c.key == head.key {
        AddedSame(t, head, rest, c);
      } else {
        AddAllFirst(t, head, rest);
        AddedTotal(Add(t, head), rest, c);
        AddAllFirst(t, head, Add(rest, c));
      }
    }
  }

  /** Adding a sum of totals is adding one after the other. */
  lemma {:induction false} SumOfTotals(t: seq<Count>, a: seq<Count>, b: seq<Count>)
    requires Ordered(t) && Ordered(a)
    ensures AddAll(t, AddAll(a, b)) == AddAll(AddAll(t, a), b)
    decreases |b|
  {
    if b != [] {
      SumOfTotals(t, a, b[..|b| - 1]);
      AddAllOrdered(a, b[..|b| - 1]);
      AddedTotal(t, AddAll(a, b[..|b| - 1]), b[|b| - 1]);
    }
  }

  // ----- A turn's usage --------------------------------------------------------------------------------------------

  datatype TurnUsage = TurnUsage(started: int, models: seq<Count>)

  datatype Spent = Spent(duration: int, models: seq<Count>)

  function Joined(shown: Shown, u: TurnUsage, used: seq<Count>): TurnUsage {
    TurnUsage(u.started, Bounded(shown, AddAll(AddAll([], u.models), used), MAX_MODELS))
  }

  function Limited(n: int, low: int, high: int): int { if n < low then low else if n > high then high else n }

  ghost function Distance(a: int, b: int): nat { if a <= b then b - a else a - b }

  /** No duration up to a day is nearer to what elapsed. */
  ghost predicate Nearest(duration: int, elapsed: int) {
    forall d {:trigger Distance(d, elapsed)} :: 0 <= d <= 86_400_000 ==>
      Distance(duration, elapsed) <= Distance(d, elapsed)
  }

  /** The turn's usage at a clock: of all durations up to a day, the nearest to what elapsed. */
  function Measured(u: TurnUsage, now: int): (r: Spent)
    ensures 0 <= r.duration <= 86_400_000 && r.models == u.models
    ensures Nearest(r.duration, now - u.started)
  {
    Spent(Limited(now - u.started, 0, MAX_DURATION_MS), u.models)
  }

  lemma {:induction false} AddAllFresh(t: seq<Count>)
    requires Ordered(t)
    ensures AddAll([], t) == t
    decreases |t|
  {
    if t != [] {
      var front, last := t[..|t| - 1], t[|t| - 1];
      AddAllFresh(front);
      AddLast(front, last);
      assert t == front + [last];
    }
  }

  lemma {:induction false} AddLast(t: seq<Count>, c: Count)
    requires forall i :: 0 <= i < |t| ==> Before(t[i].key, c.key)
    ensures Add(t, c) == t + [c]
    decreases |t|
  {
    if t != [] {
      BeforeAsymmetric(t[0].key, c.key);
      AddLast(t[1..], c);
      assert t == [t[0]] + t[1..];
    }
  }

  /** Joining `a` and then `b` is joining their pointwise sum, whatever was cut or clamped in between. */
  lemma JoinedComposes(shown: Shown, u: TurnUsage, a: seq<Count>, b: seq<Count>)
    requires Ordered(a)
    ensures Joined(shown, Joined(shown, u, a), b) == Joined(shown, u, AddAll(a, b))
  {
    var base := AddAll([], u.models);
    AddAllOrdered([], u.models);
    AddAllOrdered(base, a);
    var all := AddAll(base, a);
    BoundedOrdered(shown, all, MAX_MODELS);
    AddAllFresh(Bounded(shown, all, MAX_MODELS));
    BoundedAddAll(shown, all, b, MAX_MODELS);
    SumOfTotals(base, a, b);
  }

  // ----- Several turns' usage --------------------------------------------------------------------------------------

  const I64_MAX: int := 0x7fff_ffff_ffff_ffff

  /** Addition that stops at the bounds of a 64-bit integer. */
  function Saturating(a: int, b: int): int { Limited(a + b, -I64_MAX - 1, I64_MAX) }

  function Durations(spent: seq<Spent>): int {
    if spent == [] then 0 else Saturating(Durations(spent[..|spent| - 1]), spent[|spent| - 1].duration)
  }

  function Models(t: seq<Count>, spent: seq<Spent>): seq<Count> {
    if spent == [] then t else AddAll(Models(t, spent[..|spent| - 1]), spent[|spent| - 1].models)
  }

  function AtMost(n: int, high: int): int { if n <= high then n else high }

  function Total(shown: Shown, spent: seq<Spent>): Spent {
    Spent(AtMost(Durations(spent), MAX_DURATION_MS), Bounded(shown, Models([], spent), MAX_MODELS))
  }

  predicate NoneNegative(spent: seq<Spent>) { forall i :: 0 <= i < |spent| ==> spent[i].duration >= 0 }

  lemma {:induction false} ModelsOrdered(t: seq<Count>, spent: seq<Spent>)
    requires Ordered(t)
    ensures Ordered(Models(t, spent))
    decreases |spent|
  {
    if spent != [] {
      ModelsOrdered(t, spent[..|spent| - 1]);
      AddAllOrdered(Models(t, spent[..|spent| - 1]), spent[|spent| - 1].models);
    }
  }

  lemma {:induction false} ModelsConcat(t: seq<Count>, a: seq<Spent>, b: seq<Spent>)
    ensures Models(t, a + b) == Models(Models(t, a), b)
    decreases |b|
  {
    if b == [] {
      assert a + b == a;
    } else {
      assert (a + b)[..|a + b| - 1] == a + b[..|b| - 1];
      ModelsConcat(t, a, b[..|b| - 1]);
    }
  }

  /** Several turns' models added to a total are their own total added to it. */
  lemma {:induction false} ModelsSum(t: seq<Count>, spent: seq<Spent>)
    requires Ordered(t)
    ensures Models(t, spent) == AddAll(t, Models([], spent))
    decreases |spent|
  {
    if spent != [] {
      var front, last := spent[..|spent| - 1], spent[|spent| - 1];
      ModelsSum(t, front);
      ModelsOrdered([], front);
      SumOfTotals(t, Models([], front), last.models);
    }
  }

  /** Adding cut totals and cutting again is adding the whole ones and cutting. */
  lemma BoundedBoth(shown: Shown, a: seq<Count>, b: seq<Count>, n: nat)
    requires Ordered(a) && Ordered(b)
    ensures Bounded(shown, AddAll(Bounded(shown, a, n), Bounded(shown, b, n)), n) == Bounded(shown, AddAll(a, b), n)
  {
    var cutA, cutB := Bounded(shown, a, n), Bounded(shown, b, n);
    BoundedOrdered(shown, a, n);
    BoundedOrdered(shown, b, n);
    BoundedAddAll(shown, a, cutB, n);
    TotalsCommute(a, cutB);
    BoundedAddAll(shown, b, a, n);
    TotalsCommute(b, a);
  }

  lemma TotalsCommute(a: seq<Count>, b: seq<Count>)
    requires Ordered(a) && Ordered(b)
    ensures AddAll(a, b) == AddAll(b, a)
  {
    AddAllFresh(a);
    AddAllFresh(b);
    AddAllSwap([], a, b);
  }

  lemma {:induction false} AddAllSwap(t: seq<Count>, a: seq<Count>, b: seq<Count>)
    requires Ordered(t)
    ensures AddAll(AddAll(t, a), b) == AddAll(AddAll(t, b), a)
    decreases |a|
  {
    if a != [] {
      var front, last := a[..|a| - 1], a[|a| - 1];
      AddAllOrdered(t, front);
      AddFirst(AddAll(t, front), last, b);
      AddAllSwap(t, front, b);
    }
  }

  lemma {:induction false} DurationsBound(spent: seq<Spent>)
    requires NoneNegative(spent)
    ensures Durations(spent) >= 0
    decreases |spent|
  {
    if spent != [] {
      DurationsBound(spent[..|spent| - 1]);
    }
  }

  /** The clamped duration of a concatenation is the clamped sum of the two clamped durations. */
  lemma {:induction false} DurationsConcat(a: seq<Spent>, b: seq<Spent>)
    requires NoneNegative(a) && NoneNegative(b)
    ensures AtMost(Durations(a + b), MAX_DURATION_MS) ==
      AtMost(AtMost(Durations(a), MAX_DURATION_MS) + AtMost(Durations(b), MAX_DURATION_MS), MAX_DURATION_MS)
    decreases |b|
  {
    DurationsBound(a);
    DurationsBound(b);
    if b == [] {
      assert a + b == a;
    } else {
      var front, last := b[..|b| - 1], b[|b| - 1];
      assert (a + b)[..|a + b| - 1] == a + front;
      DurationsConcat(a, front);
      DurationsBound(front);
      DurationsBound(a + front);
    }
  }

  lemma TwoDurations(x: Spent, y: Spent)
    requires -I64_MAX - 1 <= x.duration <= I64_MAX && -I64_MAX - 1 <= x.duration + y.duration <= I64_MAX
    ensures Durations([x, y]) == x.duration + y.duration
  {
    assert [x, y][..1] == [x] && [x][..0] == [];
    assert Durations([x]) == x.duration;
  }

  lemma TwoModels(x: Spent, y: Spent)
    requires Ordered(x.models)
    ensures Models([], [x, y]) == AddAll(x.models, y.models)
  {
    assert [x, y][..1] == [x] && [x][..0] == [];
    assert Models([], [x]) == AddAll([], x.models);
    AddAllFresh(x.models);
  }

  /** The total of a concatenation is the total of the two totals. */
  lemma TotalConcat(shown: Shown, a: seq<Spent>, b: seq<Spent>)
    requires NoneNegative(a) && NoneNegative(b)
    ensures Total(shown, a + b) == Total(shown, [Total(shown, a), Total(shown, b)])
  {
    DurationsBound(a);
    DurationsBound(b);
    DurationsConcat(a, b);
    TwoDurations(Total(shown, a), Total(shown, b));
    ModelsConcatTotal(shown, a, b);
  }

  lemma ModelsConcatTotal(shown: Shown, a: seq<Spent>, b: seq<Spent>)
    ensures Total(shown, a + b).models == Total(shown, [Total(shown, a), Total(shown, b)]).models
  {
    var x, y := Total(shown, a), Total(shown, b);
    ModelsOrdered([], a);
    ModelsOrdered([], b);
    BoundedOrdered(shown, Models([], a), MAX_MODELS);
    TwoModels(x, y);
    BoundedBoth(shown, Models([], a), Models([], b), MAX_MODELS);
    ModelsConcat([], a, b);
    ModelsSum(Models([], a), b);
  }

  function AllMeasured(turns: seq<(TurnUsage, int)>): (r: seq<Spent>)
    ensures |r| == |turns|
  {
    seq(|turns|, i requires 0 <= i < |turns| => Measured(turns[i].0, turns[i].1))
  }

  /** Turns measured at any clock, even one before their admission, have totals that compose. */
  lemma MeasuredTotals(shown: Shown, a: seq<(TurnUsage, int)>, b: seq<(TurnUsage, int)>)
    ensures Total(shown, AllMeasured(a + b))
      == Total(shown, [Total(shown, AllMeasured(a)), Total(shown, AllMeasured(b))])
  {
    assert AllMeasured(a + b) == AllMeasured(a) + AllMeasured(b);
    TotalConcat(shown, AllMeasured(a), AllMeasured(b));
  }

  lemma {:induction false} DurationsRange(spent: seq<Spent>)
    ensures -I64_MAX - 1 <= Durations(spent) <= I64_MAX
  {
  }

  /** Of durations of any sign whose sum does not saturate, the total of a concatenation is the total of the two totals
      exactly when neither part's sum is beyond the bound beside a negative one. */
  lemma {:induction false} TotalConcatExactly(shown: Shown, a: seq<Spent>, b: seq<Spent>)
    requires Durations(a + b) == Durations(a) + Durations(b)
    ensures Total(shown, a + b) == Total(shown, [Total(shown, a), Total(shown, b)]) <==>
      && (Durations(a) > MAX_DURATION_MS ==> Durations(b) >= 0)
      && (Durations(b) > MAX_DURATION_MS ==> Durations(a) >= 0)
  {
    DurationsRange(a);
    DurationsRange(b);
    DurationsRange(a + b);
    TwoDurations(Total(shown, a), Total(shown, b));
    ModelsConcatTotal(shown, a, b);
  }

  // ----- Order -----------------------------------------------------------------------------------------------------

  lemma {:induction false} ModelsFirst(t: seq<Count>, x: Spent, spent: seq<Spent>)
    requires Ordered(t)
    ensures Models(AddAll(t, x.models), spent) == AddAll(Models(t, spent), x.models)
    decreases |spent|
  {
    if spent != [] {
      var front, last := spent[..|spent| - 1], spent[|spent| - 1];
      ModelsFirst(t, x, front);
      ModelsOrdered(t, front);
      AddAllSwap(Models(t, front), x.models, last.models);
    }
  }

  /** One turn of several may be taken out and added last. */
  lemma {:induction false} ModelsWithout(t: seq<Count>, spent: seq<Spent>, i: nat)
    requires Ordered(t) && i < |spent|
    ensures Models(t, spent) == AddAll(Models(t, spent[..i] + spent[i + 1..]), spent[i].models)
  {
    var before, x, after := spent[..i], spent[i], spent[i + 1..];
    assert spent == before + [x] + after;
    ModelsConcat(t, before + [x], after);
    ModelsConcat(t, before, [x]);
    assert Models(Models(t, before), [x]) == AddAll(Models(t, before), x.models) by { assert [x][..0] == []; }
    ModelsOrdered(t, before);
    ModelsFirst(Models(t, before), x, after);
    ModelsConcat(t, before, after);
  }

  lemma {:induction false} DurationsWithout(spent: seq<Spent>, i: nat)
    requires NoneNegative(spent) && i < |spent|
    ensures AtMost(Durations(spent), MAX_DURATION_MS) ==
      AtMost(AtMost(Durations(spent[..i] + spent[i + 1..]), MAX_DURATION_MS)
             + AtMost(spent[i].duration, MAX_DURATION_MS), MAX_DURATION_MS)
  {
    var before, x, after := spent[..i], [spent[i]], spent[i + 1..];
    assert spent == before + (x + after);
    DurationsMiddle(before, x, after);
    assert Durations(x) == Saturating(0, spent[i].duration) by { assert x[..0] == []; }
  }

  lemma {:induction false} DurationsMiddle(before: seq<Spent>, x: seq<Spent>, after: seq<Spent>)
    requires NoneNegative(before) && NoneNegative(x) && NoneNegative(after)
    ensures AtMost(Durations(before + (x + after)), MAX_DURATION_MS) ==
      AtMost(AtMost(Durations(before + after), MAX_DURATION_MS) + AtMost(Durations(x), MAX_DURATION_MS),
             MAX_DURATION_MS)
  {
    DurationsConcat(before, x + after);
    DurationsConcat(x, after);
    DurationsConcat(before, after);
    DurationsBound(before);
    DurationsBound(x);
    DurationsBound(after);
    Regrouped(Durations(before), Durations(x), Durations(after));
  }

  /** Clamped sums of durations may be grouped either way. */
  lemma Regrouped(a: int, b: int, c: int)
    requires a >= 0 && b >= 0 && c >= 0
    ensures
      var max := MAX_DURATION_MS;
      AtMost(AtMost(a, max) + AtMost(AtMost(b, max) + AtMost(c, max), max), max)
      == AtMost(AtMost(AtMost(a, max) + AtMost(c, max), max) + AtMost(b, max), max)
  {
  }

  /** Where the last turn of one list is in another of the same turns, and the rest of both. */
  lemma LastElsewhere(a: seq<Spent>, b: seq<Spent>) returns (i: nat)
    requires multiset(a) == multiset(b) && a != []
    ensures i < |b| && b[i] == a[|a| - 1] && multiset(a[..|a| - 1]) == multiset(b[..i] + b[i + 1..])
  {
    var x := a[|a| - 1];
    assert x in multiset(b);
    i :| 0 <= i < |b| && b[i] == x;
    var front, rest := a[..|a| - 1], b[..i] + b[i + 1..];
    assert a == front + [x];
    assert multiset(a) == multiset(front) + multiset{x};
    assert b == b[..i] + [x] + b[i + 1..];
    assert multiset(b) == multiset(rest) + multiset{x};
    assert multiset(front) == multiset(a) - multiset{x};
  }

  lemma {:induction false} ModelsReordered(a: seq<Spent>, b: seq<Spent>)
    requires multiset(a) == multiset(b)
    ensures Models([], a) == Models([], b)
    decreases |a|
  {
    if a == [] {
      assert |multiset(b)| == 0;
    } else {
      var i := LastElsewhere(a, b);
      ModelsReordered(a[..|a| - 1], b[..i] + b[i + 1..]);
      ModelsWithout([], b, i);
    }
  }

  lemma {:induction false} DurationsReordered(a: seq<Spent>, b: seq<Spent>)
    requires multiset(a) == multiset(b) && NoneNegative(a) && NoneNegative(b)
    ensures AtMost(Durations(a), MAX_DURATION_MS) == AtMost(Durations(b), MAX_DURATION_MS)
    decreases |a|
  {
    if a == [] {
      assert |multiset(b)| == 0;
    } else {
      var i := LastElsewhere(a, b);
      DurationsReordered(a[..|a| - 1], b[..i] + b[i + 1..]);
      DurationsWithout(b, i);
      DurationsWithout(a, |a| - 1);
      assert a[..|a| - 1] + a[|a|..] == a[..|a| - 1];
    }
  }

  /** A total does not depend on the order of its turns. */
  lemma {:induction false} TotalReordered(shown: Shown, a: seq<Spent>, b: seq<Spent>)
    requires multiset(a) == multiset(b) && NoneNegative(a)
    ensures Total(shown, a) == Total(shown, b)
  {
    forall i | 0 <= i < |b| ensures b[i].duration >= 0 {
      assert b[i] in multiset(a);
    }
    ModelsReordered(a, b);
    DurationsReordered(a, b);
  }

  // ----- What is shown ---------------------------------------------------------------------------------------------

  /** The sum of the input or the output tokens of every count with this key. */
  ghost function SumOf(counts: seq<Count>, key: Key, outputs: bool): nat {
    if counts == [] then 0
    else (if counts[0].key != key then 0 else if outputs then counts[0].outputs else counts[0].inputs)
         + SumOf(counts[1..], key, outputs)
  }

  ghost predicate Occurs(counts: seq<Count>, key: Key) { exists i :: 0 <= i < |counts| && counts[i].key == key }

  ghost function Least(a: nat, b: nat): nat { if a <= b then a else b }

  /** One shown model: its key occurs and may be shown, and its tokens are the sums, at most a billion. */
  ghost predicate Reports(shown: Shown, counts: seq<Count>, c: Count) {
    && Occurs(counts, c.key) && shown(c.key.provider) && shown(c.key.model)
    && c.inputs == Least(SumOf(counts, c.key, false), 1_000_000_000)
    && c.outputs == Least(SumOf(counts, c.key, true), 1_000_000_000)
  }

  /** What is shown of these counts: in strict key order, the first `n` models that occur and may be shown, each with
      its sums. */
  ghost predicate Shows(shown: Shown, counts: seq<Count>, n: nat, r: seq<Count>) {
    && Ordered(r) && |r| <= n
    && (forall i :: 0 <= i < |r| ==> Reports(shown, counts, r[i]))
    && forall key :: Occurs(counts, key) && shown(key.provider) && shown(key.model) && !Occurs(r, key) ==>
         |r| == n && forall i :: 0 <= i < |r| ==> Before(r[i].key, key)
  }

  lemma {:induction false} SumConcat(a: seq<Count>, b: seq<Count>, key: Key, outputs: bool)
    ensures SumOf(a + b, key, outputs) == SumOf(a, key, outputs) + SumOf(b, key, outputs)
    decreases |a|
  {
    if a == [] {
      assert a + b == b;
    } else {
      assert (a + b)[1..] == a[1..] + b;
      SumConcat(a[1..], b, key, outputs);
    }
  }

  lemma {:induction false} SumAdd(t: seq<Count>, c: Count, key: Key, outputs: bool)
    ensures SumOf(Add(t, c), key, outputs) == SumOf(t, key, outputs) + SumOf([c], key, outputs)
    decreases |t|
  {
    if t == [] || Before(c.key, t[0].key) {
      SumConcat([c], t, key, outputs);
    } else if c.key == t[0].key {
      assert Add(t, c)[1..] == t[1..];
    } else {
      assert Add(t, c)[1..] == Add(t[1..], c);
      SumAdd(t[1..], c, key, outputs);
    }
  }

  lemma {:induction false} OccursAdd(t: seq<Count>, c: Count, key: Key)
    ensures Occurs(Add(t, c), key) <==> Occurs(t, key) || c.key == key
    decreases |t|
  {
    if t == [] || Before(c.key, t[0].key) {
      OccursFirst([c] + t, key);
      assert ([c] + t)[1..] == t;
    } else {
      OccursFirst(t, key);
      OccursFirst(Add(t, c), key);
      if c.key == t[0].key {
        assert Add(t, c)[1..] == t[1..];
      } else {
        assert Add(t, c)[1..] == Add(t[1..], c);
        OccursAdd(t[1..], c, key);
      }
    }
  }

  lemma OccursFirst(t: seq<Count>, key: Key)
    requires t != []
    ensures Occurs(t, key) <==> t[0].key == key || Occurs(t[1..], key)
  {
    if i :| 0 <= i < |t| && t[i].key == key && i > 0 {
      assert t[1..][i - 1].key == key;
    }
    if i :| 0 <= i < |t[1..]| && t[1..][i].key == key {
      assert t[i + 1].key == key;
    }
  }

  lemma OccursConcat(a: seq<Count>, b: seq<Count>, key: Key)
    ensures Occurs(a + b, key) <==> Occurs(a, key) || Occurs(b, key)
  {
    if i :| 0 <= i < |a| && a[i].key == key {
      assert (a + b)[i].key == key;
    }
    if i :| 0 <= i < |b| && b[i].key == key {
      assert (a + b)[|a| + i].key == key;
    }
  }

  /** Totals hold for every key what it had and what was added. */
  lemma {:induction false} AddAllHolds(t: seq<Count>, counts: seq<Count>, key: Key)
    ensures Occurs(AddAll(t, counts), key) <==> Occurs(t, key) || Occurs(counts, key)
    ensures SumOf(AddAll(t, counts), key, false) == SumOf(t, key, false) + SumOf(counts, key, false)
    ensures SumOf(AddAll(t, counts), key, true) == SumOf(t, key, true) + SumOf(counts, key, true)
    decreases |counts|
  {
    if counts != [] {
      var front, last := counts[..|counts| - 1], counts[|counts| - 1];
      assert counts == front + [last];
      AddAllHolds(t, front, key);
      OccursAdd(AddAll(t, front), last, key);
      SumAdd(AddAll(t, front), last, key, false);
      SumAdd(AddAll(t, front), last, key, true);
      OccursConcat(front, [last], key);
      assert Occurs([last], key) <==> last.key == key by { assert [last][0].key == last.key; }
      SumConcat(front, [last], key, false);
      SumConcat(front, [last], key, true);
    }
  }

  /** An entry of ordered totals is its key's whole sum. */
  lemma {:induction false} EntrySum(t: seq<Count>, i: nat)
    requires Ordered(t) && i < |t|
    ensures SumOf(t, t[i].key, false) == t[i].inputs && SumOf(t, t[i].key, true) == t[i].outputs
    decreases |t|
  {
    if i == 0 {
      forall k | 0 <= k < |t[1..]| ensures t[1..][k].key != t[0].key {
        BeforeAsymmetric(t[0].key, t[k + 1].key);
      }
      NoSum(t[1..], t[0].key);
    } else {
      BeforeAsymmetric(t[0].key, t[i].key);
      EntrySum(t[1..], i - 1);
    }
  }

  lemma {:induction false} NoSum(t: seq<Count>, key: Key)
    requires forall k :: 0 <= k < |t| ==> t[k].key != key
    ensures SumOf(t, key, false) == 0 && SumOf(t, key, true) == 0
    decreases |t|
  {
    if t != [] {
      NoSum(t[1..], key);
    }
  }

  /** An entry of the cut totals is a visible entry, clamped. */
  lemma {:induction false} BoundedEntry(shown: Shown, t: seq<Count>, n: nat, i: nat) returns (k: nat)
    requires i < |Bounded(shown, t, n)|
    ensures k < |t| && shown(t[k].key.provider) && shown(t[k].key.model)
    ensures Bounded(shown, t, n)[i]
      == Count(t[k].key, Least(t[k].inputs, 1_000_000_000), Least(t[k].outputs, 1_000_000_000))
    decreases |t|
  {
    if !Visible(shown, t[0].key) {
      k := BoundedEntry(shown, t[1..], n, i);
      k := k + 1;
    } else if i == 0 {
      k := 0;
    } else {
      k := BoundedEntry(shown, t[1..], n - 1, i - 1);
      k := k + 1;
    }
  }

  /** A visible entry that the cut leaves out comes after all that it keeps, as many as it may keep. */
  lemma {:induction false} BoundedMisses(shown: Shown, t: seq<Count>, n: nat, k: nat)
    requires Ordered(t) && k < |t| && shown(t[k].key.provider) && shown(t[k].key.model)
    ensures
      var r := Bounded(shown, t, n);
      && |r| <= n
      && (Occurs(r, t[k].key) || (|r| == n && forall i :: 0 <= i < |r| ==> Before(r[i].key, t[k].key)))
    decreases |t|
  {
    var r := Bounded(shown, t, n);
    if n > 0 {
      if !Visible(shown, t[0].key) {
        BoundedMisses(shown, t[1..], n, k - 1);
      } else if k == 0 {
        assert r[0].key == t[0].key;
        BoundedLength(shown, t[1..], n - 1);
      } else {
        BoundedMisses(shown, t[1..], n - 1, k - 1);
        OccursFirst(r, t[k].key);
        assert r[1..] == Bounded(shown, t[1..], n - 1);
        assert forall i :: 0 < i < |r| ==> r[i] == r[1..][i - 1];
      }
    }
  }

  lemma {:induction false} BoundedLength(shown: Shown, t: seq<Count>, n: nat)
    ensures |Bounded(shown, t, n)| <= n
    decreases |t|
  {
    if t != [] && n > 0 {
      BoundedLength(shown, t[1..], if Visible(shown, t[0].key) then n - 1 else n);
    }
  }

  /** Whatever counts are added up, the cut totals show exactly them. */
  lemma BoundedShows(shown: Shown, counts: seq<Count>, n: nat)
    ensures Shows(shown, counts, n, Bounded(shown, AddAll([], counts), n))
  {
    var t := AddAll([], counts);
    var r := Bounded(shown, t, n);
    AddAllOrdered([], counts);
    BoundedOrdered(shown, t, n);
    BoundedLength(shown, t, n);
    forall i | 0 <= i < |r| ensures Reports(shown, counts, r[i]) {
      var k := BoundedEntry(shown, t, n, i);
      EntrySum(t, k);
      AddAllHolds([], counts, t[k].key);
      assert Occurs(t, t[k].key);
    }
    forall key | Occurs(counts, key) && shown(key.provider) && shown(key.model) && !Occurs(r, key)
      ensures |r| == n && forall i :: 0 <= i < |r| ==> Before(r[i].key, key)
    {
      AddAllHolds([], counts, key);
      var k :| 0 <= k < |t| && t[k].key == key;
      BoundedMisses(shown, t, n, k);
    }
  }

  /** All counts of several turns. */
  ghost function AllCounts(spent: seq<Spent>): seq<Count> {
    if spent == [] then [] else AllCounts(spent[..|spent| - 1]) + spent[|spent| - 1].models
  }

  lemma {:induction false} ModelsAll(spent: seq<Spent>)
    ensures Models([], spent) == AddAll([], AllCounts(spent))
    decreases |spent|
  {
    if spent != [] {
      ModelsAll(spent[..|spent| - 1]);
      AddAllConcat([], AllCounts(spent[..|spent| - 1]), spent[|spent| - 1].models);
    }
  }

  ghost function PlainSum(spent: seq<Spent>): int {
    if spent == [] then 0 else PlainSum(spent[..|spent| - 1]) + spent[|spent| - 1].duration
  }

  /** No saturation shows within the bound of a day. */
  lemma {:induction false} DurationsPlain(spent: seq<Spent>)
    requires NoneNegative(spent)
    ensures PlainSum(spent) >= 0
    ensures Durations(spent) == if PlainSum(spent) <= I64_MAX then PlainSum(spent) else I64_MAX
    decreases |spent|
  {
    if spent != [] {
      DurationsPlain(spent[..|spent| - 1]);
    }
  }

  // ----- The loops -------------------------------------------------------------------------------------------------

  /** Adds an operation's counts under its key, unless it reports no model call. */
  method AddTokens(totals: seq<Count>, key: Key, modelCalls: nat, inputs: nat, outputs: nat) returns (r: seq<Count>)
    ensures r == if modelCalls == 0 then totals else Add(totals, Count(key, inputs, outputs))
  {
    if modelCalls == 0 {
      return totals;
    }
    r := Increment(totals, Count(key, inputs, outputs));
  }

  lemma {:induction false} AddPast(totals: seq<Count>, i: nat, c: Count)
    requires i < |totals| && !Before(c.key, totals[i].key) && c.key != totals[i].key
    ensures totals[..i] + Add(totals[i..], c) == totals[..i + 1] + Add(totals[i + 1..], c)
  {
    assert totals[i..][0] == totals[i] && totals[i..][1..] == totals[i + 1..];
    assert totals[..i] + ([totals[i]] + Add(totals[i + 1..], c)) == totals[..i + 1] + Add(totals[i + 1..], c);
  }

  /** Finds the key's place in the ordered map and adds to its entry there. */
  method Increment(totals: seq<Count>, c: Count) returns (r: seq<Count>)
    ensures r == Add(totals, c)
  {
    var i := 0;
    assert totals[0..] == totals;
    while i < |totals| && !Before(c.key, totals[i].key) && c.key != totals[i].key
      invariant i <= |totals| && Add(totals, c) == totals[..i] + Add(totals[i..], c)
    {
      AddPast(totals, i, c);
      i := i + 1;
    }
    if i < |totals| && c.key == totals[i].key {
      if Before(c.key, totals[i].key) {
        BeforeAsymmetric(c.key, totals[i].key);
      }
      var sum := Count(c.key, totals[i].inputs + c.inputs, totals[i].outputs + c.outputs);
      assert totals[i..][1..] == totals[i + 1..];
      assert totals[..i] + ([sum] + totals[i + 1..]) == totals[..i] + [sum] + totals[i + 1..];
      return totals[..i] + [sum] + totals[i + 1..];
    }
    assert totals[..i] + ([c] + totals[i..]) == totals[..i] + [c] + totals[i..];
    return totals[..i] + [c] + totals[i..];
  }

  method Added(totals: seq<Count>, counts: seq<Count>) returns (r: seq<Count>)
    ensures r == AddAll(totals, counts)
  {
    r := totals;
    for i := 0 to |counts|
      invariant r == AddAll(totals, counts[..i])
    {
      assert counts[..i + 1][..i] == counts[..i];
      r := Increment(r, counts[i]);
    }
    assert counts[..|counts|] == counts;
  }

  method Join(shown: Shown, u: TurnUsage, used: seq<Count>) returns (r: TurnUsage)
    ensures r == Joined(shown, u, used)
    ensures r.started == u.started && Shows(shown, u.models + used, 16, r.models)
  {
    AddAllConcat([], u.models, used);
    BoundedShows(shown, u.models + used, MAX_MODELS);
    var totals := Added([], u.models);
    totals := Added(totals, used);
    return TurnUsage(u.started, Bounded(shown, totals, MAX_MODELS));
  }

  method Sum(shown: Shown, spent: seq<Spent>) returns (r: Spent)
    ensures r == Total(shown, spent)
    ensures Shows(shown, AllCounts(spent), 16, r.models)
    ensures NoneNegative(spent) ==> r.duration == if PlainSum(spent) <= 86_400_000 then PlainSum(spent) else 86_400_000
  {
    ModelsAll(spent);
    BoundedShows(shown, AllCounts(spent), MAX_MODELS);
    if NoneNegative(spent) {
      DurationsPlain(spent);
    }
    var totals: seq<Count> := [];
    var duration := 0;
    for i := 0 to |spent|
      invariant totals == Models([], spent[..i]) && duration == Durations(spent[..i])
    {
      assert spent[..i + 1][..i] == spent[..i];
      totals := Added(totals, spent[i].models);
      duration := Saturating(duration, spent[i].duration);
    }
    assert spent[..|spent|] == spent;
    return Spent(AtMost(duration, MAX_DURATION_MS), Bounded(shown, totals, MAX_MODELS));
  }
}
