/**
 A Routine plan shown in pages and as a summary: whole consecutive steps as many as fit, where the next page starts, and
 the plan's Actions as runs.
 */
module Paging {
  import opened Basics
  import opened Json
  import opened Serialization

  const MAX_PAGE_STEPS: nat := 64
  const MAX_PAGE_BYTES: nat := 96 * 1024
  const MAX_SUMMARY_RUNS: nat := 16

  // ----- Pages -----------------------------------------------------------------------------------------------------

  /** The projected step at a 1-based position, if it is permitted. */
  type Entry = nat -> Option<Value>

  /** The bytes a step encodes to. */
  type Size = Value -> nat

  function EncodedBytes(v: Value): nat { Bytes(Dumps(v, true)) }

  /** The bytes a page counts: its brackets, and each step with a separator. */
  function Cost(size: Size, chosen: seq<Value>): nat {
    if chosen == [] then 2 else Cost(size, chosen[..|chosen| - 1]) + size(chosen[|chosen| - 1]) + 1
  }

  /** Whether one more step goes on the next page. */
  predicate Full(size: Size, chosen: seq<Value>, item: Value) {
    chosen != [] && (|chosen| == MAX_PAGE_STEPS || Cost(size, chosen) + size(item) + 1 > MAX_PAGE_BYTES)
  }

  /** The page after `chosen` steps of it are taken from `offset`. */
  function Rest(size: Size, entry: Entry, offset: nat, total: nat, chosen: seq<Value>): Option<seq<Value>>
    decreases total - offset - |chosen|
  {
    var position := offset + |chosen| + 1;
    if position > total then Some(chosen)
    else
      var item := entry(position);
      if item.None? then None
      else if Full(size, chosen, item.value) then Some(chosen)
      else Rest(size, entry, offset, total, chosen + [item.value])
  }

  method Paged(size: Size, entry: Entry, offset: nat, total: nat) returns (r: Option<seq<Value>>)
    ensures r == Rest(size, entry, offset, total, [])
  {
    var chosen: seq<Value> := [];
    var used := 2;
    while offset + |chosen| < total
      invariant used == Cost(size, chosen)
        && Rest(size, entry, offset, total, chosen) == Rest(size, entry, offset, total, [])
      decreases total - offset - |chosen|
    {
      var item := entry(offset + |chosen| + 1);
      if item.None? {
        return None;
      }
      var cost := size(item.value) + 1;
      if chosen != [] && (|chosen| == MAX_PAGE_STEPS || used + cost > MAX_PAGE_BYTES) {
        return Some(chosen);
      }
      assert (chosen + [item.value])[..|chosen|] == chosen;
      chosen := chosen + [item.value];
      used := used + cost;
    }
    return Some(chosen);
  }

  /** The steps from `offset`, in order. */
  ghost predicate Consecutive(entry: Entry, offset: nat, chosen: seq<Value>) {
    forall i :: 0 <= i < |chosen| ==> entry(offset + i + 1) == Some(chosen[i])
  }

  /** More than one step only within the count and the bytes. */
  ghost predicate WithinBounds(size: Size, chosen: seq<Value>) {
    |chosen| > 1 ==> |chosen| <= 64 && Cost(size, chosen) <= 98_304
  }

  /** Steps of one page: consecutive, within its bounds, and as many as fit. */
  ghost predicate PageOf(size: Size, entry: Entry, offset: nat, total: nat, page: seq<Value>) {
    && Consecutive(entry, offset, page) && WithinBounds(size, page) && offset + |page| <= total
    && (offset + |page| < total ==>
          entry(offset + |page| + 1).Some? && Full(size, page, entry(offset + |page| + 1).value))
  }

  lemma {:induction false} RestFacts(size: Size, entry: Entry, offset: nat, total: nat, chosen: seq<Value>)
    requires Consecutive(entry, offset, chosen) && WithinBounds(size, chosen) && offset + |chosen| <= total
    requires Rest(size, entry, offset, total, chosen).Some?
    ensures
      var page := Rest(size, entry, offset, total, chosen).value;
      PageOf(size, entry, offset, total, page) && |chosen| <= |page| && (offset < total ==> page != [])
    decreases total - offset - |chosen|
  {
    var position := offset + |chosen| + 1;
    if position <= total && !Full(size, chosen, entry(position).value) {
      OneMore(size, entry, offset, chosen);
      RestFacts(size, entry, offset, total, chosen + [entry(position).value]);
    }
  }

  /** A page that is not full takes the next step within its bounds. */
  lemma {:induction false} OneMore(size: Size, entry: Entry, offset: nat, chosen: seq<Value>)
    requires Consecutive(entry, offset, chosen) && WithinBounds(size, chosen) && entry(offset + |chosen| + 1).Some?
    requires !Full(size, chosen, entry(offset + |chosen| + 1).value)
    ensures
      var longer := chosen + [entry(offset + |chosen| + 1).value];
      Consecutive(entry, offset, longer) && WithinBounds(size, longer)
  {
    var longer := chosen + [entry(offset + |chosen| + 1).value];
    assert longer[..|chosen|] == chosen;
  }

  /** A page of more than one step encodes within the page's bytes. */
  lemma {:induction false} PageEncodes(chosen: seq<Value>)
    requires |chosen| > 1 && WithinBounds(EncodedBytes, chosen)
    ensures EncodedBytes(Arr(chosen)) <= 98_304
  {
    CostIs(chosen);
    assert Bytes("[") == 1 && Bytes("]") == 1;
    BracedBytes("[", Items(chosen, true), "]");
  }

  lemma {:induction false} CostIs(chosen: seq<Value>)
    ensures Cost(EncodedBytes, chosen) == 2 + Total(Items(chosen, true)) + |chosen|
    decreases |chosen|
  {
    if chosen != [] {
      var front := chosen[..|chosen| - 1];
      CostIs(front);
      TotalLast(Items(front, true), Dumps(chosen[|chosen| - 1], true));
      ItemsLast(front, chosen[|chosen| - 1]);
      assert chosen == front + [chosen[|chosen| - 1]];
    } else {
      assert Items(chosen, true) == [];
    }
  }

  lemma {:induction false} TotalLast(texts: seq<string>, last: string)
    ensures Serialization.Total(texts + [last]) == Serialization.Total(texts) + Bytes(last)
    decreases |texts|
  {
    if texts == [] {
      assert texts + [last] == [last] && [last][1..] == [];
    } else {
      assert (texts + [last])[1..] == texts[1..] + [last];
      TotalLast(texts[1..], last);
    }
  }

  lemma {:induction false} ItemsLast(front: seq<Value>, last: Value)
    ensures Items(front + [last], true) == Items(front, true) + [Dumps(last, true)]
    decreases |front|
  {
    if front == [] {
      assert front + [last] == [last] && [last][1..] == [];
    } else {
      assert (front + [last])[1..] == front[1..] + [last];
      ItemsLast(front[1..], last);
    }
  }

  // ----- Every page ------------------------------------------------------------------------------------------------

  /** The pages from `offset` on, each starting where the one before it ended; none of them if any cannot be built. */
  function Pages(size: Size, entry: Entry, offset: nat, total: nat): Option<seq<seq<Value>>>
    requires offset <= total
    decreases total - offset
  {
    var page := Rest(size, entry, offset, total, []);
    if page.None? then None
    else
      RestFacts(size, entry, offset, total, []);
      var following := offset + |page.value|;
      if following == total then Some([page.value])
      else
        var later := Pages(size, entry, following, total);
        if later.None? then None else Some([page.value] + later.value)
  }

  function Flattened(pages: seq<seq<Value>>): seq<Value> {
    if pages == [] then [] else pages[0] + Flattened(pages[1..])
  }

  /** Following `next` from the start shows every step once and in order, each page within its bounds. */
  lemma {:induction false} PagesShowAll(size: Size, entry: Entry, offset: nat, total: nat)
    requires offset <= total && Pages(size, entry, offset, total).Some?
    ensures
      var pages := Pages(size, entry, offset, total).value;
      && Consecutive(entry, offset, Flattened(pages)) && |Flattened(pages)| == total - offset
      && forall i :: 0 <= i < |pages| ==> WithinBounds(size, pages[i])
    decreases total - offset
  {
    RestFacts(size, entry, offset, total, []);
    var page := Rest(size, entry, offset, total, []).value;
    var following := offset + |page|;
    if following == total {
      assert [page][1..] == [];
      assert Flattened([page]) == page;
    } else {
      PagesShowAll(size, entry, following, total);
      var later := Pages(size, entry, following, total).value;
      assert ([page] + later)[1..] == later;
      forall i | 0 <= i < |page + Flattened(later)|
        ensures entry(offset + i + 1) == Some((page + Flattened(later))[i])
      {
        if i >= |page| {
          assert entry(following + (i - |page|) + 1) == Some(Flattened(later)[i - |page|]);
        }
      }
    }
  }

  /** Every step after `from` and up to `to` is permitted. */
  ghost predicate Permits(entry: Entry, from: nat, to: nat) { forall p: nat :: from < p <= to ==> entry(p).Some? }

  /** The pages can all be shown exactly when every step is permitted. */
  lemma {:induction false} PagesExactly(size: Size, entry: Entry, offset: nat, total: nat)
    requires offset <= total
    ensures Pages(size, entry, offset, total).Some? <==> Permits(entry, offset, total)
    decreases total - offset
  {
    var shown, following := PagePart(size, entry, offset, total);
    if shown {
      PermitsOn(entry, offset, following, total);
      if following < total {
        PagesExactly(size, entry, following, total);
      }
    }
  }

  /** The first page is shown, its steps permitted, and the rest decided where it ends; or it holds one not
      permitted. */
  lemma {:induction false} PagePart(size: Size, entry: Entry, offset: nat, total: nat)
    returns (shown: bool, following: nat)
    requires offset <= total
    ensures !shown ==> Pages(size, entry, offset, total).None? && !Permits(entry, offset, total)
    ensures shown ==>
      && offset <= following <= total && Permits(entry, offset, following) && (following < total ==> offset < following)
      && (Pages(size, entry, offset, total).Some? <==> following == total || Pages(size, entry, following, total).Some?)
  {
    var page := Rest(size, entry, offset, total, []);
    shown, following := page.Some?, offset;
    if shown {
      RestFacts(size, entry, offset, total, []);
      PagePermits(entry, offset, page.value);
      following := offset + |page.value|;
    } else if Permits(entry, offset, total) {
      RestExactly(size, entry, offset, total, []);
    }
  }

  lemma {:induction false} PermitsOn(entry: Entry, from: nat, middle: nat, to: nat)
    requires from <= middle <= to
    ensures Permits(entry, from, to) <==> Permits(entry, from, middle) && Permits(entry, middle, to)
  {
  }

  lemma {:induction false} PagePermits(entry: Entry, offset: nat, page: seq<Value>)
    requires Consecutive(entry, offset, page)
    ensures Permits(entry, offset, offset + |page|)
  {
    forall p: nat | offset < p <= offset + |page| ensures entry(p).Some? {
      assert entry(offset + (p - offset - 1) + 1) == Some(page[p - offset - 1]);
    }
  }

  lemma {:induction false} RestExactly(size: Size, entry: Entry, offset: nat, total: nat, chosen: seq<Value>)
    requires offset + |chosen| <= total && Permits(entry, offset + |chosen|, total)
    ensures Rest(size, entry, offset, total, chosen).Some?
    decreases total - offset - |chosen|
  {
    var position := offset + |chosen| + 1;
    if position <= total && !Full(size, chosen, entry(position).value) {
      RestExactly(size, entry, offset, total, chosen + [entry(position).value]);
    }
  }

  // ----- The summary -----------------------------------------------------------------------------------------------

  /** An Action of an Assistant, and how many steps in a row run it. */
  datatype Run = Run(assistant: string, action: string, count: nat)

  datatype Step = Step(assistant: string, action: string)

  function Repeated(step: Step, n: nat): seq<Step> { seq(n, i => step) }

  function Expanded(runs: seq<Run>): seq<Step> {
    if runs == [] then []
    else
      var last := runs[|runs| - 1];
      Expanded(runs[..|runs| - 1]) + Repeated(Step(last.assistant, last.action), last.count)
  }

  ghost predicate Differ(runs: seq<Run>) {
    forall i :: 0 <= i < |runs| - 1 ==>
      (runs[i].assistant, runs[i].action) != (runs[i + 1].assistant, runs[i + 1].action)
  }

  predicate Positive(runs: seq<Run>) { forall i :: 0 <= i < |runs| ==> runs[i].count > 0 }

  /** One more step of the last run. */
  lemma {:induction false} LongerRun(runs: seq<Run>, step: Step)
    requires runs != [] && Differ(runs) && Positive(runs)
    requires runs[|runs| - 1].assistant == step.assistant && runs[|runs| - 1].action == step.action
    ensures
      var last := |runs| - 1;
      var longer := runs[last := runs[last].(count := runs[last].count + 1)];
      Expanded(longer) == Expanded(runs) + [step] && Differ(longer) && Positive(longer)
  {
    var last := |runs| - 1;
    var longer := runs[last := runs[last].(count := runs[last].count + 1)];
    assert longer[..last] == runs[..last];
    assert Repeated(step, runs[last].count + 1) == Repeated(step, runs[last].count) + [step];
  }

  /** A step of another Action than the last run's. */
  lemma {:induction false} AnotherRun(runs: seq<Run>, step: Step)
    requires Differ(runs) && Positive(runs)
    requires runs != [] ==> (runs[|runs| - 1].assistant, runs[|runs| - 1].action) != (step.assistant, step.action)
    ensures
      var longer := runs + [Run(step.assistant, step.action, 1)];
      Expanded(longer) == Expanded(runs) + [step] && Differ(longer) && Positive(longer)
  {
    var longer := runs + [Run(step.assistant, step.action, 1)];
    assert longer[..|runs|] == runs;
    assert Repeated(step, 1) == [step];
  }

  method Runs(steps: seq<Step>) returns (runs: seq<Run>)
    ensures Expanded(runs) == steps && Differ(runs) && Positive(runs)
  {
    runs := [];
    for i := 0 to |steps|
      invariant Expanded(runs) == steps[..i] && Differ(runs) && Positive(runs)
    {
      var step := steps[i];
      assert steps[..i + 1] == steps[..i] + [step];
      var last := |runs| - 1;
      if runs != [] && runs[last].assistant == step.assistant && runs[last].action == step.action {
        LongerRun(runs, step);
        runs := runs[last := runs[last].(count := runs[last].count + 1)];
      } else {
        AnotherRun(runs, step);
        runs := runs + [Run(step.assistant, step.action, 1)];
      }
    }
    assert steps[..|steps|] == steps;
  }

  /** The runs shown, and how many steps come after them. */
  method Summary(steps: seq<Step>) returns (runs: seq<Run>, more: nat)
    ensures |runs| <= 16 && Differ(runs) && Positive(runs)
    ensures more <= |steps| && Expanded(runs) == steps[..|steps| - more]
    ensures more > 0 ==>
      && |runs| == 16
      && (runs[|runs| - 1].assistant, runs[|runs| - 1].action)
         != (steps[|steps| - more].assistant, steps[|steps| - more].action)
  {
    var all := Runs(steps);
    runs := if |all| > MAX_SUMMARY_RUNS then all[..MAX_SUMMARY_RUNS] else all;
    ExpandedPrefix(all, |runs|);
    assert all[..|all|] == all;
    var shown := 0;
    for i := 0 to |runs|
      invariant shown == |Expanded(runs[..i])|
    {
      assert runs[..i + 1][..i] == runs[..i];
      shown := shown + runs[i].count;
    }
    assert runs[..|runs|] == runs;
    more := |steps| - shown;
    if more > 0 {
      NextRun(all, |runs|);
    }
  }

  lemma {:induction false} ExpandedPrefix(runs: seq<Run>, k: nat)
    requires k <= |runs|
    ensures Expanded(runs[..k]) <= Expanded(runs)
    decreases |runs|
  {
    if k < |runs| {
      ExpandedPrefix(runs[..|runs| - 1], k);
      assert runs[..|runs| - 1][..k] == runs[..k];
    } else {
      assert runs[..k] == runs;
    }
  }

  /** The step after the first `k` runs is the next run's. */
  lemma {:induction false} NextRun(runs: seq<Run>, k: nat)
    requires k < |runs| && Positive(runs)
    ensures |Expanded(runs[..k])| < |Expanded(runs)|
    ensures Expanded(runs)[|Expanded(runs[..k])|] == Step(runs[k].assistant, runs[k].action)
  {
    ExpandedPrefix(runs, k + 1);
    assert runs[..k + 1][..k] == runs[..k];
  }
}
