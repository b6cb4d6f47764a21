/** Findings, and the one shape every detector has: walk the sites (entities,
    sentences or tokens) in order and append what each site yields. */
module Findings {

  /** The outcome of a check: 10 when the convention is followed, 11 when not. */
  datatype Flag = Pass | Fail {
    /** The number the source writes for the flag. Findings carry the `Flag` itself;
        this function only documents the mapping. */
    function Code(): (c: int)
      ensures c == 10 <==> Pass?
      ensures c == 11 <==> Fail?
    {
      if Pass? then 10 else 11
    }
  }

  function FlagOf(ok: bool): (f: Flag)
    ensures f == Pass <==> ok
  {
    if ok then Pass else Fail
  }

  /** One entry of the result list: the component that made it, a character span
      `[start, end)` and the flag. */
  datatype Finding = Finding(compIndex: int, start: int, end: int, flag: Flag)

  /** What a loop over sites `0 .. n-1` appends when site `i` appends `f(i)`. */
  function Flatten<T>(f: nat -> seq<T>, n: nat): seq<T> {
    if n == 0 then [] else Flatten(f, n - 1) + f(n - 1)
  }

  /** One more iteration of a loop over sites: appending site `i`'s entries to the
      output for the first `i` sites gives the output for the first `i + 1`. */
  lemma FlattenStep<T>(prefix: seq<T>, f: nat -> seq<T>, i: nat)
    ensures prefix + Flatten(f, i) + f(i) == prefix + Flatten(f, i + 1)
  {
  }

  /** The sites below `n` that satisfy `p`, in increasing order. */
  function Select(p: nat -> bool, n: nat): (r: seq<nat>)
    ensures forall k :: 0 <= k < |r| ==> r[k] < n && p(r[k])
    ensures forall j, k :: 0 <= j < k < |r| ==> r[j] < r[k]
    ensures forall i :: 0 <= i < n && p(i) ==> i in r
  {
    if n == 0 then [] else Select(p, n - 1) + (if p(n - 1) then [n - 1] else [])
  }

  /** When each site appends one entry exactly when `p` holds of it and nothing
      otherwise, the loop's output is one entry per selected site, in site order. */
  lemma {:induction false} FlattenSelect<T>(f: nat -> seq<T>, p: nat -> bool, n: nat)
    requires forall i :: 0 <= i < n ==> |f(i)| == if p(i) then 1 else 0
    ensures |Flatten(f, n)| == |Select(p, n)|
    ensures forall k :: 0 <= k < |Select(p, n)| ==> Flatten(f, n)[k] == f(Select(p, n)[k])[0]
  {
    if n > 0 {
      FlattenSelect(f, p, n - 1);
    }
  }

  /** When every site appends exactly one entry, entry `i` of the output is site `i`'s. */
  lemma {:induction false} FlattenEach<T>(f: nat -> seq<T>, n: nat)
    requires forall i :: 0 <= i < n ==> |f(i)| == 1
    ensures |Flatten(f, n)| == n
    ensures forall i :: 0 <= i < n ==> Flatten(f, n)[i] == f(i)[0]
  {
    if n > 0 {
      FlattenEach(f, n - 1);
    }
  }

  /** When every selected site appends at least one entry, the output has at least
      as many entries as there are selected sites. */
  lemma {:induction false} FlattenAtLeast<T>(f: nat -> seq<T>, p: nat -> bool, n: nat)
    requires forall i :: 0 <= i < n && p(i) ==> 1 <= |f(i)|
    ensures |Select(p, n)| <= |Flatten(f, n)|
  {
    if n > 0 {
      FlattenAtLeast(f, p, n - 1);
    }
  }

  /** An entry is in the output exactly when some site appended it. */
  lemma {:induction false} FlattenMember<T>(f: nat -> seq<T>, n: nat, x: T)
    ensures x in Flatten(f, n) <==> exists i :: 0 <= i < n && x in f(i)
  {
    if n > 0 {
      FlattenMember(f, n - 1, x);
    }
  }

  /** An entry site `i` appended is in the output. */
  lemma {:induction false} FlattenContains<T>(f: nat -> seq<T>, n: nat, i: nat, x: T)
    requires i < n && x in f(i)
    ensures x in Flatten(f, n)
  {
    if i < n - 1 {
      FlattenContains(f, n - 1, i, x);
    }
  }

  /** Every finding of `fs` carries component index `c`. */
  predicate AllFrom(fs: seq<Finding>, c: int) {
    forall f :: f in fs ==> f.compIndex == c
  }

  /** Every finding of `fs` passes. */
  predicate AllPass(fs: seq<Finding>) {
    forall f :: f in fs ==> f.flag == Pass
  }

  /** Every span of `fs` is non-empty and lies inside a text of `length` characters. */
  predicate SpansWithin(fs: seq<Finding>, length: int) {
    forall f :: f in fs ==> 0 <= f.start < f.end <= length
  }

  /** A component whose every site's findings carry index `c` outputs only those. */
  lemma {:induction false} FlattenFrom(f: nat -> seq<Finding>, n: nat, c: int)
    requires forall i :: 0 <= i < n ==> AllFrom(f(i), c)
    ensures AllFrom(Flatten(f, n), c)
  {
    if n > 0 {
      FlattenFrom(f, n - 1, c);
    }
  }

  /** A component whose every site's findings pass outputs only passing findings. */
  lemma {:induction false} FlattenPass(f: nat -> seq<Finding>, n: nat)
    requires forall i :: 0 <= i < n ==> AllPass(f(i))
    ensures AllPass(Flatten(f, n))
  {
    if n > 0 {
      FlattenPass(f, n - 1);
    }
  }

  /** A component whose every site's spans lie inside the text outputs only such spans. */
  lemma {:induction false} FlattenWithin(f: nat -> seq<Finding>, n: nat, length: int)
    requires forall i :: 0 <= i < n ==> SpansWithin(f(i), length)
    ensures SpansWithin(Flatten(f, n), length)
  {
    if n > 0 {
      FlattenWithin(f, n - 1, length);
    }
  }

  /** Component indices never decrease along `fs`. */
  predicate OrderedByComponent(fs: seq<Finding>) {
    forall j, k :: 0 <= j < k < |fs| ==> fs[j].compIndex <= fs[k].compIndex
  }

  /** The result list a pipeline builds: its components' outputs, one after the other. */
  function Concat(parts: seq<seq<Finding>>): seq<Finding> {
    if parts == [] then [] else Concat(parts[..|parts| - 1]) + parts[|parts| - 1]
  }

  /** When the `k`-th component (counting from 1) tags its findings `k`, the result
      list is grouped by component, in component order. */
  lemma {:induction false} ConcatOrdered(parts: seq<seq<Finding>>)
    requires forall k :: 0 <= k < |parts| ==> AllFrom(parts[k], k + 1)
    ensures OrderedByComponent(Concat(parts))
    ensures forall f :: f in Concat(parts) ==> 1 <= f.compIndex <= |parts|
  {
    if parts != [] {
      var n := |parts|;
      var front := parts[..n - 1];
      ConcatOrdered(front);
      var r := Concat(front) + parts[n - 1];
      forall j, k | 0 <= j < k < |r| ensures r[j].compIndex <= r[k].compIndex {
        if k < |Concat(front)| {
        } else if j < |Concat(front)| {
          assert r[j] in Concat(front) && r[k] in parts[n - 1];
        } else {
          assert r[j] in parts[n - 1] && r[k] in parts[n - 1];
        }
      }
    }
  }

  /** When every component keeps its spans inside the text, so does the result list. */
  lemma {:induction false} ConcatWithin(parts: seq<seq<Finding>>, length: int)
    requires forall k :: 0 <= k < |parts| ==> SpansWithin(parts[k], length)
    ensures SpansWithin(Concat(parts), length)
  {
    if parts != [] {
      ConcatWithin(parts[..|parts| - 1], length);
    }
  }
}
