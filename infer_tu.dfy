/**
 * Per-translation-unit nullability inference (`inferTU`): collect evidence from
 * every target declaration and then every implementation, sort it by symbol USR,
 * cut the sorted evidence into maximal runs of one USR and merge each run into
 * one inference.
 *
 * Evidence collection and `mergeEvidence` are not part of this model; they are
 * parameters of `InferTU`.
 */
module InferTU {
  import opened Wrappers
  import UsrOrder

  datatype Symbol = Symbol(usr: string)

  datatype EvidenceKind =
    | ANNOTATED_NONNULL
    | ANNOTATED_NULLABLE
    | UNCHECKED_DEREFERENCE
    | NULLABLE_ARGUMENT
    | NONNULL_ARGUMENT
    | NULLPTR_RETURNED
    | NONNULL_RETURNED
    | UNKNOWN_RETURNED

  /** One observed fact about slot `slot` of the symbol `symbol`. */
  datatype Evidence = Evidence(symbol: Symbol, slot: nat, kind: EvidenceKind, location: string)

  function Usr(e: Evidence): string
  {
    e.symbol.usr
  }

  /** The comparator handed to the sort, read as "not after". */
  predicate UsrNotAfter(x: Evidence, y: Evidence)
  {
    UsrOrder.LessOrEqual(Usr(x), Usr(y))
  }

  predicate SortedByUsr(s: seq<Evidence>)
  {
    forall p, q :: 0 <= p < q < |s| ==> UsrNotAfter(s[p], s[q])
  }

  /** What analysing one implementation produced: what it handed to the emitter, and its error if it failed. */
  datatype ImplementationOutcome = ImplementationOutcome(emitted: seq<Evidence>, error: Option<string>)

  // ---------------------------------------------------------------------------
  // Collection

  /** Evidence emitted by the declarations, in order. */
  function DeclarationEvidence<D>(decls: seq<D>, fromDeclaration: D -> seq<Evidence>): seq<Evidence>
  {
    if decls == [] then []
    else DeclarationEvidence(decls[..|decls| - 1], fromDeclaration) + fromDeclaration(decls[|decls| - 1])
  }

  /** Evidence emitted by the implementations, in order; a failing one keeps what it emitted before failing. */
  function ImplementationEvidence<M>(impls: seq<M>, fromImplementation: M -> ImplementationOutcome): seq<Evidence>
  {
    if impls == [] then []
    else ImplementationEvidence(impls[..|impls| - 1], fromImplementation) + fromImplementation(impls[|impls| - 1]).emitted
  }

  /** The "Skipping function: <reason>" lines, one per failing implementation, in order. */
  function SkipDiagnostics<M>(impls: seq<M>, fromImplementation: M -> ImplementationOutcome): seq<string>
  {
    if impls == [] then []
    else
      var outcome := fromImplementation(impls[|impls| - 1]);
      SkipDiagnostics(impls[..|impls| - 1], fromImplementation)
        + (if outcome.error.Some? then ["Skipping function: " + outcome.error.value] else [])
  }

  /** All evidence as `inferTU` accumulates it: declarations first, then implementations. */
  function Collected<D, M>(decls: seq<D>, impls: seq<M>, fromDeclaration: D -> seq<Evidence>,
                           fromImplementation: M -> ImplementationOutcome): seq<Evidence>
  {
    DeclarationEvidence(decls, fromDeclaration) + ImplementationEvidence(impls, fromImplementation)
  }

  /** Nothing any declaration emits is dropped. */
  lemma {:induction false} DeclarationEvidenceKept<D>(decls: seq<D>, fromDeclaration: D -> seq<Evidence>, k: nat, e: Evidence)
    requires k < |decls| && e in fromDeclaration(decls[k])
    ensures e in DeclarationEvidence(decls, fromDeclaration)
    decreases |decls|
  {
    if k < |decls| - 1 {
      DeclarationEvidenceKept(decls[..|decls| - 1], fromDeclaration, k, e);
    }
  }

  /** A failing implementation does not stop collection: what every implementation emitted is kept. */
  lemma {:induction false} ImplementationEvidenceKept<M>(impls: seq<M>, fromImplementation: M -> ImplementationOutcome, k: nat, e: Evidence)
    requires k < |impls| && e in fromImplementation(impls[k]).emitted
    ensures e in ImplementationEvidence(impls, fromImplementation)
    decreases |impls|
  {
    if k < |impls| - 1 {
      ImplementationEvidenceKept(impls[..|impls| - 1], fromImplementation, k, e);
    }
  }

  /** Exactly the failing implementations produce a diagnostic line. */
  lemma {:induction false} SkipDiagnosticsCount<M>(impls: seq<M>, fromImplementation: M -> ImplementationOutcome)
    ensures |SkipDiagnostics(impls, fromImplementation)| == |set k | 0 <= k < |impls| && fromImplementation(impls[k]).error.Some?|
    decreases |impls|
  {
    var failing := set k | 0 <= k < |impls| && fromImplementation(impls[k]).error.Some?;
    if impls != [] {
      var n := |impls| - 1;
      var front := impls[..n];
      var before := set k | 0 <= k < n && fromImplementation(front[k]).error.Some?;
      SkipDiagnosticsCount(front, fromImplementation);
      if fromImplementation(impls[n]).error.Some? {
        assert failing == before + {n};
      } else {
        assert failing == before;
      }
    }
  }

  // ---------------------------------------------------------------------------
  // Batches: the maximal runs of one USR, as a reference definition

  /** The first index at or after `i` that is the end of `s` or holds a USR other than `usr`. */
  function RunEnd(s: seq<Evidence>, usr: string, i: nat): (end: nat)
    requires i <= |s|
    ensures i <= end <= |s|
    ensures forall j :: i <= j < end ==> Usr(s[j]) == usr
    ensures end < |s| ==> Usr(s[end]) != usr
    decreases |s| - i
  {
    if i < |s| && Usr(s[i]) == usr then RunEnd(s, usr, i + 1) else i
  }

  /** A stretch of `usr` that cannot be extended ends where `RunEnd` says. */
  lemma {:induction false} RunEndUnique(s: seq<Evidence>, usr: string, i: nat, end: nat)
    requires i <= end <= |s|
    requires forall j :: i <= j < end ==> Usr(s[j]) == usr
    requires end < |s| ==> Usr(s[end]) != usr
    ensures RunEnd(s, usr, i) == end
    decreases end - i
  {
    if i < end {
      RunEndUnique(s, usr, i + 1, end);
    }
  }

  /** The evidence from `start` on, cut into maximal runs that share their front element's USR. */
  function BatchesFrom(s: seq<Evidence>, start: nat): seq<seq<Evidence>>
    requires start <= |s|
    decreases |s| - start
  {
    if start == |s| then []
    else
      var end := RunEnd(s, Usr(s[start]), start);
      [s[start..end]] + BatchesFrom(s, end)
  }

  function Batches(s: seq<Evidence>): seq<seq<Evidence>>
  {
    BatchesFrom(s, 0)
  }

  /** A maximal run at `start` is the first batch from `start`. */
  lemma BatchesStep(s: seq<Evidence>, start: nat, end: nat)
    requires start < end <= |s|
    requires forall i :: start <= i < end ==> Usr(s[i]) == Usr(s[start])
    requires end < |s| ==> Usr(s[end]) != Usr(s[start])
    ensures BatchesFrom(s, start) == [s[start..end]] + BatchesFrom(s, end)
  {
    RunEndUnique(s, Usr(s[start]), start, end);
  }

  function Flatten<T>(ss: seq<seq<T>>): seq<T>
  {
    if ss == [] then [] else ss[0] + Flatten(ss[1..])
  }

  /** Concatenating the batches in order gives back the evidence. */
  lemma {:induction false} BatchesFromFlatten(s: seq<Evidence>, start: nat)
    requires start <= |s|
    ensures Flatten(BatchesFrom(s, start)) == s[start..]
    decreases |s| - start
  {
    if start < |s| {
      var end := RunEnd(s, Usr(s[start]), start);
      var b := BatchesFrom(s, start);
      BatchesFromFlatten(s, end);
      assert b[0] == s[start..end] && b[1..] == BatchesFrom(s, end);
      assert s[start..end] + s[end..] == s[start..];
    }
  }

  lemma BatchesFlatten(s: seq<Evidence>)
    ensures Flatten(Batches(s)) == s
  {
    BatchesFromFlatten(s, 0);
  }

  /** Batches that are non-empty and share one USR each. */
  predicate UniformBatches(bs: seq<seq<Evidence>>)
  {
    forall i :: 0 <= i < |bs| ==> bs[i] != [] && forall e :: e in bs[i] ==> Usr(e) == Usr(bs[i][0])
  }

  lemma {:induction false} BatchesFromUniform(s: seq<Evidence>, start: nat)
    requires start <= |s|
    ensures UniformBatches(BatchesFrom(s, start))
    decreases |s| - start
  {
    if start < |s| {
      var end := RunEnd(s, Usr(s[start]), start);
      var b := BatchesFrom(s, start);
      BatchesFromUniform(s, end);
      assert b == [s[start..end]] + BatchesFrom(s, end);
      forall i | 0 <= i < |b|
        ensures b[i] != [] && forall e :: e in b[i] ==> Usr(e) == Usr(b[i][0])
      {
        if i > 0 {
          assert b[i] == BatchesFrom(s, end)[i - 1];
        }
      }
    }
  }

  /** Every batch is non-empty and all its elements have the USR of its first element. */
  lemma BatchesUniform(s: seq<Evidence>)
    ensures UniformBatches(Batches(s))
  {
    BatchesFromUniform(s, 0);
  }

  /** Where batch `i` from `start` begins: batches after the first begin after the first run. */
  lemma {:induction false} BatchStart(s: seq<Evidence>, start: nat, i: nat) returns (q: nat)
    requires start < |s| && i < |BatchesFrom(s, start)|
    ensures start <= q < |s| && BatchesFrom(s, start)[i] != [] && BatchesFrom(s, start)[i][0] == s[q]
    ensures i > 0 ==> RunEnd(s, Usr(s[start]), start) <= q
    decreases |s| - start
  {
    var end := RunEnd(s, Usr(s[start]), start);
    var b := BatchesFrom(s, start);
    assert b == [s[start..end]] + BatchesFrom(s, end);
    if i == 0 {
      q := start;
    } else {
      assert b[i] == BatchesFrom(s, end)[i - 1];
      q := BatchStart(s, end, i - 1);
    }
  }

  /** In sorted evidence, everything after the run at `start` has a strictly greater USR. */
  lemma AfterRunGreater(s: seq<Evidence>, start: nat)
    requires SortedByUsr(s) && start < |s|
    ensures forall q :: RunEnd(s, Usr(s[start]), start) <= q < |s| ==> UsrOrder.Less(Usr(s[start]), Usr(s[q]))
  {
    var end := RunEnd(s, Usr(s[start]), start);
    forall q | end <= q < |s|
      ensures UsrOrder.Less(Usr(s[start]), Usr(s[q]))
    {
      assert UsrNotAfter(s[start], s[end]) && (end == q || UsrNotAfter(s[end], s[q]));
      if Usr(s[start]) == Usr(s[q]) {
        UsrOrder.LessOrEqualAntisymmetric(Usr(s[start]), Usr(s[end]));
      } else {
        UsrOrder.LessTotal(Usr(s[start]), Usr(s[q]));
      }
    }
  }

  /** Batches, all non-empty, whose first USRs strictly increase. */
  predicate IncreasingBatches(bs: seq<seq<Evidence>>)
  {
    forall i, j :: 0 <= i < j < |bs| ==> bs[i] != [] && bs[j] != [] && UsrOrder.Less(Usr(bs[i][0]), Usr(bs[j][0]))
  }

  lemma {:induction false} BatchesFromIncreasing(s: seq<Evidence>, start: nat)
    requires SortedByUsr(s) && start <= |s|
    ensures IncreasingBatches(BatchesFrom(s, start))
    decreases |s| - start
  {
    if start < |s| {
      var end := RunEnd(s, Usr(s[start]), start);
      var b := BatchesFrom(s, start);
      var rest := BatchesFrom(s, end);
      assert b == [s[start..end]] + rest;
      BatchesFromIncreasing(s, end);
      AfterRunGreater(s, start);
      forall i, j | 0 <= i < j < |b|
        ensures b[i] != [] && b[j] != [] && UsrOrder.Less(Usr(b[i][0]), Usr(b[j][0]))
      {
        assert b[j] == rest[j - 1];
        if i == 0 {
          var q := BatchStart(s, start, j);
          assert b[0][0] == s[start];
        } else {
          assert b[i] == rest[i - 1];
        }
      }
      assert IncreasingBatches(b);
    }
  }

  /** On sorted evidence the batches' USRs strictly increase, so no two batches share a USR. */
  lemma BatchesIncreasing(s: seq<Evidence>)
    requires SortedByUsr(s)
    ensures IncreasingBatches(Batches(s))
  {
    BatchesFromIncreasing(s, 0);
  }

  /** The USRs that occur in `s` at or after `start`. */
  function UsrsFrom(s: seq<Evidence>, start: nat): set<string>
  {
    set q | start <= q < |s| :: Usr(s[q])
  }

  /** The distinct USRs of the evidence. */
  function DistinctUsrs(s: seq<Evidence>): set<string>
  {
    UsrsFrom(s, 0)
  }

  lemma UsrsFromSplit(s: seq<Evidence>, start: nat, end: nat)
    requires start < end <= |s|
    requires forall i :: start <= i < end ==> Usr(s[i]) == Usr(s[start])
    ensures UsrsFrom(s, start) == {Usr(s[start])} + UsrsFrom(s, end)
  {
  }

  lemma {:induction false} BatchesFromCount(s: seq<Evidence>, start: nat)
    requires SortedByUsr(s) && start <= |s|
    ensures |BatchesFrom(s, start)| == |UsrsFrom(s, start)|
    decreases |s| - start
  {
    if start == |s| {
      assert UsrsFrom(s, start) == {};
    } else {
      var end := RunEnd(s, Usr(s[start]), start);
      var u := Usr(s[start]);
      BatchesFromCount(s, end);
      UsrsFromSplit(s, start, end);
      AfterRunGreater(s, start);
      UsrOrder.LessIrreflexive(u);
      assert u !in UsrsFrom(s, end);
      assert |BatchesFrom(s, start)| == 1 + |BatchesFrom(s, end)|;
    }
  }

  /** On sorted evidence there is exactly one batch, hence one merge, per distinct USR. */
  lemma BatchCountIsDistinctUsrs(s: seq<Evidence>)
    requires SortedByUsr(s)
    ensures |Batches(s)| == |DistinctUsrs(s)|
  {
    BatchesFromCount(s, 0);
  }

  /**
   * Evidence about one symbol, however many declarations it came from, gives one
   * batch (the two declarations of `target` in the Annotations test).
   */
  lemma OneSymbolOneBatch(s: seq<Evidence>)
    requires s != []
    requires forall i :: 0 <= i < |s| ==> Usr(s[i]) == Usr(s[0])
    ensures Batches(s) == [s]
  {
    BatchesStep(s, 0, |s|);
    assert s[0..|s|] == s;
    assert BatchesFrom(s, |s|) == [];
  }

  // ---------------------------------------------------------------------------
  // The imperative driver

  /** `llvm::sort` with the USR comparator; insertion sort stands in for its algorithm. */
  method SortByUsr(a: array<Evidence>)
    modifies a
    ensures SortedByUsr(a[..])
    ensures multiset(a[..]) == multiset(old(a[..]))
  {
    for i := 0 to a.Length
      invariant forall p, q :: 0 <= p < q < i ==> UsrNotAfter(a[p], a[q])
      invariant multiset(a[..]) == multiset(old(a[..]))
    {
      InsertIntoSorted(a, i);
    }
  }

  /** Move `a[i]` down into the sorted prefix `a[..i]`, so that `a[..i + 1]` is sorted. */
  method InsertIntoSorted(a: array<Evidence>, i: nat)
    requires i < a.Length
    requires forall p, q :: 0 <= p < q < i ==> UsrNotAfter(a[p], a[q])
    modifies a
    ensures forall p, q :: 0 <= p < q <= i ==> UsrNotAfter(a[p], a[q])
    ensures multiset(a[..i + 1]) == multiset(old(a[..i + 1]))
    ensures a[i + 1..] == old(a[i + 1..])
    ensures multiset(a[..]) == multiset(old(a[..]))
  {
    var j := i;
    while j > 0 && UsrOrder.Less(Usr(a[j]), Usr(a[j - 1]))
      invariant 0 <= j <= i
      invariant Sifting(a[..], j, i)
      invariant multiset(a[..i + 1]) == multiset(old(a[..i + 1]))
      invariant a[i + 1..] == old(a[i + 1..])
    {
      ghost var before := a[..];
      a[j - 1], a[j] := a[j], a[j - 1];
      SwapInPrefix(before, a[..], j, i);
      SiftStep(before, a[..], j, i);
      j := j - 1;
    }
    SiftDone(a[..], j, i);
    assert a[..] == a[..i + 1] + a[i + 1..];
    assert old(a[..]) == old(a[..i + 1]) + old(a[i + 1..]);
  }

  /**
   * While `s[j]` moves down: the prefix `s[..i + 1]` without position `j` is
   * sorted, and `s[j]` is not after anything above it.
   */
  predicate Sifting(s: seq<Evidence>, j: nat, i: nat)
  {
    && j <= i < |s|
    && (forall p, q :: 0 <= p < q <= i && p != j && q != j ==> UsrNotAfter(s[p], s[q]))
    && (forall q :: j < q <= i ==> UsrNotAfter(s[j], s[q]))
  }

  /** Swapping `s[j]` with a greater left neighbour moves the gap one place down. */
  lemma SiftStep(s: seq<Evidence>, t: seq<Evidence>, j: nat, i: nat)
    requires Sifting(s, j, i) && 0 < j
    requires UsrOrder.Less(Usr(s[j]), Usr(s[j - 1]))
    requires t == s[j - 1 := s[j]][j := s[j - 1]]
    ensures Sifting(t, j - 1, i)
  {
    UsrOrder.LessAsymmetric(Usr(s[j]), Usr(s[j - 1]));
  }

  /** Once `s[j]` is not before its left neighbour, the whole prefix is sorted. */
  lemma SiftDone(s: seq<Evidence>, j: nat, i: nat)
    requires Sifting(s, j, i)
    requires j > 0 ==> !UsrOrder.Less(Usr(s[j]), Usr(s[j - 1]))
    ensures forall p, q :: 0 <= p < q <= i ==> UsrNotAfter(s[p], s[q])
  {
    forall p, q | 0 <= p < q <= i
      ensures UsrNotAfter(s[p], s[q])
    {
      if q == j && p < j - 1 {
        UsrOrder.LessOrEqualTransitive(Usr(s[p]), Usr(s[j - 1]), Usr(s[j]));
      }
    }
  }

  /** Swapping two neighbours inside the prefix `s[..i + 1]` keeps its multiset and the suffix. */
  lemma SwapInPrefix(s: seq<Evidence>, t: seq<Evidence>, j: nat, i: nat)
    requires 0 < j <= i < |s| == |t|
    requires t == s[j - 1 := s[j]][j := s[j - 1]]
    ensures multiset(t[..i + 1]) == multiset(s[..i + 1])
    ensures t[i + 1..] == s[i + 1..]
  {
    var p, q := s[..i + 1], t[..i + 1];
    assert q == p[j - 1 := p[j]][j := p[j - 1]];
  }

  /** `take_while` on the remaining evidence: the end of the run that starts at `start`. */
  method BatchEnd(a: array<Evidence>, start: nat) returns (end: nat)
    requires start < a.Length
    ensures start < end <= a.Length
    ensures forall i :: start <= i < end ==> Usr(a[i]) == Usr(a[start])
    ensures end < a.Length ==> Usr(a[end]) != Usr(a[start])
  {
    end := start;
    while end < a.Length && Usr(a[end]) == Usr(a[start])
      invariant start <= end <= a.Length
      invariant forall i :: start <= i < end ==> Usr(a[i]) == Usr(a[start])
    {
      end := end + 1;
    }
  }

  /** `merge` applied to each batch, in order. */
  function MergeEach<I>(merge: seq<Evidence> -> I, batches: seq<seq<Evidence>>): (r: seq<I>)
    ensures |r| == |batches|
    ensures forall i :: 0 <= i < |r| ==> r[i] == merge(batches[i])
  {
    if batches == [] then [] else MergeEach(merge, batches[..|batches| - 1]) + [merge(batches[|batches| - 1])]
  }

  lemma MergeEachAppend<I>(merge: seq<Evidence> -> I, batches: seq<seq<Evidence>>, b: seq<Evidence>)
    ensures MergeEach(merge, batches + [b]) == MergeEach(merge, batches) + [merge(b)]
  {
    assert (batches + [b])[..|batches|] == batches;
  }

  /** The two collection loops of `inferTU`: every declaration, then every implementation. */
  method CollectEvidence<D, M>(decls: seq<D>, impls: seq<M>,
                               fromDeclaration: D -> seq<Evidence>,
                               fromImplementation: M -> ImplementationOutcome)
    returns (all: seq<Evidence>, diagnostics: seq<string>)
    ensures all == Collected(decls, impls, fromDeclaration, fromImplementation)
    ensures diagnostics == SkipDiagnostics(impls, fromImplementation)
  {
    all := [];
    for i := 0 to |decls|
      invariant all == DeclarationEvidence(decls[..i], fromDeclaration)
    {
      assert decls[..i + 1][..i] == decls[..i];
      all := all + fromDeclaration(decls[i]);
    }
    assert decls[..|decls|] == decls;
    diagnostics := [];
    ghost var fromDecls := all;
    for i := 0 to |impls|
      invariant all == fromDecls + ImplementationEvidence(impls[..i], fromImplementation)
      invariant diagnostics == SkipDiagnostics(impls[..i], fromImplementation)
    {
      assert impls[..i + 1][..i] == impls[..i];
      var outcome := fromImplementation(impls[i]);
      all := all + outcome.emitted;
      if outcome.error.Some? {
        diagnostics := diagnostics + ["Skipping function: " + outcome.error.value];
      }
    }
    assert impls[..|impls|] == impls;
  }

  /** The batching loop of `inferTU`: one `merge` per maximal run, front to back. */
  method MergeBatches<I>(a: array<Evidence>, merge: seq<Evidence> -> I) returns (inferences: seq<I>)
    ensures inferences == MergeEach(merge, Batches(a[..]))
  {
    ghost var all := a[..];
    var rest := 0;
    inferences := [];
    ghost var done: seq<seq<Evidence>> := [];
    while rest < a.Length
      invariant 0 <= rest <= a.Length == |all|
      invariant a[..] == all
      invariant Batches(all) == done + BatchesFrom(all, rest)
      invariant inferences == MergeEach(merge, done)
    {
      var end := BatchEnd(a, rest);
      var batch := a[rest..end];
      BatchesAdvance(all, done, rest, end);
      MergeEachAppend(merge, done, batch);
      inferences := inferences + [merge(batch)];
      done := done + [batch];
      rest := end;
    }
  }

  /** One turn of the batching loop: the batch just cut off joins the finished ones. */
  lemma BatchesAdvance(s: seq<Evidence>, done: seq<seq<Evidence>>, start: nat, end: nat)
    requires start < end <= |s|
    requires forall i :: start <= i < end ==> Usr(s[i]) == Usr(s[start])
    requires end < |s| ==> Usr(s[end]) != Usr(s[start])
    requires Batches(s) == done + BatchesFrom(s, start)
    ensures Batches(s) == (done + [s[start..end]]) + BatchesFrom(s, end)
  {
    var batch, later := s[start..end], BatchesFrom(s, end);
    BatchesStep(s, start, end);
    assert done + ([batch] + later) == (done + [batch]) + later;
  }

  /**
   * `inferTU`: the inferences are `merge` applied to each batch of the sorted
   * evidence, in order; the sorted evidence is a permutation of what was collected.
   */
  method InferTU<D, M, I>(decls: seq<D>, impls: seq<M>,
                          fromDeclaration: D -> seq<Evidence>,
                          fromImplementation: M -> ImplementationOutcome,
                          merge: seq<Evidence> -> I)
    returns (inferences: seq<I>, diagnostics: seq<string>, ghost sorted: seq<Evidence>)
    ensures multiset(sorted) == multiset(Collected(decls, impls, fromDeclaration, fromImplementation))
    ensures SortedByUsr(sorted)
    ensures inferences == MergeEach(merge, Batches(sorted))
    ensures Collected(decls, impls, fromDeclaration, fromImplementation) == [] ==> inferences == []
    ensures |inferences| == |DistinctUsrs(Collected(decls, impls, fromDeclaration, fromImplementation))|
    ensures diagnostics == SkipDiagnostics(impls, fromImplementation)
  {
    var all;
    all, diagnostics := CollectEvidence(decls, impls, fromDeclaration, fromImplementation);
    var a := new Evidence[|all|](i requires 0 <= i < |all| => all[i]);
    assert a[..] == all;
    SortByUsr(a);
    sorted := a[..];
    inferences := MergeBatches(a, merge);
    BatchCountIsDistinctUsrs(sorted);
    PermutationKeepsUsrs(sorted, all);
  }

  /** Reordering evidence keeps the set of symbols it is about. */
  lemma PermutationKeepsUsrs(s: seq<Evidence>, t: seq<Evidence>)
    requires multiset(s) == multiset(t)
    ensures DistinctUsrs(s) == DistinctUsrs(t)
  {
    forall u | u in DistinctUsrs(s)
      ensures u in DistinctUsrs(t)
    {
      var p :| 0 <= p < |s| && Usr(s[p]) == u;
      assert s[p] in multiset(t);
      var q :| 0 <= q < |t| && t[q] == s[p];
    }
    forall u | u in DistinctUsrs(t)
      ensures u in DistinctUsrs(s)
    {
      var q :| 0 <= q < |t| && Usr(t[q]) == u;
      assert t[q] in multiset(s);
      var p :| 0 <= p < |s| && s[p] == t[q];
    }
  }

  /**
   * The Annotations test: a declaration and a definition of `target`. Whatever
   * evidence the two emit about it, and in whatever order the sort leaves that
   * evidence, it forms one batch and gives one inference.
   */
  lemma AnnotationsExample<I>(target: Symbol, collected: seq<Evidence>, sorted: seq<Evidence>, merge: seq<Evidence> -> I)
    requires collected != []
    requires forall k :: 0 <= k < |collected| ==> collected[k].symbol == target
    requires multiset(sorted) == multiset(collected)
    ensures MergeEach(merge, Batches(sorted)) == [merge(sorted)]
  {
    assert |sorted| == |collected| by {
      assert |multiset(sorted)| == |multiset(collected)|;
    }
    forall k | 0 <= k < |sorted|
      ensures Usr(sorted[k]) == Usr(sorted[0])
    {
      UsrOfCollected(collected, sorted, target, k);
      UsrOfCollected(collected, sorted, target, 0);
    }
    OneSymbolOneBatch(sorted);
    assert MergeEach(merge, [sorted]) == MergeEach(merge, []) + [merge(sorted)];
  }

  lemma UsrOfCollected(collected: seq<Evidence>, sorted: seq<Evidence>, target: Symbol, k: nat)
    requires forall k :: 0 <= k < |collected| ==> collected[k].symbol == target
    requires multiset(sorted) == multiset(collected) && k < |sorted|
    ensures sorted[k].symbol == target
  {
    assert sorted[k] in multiset(collected);
    var q :| 0 <= q < |collected| && collected[q] == sorted[k];
  }
}
