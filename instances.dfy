/**
 * The instances of a benchmark run and how `run_evaluation` chooses them:
 * the list is sorted by the number of known resolvers, most first (a stable
 * sort, as Python's `sorted(..., reverse=True)` is), and then narrowed by up
 * to three order-preserving filters: by instance id, by a resolver threshold,
 * and by excluded repositories. A filter whose argument is empty or missing
 * (falsy) is not applied.
 */
module Instances {
  import opened Wrappers

  /**
   * One benchmark instance as listed in the evaluations file; the
   * `llm_monkeys.resolved_rate` entry is absent for most instances.
   */
  datatype Instance = Instance(
    instanceId: string,
    repo: string,
    problemStatement: string,
    resolvedBy: seq<string>,
    llmMonkeysResolvedRate: Option<real>)

  function ResolvedCount(x: Instance): nat {
    |x.resolvedBy|
  }

  ghost predicate SortedByCount(s: seq<Instance>) {
    forall i, j :: 0 <= i < j < |s| ==> ResolvedCount(s[i]) >= ResolvedCount(s[j])
  }

  // ---------------------------------------------------------------------------
  // Sorting by the number of resolvers, most first, keeping ties in input order.
  // ---------------------------------------------------------------------------

  /** Puts `x` before the first element that has no more resolvers than it. */
  function InsertByCount(x: Instance, s: seq<Instance>): (r: seq<Instance>)
    ensures multiset(r) == multiset(s) + multiset{x}
    decreases |s|
  {
    if s == [] then [x]
    else if ResolvedCount(s[0]) <= ResolvedCount(x) then [x] + s
    else
      assert s == [s[0]] + s[1..];
      [s[0]] + InsertByCount(x, s[1..])
  }

  /** Inserting below a bound keeps every element below it. */
  lemma {:induction false} InsertBelow(x: Instance, s: seq<Instance>, bound: nat)
    requires ResolvedCount(x) <= bound
    requires forall j :: 0 <= j < |s| ==> ResolvedCount(s[j]) <= bound
    ensures forall j :: 0 <= j < |InsertByCount(x, s)| ==> ResolvedCount(InsertByCount(x, s)[j]) <= bound
    decreases |s|
  {
    if s == [] {
    } else if ResolvedCount(s[0]) <= ResolvedCount(x) {
      var r := [x] + s;
      assert forall j :: 1 <= j < |r| ==> r[j] == s[j - 1];
    } else {
      InsertBelow(x, s[1..], bound);
      var rest := InsertByCount(x, s[1..]);
      var r := [s[0]] + rest;
      assert forall j :: 1 <= j < |r| ==> r[j] == rest[j - 1];
    }
  }

  lemma {:induction false} InsertKeepsSorted(x: Instance, s: seq<Instance>)
    requires SortedByCount(s)
    ensures SortedByCount(InsertByCount(x, s))
    decreases |s|
  {
    if s != [] && ResolvedCount(s[0]) > ResolvedCount(x) {
      var rest := InsertByCount(x, s[1..]);
      InsertKeepsSorted(x, s[1..]);
      InsertBelow(x, s[1..], ResolvedCount(s[0]));
      var r := [s[0]] + rest;
      forall i, j | 0 <= i < j < |r| ensures ResolvedCount(r[i]) >= ResolvedCount(r[j]) {
        assert r[j] == rest[j - 1];
        if i > 0 {
          assert r[i] == rest[i - 1];
        } else {
          assert ResolvedCount(rest[j - 1]) <= ResolvedCount(s[0]);
        }
      }
    }
  }

  /** `sorted(instances, key=lambda x: len(x["resolved_by"]), reverse=True)`. */
  function SortByResolvedCount(s: seq<Instance>): (r: seq<Instance>)
    ensures multiset(r) == multiset(s)
    ensures SortedByCount(r)
    decreases |s|
  {
    if s == [] then []
    else
      assert s == [s[0]] + s[1..];
      var rest := SortByResolvedCount(s[1..]);
      InsertKeepsSorted(s[0], rest);
      InsertByCount(s[0], rest)
  }

  /** The instances that have exactly `k` resolvers, in order. */
  function WithCount(s: seq<Instance>, k: nat): seq<Instance>
    decreases |s|
  {
    if s == [] then []
    else (if ResolvedCount(s[0]) == k then [s[0]] else []) + WithCount(s[1..], k)
  }

  lemma {:induction false} InsertWithCount(x: Instance, s: seq<Instance>, k: nat)
    ensures WithCount(InsertByCount(x, s), k) == (if ResolvedCount(x) == k then [x] else []) + WithCount(s, k)
    decreases |s|
  {
    if s == [] {
    } else if ResolvedCount(s[0]) <= ResolvedCount(x) {
      assert ([x] + s)[1..] == s;
    } else {
      InsertWithCount(x, s[1..], k);
      var r := [s[0]] + InsertByCount(x, s[1..]);
      assert r[1..] == InsertByCount(x, s[1..]);
    }
  }

  /** The sort is stable: instances with the same number of resolvers keep their relative order. */
  lemma {:induction false} SortIsStable(s: seq<Instance>, k: nat)
    ensures WithCount(SortByResolvedCount(s), k) == WithCount(s, k)
    decreases |s|
  {
    if s != [] {
      SortIsStable(s[1..], k);
      InsertWithCount(s[0], SortByResolvedCount(s[1..]), k);
    }
  }

  // ---------------------------------------------------------------------------
  // Order-preserving filters.
  // ---------------------------------------------------------------------------

  /** `a` is `b` with some elements left out, the rest in the same order. */
  ghost predicate Subsequence<T>(a: seq<T>, b: seq<T>)
    decreases |b|
  {
    a == [] || (b != [] && ((a[0] == b[0] && Subsequence(a[1..], b[1..])) || Subsequence(a, b[1..])))
  }

  lemma {:induction false} SubsequenceTransitive<T>(a: seq<T>, b: seq<T>, c: seq<T>)
    requires Subsequence(a, b) && Subsequence(b, c)
    ensures Subsequence(a, c)
    decreases |c|
  {
    if a != [] {
      assert b != [] && c != [];
      if b[0] == c[0] && Subsequence(b[1..], c[1..]) {
        if a[0] == b[0] && Subsequence(a[1..], b[1..]) {
          SubsequenceTransitive(a[1..], b[1..], c[1..]);
        } else {
          SubsequenceTransitive(a, b[1..], c[1..]);
        }
      } else {
        SubsequenceTransitive(a, b, c[1..]);
      }
    }
  }

  lemma {:induction false} SubsequenceMembers<T>(a: seq<T>, b: seq<T>)
    requires Subsequence(a, b)
    ensures forall x :: x in a ==> x in b
    decreases |b|
  {
    if a != [] {
      if a[0] == b[0] && Subsequence(a[1..], b[1..]) {
        SubsequenceMembers(a[1..], b[1..]);
        assert a == [a[0]] + a[1..];
      } else {
        SubsequenceMembers(a, b[1..]);
      }
    }
  }

  lemma {:induction false} SubsequenceOfSorted(a: seq<Instance>, b: seq<Instance>)
    requires Subsequence(a, b) && SortedByCount(b)
    ensures SortedByCount(a)
    decreases |b|
  {
    if a != [] {
      assert forall i, j :: 0 <= i < j < |b| - 1 ==> b[1..][i] == b[i + 1] && b[1..][j] == b[j + 1];
      if a[0] == b[0] && Subsequence(a[1..], b[1..]) {
        SubsequenceOfSorted(a[1..], b[1..]);
        SubsequenceMembers(a[1..], b[1..]);
        forall i, j | 0 <= i < j < |a| ensures ResolvedCount(a[i]) >= ResolvedCount(a[j]) {
          assert a[j] == a[1..][j - 1];
          if i > 0 {
            assert a[i] == a[1..][i - 1];
          } else {
            assert a[j] in b[1..];
            var m :| 0 <= m < |b[1..]| && b[1..][m] == a[j];
            assert b[m + 1] == a[j];
          }
        }
      } else {
        SubsequenceOfSorted(a, b[1..]);
      }
    }
  }

  /** The elements of `s` that satisfy `p`, in order (a list comprehension with a condition). */
  function Keep<T(!new)>(s: seq<T>, p: T -> bool): (r: seq<T>)
    ensures |r| <= |s|
    ensures forall x :: x in r <==> x in s && p(x)
    ensures forall x :: multiset(r)[x] == if p(x) then multiset(s)[x] else 0
    ensures Subsequence(r, s)
    decreases |s|
  {
    if s == [] then []
    else
      var rest := Keep(s[1..], p);
      assert s == [s[0]] + s[1..];
      if p(s[0]) then
        assert ([s[0]] + rest)[1..] == rest;
        [s[0]] + rest
      else rest
  }

  /** The resolver threshold test of `run_evaluation`; a missing rate counts as 0. */
  predicate ResolvedEnough(x: Instance, threshold: int) {
    ResolvedCount(x) >= threshold || (threshold == 1 && x.llmMonkeysResolvedRate.GetOr(0.0) > 0.0)
  }

  function FilterByIds(s: seq<Instance>, instanceIds: seq<string>): seq<Instance> {
    if instanceIds == [] then s else Keep(s, (x: Instance) => x.instanceId in instanceIds)
  }

  /** `resolved_by` is `None` or an int; 0 is falsy and disables the filter. */
  function FilterByResolvedBy(s: seq<Instance>, resolvedBy: Option<int>): seq<Instance> {
    match resolvedBy
    case Some(n) => if n != 0 then Keep(s, (x: Instance) => ResolvedEnough(x, n)) else s
    case None => s
  }

  function FilterByRepos(s: seq<Instance>, ignoreRepos: seq<string>): seq<Instance> {
    if ignoreRepos == [] then s else Keep(s, (x: Instance) => x.repo !in ignoreRepos)
  }

  /** Whether an instance passes all three filters. */
  predicate Wanted(x: Instance, instanceIds: seq<string>, resolvedBy: Option<int>, ignoreRepos: seq<string>) {
    && (instanceIds == [] || x.instanceId in instanceIds)
    && (resolvedBy.None? || resolvedBy.value == 0 || ResolvedEnough(x, resolvedBy.value))
    && x.repo !in ignoreRepos
  }

  /** The instances `run_evaluation` hands to the batch driver, in the order it hands them. */
  function SelectInstances(instances: seq<Instance>, instanceIds: seq<string>, resolvedBy: Option<int>, ignoreRepos: seq<string>)
    : seq<Instance>
  {
    var sorted := SortByResolvedCount(instances);
    FilterByRepos(FilterByResolvedBy(FilterByIds(sorted, instanceIds), resolvedBy), ignoreRepos)
  }

  lemma FilterByIdsSpec(s: seq<Instance>, instanceIds: seq<string>)
    ensures var r := FilterByIds(s, instanceIds);
      && (forall x :: x in r <==> x in s && (instanceIds == [] || x.instanceId in instanceIds))
      && (forall x :: multiset(r)[x] == if instanceIds == [] || x.instanceId in instanceIds then multiset(s)[x] else 0)
      && Subsequence(r, s)
  {
    if instanceIds == [] { SubsequenceReflexive(s); }
  }

  lemma FilterByResolvedBySpec(s: seq<Instance>, resolvedBy: Option<int>)
    ensures var r := FilterByResolvedBy(s, resolvedBy);
      && (forall x :: x in r <==> x in s && (resolvedBy.None? || resolvedBy.value == 0 || ResolvedEnough(x, resolvedBy.value)))
      && (forall x :: multiset(r)[x]
                      == if resolvedBy.None? || resolvedBy.value == 0 || ResolvedEnough(x, resolvedBy.value)
                         then multiset(s)[x] else 0)
      && Subsequence(r, s)
  {
    if resolvedBy.None? || resolvedBy.value == 0 { SubsequenceReflexive(s); }
  }

  lemma FilterByReposSpec(s: seq<Instance>, ignoreRepos: seq<string>)
    ensures var r := FilterByRepos(s, ignoreRepos);
      && (forall x :: x in r <==> x in s && x.repo !in ignoreRepos)
      && (forall x :: multiset(r)[x] == if x.repo !in ignoreRepos then multiset(s)[x] else 0)
      && Subsequence(r, s)
  {
    if ignoreRepos == [] { SubsequenceReflexive(s); }
  }

  /**
   * The selection keeps exactly the wanted instances, as a subsequence of the
   * sorted list, so most resolvers first.
   */
  lemma SelectInstancesSpec(instances: seq<Instance>, instanceIds: seq<string>, resolvedBy: Option<int>, ignoreRepos: seq<string>)
    ensures var r := SelectInstances(instances, instanceIds, resolvedBy, ignoreRepos);
      && (forall x :: x in r <==> x in instances && Wanted(x, instanceIds, resolvedBy, ignoreRepos))
      && (forall x :: multiset(r)[x] == if Wanted(x, instanceIds, resolvedBy, ignoreRepos) then multiset(instances)[x] else 0)
      && Subsequence(r, SortByResolvedCount(instances))
      && SortedByCount(r)
  {
    var sorted := SortByResolvedCount(instances);
    assert forall x :: x in sorted <==> x in multiset(sorted);
    assert forall x :: x in instances <==> x in multiset(instances);
    var a := FilterByIds(sorted, instanceIds);
    var b := FilterByResolvedBy(a, resolvedBy);
    var c := FilterByRepos(b, ignoreRepos);
    FilterByIdsSpec(sorted, instanceIds);
    FilterByResolvedBySpec(a, resolvedBy);
    FilterByReposSpec(b, ignoreRepos);
    SubsequenceTransitive(b, a, sorted);
    SubsequenceTransitive(c, b, sorted);
    SubsequenceOfSorted(c, sorted);
  }

  lemma {:induction false} SubsequenceReflexive<T>(a: seq<T>)
    ensures Subsequence(a, a)
    decreases |a|
  {
    if a != [] {
      SubsequenceReflexive(a[1..]);
    }
  }
}
