/** The hyperthreading-aware experiment driver: the loop series it hands to
    the testbed and the de-duplicated kernel boot parameters. The testbed
    calls themselves are not modelled. */
module HtExperiment {
  import opened Wrappers
  import opened Layout
  import Topology

  /** This driver's `make_series(n)`: `n = max(1, int(n or 1))`, then `[1..n]`.
      Never empty; absent, 0 or negative sizes give `[1]`. */
  function MakeSeries(n: Option<int>): (r: seq<int>)
    ensures |r| >= 1 && r[0] == 1
    ensures forall i :: 0 <= i < |r| ==> r[i] == i + 1
    ensures n.Some? && n.value >= 1 ==> |r| == n.value
    ensures n.None? || n.value < 1 ==> r == [1]
  {
    var m := if n.Some? && n.value != 0 then n.value else 1;
    Topology.OneTo(if m > 1 then m else 1)
  }

  /** The clamped series agrees with the plain `[1..n]` exactly when `n >= 1`. */
  lemma MakeSeriesMatchesPlainIff(n: int)
    ensures MakeSeries(Some(n)) == Topology.OneTo(n) <==> n >= 1
  {
    if n < 1 {
      assert |Topology.OneTo(n)| == 0;
    }
  }

  /** `use = threads if enable_hyperthreading and threads else cores`. */
  function LoopSize(ht: bool, cores: int, threads: int): int
  {
    if ht && threads != 0 then threads else cores
  }

  /** The warning "HT requested but no thread count; using cores." */
  predicate FallbackWarning(ht: bool, threads: int)
  {
    ht && threads == 0
  }

  /** `loop_vars["cores"]`: the series the experiment loops over. It is never
      empty; it counts the threads when HT is requested and a thread count is
      known, and the cores otherwise. */
  function LoopVariable(ht: bool, cores: int, threads: int): (r: seq<int>)
    ensures |r| >= 1 && r[0] == 1
    ensures forall i :: 0 <= i < |r| ==> r[i] == i + 1
    ensures ht && threads != 0 ==> r == MakeSeries(Some(threads))
    ensures !ht || threads == 0 ==> r == MakeSeries(Some(cores))
    ensures ht && threads >= 1 ==> |r| == threads
    ensures !ht && cores >= 1 ==> |r| == cores
    ensures FallbackWarning(ht, threads) && cores >= 1 ==> |r| == cores
    ensures LoopSize(ht, cores, threads) < 1 ==> r == [1]
  {
    MakeSeries(Some(LoopSize(ht, cores, threads)))
  }

  /** On a node whose sockets report no thread counts, the thread total falls
      back to the cores, so requesting HT loops over the cores all the same. */
  lemma HtOnNodeWithoutThreadCounts(ss: seq<Topology.Socket>)
    requires forall i :: 0 <= i < |ss| ==> ss[i].threads.None?
    ensures LoopVariable(true, Topology.Total(ss, Topology.CoresKey), Topology.Total(ss, Topology.ThreadsKey))
         == LoopVariable(false, Topology.Total(ss, Topology.CoresKey), Topology.Total(ss, Topology.ThreadsKey))
  {
    Topology.ThreadsFallBackToCores(ss);
  }

  // ------------------------------------------------------------ boot params

  predicate NoDuplicates(s: seq<string>)
  {
    forall i, j :: 0 <= i < j < |s| ==> s[i] != s[j]
  }

  /** The first occurrences of `s`, in order. */
  function Dedup(s: seq<string>): seq<string>
  {
    if s == [] then []
    else
      var d := Dedup(s[..|s| - 1]);
      var x := s[|s| - 1];
      if x in d then d else d + [x]
  }

  /** The boot-parameter loop: `seen` and `bootparams` grow together. */
  method DedupBootParams(params: seq<string>) returns (bootparams: seq<string>)
    ensures bootparams == Dedup(params)
  {
    var seen: set<string> := {};
    bootparams := [];
    for i := 0 to |params|
      invariant bootparams == Dedup(params[..i])
      invariant forall x :: x in seen <==> x in bootparams
    {
      assert params[..i + 1][..i] == params[..i];
      var bp := params[i];
      if bp !in seen {
        bootparams := bootparams + [bp];
        seen := seen + {bp};
      }
    }
    assert params[..|params|] == params;
  }

  /** The output holds no duplicates and exactly the elements of the input. */
  lemma {:induction false} DedupElements(s: seq<string>)
    ensures NoDuplicates(Dedup(s))
    ensures forall x :: x in Dedup(s) <==> x in s
  {
    if s != [] {
      var front := s[..|s| - 1];
      DedupElements(front);
      assert s == front + [s[|s| - 1]];
    }
  }

  /** Where `x` first occurs in `s`. */
  function IndexOf(s: seq<string>, x: string): (k: nat)
    requires x in s
    ensures k < |s| && s[k] == x && x !in s[..k]
  {
    if s[0] == x then 0
    else
      var k := IndexOf(s[1..], x);
      assert s[1..][..k] == s[1..k + 1];
      1 + k
  }

  lemma IndexOfUnique(s: seq<string>, x: string, k: nat)
    requires k < |s| && s[k] == x && x !in s[..k]
    ensures IndexOf(s, x) == k
  {
    var m := IndexOf(s, x);
    assert s[m] == x;
  }

  /** The output is ordered by first occurrence in the input. */
  lemma {:induction false} DedupOrder(s: seq<string>)
    ensures forall i :: 0 <= i < |Dedup(s)| ==> Dedup(s)[i] in s
    ensures forall i, j :: 0 <= i < j < |Dedup(s)| ==> IndexOf(s, Dedup(s)[i]) < IndexOf(s, Dedup(s)[j])
  {
    DedupElements(s);
    if s != [] {
      var n := |s| - 1;
      var front := s[..n];
      var x := s[n];
      var d := Dedup(front);
      DedupOrder(front);
      DedupElements(front);
      forall y | y in front
        ensures IndexOf(s, y) == IndexOf(front, y)
      {
        var k := IndexOf(front, y);
        assert s[..k] == front[..k];
        IndexOfUnique(s, y, k);
      }
      if x !in d {
        assert x !in s[..n];
        IndexOfUnique(s, x, n);
      }
    }
  }

  /** Input that holds no duplicates comes out unchanged. */
  lemma {:induction false} DedupOfDistinct(s: seq<string>)
    requires NoDuplicates(s)
    ensures Dedup(s) == s
  {
    if s != [] {
      var front := s[..|s| - 1];
      DedupOfDistinct(front);
      assert s[|s| - 1] !in front;
      assert s == front + [s[|s| - 1]];
    }
  }

  /** De-duplicating twice is de-duplicating once. */
  lemma DedupIdempotent(s: seq<string>)
    ensures Dedup(Dedup(s)) == Dedup(s)
  {
    DedupElements(s);
    DedupOfDistinct(Dedup(s));
  }

  /** The default boot parameter is applied exactly once, and first. */
  lemma DefaultBootParamFirst(given: seq<string>)
    ensures |Dedup(BootParamArgs(given))| >= 1
    ensures Dedup(BootParamArgs(given))[0] == DefaultBootParams[0]
  {
    var s := BootParamArgs(given);
    DedupElements(s);
    DedupOrder(s);
    var d := Dedup(s);
    assert DefaultBootParams[0] in d;
    var k := IndexOf(d, DefaultBootParams[0]);
    IndexOfUnique(s, DefaultBootParams[0], 0);
  }
}
