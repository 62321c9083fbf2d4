/** CPU topology of a node: per-socket core and thread counts and their sums,
    as `sum_processor_counts` computes them in both experiment drivers, and the
    `[1..n]` series the drivers loop over. */
module Topology {
  import opened Wrappers

  /** One processor socket. `None` stands for an absent key (for the counts,
      also a null one). */
  datatype Socket = Socket(vendor: Option<string>, model: Option<string>,
                           cores: Option<int>, threads: Option<int>)

  /** The key `sum_processor_counts` is called with. */
  datatype CountKey = CoresKey | ThreadsKey

  /** Python's `int(x or 0)`: absent, null and 0 all give 0. */
  function OrZero(x: Option<int>): int
  {
    if x.Some? then x.value else 0
  }

  /** What one socket adds to the sum: a socket whose thread count is absent or
      null adds its core count instead; an explicit 0 threads adds 0. */
  function SocketCount(s: Socket, key: CountKey): int
  {
    match key
    case CoresKey => OrZero(s.cores)
    case ThreadsKey => if s.threads.None? then OrZero(s.cores) else OrZero(s.threads)
  }

  /** `node_info.get("processor", []) or []`. */
  function SocketsOf(processor: Option<seq<Socket>>): seq<Socket>
  {
    processor.GetOr([])
  }

  /** The sum of `SocketCount` over the sockets, in order. */
  function Total(ss: seq<Socket>, key: CountKey): int
  {
    if ss == [] then 0 else Total(ss[..|ss| - 1], key) + SocketCount(ss[|ss| - 1], key)
  }

  /** `sum_processor_counts(node_info, key)`. */
  method SumProcessorCounts(processor: Option<seq<Socket>>, key: CountKey) returns (total: int)
    ensures total == Total(SocketsOf(processor), key)
    ensures processor.None? ==> total == 0
  {
    var ss := SocketsOf(processor);
    total := 0;
    for i := 0 to |ss|
      invariant total == Total(ss[..i], key)
    {
      assert ss[..i + 1][..i] == ss[..i];
      total := total + SocketCount(ss[i], key);
    }
    assert ss[..|ss|] == ss;
  }

  /** The sum over a concatenation is the sum of the sums. */
  lemma {:induction false} TotalAppend(a: seq<Socket>, b: seq<Socket>, key: CountKey)
    ensures Total(a + b, key) == Total(a, key) + Total(b, key)
  {
    if b != [] {
      var b' := b[..|b| - 1];
      TotalAppend(a, b', key);
      assert (a + b)[..|a + b| - 1] == a + b';
    } else {
      assert a + b == a;
    }
  }

  predicate CountsNonNegative(ss: seq<Socket>)
  {
    forall i :: 0 <= i < |ss| ==> OrZero(ss[i].cores) >= 0 && OrZero(ss[i].threads) >= 0
  }

  /** With no negative count in the input, the totals are never negative. */
  lemma {:induction false} TotalNonNegative(ss: seq<Socket>, key: CountKey)
    requires CountsNonNegative(ss)
    ensures Total(ss, key) >= 0
  {
    if ss != [] {
      TotalNonNegative(ss[..|ss| - 1], key);
    }
  }

  /** When no socket reports threads, the thread total falls back to the core total. */
  lemma {:induction false} ThreadsFallBackToCores(ss: seq<Socket>)
    requires forall i :: 0 <= i < |ss| ==> ss[i].threads.None?
    ensures Total(ss, ThreadsKey) == Total(ss, CoresKey)
  {
    if ss != [] {
      ThreadsFallBackToCores(ss[..|ss| - 1]);
    }
  }

  /** `list(range(1, n + 1))`: `[1, 2, ..., n]`, empty when `n <= 0`. */
  function OneTo(n: int): (r: seq<int>)
    ensures |r| == if n > 0 then n else 0
    ensures forall i :: 0 <= i < |r| ==> r[i] == i + 1
    decreases n
  {
    if n <= 0 then [] else OneTo(n - 1) + [n]
  }
}
