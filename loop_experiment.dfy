/** The driver with a selectable loop dimension: how many loop iterations it
    asks for and the boot-parameter string it applies. The testbed calls
    themselves are not modelled. */
module LoopExperiment {
  import opened Wrappers
  import opened Layout
  import Topology
  import Text
  import HtExperiment

  /** `--loop-dimension`, restricted by argparse to "cores" or "threads". */
  datatype Dimension = CoresDim | ThreadsDim

  /** `threads if args.loop_dimension == "threads" else cores`. */
  function Selected(dim: Dimension, cores: int, threads: int): int
  {
    if dim == ThreadsDim then threads else cores
  }

  /** The count after `if args.loop_max: count = min(count, args.loop_max)`:
      a `loop_max` of None or 0 changes nothing; any other value caps the count. */
  function LoopCount(dim: Dimension, cores: int, threads: int, loopMax: Option<int>): (count: int)
    ensures loopMax.None? || loopMax.value == 0 ==> count == Selected(dim, cores, threads)
    ensures loopMax.Some? && loopMax.value != 0 ==>
              count <= loopMax.value && count <= Selected(dim, cores, threads)
              && (count == loopMax.value || count == Selected(dim, cores, threads))
  {
    var count := Selected(dim, cores, threads);
    if loopMax.Some? && loopMax.value != 0 then
      (if count < loopMax.value then count else loopMax.value)
    else count
  }

  /** `loop_vars["cores"] = make_series(count)` with this driver's unclamped
      `make_series`: as long as the count when that is non-negative, empty otherwise. */
  function LoopSeries(dim: Dimension, cores: int, threads: int, loopMax: Option<int>): (r: seq<int>)
    ensures forall i :: 0 <= i < |r| ==> r[i] == i + 1
    ensures LoopCount(dim, cores, threads, loopMax) >= 0 ==> |r| == LoopCount(dim, cores, threads, loopMax)
    ensures LoopCount(dim, cores, threads, loopMax) <= 0 ==> r == []
    ensures loopMax.Some? && loopMax.value > 0 ==> |r| <= loopMax.value
  {
    Topology.OneTo(LoopCount(dim, cores, threads, loopMax))
  }

  /** The two drivers part ways on a node that reports 0 threads: looping over
      threads here gives no iterations, while the other driver falls back to
      the cores. */
  lemma DriversDifferOnZeroThreads(cores: int)
    requires cores >= 1
    ensures LoopSeries(ThreadsDim, cores, 0, None) == []
    ensures |HtExperiment.LoopVariable(true, cores, 0)| == cores
  {
  }

  /** `" ".join(args.bootparam)`: the values in the given order, duplicates kept. */
  function JoinedBootParams(given: seq<string>): string
  {
    Text.Join(BootParamArgs(given))
  }

  /** The joined string splits back into exactly the parameters, the default
      first, provided no parameter holds a space. */
  lemma BootParamsRoundTrip(given: seq<string>)
    requires forall k :: 0 <= k < |given| ==> ' ' !in given[k]
    ensures Text.Split(JoinedBootParams(given)) == BootParamArgs(given)
    ensures Text.Split(JoinedBootParams(given))[0] == DefaultBootParams[0]
  {
    var ps := BootParamArgs(given);
    forall k | 0 <= k < |ps| ensures ' ' !in ps[k] {
      if k > 0 {
        assert ps[k] == given[k - 1];
      }
    }
    Text.SplitJoin(ps);
  }
}
