/** What the analysis controllers share: the run status, the percentage shown
    by the progress bar, and the handle a controller keeps on its worker. */
module AnalysisRun {
  import opened Wrappers

  /** The `status` field: Python `None`, "started", "cancelled" or "finished". */
  datatype Status = Unset | Started | Cancelled | Finished

  /** Python's `round` on a number: the nearest integer, ties to the even one. */
  function RoundHalfEven(x: real): (r: int)
    ensures -0.5 <= r as real - x <= 0.5
    ensures (r as real - x == 0.5 || x - r as real == 0.5) ==> r % 2 == 0
  {
    var f := x.Floor;
    var d := x - f as real;
    if d < 0.5 then f
    else if d > 0.5 then f + 1
    else if f % 2 == 0 then f
    else f + 1
  }

  /** The rounding is the only integer that is nearest to `x` with ties to even. */
  lemma RoundUnique(x: real, n: int)
    requires -0.5 <= n as real - x <= 0.5
    requires (n as real - x == 0.5 || x - n as real == 0.5) ==> n % 2 == 0
    ensures n == RoundHalfEven(x)
  {
  }

  /** Rounding never reverses the order of two numbers. */
  lemma RoundMonotone(x: real, y: real)
    requires x <= y
    ensures RoundHalfEven(x) <= RoundHalfEven(y)
  {
  }

  /** `round(progress * 100)`, the value given to the progress bar. */
  function Percent(progress: real): (r: int)
    ensures -0.5 <= r as real - 100.0 * progress <= 0.5
  {
    RoundHalfEven(progress * 100.0)
  }

  /** A fraction of the work done shows as a percentage from 0 to 100, and the
      percentage never decreases as the fraction grows. */
  lemma PercentRange(p: real, q: real)
    requires 0.0 <= p <= q <= 1.0
    ensures 0 <= Percent(p) <= Percent(q) <= 100
    ensures p == 0.0 ==> Percent(p) == 0
    ensures q == 1.0 ==> Percent(q) == 100
  {
    RoundMonotone(0.0, p * 100.0);
    RoundMonotone(p * 100.0, q * 100.0);
    RoundMonotone(q * 100.0, 100.0);
    RoundUnique(0.0, 0);
    RoundUnique(100.0, 100);
  }

  /** The arguments a controller hands to the worker it creates. The sun-filter
      worker takes four thresholds; the module-temperatures worker takes the
      border margin and neighbour radius, and, from the tabbed analysis window,
      also the sun-reflection switch and the loaded sun reflections. */
  datatype WorkerArgs =
    | SunFilterArgs(datasetDir: Option<string>, name: Option<string>,
                    thresholdTemp: Option<real>, thresholdLoc: Option<real>,
                    thresholdChangepoint: Option<real>, segmentLengthThreshold: Option<real>)
    | ModuleTemperaturesArgs(datasetDir: Option<string>, name: Option<string>,
                             borderMargin: Option<int>, neighborRadius: Option<int>,
                             sun: Option<SunArgs>)

  datatype SunArgs = SunArgs(ignoreSunReflections: Option<bool>, sunReflections: Option<map<string, seq<string>>>)

  /** The worker object as a controller sees it: what it was created with, and
      the `is_cancelled` flag its loops poll. */
  class WorkerHandle {
    const args: WorkerArgs
    var isCancelled: bool

    constructor (args: WorkerArgs)
      ensures this.args == args && !isCancelled
    {
      this.args := args;
      isCancelled := false;
    }
  }
}
