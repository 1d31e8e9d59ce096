/** The records the parsers produce, and the two wrappers that stand for Python's
    None and for a ValueError raised by a number conversion. */
module Records {

  datatype Option<+T> = None | Some(value: T)

  /** A ValueError raised by float() or int() on a token that a pattern let through
      (such as "1.2.3" for [\d.]+, or "," for [\d,]+); the parsers do not catch it. */
  datatype Error = ValueError(token: string)

  datatype Result<+T> = Success(value: T) | Failure(error: Error)

  /** One row of the process table (`top`). */
  datatype Process = Process(pid: nat, user: string, cpu: real, mem: real, time: string, name: string)

  /** One entry of the `Total RSS by process:` section of `dumpsys meminfo`. */
  datatype MemEntry = MemEntry(name: string, pid: nat, ramMb: real)

  /** The frame-timing summary; both optional fields are None exactly when no frame was read. */
  datatype FrameStats = FrameStats(avgFrameTimeMs: Option<real>, jankFrames: Option<nat>, totalFrames: nat)

  /** xs followed by the list r holds, or r's error. */
  function Prepend<T>(xs: seq<T>, r: Result<seq<T>>): (r': Result<seq<T>>)
    ensures r'.Success? <==> r.Success?
    ensures r.Success? ==> r'.value == xs + r.value
    ensures xs == [] ==> r' == r
  {
    match r
    case Success(ys) => assert [] + ys == ys; Success(xs + ys)
    case Failure(e) => Failure(e)
  }

  lemma PrependTwice<T>(xs: seq<T>, ys: seq<T>, r: Result<seq<T>>)
    ensures Prepend(xs, Prepend(ys, r)) == Prepend(xs + ys, r)
  {
    if r.Success? {
      assert xs + (ys + r.value) == (xs + ys) + r.value;
    }
  }
}
