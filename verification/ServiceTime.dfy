/** The conservative job-start basis: the first service request's own clock reading, less everything that the
    service date may hide. */
module ServiceTime {
  import opened Wrappers

  const NS := 1_000_000_000
  const UINT64 := 0xffff_ffff_ffff_ffff
  const SOURCE_JOB_SECONDS := 5400
  const DATE_QUANTIZATION_SECONDS := 1
  const CACHE_SECONDS := 60
  const CLOCK_MARGIN_SECONDS := 5

  predicate Integer(n: int) {
    0 <= n <= UINT64
  }

  predicate BasisInteger(n: int) {
    -UINT64 <= n <= UINT64
  }

  /** The age of the job in nanoseconds, with every charge. */
  function Charged(age: int): int {
    (age + DATE_QUANTIZATION_SECONDS + CACHE_SECONDS + CLOCK_MARGIN_SECONDS) * NS
  }

  function Basis(jobsStart: int, jobEpoch: int, serviceDate: int): Option<int> {
    if !Integer(jobsStart) || !Integer(jobEpoch) || !Integer(serviceDate) then None else
    var age := serviceDate - jobEpoch;
    if !Integer(age) || !Integer(Charged(age) / NS) || !Integer(Charged(age)) || !BasisInteger(jobsStart - Charged(age))
    then None else Some(jobsStart - Charged(age))
  }

  function JobEnd(basis: int): Option<int> {
    if BasisInteger(basis) && Integer(basis + SOURCE_JOB_SECONDS * NS) then Some(basis + SOURCE_JOB_SECONDS * NS)
    else None
  }

  /** If the job truly started no longer ago than the charged age when the first request was made, the job end
      is no later than its true start plus 5400 seconds. */
  lemma EndIsConservative(jobsStart: int, jobEpoch: int, serviceDate: int, trueStart: int)
    requires Basis(jobsStart, jobEpoch, serviceDate).Some?
    requires jobsStart - trueStart <= Charged(serviceDate - jobEpoch)
    ensures var basis := Basis(jobsStart, jobEpoch, serviceDate).value;
      && basis <= trueStart
      && (JobEnd(basis).Some? ==> JobEnd(basis).value <= trueStart + SOURCE_JOB_SECONDS * NS)
  {
  }

  /** The charge covers a true age exactly when the service date understates it by at most 66 seconds. */
  lemma ChargeCovers(jobEpoch: int, serviceDate: int, trueAgeNs: int)
    ensures trueAgeNs <= Charged(serviceDate - jobEpoch) <==> trueAgeNs - (serviceDate - jobEpoch) * NS <= 66 * NS
  {
  }

  /** A basis is refused exactly when an operand is out of range, the job seems to start after the service
      date, or the charge is out of range. */
  lemma BasisRefusals(jobsStart: int, jobEpoch: int, serviceDate: int)
    ensures Basis(jobsStart, jobEpoch, serviceDate).Some? <==>
            (&& Integer(jobsStart) && Integer(jobEpoch) && Integer(serviceDate)
             && jobEpoch <= serviceDate && Charged(serviceDate - jobEpoch) <= UINT64)
  {
  }
}
