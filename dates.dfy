/**
 * Time as the pages compute with it: instants are integers of milliseconds
 * (what `Date.getTime()` returns), and day differences are rounded up with
 * `Math.ceil`.
 */
module Dates {
  const MsPerMinute: int := 60000
  const MsPerHour: int := 3600000
  const MsPerDay: int := 86400000

  /** `Math.ceil(x / d)` for a positive divisor. */
  function CeilDiv(x: int, d: int): (r: int)
    requires d > 0
    ensures d * (r - 1) < x <= d * r
  {
    var q := (-x) / d;
    assert -x == d * q + (-x) % d;
    -q
  }

  /**
   * `Math.ceil((later - earlier) / (1000 * 60 * 60 * 24))`: the whole days from
   * `earlier` to `later`, rounded up. It is at most `k` exactly when the two
   * instants are at most `k` days apart.
   */
  function DiffDays(later: int, earlier: int): (r: int)
    ensures forall k: int {:trigger k * MsPerDay} :: r <= k <==> later - earlier <= k * MsPerDay
  {
    var r := CeilDiv(later - earlier, MsPerDay);
    assert forall k: int {:trigger k * MsPerDay} :: r <= k <==> later - earlier <= k * MsPerDay by {
      forall k: int ensures r <= k <==> later - earlier <= k * MsPerDay {
        if r <= k {
          assert MsPerDay * r <= MsPerDay * k;
        } else {
          assert MsPerDay * k <= MsPerDay * (r - 1);
        }
      }
    }
    r
  }
}
