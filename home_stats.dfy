/** The statistics section of the home page: how many todos the signed-in user
    has, how many are completed or still active, and the completion percentage. */
module HomeStats {
  import opened Common

  datatype Stats = Stats(total: int, completed: int, active: int, completionRate: int)

  /** `total > 0 ? Math.round((completed / total) * 100) : 0`, in integers:
      round(x) = floor(x + 1/2), so round(100c/t) = floor((200c + t) / 2t). */
  function CompletionRate(completed: int, total: int): int {
    if total > 0 then (200 * completed + total) / (2 * total) else 0
  }

  /** The figures computed from the fetched rows. */
  function ComputeStats(flags: seq<bool>): Stats {
    var total := |flags|;
    var completed := CountTrue(flags);  // `todos.filter(todo => todo.completed).length`
    Stats(total, completed, total - completed, CompletionRate(completed, total))
  }

  /** The invariant every computed figure set keeps. */
  predicate Consistent(s: Stats) {
    0 <= s.completed <= s.total && s.active == s.total - s.completed &&
    0 <= s.completionRate <= 100 &&
    (s.total == 0 ==> s.completionRate == 0)
  }

  /** The rate is the percentage rounded to the nearest integer, halves up:
      its distance to 100c/t is at most one half, and exactly one half only
      from below. */
  lemma CompletionRateRounds(completed: int, total: int)
    requires total > 0
    ensures var r := CompletionRate(completed, total);
      -total < 2 * (r * total - 100 * completed) <= total
  {
    var n := 200 * completed + total;
    var d := 2 * total;
    var q := n / d;
    assert n == d * q + n % d && 0 <= n % d < d;
    assert 2 * (q * total - 100 * completed) == d * q - n + total;
  }

  /** Multiplying by a positive number keeps strict order both ways. */
  lemma CancelPositive(a: int, b: int, t: int)
    requires t > 0
    ensures a * t < b * t <==> a < b
  {
    assert b * t - a * t == (b - a) * t;
  }

  /** The rate lies in 0..100: 0 when nothing is completed and 100 when all is. */
  lemma CompletionRateRange(completed: int, total: int)
    requires 0 <= completed <= total
    ensures 0 <= CompletionRate(completed, total) <= 100
    ensures completed == 0 ==> CompletionRate(completed, total) == 0
    ensures total > 0 && completed == total ==> CompletionRate(completed, total) == 100
  {
    if total > 0 {
      CompletionRateRounds(completed, total);
      var r := CompletionRate(completed, total);
      CancelPositive(-1, r, total);
      CancelPositive(r, 101, total);
      if completed == 0 {
        CancelPositive(r, 1, total);
      }
      if completed == total {
        CancelPositive(-1, r - 100, total);
        CancelPositive(r - 100, 1, total);
      }
    }
  }

  /** Computed figures are consistent, and the total is the number of rows. */
  lemma ComputeStatsConsistent(flags: seq<bool>)
    ensures Consistent(ComputeStats(flags))
    ensures ComputeStats(flags).total == |flags|
  {
    CompletionRateRange(CountTrue(flags), |flags|);
  }

  /** What the stats query produced: rows (possibly null) or an error. */
  datatype Fetch = Rows(rows: Option<seq<bool>>) | FetchFailed

  /** What the section shows. */
  datatype StatsView = Hidden | Spinner | Figures(stats: Stats)

  /** The section's state. */
  class StatsSection {
    var stats: Stats
    var loading: bool

    /** The section's invariant: the figures shown are consistent. */
    predicate Valid()
      reads this
    {
      Consistent(stats)
    }

    constructor ()
      ensures Valid() && stats == Stats(0, 0, 0, 0) && loading
    {
      new;
      stats := Stats(0, 0, 0, 0);
      loading := true;
    }

    /** The effect on a change of user: with a user the stats are fetched
        (the result says so); without one nothing is fetched and loading ends. */
    method OnUserChange(signedIn: bool) returns (fetch: bool)
      requires Valid()
      modifies this`loading
      ensures Valid() && stats == old(stats)
      ensures fetch == signedIn
      ensures !signedIn ==> !loading
      ensures signedIn ==> loading == old(loading)
    {
      fetch := signedIn;
      if !signedIn {
        loading := false;
      }
    }

    /** `loadTodoStats`: rows (null counts as none) give new figures, an error
        keeps the old ones; loading ends false either way. */
    method LoadTodoStats(fetch: Fetch)
      requires Valid()
      modifies this
      ensures Valid() && !loading
      ensures fetch.Rows? ==> stats == ComputeStats(fetch.rows.GetOr([]))
      ensures fetch.FetchFailed? ==> stats == old(stats)
    {
      if fetch.Rows? {
        var flags := fetch.rows.GetOr([]);
        ComputeStatsConsistent(flags);
        stats := ComputeStats(flags);
      }
      loading := false;
    }

    /** The section renders nothing without a user, a spinner while the
        figures load, and the figures once loading has ended. */
    function Render(signedIn: bool): (r: StatsView)
      reads this
      ensures r.Hidden? <==> !signedIn
      ensures r.Spinner? <==> signedIn && loading
      ensures r.Figures? <==> signedIn && !loading
      ensures r.Figures? ==> r.stats == stats
    {
      if !signedIn then Hidden else if loading then Spinner else Figures(stats)
    }
  }

  /** The initial figures are all zero and consistent. */
  lemma InitialStatsConsistent()
    ensures Consistent(Stats(0, 0, 0, 0))
  {
  }
}
