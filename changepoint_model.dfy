/** The discrete, integer-valued part of the single-change-point model:
    the switch-point prior and its 20-step grid, the switch rule that picks a
    regime mean per time step, the sampler's initial values, and the reduction
    of the posterior to a change date and its nearest historical event.

    Time steps are indices 0 .. n-1 of the (weekly) log-return series; calendar
    dates are whole day numbers. The regime means are an abstract type T. */
module ChangepointModel {
  import opened Wrappers

  /** Width, in time steps, of one cell of the coarsened switch-point grid. */
  const BlockSize: nat := 20

  // ---------------------------------------------------------------------------
  // build_changepoint_model: the switch-point prior
  // ---------------------------------------------------------------------------

  /** Number of categories of the switch-index prior, n // 20. */
  function CategoryCount(n: nat): nat {
    n / BlockSize
  }

  function SumReals(w: seq<real>): real {
    if w == [] then 0.0 else w[0] + SumReals(w[1..])
  }

  lemma {:induction false} SumOfConstant(w: seq<real>, c: real)
    requires forall k :: 0 <= k < |w| ==> w[k] == c
    ensures SumReals(w) == |w| as real * c
  {
    if w != [] {
      SumOfConstant(w[1..], c);
    }
  }

  /** The probability vector np.ones(n // 20) / (n // 20) of the categorical
      prior over the switch index: every index gets the same weight, the weights
      form a distribution as soon as there is one category, and for n < 20 the
      vector is empty (there is no switch index to choose). */
  function SwitchPrior(n: nat): (w: seq<real>)
    ensures |w| == CategoryCount(n)
    ensures forall j, k :: 0 <= j < k < |w| ==> w[j] == w[k]
    ensures forall k :: 0 <= k < |w| ==> w[k] > 0.0
    ensures n >= BlockSize ==> SumReals(w) == 1.0
    ensures n < BlockSize ==> w == []
  {
    var m := CategoryCount(n);
    if m == 0 then []
    else
      var w := seq(m, _ => 1.0 / m as real);
      SumOfConstant(w, 1.0 / m as real);
      w
  }

  /** tau_idx is in the support of the prior: 0 <= tau_idx < n // 20. */
  predicate InSupport(n: nat, k: int) {
    0 <= k < CategoryCount(n)
  }

  /** The deterministic node tau = tau_idx * 20. */
  function Tau(k: nat): nat {
    k * BlockSize
  }

  /** A value tau can take under the prior: a multiple of 20 whose block index
      is in the support. */
  predicate IsSwitchPoint(n: nat, tau: int) {
    0 <= tau && tau % BlockSize == 0 && InSupport(n, tau / BlockSize)
  }

  /** Scaling by 20 maps the support of tau_idx exactly onto the switch points,
      and every switch point leaves at least a whole block after it:
      tau <= 20 * (n // 20 - 1) <= n - 20. */
  lemma TauSupport(n: nat, k: nat)
    ensures InSupport(n, k) <==> IsSwitchPoint(n, Tau(k))
    ensures InSupport(n, k) ==> Tau(k) + BlockSize <= n
  {
  }

  lemma SwitchPointBound(n: nat, tau: int)
    requires IsSwitchPoint(n, tau)
    ensures tau + BlockSize <= n
  {
  }

  // ---------------------------------------------------------------------------
  // build_changepoint_model: the switch rule
  // ---------------------------------------------------------------------------

  datatype Regime = First | Second

  /** pm.math.switch(tau >= t, mu_1, mu_2): the regime of time step t. */
  function RegimeAt(tau: int, t: int): (r: Regime)
    ensures r == First <==> t <= tau
    ensures r == Second <==> tau < t
  {
    if tau >= t then First else Second
  }

  /** The mean the likelihood uses at time step t. */
  function SelectMean<T>(tau: int, t: int, mu1: T, mu2: T): T {
    match RegimeAt(tau, t)
    case First => mu1
    case Second => mu2
  }

  /** The vector mu = switch(tau >= arange(n), mu_1, mu_2): steps up to and
      including tau take mu_1, later steps mu_2; a tau before the first step
      puts the whole series on mu_2, one at or past the last step puts it all
      on mu_1. */
  function MeanPath<T>(tau: int, n: nat, mu1: T, mu2: T): (m: seq<T>)
    ensures |m| == n
    ensures forall t :: 0 <= t < n ==> m[t] == (if t <= tau then mu1 else mu2)
    ensures tau < 0 ==> m == Repeat(mu2, n)
    ensures tau >= n - 1 ==> m == Repeat(mu1, n)
  {
    seq(n, t => SelectMean(tau, t, mu1, mu2))
  }

  function Repeat<T>(x: T, count: nat): (s: seq<T>)
    ensures |s| == count && forall i :: 0 <= i < count ==> s[i] == x
  {
    seq(count, _ => x)
  }

  /** The step t = tau itself belongs to the first regime; the second regime
      starts at t = tau + 1. */
  lemma BoundaryStepInFirstRegime(tau: int)
    ensures RegimeAt(tau, tau) == First
    ensures RegimeAt(tau, tau + 1) == Second
  {
  }

  /** tau splits the time axis into two contiguous blocks: tau + 1 steps on
      mu_1 followed by n - tau - 1 steps on mu_2. */
  lemma MeanPathIsTwoRegimes<T>(tau: nat, n: nat, mu1: T, mu2: T)
    requires tau < n
    ensures MeanPath(tau, n, mu1, mu2) == Repeat(mu1, tau + 1) + Repeat(mu2, n - tau - 1)
  {
  }

  /** With n >= 20, every switch point of the prior leaves both regimes
      non-empty: step 0 is in the first regime and step n - 1 in the second,
      and the second regime has at least 19 steps. */
  lemma RegimesNonEmpty(n: nat, k: nat)
    requires InSupport(n, k)
    ensures n >= BlockSize
    ensures RegimeAt(Tau(k), 0) == First
    ensures RegimeAt(Tau(k), n - 1) == Second
    ensures n - Tau(k) - 1 >= BlockSize - 1
  {
  }

  // ---------------------------------------------------------------------------
  // run_mcmc: initial values
  // ---------------------------------------------------------------------------

  /** The discrete part of run_mcmc's initvals: tau_idx = n // 40, and the two
      slices data[: n // 2] and data[n // 2 :] whose empirical means start mu_1
      and mu_2. Python slicing clamps the cut to the length of the data. */
  datatype InitialValues<T> = InitialValues(tauIdx: nat, firstHalf: seq<T>, secondHalf: seq<T>)

  function InitialValuesFor<T>(data: seq<T>, n: nat): (iv: InitialValues<T>)
    ensures iv.firstHalf + iv.secondHalf == data
    ensures |data| == n ==> |iv.firstHalf| == n / 2 && |iv.secondHalf| == n - n / 2
    ensures |data| == n && n >= 2 ==> iv.firstHalf != [] && iv.secondHalf != []
    ensures n >= BlockSize ==> InSupport(n, iv.tauIdx)
  {
    var cut := if n / 2 <= |data| then n / 2 else |data|;
    assert data[..cut] + data[cut..] == data;
    InitialValues(n / 40, data[..cut], data[cut..])
  }

  // ---------------------------------------------------------------------------
  // interpret_changepoint: point estimate of tau
  // ---------------------------------------------------------------------------

  function Sum(s: seq<nat>): nat {
    if s == [] then 0 else s[0] + Sum(s[1..])
  }

  lemma {:induction false} SumBetween(s: seq<nat>, lo: nat, hi: nat)
    requires forall i :: 0 <= i < |s| ==> lo <= s[i] <= hi
    ensures |s| * lo <= Sum(s) <= |s| * hi
  {
    if s != [] {
      SumBetween(s[1..], lo, hi);
      assert |s| * lo == lo + (|s| - 1) * lo;
      assert |s| * hi == hi + (|s| - 1) * hi;
    }
  }

  /** int(np.mean(tau_samples)): the mean of non-negative samples truncated
      toward zero, which for non-negative values is floor(sum / count). */
  function TruncatedMean(samples: seq<nat>): (m: nat)
    requires samples != []
    ensures m * |samples| <= Sum(samples) < (m + 1) * |samples|
  {
    Sum(samples) / |samples|
  }

  lemma MulMonotone(c: nat, a: nat, b: nat)
    ensures a <= b ==> c * a <= c * b
  {
  }

  lemma QuotientBetween(total: nat, count: nat, lo: nat, hi: nat)
    requires count > 0
    requires count * lo <= total <= count * hi
    ensures lo <= total / count <= hi
  {
    var q, r := total / count, total % count;
    assert total == count * q + r && 0 <= r < count;
    assert count * (q + 1) == count * q + count;
    assert count * (hi + 1) == count * hi + count;
    MulMonotone(count, q + 1, lo);
    MulMonotone(count, hi + 1, q);
  }

  /** The truncated mean lies between the smallest and the largest sample. */
  lemma TruncatedMeanWithin(samples: seq<nat>, lo: nat, hi: nat)
    requires samples != []
    requires forall i :: 0 <= i < |samples| ==> lo <= samples[i] <= hi
    ensures lo <= TruncatedMean(samples) <= hi
  {
    SumBetween(samples, lo, hi);
    QuotientBetween(Sum(samples), |samples|, lo, hi);
  }

  /** When every posterior tau sample is a switch point of the prior for a
      series of n steps, the estimate tau_mean indexes a real step: it is at
      most n - 20, so dates.iloc[tau_mean] is in bounds. */
  lemma ChangeIndexInBounds(n: nat, samples: seq<nat>)
    requires samples != []
    requires forall i :: 0 <= i < |samples| ==> IsSwitchPoint(n, samples[i])
    ensures TruncatedMean(samples) + BlockSize <= n
    ensures TruncatedMean(samples) < n
  {
    SwitchPointBound(n, samples[0]);
    forall i | 0 <= i < |samples|
      ensures samples[i] <= n - BlockSize
    {
      SwitchPointBound(n, samples[i]);
    }
    TruncatedMeanWithin(samples, 0, n - BlockSize);
  }

  /** The estimate need not lie on the 20-step grid: the mean of the switch
      points 0 and 20 is 10. */
  lemma EstimateMayLeaveGrid()
    ensures IsSwitchPoint(40, 0) && IsSwitchPoint(40, 20)
    ensures TruncatedMean([0, 20]) == 10 && !IsSwitchPoint(40, 10)
  {
  }

  // ---------------------------------------------------------------------------
  // interpret_changepoint: nearest event
  // ---------------------------------------------------------------------------

  /** A row of the events table after its Start Date column was converted. */
  datatype Event = Event(startDate: int, name: string, description: string)

  /** The record interpret_changepoint returns, without the floating-point
      log_return_change. */
  datatype ChangePointRecord = ChangePointRecord(
    changePointDate: int,
    associatedEvent: string,
    eventDate: int,
    eventDescription: string)

  datatype InterpretError =
    | NoTauSamples           // int(np.mean([])) fails on NaN
    | ChangeIndexOutOfRange  // dates.iloc[tau_mean] raises IndexError
    | StartDateUnparseable   // pd.to_datetime fails on the Start Date column
    | NoEvents               // idxmin of an empty series raises

  /** abs((start - change).dt.days) for whole-day dates. */
  function DayDistance(a: int, b: int): (r: nat)
    ensures r == a - b || r == b - a
    ensures r == 0 <==> a == b
  {
    if a >= b then a - b else b - a
  }

  /** One whole-day distance per row of the table, in table order. */
  function Distances(events: seq<Event>, changeDate: int): (d: seq<nat>)
    ensures |d| == |events|
    ensures forall i :: 0 <= i < |events| ==> d[i] == DayDistance(events[i].startDate, changeDate)
  {
    seq(|events|, i requires 0 <= i < |events| => DayDistance(events[i].startDate, changeDate))
  }

  /** i is the first position holding the minimum of d. */
  predicate IsFirstArgMin(d: seq<nat>, i: int) {
    && 0 <= i < |d|
    && (forall j :: 0 <= j < |d| ==> d[i] <= d[j])
    && (forall j :: 0 <= j < i ==> d[i] < d[j])
  }

  /** Series.idxmin on a non-empty series with the default 0 .. m-1 index:
      the position of the smallest value, ties going to the earliest. */
  function FirstArgMin(d: seq<nat>): (i: nat)
    requires d != []
    ensures IsFirstArgMin(d, i)
  {
    if |d| == 1 then 0
    else
      var k := FirstArgMin(d[..|d| - 1]);
      if d[|d| - 1] < d[k] then |d| - 1 else k
  }

  /** At most one position is a first-occurrence minimum. */
  lemma FirstArgMinUnique(d: seq<nat>, i: int, j: int)
    requires IsFirstArgMin(d, i) && IsFirstArgMin(d, j)
    ensures i == j
  {
    assert d[i] == d[j];
  }

  /** The nearest-event step and the record assembly: every field of the
      record comes from one row, the first among those closest in whole days to
      the change date; an empty table has no nearest row. */
  function Associate(changeDate: int, events: seq<Event>): (r: Result<ChangePointRecord, InterpretError>)
    ensures r.Failure? <==> events == []
    ensures r.Failure? ==> r.error == NoEvents
    ensures r.Success? ==> exists i ::
      && IsFirstArgMin(Distances(events, changeDate), i)
      && r.value == ChangePointRecord(changeDate, events[i].name, events[i].startDate, events[i].description)
  {
    if events == [] then Failure(NoEvents)
    else
      var i := FirstArgMin(Distances(events, changeDate));
      Success(ChangePointRecord(changeDate, events[i].name, events[i].startDate, events[i].description))
  }

  /** The associated event is at least as close to the change date as every
      row of the table, and strictly closer than every earlier row. */
  lemma AssociatedEventIsNearest(changeDate: int, events: seq<Event>)
    requires events != []
    ensures var rec := Associate(changeDate, events).value;
      && (forall j :: 0 <= j < |events| ==>
            DayDistance(rec.eventDate, changeDate) <= DayDistance(events[j].startDate, changeDate))
      && (exists i :: 0 <= i < |events| && events[i].startDate == rec.eventDate
            && events[i].name == rec.associatedEvent && events[i].description == rec.eventDescription
            && forall j :: 0 <= j < i ==> DayDistance(events[j].startDate, changeDate) > DayDistance(rec.eventDate, changeDate))
  {
    var d := Distances(events, changeDate);
    var i := FirstArgMin(d);
    assert Associate(changeDate, events).value.eventDate == events[i].startDate;
    assert d[i] == DayDistance(events[i].startDate, changeDate);
    forall j | 0 <= j < |events|
      ensures DayDistance(events[i].startDate, changeDate) <= DayDistance(events[j].startDate, changeDate)
    {
      assert d[j] == DayDistance(events[j].startDate, changeDate);
    }
    forall j | 0 <= j < i
      ensures DayDistance(events[j].startDate, changeDate) > DayDistance(events[i].startDate, changeDate)
    {
      assert d[j] == DayDistance(events[j].startDate, changeDate);
    }
  }

  /** Two events at the same distance on either side of the change date: the
      earlier row of the table wins. */
  lemma EquidistantTieGoesToFirstRow()
    ensures Associate(50, [Event(40, "A", "a"), Event(60, "B", "b")])
         == Success(ChangePointRecord(50, "A", 40, "a"))
  {
  }

  // ---------------------------------------------------------------------------
  // interpret_changepoint: the events table and the whole reduction
  // ---------------------------------------------------------------------------

  /** A cell of the Start Date column: the text read from the CSV, or a
      converted day number. */
  datatype StartCell = Text(raw: string) | Day(day: int)

  datatype EventRow = EventRow(start: StartCell, name: string, description: string)

  /** pd.to_datetime on one cell; a converted cell is kept as it is. */
  function ToDatetime(c: StartCell, parse: string -> Option<int>): Option<int> {
    match c
    case Day(d) => Some(d)
    case Text(s) => parse(s)
  }

  /** events_df["Start Date"] = pd.to_datetime(events_df["Start Date"]): the
      whole column converts, or the call fails and nothing is assigned. */
  function ConvertStartColumn(rows: seq<EventRow>, parse: string -> Option<int>): (r: Option<seq<EventRow>>)
    ensures r.Some? <==> forall i :: 0 <= i < |rows| ==> ToDatetime(rows[i].start, parse).Some?
    ensures r.Some? ==> |r.value| == |rows| && forall i :: 0 <= i < |rows| ==>
      && r.value[i].start == Day(ToDatetime(rows[i].start, parse).value)
      && r.value[i].name == rows[i].name
      && r.value[i].description == rows[i].description
  {
    if forall i :: 0 <= i < |rows| ==> ToDatetime(rows[i].start, parse).Some? then
      Some(seq(|rows|, i requires 0 <= i < |rows| =>
        EventRow(Day(ToDatetime(rows[i].start, parse).value), rows[i].name, rows[i].description)))
    else
      None
  }

  predicate AllConverted(rows: seq<EventRow>) {
    forall i :: 0 <= i < |rows| ==> rows[i].start.Day?
  }

  function AsEvents(rows: seq<EventRow>): (e: seq<Event>)
    requires AllConverted(rows)
    ensures |e| == |rows|
  {
    seq(|rows|, i requires 0 <= i < |rows| => Event(rows[i].start.day, rows[i].name, rows[i].description))
  }

  /** The events table the caller passes in, which interpret_changepoint
      updates in place. */
  class EventsFrame {
    var rows: seq<EventRow>

    constructor (initial: seq<EventRow>)
      ensures rows == initial
    {
      rows := initial;
    }
  }

  /** interpret_changepoint without its floating-point impact: estimate the
      change index, look its date up, convert the caller's Start Date column in
      place, and associate the nearest event. The table is left untouched when
      a step before the conversion fails or the conversion itself fails. */
  method InterpretChangepoint(tauSamples: seq<nat>, dates: seq<int>, events: EventsFrame, parse: string -> Option<int>)
    returns (r: Result<ChangePointRecord, InterpretError>)
    modifies events
    ensures tauSamples == [] ==> r == Failure(NoTauSamples) && events.rows == old(events.rows)
    ensures tauSamples != [] && TruncatedMean(tauSamples) >= |dates| ==>
      r == Failure(ChangeIndexOutOfRange) && events.rows == old(events.rows)
    ensures tauSamples != [] && TruncatedMean(tauSamples) < |dates| ==>
      match ConvertStartColumn(old(events.rows), parse)
      case None => r == Failure(StartDateUnparseable) && events.rows == old(events.rows)
      case Some(converted) =>
        && events.rows == converted
        && AllConverted(converted)
        && r == Associate(dates[TruncatedMean(tauSamples)], AsEvents(converted))
  {
    if tauSamples == [] {
      return Failure(NoTauSamples);
    }
    var tauMean := TruncatedMean(tauSamples);
    if tauMean >= |dates| {
      return Failure(ChangeIndexOutOfRange);
    }
    var changeDate := dates[tauMean];
    var converted := ConvertStartColumn(events.rows, parse);
    if converted.None? {
      return Failure(StartDateUnparseable);
    }
    events.rows := converted.value;
    r := Associate(changeDate, AsEvents(converted.value));
  }

  /** On the sampler's own output (non-empty, every sample a switch point of
      the prior over the n dates) and a non-empty events table whose start
      dates all parse, the reduction succeeds: the date lookup never fails and
      the record's change date is one of the first n - 19 dates. */
  lemma InterpretSucceedsOnSamplerOutput(tauSamples: seq<nat>, dates: seq<int>, rows: seq<EventRow>, parse: string -> Option<int>)
    requires tauSamples != []
    requires forall i :: 0 <= i < |tauSamples| ==> IsSwitchPoint(|dates|, tauSamples[i])
    requires rows != []
    requires forall i :: 0 <= i < |rows| ==> ToDatetime(rows[i].start, parse).Some?
    ensures TruncatedMean(tauSamples) + BlockSize <= |dates|
    ensures ConvertStartColumn(rows, parse).Some?
    ensures var converted := ConvertStartColumn(rows, parse).value;
      && AllConverted(converted)
      && Associate(dates[TruncatedMean(tauSamples)], AsEvents(converted)).Success?
  {
    ChangeIndexInBounds(|dates|, tauSamples);
  }
}
