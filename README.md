# Brent oil change-point analysis: the discrete core, in Dafny

The repository fits a single-change-point Bayesian model to weekly log returns
of Brent crude prices. It then names the historical event nearest to the
estimated change date. Inference itself is done by PyMC. This project models
the integer-valued logic around it, in two modules:

- `ChangepointModel` (`changepoint_model.dfy`). This covers the switch-point
  prior of `build_changepoint_model`: a uniform categorical over `n // 20`
  block indices, scaled by 20. It also covers the switch rule `tau >= t` that
  picks `mu_1` or `mu_2` per time step, and the discrete part of `run_mcmc`'s
  initial values. Finally it covers `interpret_changepoint`. That function
  takes the truncated mean of the `tau` samples, looks up the date at that
  index, and converts the caller's `Start Date` column in place. It then picks
  the first event at the smallest whole-day distance and builds the record
  from that one row. Regime means are an abstract type. Dates are whole day
  numbers.
- `DataLoader` (`data_loader.dfy`). This covers `load_brent_oil_data`. The
  missing-file check comes first, then the required-column check. Date formats
  `%d-%b-%y`, `%b %d, %Y` and `%Y-%m-%d` are tried in that order, each on the
  whole column, with generic parsing last. Prices are coerced to numbers and
  forward-filled in place, in file order. Finally the rows are sorted by date.
  The file system is a map from paths to CSV frames. Date parsing and numeric
  coercion are opaque partial functions supplied by the caller.
- `Wrappers` (`wrappers.dfy`) holds `Option` and `Result`. Python exceptions
  become `Result` failures.

Behaviour of the code worth knowing:
- The boundary step `t = tau` is in the first regime (`tau >= t`).
- The point estimate of `tau` is the truncated mean of the samples. It need
  not lie on the 20-step grid (`EstimateMayLeaveGrid`).
- A date format is accepted or rejected for the whole column.
- The loader keeps duplicate dates. The output is non-decreasing by date.
- Leading missing prices stay missing after the fill.

## Model

| member | source | states |
|---|---|---|
| `ChangepointModel.SwitchPrior` | src/models/changepoint_model.py:23 | the switch-index prior has `n // 20` weights, all equal and positive. They sum to 1 once `n >= 20`. The vector is empty for `n < 20`. |
| `ChangepointModel.TauSupport` | src/models/changepoint_model.py:23-24 | `tau = 20 * tau_idx` maps the support `0 .. n//20 - 1` exactly onto the multiples of 20 whose block index is in the support, in both directions. Each such `tau` satisfies `tau + 20 <= n`. |
| `ChangepointModel.SwitchPointBound` | src/models/changepoint_model.py:23-24 | every value `tau` can take is at most `n - 20` |
| `ChangepointModel.RegimeAt` | src/models/changepoint_model.py:34 | time step `t` is in the first regime exactly when `t <= tau`, and in the second exactly when `t > tau` |
| `ChangepointModel.MeanPath` | src/models/changepoint_model.py:34 | the mean vector has one entry per step: `mu_1` up to and including `tau`, `mu_2` after. A `tau` before step 0 puts every step on `mu_2`; one at or past the last step puts every step on `mu_1`. |
| `ChangepointModel.BoundaryStepInFirstRegime` | src/models/changepoint_model.py:34 | step `t = tau` uses `mu_1`, and step `tau + 1` uses `mu_2` |
| `ChangepointModel.MeanPathIsTwoRegimes` | src/models/changepoint_model.py:34 | for `tau < n`, the mean vector is `tau + 1` copies of `mu_1` followed by `n - tau - 1` copies of `mu_2`: two contiguous regimes |
| `ChangepointModel.RegimesNonEmpty` | src/models/changepoint_model.py:23-34 | for every switch index in the support, `n >= 20`, step 0 is in the first regime and step `n - 1` in the second. The second regime has at least 19 steps. |
| `ChangepointModel.InitialValuesFor` | src/models/changepoint_model.py:64-67 | the two initial slices concatenate to the data. For `len(data) == n` they have lengths `n // 2` and `n - n // 2`, and both are non-empty for `n >= 2`. The initial `tau_idx = n // 40` is in the support whenever `n >= 20`. |
| `ChangepointModel.TruncatedMean` | src/models/changepoint_model.py:147 | the estimate is the floor of the samples' mean: `m * count <= sum < (m + 1) * count` |
| `ChangepointModel.TruncatedMeanWithin` | src/models/changepoint_model.py:146-147 | `int(mean(samples))` lies between any lower and upper bound of the samples |
| `ChangepointModel.ChangeIndexInBounds` | src/models/changepoint_model.py:146-148 | when every `tau` sample is a value of the prior over `n` steps, `tau_mean + 20 <= n`. So `dates.iloc[tau_mean]` is in bounds. |
| `ChangepointModel.EstimateMayLeaveGrid` | src/models/changepoint_model.py:146-147 | the mean of the switch points 0 and 20 is 10, which is not a switch point |
| `ChangepointModel.DayDistance` | src/models/changepoint_model.py:151 | the whole-day distance is the absolute difference of the two day numbers, and it is zero exactly when they are the same day |
| `ChangepointModel.Distances` | src/models/changepoint_model.py:151 | one distance per row of the events table, in table order, each the whole-day distance of that row's start date to the change date |
| `ChangepointModel.FirstArgMin` | src/models/changepoint_model.py:152 | `idxmin` returns a position holding the minimum, and every earlier position holds a strictly larger value |
| `ChangepointModel.FirstArgMinUnique` | src/models/changepoint_model.py:152 | at most one position is a first-occurrence minimum, so the tie rule decides the choice |
| `ChangepointModel.Associate` | src/models/changepoint_model.py:151-163 | an empty events table is an error. Otherwise the record's event name, event date and description all come from one row, the first-occurrence minimum of whole-day distances to the change date. |
| `ChangepointModel.AssociatedEventIsNearest` | src/models/changepoint_model.py:151-163 | the reported event date is no farther from the change date than any row's start date. It is strictly closer than every row before the chosen one. |
| `ChangepointModel.EquidistantTieGoesToFirstRow` | src/models/changepoint_model.py:152 | with events 10 days before and 10 days after the change date, the earlier row of the table is chosen |
| `ChangepointModel.ConvertStartColumn` | src/models/changepoint_model.py:150 | converting `Start Date` succeeds exactly when every cell parses. On success every cell becomes a day number and names and descriptions are kept. |
| `ChangepointModel.InterpretChangepoint` | src/models/changepoint_model.py:146-163 | no samples, or an estimate past the last date, fails before the events table is touched. An unparseable start column fails and leaves the table unchanged. Otherwise the caller's table holds the converted column and the result is the nearest-event record for `dates[tau_mean]`. |
| `ChangepointModel.InterpretSucceedsOnSamplerOutput` | src/models/changepoint_model.py:146-153 | on non-empty sampler output over the dates, with a non-empty table whose start dates parse, the lookup, the conversion and the association all succeed |
| `DataLoader.ToDatetimeColumn` | src/data/data_loader.py:36 | one format is applied to every cell of the column. The call succeeds exactly when every cell parses, and each date is that cell's parse. |
| `DataLoader.FirstParsingAttempt` | src/data/data_loader.py:34-40 | the chosen attempt parses the whole column, and every earlier attempt fails on it. No attempt is chosen exactly when all of them fail. |
| `DataLoader.ParseDates` | src/data/data_loader.py:32-42 | the loop returns the column parsed with the first attempt, in the order `%d-%b-%y`, `%b %d, %Y`, `%Y-%m-%d`, generic, that accepts it. All dates come from that one format. The result is None exactly when every attempt fails. |
| `DataLoader.ToNumeric` | src/data/data_loader.py:45 | coercion keeps the row count and position, and each cell becomes its numeric value or missing |
| `DataLoader.ForwardFilled` | src/data/data_loader.py:48 | the fill keeps the length and every present price, and a price missing afterwards was missing before. `ForwardFilledMeaning` states where a filled value comes from. |
| `DataLoader.ForwardFilledMeaning` | src/data/data_loader.py:45-48 | after the fill, a present price is unchanged. A missing price becomes the nearest preceding present price in file order. A price stays missing exactly when nothing before it is present. |
| `DataLoader.MissingOnlyLeading` | src/data/data_loader.py:45-48 | after the fill, missing prices form a leading run |
| `DataLoader.ForwardFillWithoutMissing` | src/data/data_loader.py:46-48 | with no missing price the fill is the identity, so the `isna().sum() > 0` guard does not change the result |
| `DataLoader.ForwardFill` | src/data/data_loader.py:48 | the in-place pass over the price array leaves it equal to the forward fill of its old contents |
| `DataLoader.SortByDate` | src/data/data_loader.py:51 | the rows come out in non-decreasing date order and form a permutation of the input, duplicates included |
| `DataLoader.FileOrderRows` | src/data/data_loader.py:42-48 | the file-order rows exist exactly when the date column parses. There is one row per input row, each carrying its parsed date. Every price that coerces to a number is kept. A row's price is missing exactly when no cell at or before it in file order coerces. Otherwise it is the coerced value of the nearest such cell at or before it, every cell in between having failed to coerce. |
| `DataLoader.LoadBrentOilData` | src/data/data_loader.py:19-51 | a missing file fails first, then missing `Date` or `Price` columns, then unparseable dates. On success the result has one row per input row, is sorted by date, and is a permutation of the file-order rows whose prices were forward-filled before sorting. |
| `DataLoader.FillFollowsFileOrder` | src/data/data_loader.py:45-51 | a later-dated first row fills a missing price in an earlier-dated second row. A fill after sorting would have left that price missing. |

## Left out

- PyMC's distributions, the Metropolis/NUTS compound step, `pm.sample` and its
  chains, draws, tuning and `target_accept`. These are library inference, and
  they are stochastic and floating-point. The posterior `tau` samples are an
  input of the interpreter.
- Floating-point values: the prior scales and the initial `sigma` from
  `np.std`, the initial `mu_1`/`mu_2` as means of the two slices (the slices
  themselves are modelled), and `log_return_change = round(mu_2_mean -
  mu_1_mean, 4)`.
- `ChangepointModel.SwitchPrior`: weights are exact reals. The source's
  `np.ones(m) / m` is floating-point and may not sum to exactly 1.
- `ChangepointModel.TruncatedMean`: the mean of non-negative integer samples
  is taken as exact `floor(sum / count)`. The source computes it in
  floating point.
- `plot_changepoint_results`: matplotlib output only.
- Reading and writing CSV files and creating directories. The file system is
  a map from paths to frames.
- Pandas' string-to-date parsing and numeric coercion. These are opaque
  partial functions, so missing date cells (`NaT`) are not modelled.
- Missing `Start Date` values: `idxmin` skips them. The model requires every
  start cell to parse or the conversion fails.
- `ChangepointModel.Associate`: `idxmin` returns an index label that
  `iloc` uses as a position. The model takes the events table's default index
  `0 .. m-1`, which `read_csv` gives it, so label and position agree.
- Generic date parsing (the `Inferred` attempt of `DataLoader.ParseDates` and
  the `Start Date` conversion in `ChangepointModel.ConvertStartColumn`) is
  modelled cell by cell. Pandas 2 infers one format from the first non-null
  cell and applies it to the whole column, so a column mixing formats that
  each parse alone raises there but is accepted by the model.
- Day distances and the events table's columns: dates are whole day numbers,
  so the rounding of `.dt.days` toward negative infinity for timedeltas that
  are not whole days does not arise. A table lacking `Start Date`,
  `Event Name` or `Description` raises `KeyError` in the source; the
  `EventRow` type always has all three.
- Columns of the raw CSV other than `Date` and `Price`. Pandas carries them
  through unchanged.
- `DataLoader.SortByDate`: rows with equal dates come out in one particular
  order. Pandas' default quicksort is not stable and promises only a sorted
  permutation, which is what the contract states.
- `DataLoader.ForwardFill`: the model assumes the chained
  `df['Price'].fillna(..., inplace=True)` updates the frame, as pandas 2
  does. Under copy-on-write semantics it would not.
- `scripts/generate_dashboard_data.py` (weekly resampling, JSON export),
  `dashboard/backend/app.py` (routes returning the JSON verbatim), the React
  dashboard and `tests/test_pymc_setup.py` are not part of this model.
