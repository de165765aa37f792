# Frequency-domain asset analyzer — a Dafny model

This project models `FrequencyDomainAnalyzer` from
`freq_domain_asset_analysis.py`. The analyzer splits a return series into four
frequency bands: short_term, medium_term, business_cycle and long_term. It then
reports figures by band and in total:

- an annualized expected return;
- a band-by-band volatility, integrated from the periodogram;
- a band-by-band correlation of two series, after zero-phase Butterworth filtering;
- a rolling-window volatility table;
- a per-asset summary and a correlation matrix;
- an STL trend/seasonal/residual split with its moving-average fallback and a
  seasonal-strength score.

Modules follow the structure of the class:

| module | file | models |
|---|---|---|
| `Numerics` | numerics.dfy | NaN-carrying doubles (`Float`) and their guarded quotient, filter designs, periodogram and STL results, and what is assumed about the library calls |
| `Stats` | stats.dfy | `np.mean`, `np.std` (population, ddof = 0), `np.zeros_like` |
| `Config` | config.dfy | `__init__`: the sampling mode, the two band tables, annualization factors |
| `Filter` | filter.dfy | `zero_phase_filter`, `decompose_frequency_bands` |
| `Spectral` | spectral.dfy | `calculate_expected_return`, `calculate_volatility_spectral` |
| `Correlation` | correlation.dfy | `calculate_correlation_spectral` |
| `Rolling` | rolling.dfy | `rolling_analysis` |
| `Summary` | summary.dfy | `generate_summary_report` |
| `Stl` | stl.dfy | `stl_decomposition`, `generate_stl_summary` |

**Library calls are uninterpreted.** Each operation takes the library calls it
uses as function parameters:

- `sqrt` is `np.sqrt`;
- `filtfilt` is `signal.butter` followed by `signal.filtfilt`, returning `None`
  when either raises;
- `periodogram` is `signal.periodogram`;
- `corrcoef` is `np.corrcoef(...)[0, 1]`;
- `stl` is `STL(...).fit()`, returning `None` when it raises.

Small ghost predicates state the little the analysis assumes of them:

- `sqrt` is the non-negative root;
- filtering keeps the length;
- the periodogram's two arrays have equal length;
- a coefficient is in [-1, 1] or NaN;
- an STL fit is aligned with its input.

The per-band report dictionaries become maps keyed by `Key` (`Of(band)` or
`Total`); the dictionary of `decompose_frequency_bands` becomes a map keyed by
`BandName`.
pandas columns become sequences in column order. The DataFrame correlation
matrix becomes an `array2`. Arithmetic is on `real`, and NaN is explicit.

Two library conventions the model fixes:

- `np.std` is the population standard deviation (ddof = 0), which `Stats.Std`
  models.
- The centred mean of the STL fallback needs a full window, following pandas'
  default `min_periods`, and is NaN (then 0) elsewhere. With period 0 every
  window is empty, so trend and residual are all 0.

## Model

| member | source | states |
|---|---|---|
| Numerics.GuardedRatio | freq_domain_asset_analysis.py:494 | 0 unless the denominator is a positive number; otherwise a number exactly when the numerator is, and that number times the denominator is the numerator |
| Stats.Mean | freq_domain_asset_analysis.py:188 | NaN exactly for an empty series; otherwise the mean times the length is the sum |
| Stats.PopulationVariance | freq_domain_asset_analysis.py:251 | the variance `np.std` takes the root of is never negative |
| Stats.Std | freq_domain_asset_analysis.py:251 | `np.std` is NaN exactly for an empty series, otherwise non-negative |
| Stats.StdIsRootOfVariance | freq_domain_asset_analysis.py:251 | the square of the standard deviation is the population variance |
| Stats.ConstantStatistics | freq_domain_asset_analysis.py:289-290 | a non-empty constant series has mean equal to the constant and standard deviation 0 |
| Stats.StdOfZeros | freq_domain_asset_analysis.py:124 | the `np.zeros_like` result has standard deviation 0 (NaN when empty) |
| Stats.Zeros | freq_domain_asset_analysis.py:124 | `np.zeros_like` has the input's length and only zeros |
| Config.ParseFreq | freq_domain_asset_analysis.py:52-63 | the mode is daily exactly for 'D', monthly exactly for 'M', anything else is kept as given |
| Config.FreqBands | freq_domain_asset_analysis.py:56-69 | both literal band tables have exactly four bands |
| Config.NewAnalyzer | freq_domain_asset_analysis.py:45-69 | the constructor keeps the mode and sets a band table exactly for 'D' and 'M', and that table is a tiling of [0, 0.5] by the four named bands |
| Config.FreqBandsTile | freq_domain_asset_analysis.py:56-69 | both literal tables tile [0, 0.5]: first ends at 0.5, last starts at 0, proper intervals, each starting where the next ends, names in order |
| Config.FreqBandsNames | freq_domain_asset_analysis.py:57-68 | the table lists short_term, medium_term, business_cycle, long_term in that order |
| Config.BandTableDistinct | freq_domain_asset_analysis.py:57-68 | band names of a table are pairwise distinct, so the dictionary has one entry per band |
| Config.ConfiguredDistinct | freq_domain_asset_analysis.py:56-69 | the configured analyzer's band names are pairwise distinct |
| Config.BandsDescend | freq_domain_asset_analysis.py:56-69 | in a tiling a later band lies wholly at or below an earlier one |
| Config.TilingCovers | freq_domain_asset_analysis.py:56-69 | every frequency in [0, 0.5] lies in some band |
| Config.TilingOverlapsAtBoundaries | freq_domain_asset_analysis.py:56-69 | two closed bands share a frequency if and only if they are neighbours and it is their common boundary |
| Config.ReturnScale | freq_domain_asset_analysis.py:189-192 | the mean's multiplier (252, 12 or 1) is at least 1 |
| Config.VolScale | freq_domain_asset_analysis.py:243-246 | the volatility multiplier (`sqrt(252)`, `sqrt(12)` or 1) is non-negative |
| Config.VolScaleIsRootOfReturnScale | freq_domain_asset_analysis.py:243-246 | the volatility multiplier is positive and squares to the mean's multiplier |
| Filter.Clamp | freq_domain_asset_analysis.py:104 | `min(max(w, 0.001), 0.95)` lies in [0.001, 0.95], is `w` inside it and the nearer bound outside it |
| Filter.Normalize | freq_domain_asset_analysis.py:117-121 | a cutoff divided by Nyquist (0.5) and clamped lies in [0.001, 0.95], and is the plain ratio when that already lies inside |
| Filter.NormalizeMonotone | freq_domain_asset_analysis.py:117-121 | dividing by Nyquist and clamping keeps the order of two cutoffs |
| Filter.DesignFor | freq_domain_asset_analysis.py:102-126 | a design keeps the requested order; a design is refused only for a band-pass, where both bounds are given |
| Filter.DesignForCases | freq_domain_asset_analysis.py:100-126 | low-pass without a low bound, high-pass without a high bound, band-pass otherwise; every design has the given order and cutoffs strictly inside (0, 1); a design is refused exactly when the clamped band-pass cutoffs are out of order |
| Filter.FiltfiltOrZeros | freq_domain_asset_analysis.py:129-136 | the filter output on success, zeros of the input's length when the library raises |
| Filter.ZeroPhaseFilter | freq_domain_asset_analysis.py:71-136 | the filtered series has the input's length |
| Filter.ZeroPhaseFilterCases | freq_domain_asset_analysis.py:97-136 | no bounds gives the input itself; a degenerate band-pass gives zeros; otherwise the library's output for the design, or zeros when it raises |
| Filter.InvertedBandIsZero | freq_domain_asset_analysis.py:116-124 | a band-pass with low >= high returns zeros |
| Filter.NearNyquistBandIsZero | freq_domain_asset_analysis.py:117-124 | a band-pass whose low bound is at least 0.475 returns zeros: the low cutoff clamps to 0.95, so it is not below the clamped high one |
| Filter.BandFiltered | freq_domain_asset_analysis.py:155-164 | the per-band series has the input's length |
| Filter.TableBandsRoute | freq_domain_asset_analysis.py:155-164 | for both tables no band is degenerate: long_term is low-passed at twice its upper bound, every other band band-passed at twice its bounds (short_term's 1.0 clamped to 0.95) |
| Filter.DecomposeFrequencyBands | freq_domain_asset_analysis.py:138-168 | one entry per band name, holding that band's filtered series, each of the input's length |
| Spectral.CalculateExpectedReturn | freq_domain_asset_analysis.py:170-196 | only "total"; NaN exactly for empty data; otherwise value times length equals the multiplier times the sum |
| Spectral.InMask | freq_domain_asset_analysis.py:223-230 | a bin inside a band's mask is at or below its upper bound, and every bin of the closed band lies in the mask when the band starts at or above 0 |
| Spectral.Select | freq_domain_asset_analysis.py:233-238 | `freqs[mask]`, `psd[mask]` keep pairs aligned and no longer than the periodogram |
| Spectral.SelectIsMask | freq_domain_asset_analysis.py:224-238 | every selected (frequency, density) pair is a bin of the periodogram inside the mask |
| Spectral.SelectComplete | freq_domain_asset_analysis.py:224-238 | every bin inside the mask is selected, its frequency and its density together |
| Spectral.SelectNonempty | freq_domain_asset_analysis.py:233 | the selection is non-empty if and only if `np.any(mask)` |
| Spectral.Trapezoid | freq_domain_asset_analysis.py:236-238 | `np.trapz` over fewer than two points is 0 |
| Spectral.TrapezoidNonnegative | freq_domain_asset_analysis.py:236 | the trapezoid rule over ascending abscissae and non-negative ordinates is non-negative |
| Spectral.SelectBounded | freq_domain_asset_analysis.py:236 | a lower bound of all bins bounds the selected ones |
| Spectral.SelectKeepsShape | freq_domain_asset_analysis.py:236 | masking keeps frequencies ascending and densities non-negative |
| Spectral.BandPowerIsIntegral | freq_domain_asset_analysis.py:236-239 | over a genuine periodogram `abs` in `sqrt(abs(variance))` changes nothing |
| Spectral.BandPower | freq_domain_asset_analysis.py:236-239 | the band's `abs(variance)` is non-negative, and 0 when fewer than two bins are in the mask |
| Spectral.BandStd | freq_domain_asset_analysis.py:233-241 | the band's deviation is non-negative and 0 when no bin is in the mask |
| Spectral.BandStdIsRootOfPower | freq_domain_asset_analysis.py:233-239 | with some bin in the mask the deviation is the root of the band's power |
| Spectral.Annualized | freq_domain_asset_analysis.py:243-246 | annualizing multiplies by the volatility multiplier |
| Spectral.AnnualizedRoot | freq_domain_asset_analysis.py:243-246 | an annualized root squares to the annualized argument |
| Spectral.BandVolatility | freq_domain_asset_analysis.py:232-248 | a band's volatility is never negative |
| Spectral.EmptyBandHasNoVolatility | freq_domain_asset_analysis.py:240-241 | a band with no bin in its mask has volatility 0 |
| Spectral.BandVolatilityIsRootOfPower | freq_domain_asset_analysis.py:232-248 | a band's volatility squared is the return multiplier times the band's power |
| Spectral.TotalVolatility | freq_domain_asset_analysis.py:250-256 | scaled `np.std`: NaN exactly for empty data, otherwise non-negative |
| Spectral.TotalVolatilityIsRootOfVariance | freq_domain_asset_analysis.py:250-256 | the total volatility squared is the return multiplier times the population variance |
| Spectral.MasksAreClosedBands | freq_domain_asset_analysis.py:223-230 | for a band table each mask is the closed band (long_term's `freqs >= 0` is its own lower bound), a boundary bin is counted in both neighbours, and every bin in [0, 0.5] is counted somewhere |
| Spectral.BandVolatilityMap | freq_domain_asset_analysis.py:223-248 | one key per band name, each holding that band's (annualized when asked) volatility over the periodogram |
| Spectral.CalculateVolatilitySpectral | freq_domain_asset_analysis.py:198-258 | keys are the band names and "total"; each band holds its integrated volatility over the periodogram; "total" holds the scaled `np.std` |
| Correlation.BandCorrelation | freq_domain_asset_analysis.py:289-302 | in [-1, 1]; 0 unless both deviations exceed 1e-10; 0 for a NaN coefficient; the coefficient itself otherwise |
| Correlation.FlatSeriesUncorrelated | freq_domain_asset_analysis.py:289-302 | a constant or empty filtered series correlates 0 with anything, on either side |
| Correlation.ZeroedBandUncorrelated | freq_domain_asset_analysis.py:289-302 | a band whose filter yielded zeros for either series reports 0 |
| Correlation.CorrelateBands | freq_domain_asset_analysis.py:284-306 | one guarded coefficient per band of the two decompositions, and "total" the raw coefficient |
| Correlation.CalculateCorrelationSpectral | freq_domain_asset_analysis.py:260-308 | keys are the band names and "total"; each band holds the guarded coefficient of the two series filtered to that band; "total" the unguarded coefficient of the raw series |
| Rolling.WindowCount | freq_domain_asset_analysis.py:332 | `len(range(0, n - window, step))`: every counted start is below `n - window` and the next one is not |
| Rolling.WindowCountUnique | freq_domain_asset_analysis.py:332 | those two bounds determine the count |
| Rolling.NoWindowsWhenShort | freq_domain_asset_analysis.py:332 | no row for a series not longer than the window |
| Rolling.WindowsInside | freq_domain_asset_analysis.py:332-334 | every reported window lies inside the series and ends before its last sample |
| Rolling.WindowVolatilities | freq_domain_asset_analysis.py:339-341 | one "total" annualized volatility per asset over the window slice |
| Rolling.RollingAnalysis | freq_domain_asset_analysis.py:310-345 | one row per start 0, step, 2·step, … below `len - window`; each dated at the window's last sample and holding every asset's total volatility over `[start, start + window)` |
| Summary.Sharpe | freq_domain_asset_analysis.py:374 | 0 for a zero or NaN volatility; otherwise defined exactly when the return is, and times the volatility it gives back the return |
| Summary.BandVolatilities | freq_domain_asset_analysis.py:375-378 | one annualized band volatility per band, each a non-negative number |
| Summary.BandVolatilitiesAre | freq_domain_asset_analysis.py:375-378 | the k-th entry is the annualized volatility of the k-th band |
| Summary.SummaryRowFor | freq_domain_asset_analysis.py:370-379 | the row carries its asset; an empty series gives NaN return and volatility and a Sharpe ratio of 0 |
| Summary.SummaryRowDefined | freq_domain_asset_analysis.py:366-379 | for non-empty data every figure is a number, volatilities are non-negative, and Sharpe times volatility is the expected return |
| Summary.SummaryRowOf | freq_domain_asset_analysis.py:367-379 | the row combines the asset's total return, total volatility, their Sharpe ratio and the four band volatilities |
| Summary.SummaryRows | freq_domain_asset_analysis.py:364-379 | one row per asset, in column order |
| Summary.MatrixSymmetric | freq_domain_asset_analysis.py:386-395 | the matrix is symmetric whatever the coefficient does with argument order |
| Summary.MatrixEntry | freq_domain_asset_analysis.py:388-395 | the diagonal is 1.0; off it the coefficient of the pair with the lower column index first |
| Summary.MatrixEntryRange | freq_domain_asset_analysis.py:386-395 | every entry is NaN or in [-1, 1] |
| Summary.AllPairs | freq_domain_asset_analysis.py:386-390 | the sweep meets n(n-1)/2 pairs |
| Summary.CorrelationMatrix | freq_domain_asset_analysis.py:384-397 | a fresh n×n matrix with 1.0 on the diagonal and, off it, the total correlation of the pair in column order; the spectral correlation is computed n(n-1)/2 times |
| Summary.GenerateSummaryReport | freq_domain_asset_analysis.py:347-397 | the summary rows and the correlation matrix together |
| Stl.DefaultPeriod | freq_domain_asset_analysis.py:460-466 | 21 exactly for daily data, otherwise 12 |
| Stl.WindowAround | freq_domain_asset_analysis.py:431 | the centred window of width w starts at i - w/2, contains i and holds w positions |
| Stl.DailyWindow | freq_domain_asset_analysis.py:431 | for period 21 the window is positions i-10 … i+10 |
| Stl.CentredMeanIsWindowMean | freq_domain_asset_analysis.py:431 | where the window fits, the trend times the period is the window's sum |
| Stl.CentredMean | freq_domain_asset_analysis.py:431-437 | where the centred window does not fit the trend is 0, as `fillna(0)` makes it |
| Stl.StlFallback | freq_domain_asset_analysis.py:428-440 | aligned components; seasonal all 0; trend the centred mean; residual `x - trend` where the window fits and 0 (filled NaN) elsewhere |
| Stl.FallbackReconstructs | freq_domain_asset_analysis.py:431-439 | where the window fits, trend + seasonal + residual gives back the return |
| Stl.ShortSeriesFallbackIsFlat | freq_domain_asset_analysis.py:431-439 | a series shorter than the period gets zero trend and zero residual |
| Stl.ZeroPeriodFallbackIsFlat | freq_domain_asset_analysis.py:431-439 | with period 0 every window is empty, so trend and residual are all zero |
| Stl.FallbackOfConstant | freq_domain_asset_analysis.py:431-439 | for a constant series the trend is the constant and the residual 0 wherever the window fits |
| Stl.StlDecomposition | freq_domain_asset_analysis.py:399-440 | aligned components; the fit's components on success; the fallback when STL raises |
| Stl.StrengthRange | freq_domain_asset_analysis.py:494-502 | strength in [0, 1]; 0 exactly when the raw ratio is at most 0.35; 1 exactly when it is at least 1 |
| Stl.StrengthMonotone | freq_domain_asset_analysis.py:494-502 | strength is non-decreasing in the raw ratio |
| Stl.RawStrength | freq_domain_asset_analysis.py:494 | 0 unless the total volatility is positive; otherwise a number exactly when the seasonal volatility is, and that number times the total is the seasonal volatility |
| Stl.StrengthOf | freq_domain_asset_analysis.py:498-502 | 0 below the 0.35 baseline, 1 above a raw ratio of 1, and between them the excess over the baseline rescaled by 1 - 0.35 |
| Stl.SeasonalStrength | freq_domain_asset_analysis.py:498-502 | a number exactly when the raw ratio is, and then in [0, 1] |
| Stl.StlRowFor | freq_domain_asset_analysis.py:473-510 | the row carries its asset; the three component volatilities are numbers for a non-empty series and NaN for an empty one |
| Stl.RawStrengthScaleInvariant | freq_domain_asset_analysis.py:479-494 | multiplying both volatilities by the same positive factor leaves the ratio unchanged |
| Stl.StlRowStrengthInRange | freq_domain_asset_analysis.py:494-502 | for non-empty data the strength is a number in [0, 1] |
| Stl.FallbackHasNoSeasonality | freq_domain_asset_analysis.py:474-502 | for a non-empty series whose STL fit raises, seasonal volatility and strength are both 0 |
| Stl.GenerateStlSummary | freq_domain_asset_analysis.py:442-512 | one row per asset in column order, with the three component volatilities annualized in place and the strength from the annualized ratio, equal to the unannualized row |

## Left out

- Library numerics: `signal.butter`, `signal.filtfilt`, `signal.periodogram`,
  `np.corrcoef`, `np.sqrt` and `STL` are uninterpreted parameters. Only the
  facts listed above are assumed of them.
- Floating point: arithmetic is on exact reals. Rounding, overflow and
  infinities are not modelled. NaN is modelled only where the code produces it
  (empty mean or std, a constant series in `corrcoef`).
- Ordering of dictionary keys and DataFrame columns/rows is not modelled
  beyond column order. Row and column labels are plain values, and dates are
  opaque labels.
- The `print` calls in the `except` branches of `zero_phase_filter` and
  `stl_decomposition` are output only. They are left out.
- Constructor: a sampling mode other than 'D' or 'M' leaves no band table.
  Operations that read the table then raise `AttributeError`. The model
  requires a configured analyzer (`Configured`) for those operations instead
  of modelling the exception.
- Correlation.CalculateCorrelationSpectral: requires equal lengths, because
  `np.corrcoef` raises on unequal ones.
- Rolling.RollingAnalysis: requires `window >= 1` and `step >= 1`, the
  defaults being 252 and 63. With step 0 `range` raises `ValueError`. A
  negative step gives no rows when the series is at least as long as the
  window, and an `IndexError` at `returns.index[end-1]` when it is shorter.
  Window 0 gives empty slices (NaN volatilities), and its first row is dated
  `index[-1]`. A negative window gives slices and dates whose negative bounds
  count from the end of the series. None of these is modelled.
- Stl.GenerateStlSummary: requires a given period to be at least 0. A
  negative period makes pandas' `rolling` raise inside the fallback, and
  that exception is not modelled. Every visible caller uses the defaults:
  `generate_stl_summary(df)` picks 21 or 12, and `stl_decomposition` defaults
  to 21 (app.py:224, 227). Period 0 is modelled. When STL raises for it, as
  statsmodels does, the fallback's windows are all empty
  (`Stl.ZeroPeriodFallbackIsFlat`).
- Stl.StlDecomposition: the internals of a successful STL fit are not
  modelled. Its components are taken as returned, and `dropna` is a no-op on
  them.
- `setup_korean_font`, `example_usage` and `app.py` (plotting, fonts, the
  user interface) are outside the model.
- Summary.GenerateSummaryReport: `corr_matrix.astype(float)` is the identity
  here, since entries are already `Float`.
