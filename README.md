# Block-bootstrapped ABBA/BABA site-pattern counts

This project models `supp_analyses/bootstrap_sequencing_errors.py`, a small
pipeline used for introgression tests. It counts site patterns and estimates
their sampling spread with a block bootstrap. The model has three modules, one
per part of the file:

- `Frequency` (`frequency.dfy`) models `derived_allele_freq`. For every site
  (row) it sums the genotypes of a lineage's columns and divides by the
  lineage's size. A lineage with one member gives back its raw genotype, as
  the source's docstring says it should.
- `Patterns` (`patterns.dfy`) models `site_patterns`. It computes three
  frequency vectors and returns the six sums ABBA, BABA, BBAA, BAAA, ABAA and
  AABA, in that order. Each sum is, over all sites, a product of `f` or
  `1 - f` terms.
- `Bootstrap` (`bootstrap.dfy`) models `genotype_matrix_bootstrap`. For each
  replicate it takes 1000 window starts. For each start it selects the sites
  whose positions lie in the closed interval `[start, start + 100000]`, keeps
  their original order, and appends them to a resampled genome. It then counts
  the site patterns of that genome with P1 = `[0]`, P2 = `[1]`, P3 = `[2]` and
  appends the six results to six output vectors.

Genotypes are `int`. Frequencies and counts are exact `real` values. The two
pure parts are recursive functions over rows. The bootstrap driver is a method
with two nested loops and `seq` accumulators. Its loop invariants tie the
accumulators to the specification functions `Resample` and `ReplicateCounts`.
A window is closed at both ends: the two comparisons at line 93 of the file
keep a site whose position equals `start` or `end`.
The random window starts are passed in as an input: one sequence of 1000
starts per replicate, each in `[0, 99_900_000]`.

## Model

| member | source | states |
|---|---|---|
| `Frequency.DerivedAlleleFreq` | supp_analyses/bootstrap_sequencing_errors.py:9-26 | one value per site; value r is the taxon's genotype sum at site r divided by the taxon's size; with a one-member taxon, value r is that member's raw genotype |
| `Frequency.FreqWithin` | supp_analyses/bootstrap_sequencing_errors.py:25 | if every genotype lies in [0, b], every frequency lies in [0, b] |
| `Frequency.FreqAppend` | supp_analyses/bootstrap_sequencing_errors.py:25 | frequencies are computed site by site: for stacked matrices they are the stacked frequency vectors |
| `Patterns.SitePatterns` | supp_analyses/bootstrap_sequencing_errors.py:29-57 | on a matrix with no sites all six counts are zero |
| `Patterns.SitePatternsAppend` | supp_analyses/bootstrap_sequencing_errors.py:51-56 | additivity: each of the six counts over A ++ B is the count over A plus the count over B |
| `Patterns.SitePatternsCons` | supp_analyses/bootstrap_sequencing_errors.py:51-56 | the counts of a matrix are its first site's six products plus the counts of the remaining sites |
| `Patterns.SitePatternsPermutation` | supp_analyses/bootstrap_sequencing_errors.py:51-56 | any reordering of the sites (same multiset of rows) gives the same six counts |
| `Patterns.ContributionWithin` | supp_analyses/bootstrap_sequencing_errors.py:51-56 | with frequencies in [0, 1], a site adds between 0 and 1 to each pattern and at most 1 to the six together |
| `Patterns.SitePatternsWithin` | supp_analyses/bootstrap_sequencing_errors.py:47-57 | with genotypes in [0, 1], each count and the sum of the six lie between 0 and the number of sites |
| `Patterns.BinarySite` | supp_analyses/bootstrap_sequencing_errors.py:51-56 | with 0/1 frequencies, a site adds 0 or 1 to each pattern; it adds 1 to exactly one pattern when its three values are not all equal, and nothing when they are |
| `Patterns.SitePatternsBinary` | supp_analyses/bootstrap_sequencing_errors.py:47-57 | with 0/1 genotypes and one-member lineages, the six counts sum to `PolymorphicSites`, an independent count of the sites whose three genotypes are not all equal, and so to at most the row count |
| `Patterns.ThreeSiteExample` | supp_analyses/bootstrap_sequencing_errors.py:47-57 | the rows [0,1,1], [1,0,1], [1,1,0] with P1=[0], P2=[1], P3=[2] give (ABBA, BABA, BBAA, BAAA, ABAA, AABA) = (1, 1, 1, 0, 0, 0) |
| `Bootstrap.WindowIndices` | supp_analyses/bootstrap_sequencing_errors.py:90-93 | the selected indices are exactly those i with start <= pos[i] <= end, both bounds included, strictly ascending |
| `Bootstrap.WindowIsFilter` | supp_analyses/bootstrap_sequencing_errors.py:90-95 | the windowed matrix (`SelectRows` applied to the window's indices) equals the rows whose positions lie in [start, start + 100000], kept in their original order |
| `Bootstrap.Resample` | supp_analyses/bootstrap_sequencing_errors.py:86-97 | the resampled genome's row count is the sum of the per-window match counts, and every one of its rows is a row of the original matrix |
| `Bootstrap.ReplicateIsSumOfWindows` | supp_analyses/bootstrap_sequencing_errors.py:88-104 | a replicate's six counts are the sums of the six counts of its windows taken one by one |
| `Bootstrap.GenotypeMatrixBootstrap` | supp_analyses/bootstrap_sequencing_errors.py:60-111 | each of the six outputs has length n_replicates; element i is the matching count of replicate i's resampled genome (1000 windows concatenated in draw order) with P1=[0], P2=[1], P3=[2] |

## Left out

- Command-line parsing and file I/O (`supp_analyses/bootstrap_sequencing_errors.py:114-180`): reading the genotype and position files and writing the six result files with `%1.5f` formatting. This is glue around the computation.
- The random number generator (`np.random.randint`, line 90): the window starts are an input instead. `Bootstrap.ValidDraw` requires exactly 1000 starts per replicate, each in `[0, 99_900_000]`, which is the range the draw produces. Given the starts, the method is deterministic.
- IEEE double-precision rounding: frequencies and sums are exact reals, so the model has no rounding error.
- Malformed input is excluded by preconditions, and the model says nothing about what NumPy does then:
  - A column index past the end of a row: NumPy raises an `IndexError` at line 25.
  - A matrix without exactly 3 columns: the `np.concatenate` onto a `(0, 3)` array at line 97 raises a `ValueError`.
  - An empty taxon: line 25 divides zero sums by `float(0)`. NumPy gives NaN at every site with a `RuntimeWarning`, not an exception. The model requires a non-empty taxon instead of modelling NaN.
  - Fewer positions than rows (`|pos| < |m|`): line 93 never selects the rows past the last position, and NumPy raises nothing. The model requires `|pos| == |m|`.
- The default lineages `p1_idx=[0]`, `p2_idx=[1]`, `p3_idx=[2]` of `site_patterns` (lines 31-33) are not modelled as defaults. `SitePatterns` always takes all three. The only caller (lines 99-104) passes all three explicitly.
- Negative column indices, which NumPy would count from the end: taxa are sequences of `nat`.
- A column listed twice in a taxon is summed twice and counts twice in the taxon's size. NumPy behaves the same way; no lemma is stated about it.
