/**
  Derived allele frequencies of one lineage (taxon): for every variable site,
  the sum of the genotypes of the taxon's individuals divided by the taxon's
  size. A one-member taxon yields the raw genotype (a count, not a frequency).
 */
module Frequency {

  /** The genotypes of one variable site, one entry per sampled individual. */
  type Row = seq<int>

  /** A genotype matrix: rows are variable sites, columns are individuals. */
  type Matrix = seq<Row>

  /** Every column index of the taxon names a column of the row. */
  predicate ColumnsOf(row: Row, taxon: seq<nat>)
  {
    forall k :: 0 <= k < |taxon| ==> taxon[k] < |row|
  }

  /** Every column index of the taxon names a column of every row. */
  predicate ColumnsExist(m: Matrix, taxon: seq<nat>)
  {
    forall i :: 0 <= i < |m| ==> ColumnsOf(m[i], taxon)
  }

  /** A taxon the frequency calculation accepts: non-empty, with valid columns. */
  predicate ValidTaxon(m: Matrix, taxon: seq<nat>)
  {
    |taxon| > 0 && ColumnsExist(m, taxon)
  }

  /** Every genotype of the matrix lies in [0, bound]. */
  predicate GenotypesWithin(m: Matrix, bound: int)
  {
    forall i, j :: 0 <= i < |m| && 0 <= j < |m[i]| ==> 0 <= m[i][j] <= bound
  }

  /** The sum of a row's genotypes over the taxon's columns (a column listed twice counts twice). */
  function TaxonSum(row: Row, taxon: seq<nat>): int
    requires ColumnsOf(row, taxon)
  {
    if taxon == [] then 0 else row[taxon[0]] + TaxonSum(row, taxon[1..])
  }

  /** The frequency at one site: the taxon's genotype sum over the taxon's size. */
  function SiteFreq(row: Row, taxon: seq<nat>): real
    requires |taxon| > 0 && ColumnsOf(row, taxon)
  {
    TaxonSum(row, taxon) as real / |taxon| as real
  }

  /**
    The derived allele frequency vector of a taxon: one value per site, the
    mean of the taxon's genotypes there; for a one-member taxon, its genotypes.
   */
  function DerivedAlleleFreq(m: Matrix, taxon: seq<nat>): (f: seq<real>)
    requires ValidTaxon(m, taxon)
    ensures |f| == |m|
    ensures forall i :: 0 <= i < |m| ==> f[i] == TaxonSum(m[i], taxon) as real / |taxon| as real
    ensures |taxon| == 1 ==> forall i :: 0 <= i < |m| ==> f[i] == m[i][taxon[0]] as real
  {
    if m == [] then []
    else
      assert |taxon| == 1 ==> TaxonSum(m[0], taxon) == m[0][taxon[0]];
      [SiteFreq(m[0], taxon)] + DerivedAlleleFreq(m[1..], taxon)
  }

  /** The taxon sum of genotypes in [0, bound] lies in [0, |taxon| * bound]. */
  lemma {:induction false} TaxonSumBounds(row: Row, taxon: seq<nat>, bound: int)
    requires ColumnsOf(row, taxon)
    requires forall j :: 0 <= j < |row| ==> 0 <= row[j] <= bound
    ensures 0 <= TaxonSum(row, taxon) <= |taxon| * bound
  {
    if taxon != [] {
      TaxonSumBounds(row, taxon[1..], bound);
      assert |taxon| * bound == bound + |taxon[1..]| * bound;
    }
  }

  /** If every genotype lies in [0, bound], so does every frequency. */
  lemma FreqWithin(m: Matrix, taxon: seq<nat>, bound: int)
    requires ValidTaxon(m, taxon)
    requires GenotypesWithin(m, bound)
    ensures forall i :: 0 <= i < |m| ==> 0.0 <= DerivedAlleleFreq(m, taxon)[i] <= bound as real
  {
    var f := DerivedAlleleFreq(m, taxon);
    forall i | 0 <= i < |m|
      ensures 0.0 <= f[i] <= bound as real
    {
      TaxonSumBounds(m[i], taxon, bound);
      QuotientWithin(TaxonSum(m[i], taxon), |taxon|, bound);
    }
  }

  /** A sum in [0, k * bound] divided by k > 0 lies in [0, bound]. */
  lemma QuotientWithin(s: int, k: int, bound: int)
    requires k > 0 && 0 <= s <= k * bound
    ensures 0.0 <= s as real / k as real <= bound as real
  {
    var q := s as real / k as real;
    assert q * k as real == s as real;
    assert (k * bound) as real == k as real * bound as real;
  }

  /** The frequencies of stacked matrices are the stacked frequencies. */
  lemma FreqAppend(a: Matrix, b: Matrix, taxon: seq<nat>)
    requires ValidTaxon(a, taxon) && ValidTaxon(b, taxon)
    ensures ValidTaxon(a + b, taxon)
    ensures DerivedAlleleFreq(a + b, taxon) == DerivedAlleleFreq(a, taxon) + DerivedAlleleFreq(b, taxon)
  {
    assert forall i :: 0 <= i < |a + b| ==> (a + b)[i] == if i < |a| then a[i] else b[i - |a|];
  }
}
