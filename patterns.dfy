/**
  Site-pattern counts of a three-lineage comparison (P1, P2, P3). At each site
  a lineage is derived with weight f (its derived allele frequency) and
  ancestral with weight 1 - f; the six patterns ABBA, BABA, BBAA, BAAA, ABAA
  and AABA weight a site by the product of the three lineages' weights, and
  each count is the sum of those products over all sites.
 */
module Patterns {
  import opened Frequency

  /** The six site-pattern counts, in the order the counter returns them. */
  datatype Counts = Counts(abba: real, baba: real, bbaa: real, baaa: real, abaa: real, aaba: real)

  const Zero := Counts(0.0, 0.0, 0.0, 0.0, 0.0, 0.0)

  /** Patternwise sum of two count tuples. */
  function Add(a: Counts, b: Counts): Counts
  {
    Counts(a.abba + b.abba, a.baba + b.baba, a.bbaa + b.bbaa,
           a.baaa + b.baaa, a.abaa + b.abaa, a.aaba + b.aaba)
  }

  /** The sum of the six counts. */
  function Total(c: Counts): real
  {
    c.abba + c.baba + c.bbaa + c.baaa + c.abaa + c.aaba
  }

  /** Each of the six counts lies in [0, bound]. */
  predicate EachWithin(c: Counts, bound: real)
  {
    && 0.0 <= c.abba <= bound && 0.0 <= c.baba <= bound && 0.0 <= c.bbaa <= bound
    && 0.0 <= c.baaa <= bound && 0.0 <= c.abaa <= bound && 0.0 <= c.aaba <= bound
  }

  /** The six pattern products of one site whose lineages have frequencies f1, f2, f3. */
  function SiteContribution(f1: real, f2: real, f3: real): Counts
  {
    Counts((1.0 - f1) * f2 * f3,
           f1 * (1.0 - f2) * f3,
           f1 * f2 * (1.0 - f3),
           f1 * (1.0 - f2) * (1.0 - f3),
           (1.0 - f1) * f2 * (1.0 - f3),
           (1.0 - f1) * (1.0 - f2) * f3)
  }

  /** The elementwise pattern products of three frequency vectors, summed over sites. */
  function PatternSums(p1: seq<real>, p2: seq<real>, p3: seq<real>): Counts
    requires |p1| == |p2| == |p3|
  {
    if p1 == [] then Zero
    else Add(SiteContribution(p1[0], p2[0], p3[0]), PatternSums(p1[1..], p2[1..], p3[1..]))
  }

  /** The three lineages are valid taxa of the matrix. */
  predicate ValidTaxa(m: Matrix, t1: seq<nat>, t2: seq<nat>, t3: seq<nat>)
  {
    ValidTaxon(m, t1) && ValidTaxon(m, t2) && ValidTaxon(m, t3)
  }

  /**
    The six site-pattern counts of a genotype matrix for lineages P1, P2, P3
    (column index lists); a matrix without sites has all six counts zero.
   */
  function SitePatterns(m: Matrix, t1: seq<nat>, t2: seq<nat>, t3: seq<nat>): (c: Counts)
    requires ValidTaxa(m, t1, t2, t3)
    ensures m == [] ==> c == Zero
  {
    PatternSums(DerivedAlleleFreq(m, t1), DerivedAlleleFreq(m, t2), DerivedAlleleFreq(m, t3))
  }

  /** The contribution of one site (row) to the six counts. */
  function RowContribution(row: Row, t1: seq<nat>, t2: seq<nat>, t3: seq<nat>): Counts
    requires |t1| > 0 && |t2| > 0 && |t3| > 0
    requires ColumnsOf(row, t1) && ColumnsOf(row, t2) && ColumnsOf(row, t3)
  {
    SiteContribution(SiteFreq(row, t1), SiteFreq(row, t2), SiteFreq(row, t3))
  }

  /** Pattern sums over concatenated vectors are the sums of the parts. */
  lemma {:induction false} PatternSumsAppend(p1: seq<real>, p2: seq<real>, p3: seq<real>,
                                             q1: seq<real>, q2: seq<real>, q3: seq<real>)
    requires |p1| == |p2| == |p3| && |q1| == |q2| == |q3|
    ensures PatternSums(p1 + q1, p2 + q2, p3 + q3) == Add(PatternSums(p1, p2, p3), PatternSums(q1, q2, q3))
  {
    if p1 == [] {
      assert p1 + q1 == q1 && p2 + q2 == q2 && p3 + q3 == q3;
    } else {
      PatternSumsAppend(p1[1..], p2[1..], p3[1..], q1, q2, q3);
      assert (p1 + q1)[1..] == p1[1..] + q1;
      assert (p2 + q2)[1..] == p2[1..] + q2;
      assert (p3 + q3)[1..] == p3[1..] + q3;
    }
  }

  /** Additivity: the counts of stacked matrices are the sums of their counts. */
  lemma SitePatternsAppend(a: Matrix, b: Matrix, t1: seq<nat>, t2: seq<nat>, t3: seq<nat>)
    requires ValidTaxa(a, t1, t2, t3) && ValidTaxa(b, t1, t2, t3)
    ensures ValidTaxa(a + b, t1, t2, t3)
    ensures SitePatterns(a + b, t1, t2, t3) == Add(SitePatterns(a, t1, t2, t3), SitePatterns(b, t1, t2, t3))
  {
    FreqAppend(a, b, t1);
    FreqAppend(a, b, t2);
    FreqAppend(a, b, t3);
    PatternSumsAppend(DerivedAlleleFreq(a, t1), DerivedAlleleFreq(a, t2), DerivedAlleleFreq(a, t3),
                      DerivedAlleleFreq(b, t1), DerivedAlleleFreq(b, t2), DerivedAlleleFreq(b, t3));
  }

  /** A non-empty matrix's counts are its first site's contribution plus the rest's counts. */
  lemma SitePatternsCons(m: Matrix, t1: seq<nat>, t2: seq<nat>, t3: seq<nat>)
    requires m != [] && ValidTaxa(m, t1, t2, t3)
    ensures ValidTaxa(m[1..], t1, t2, t3)
    ensures SitePatterns(m, t1, t2, t3) == Add(RowContribution(m[0], t1, t2, t3), SitePatterns(m[1..], t1, t2, t3))
  {
    assert m == [m[0]] + m[1..];
    SitePatternsAppend([m[0]], m[1..], t1, t2, t3);
  }

  /** A contiguous slice of a matrix keeps the matrix's valid taxa. */
  lemma ValidTaxaSlice(m: Matrix, lo: nat, hi: nat, t1: seq<nat>, t2: seq<nat>, t3: seq<nat>)
    requires lo <= hi <= |m| && ValidTaxa(m, t1, t2, t3)
    ensures ValidTaxa(m[lo..hi], t1, t2, t3)
  {
    assert forall i :: 0 <= i < hi - lo ==> m[lo..hi][i] == m[lo + i];
  }

  /** The counts of a matrix are the counts of the sites before j plus those of the sites from j on. */
  lemma SitePatternsSplit(b: Matrix, j: nat, t1: seq<nat>, t2: seq<nat>, t3: seq<nat>)
    requires j <= |b| && ValidTaxa(b, t1, t2, t3)
    ensures ValidTaxa(b[..j], t1, t2, t3) && ValidTaxa(b[j..], t1, t2, t3)
    ensures SitePatterns(b, t1, t2, t3) == Add(SitePatterns(b[..j], t1, t2, t3), SitePatterns(b[j..], t1, t2, t3))
  {
    ValidTaxaSlice(b, 0, j, t1, t2, t3);
    ValidTaxaSlice(b, j, |b|, t1, t2, t3);
    assert b == b[..j] + b[j..];
    SitePatternsAppend(b[..j], b[j..], t1, t2, t3);
  }

  /** The counts of the sites from j on are site j's contribution plus the counts of the sites after it. */
  lemma SitePatternsFrom(b: Matrix, j: nat, t1: seq<nat>, t2: seq<nat>, t3: seq<nat>)
    requires j < |b| && ValidTaxa(b, t1, t2, t3)
    ensures ValidTaxa(b[j..], t1, t2, t3) && ValidTaxa(b[j + 1..], t1, t2, t3)
    ensures SitePatterns(b[j..], t1, t2, t3) == Add(RowContribution(b[j], t1, t2, t3), SitePatterns(b[j + 1..], t1, t2, t3))
  {
    ValidTaxaSlice(b, j, |b|, t1, t2, t3);
    assert b[j..][0] == b[j] && b[j..][1..] == b[j + 1..];
    SitePatternsCons(b[j..], t1, t2, t3);
  }

  /** The counts of a matrix are one site's contribution plus the counts of the other sites. */
  lemma {:induction false} SitePatternsSplice(b: Matrix, j: nat, t1: seq<nat>, t2: seq<nat>, t3: seq<nat>)
    requires j < |b| && ValidTaxa(b, t1, t2, t3)
    ensures ValidTaxa(b[..j] + b[j + 1..], t1, t2, t3)
    ensures SitePatterns(b, t1, t2, t3)
         == Add(RowContribution(b[j], t1, t2, t3), SitePatterns(b[..j] + b[j + 1..], t1, t2, t3))
  {
    SitePatternsSplit(b, j, t1, t2, t3);
    SitePatternsFrom(b, j, t1, t2, t3);
    SitePatternsAppend(b[..j], b[j + 1..], t1, t2, t3);
  }

  /** Removing equal elements from two permutations of each other leaves permutations. */
  lemma MultisetRemove(a: Matrix, b: Matrix, j: nat)
    requires a != [] && j < |b| && b[j] == a[0]
    requires multiset(a) == multiset(b)
    ensures multiset(a[1..]) == multiset(b[..j] + b[j + 1..])
  {
    assert a == [a[0]] + a[1..];
    assert b == b[..j] + [b[j]] + b[j + 1..];
    calc {
      multiset(a[1..]);
      multiset(a) - multiset{a[0]};
      multiset(b) - multiset{b[j]};
      multiset(b[..j]) + multiset(b[j + 1..]);
      multiset(b[..j] + b[j + 1..]);
    }
  }

  /** Reordering the sites leaves every count unchanged. */
  lemma {:induction false} SitePatternsPermutation(a: Matrix, b: Matrix, t1: seq<nat>, t2: seq<nat>, t3: seq<nat>)
    requires ValidTaxa(a, t1, t2, t3)
    requires multiset(a) == multiset(b)
    ensures ValidTaxa(b, t1, t2, t3)
    ensures SitePatterns(a, t1, t2, t3) == SitePatterns(b, t1, t2, t3)
    decreases |a|
  {
    forall i | 0 <= i < |b|
      ensures ColumnsOf(b[i], t1) && ColumnsOf(b[i], t2) && ColumnsOf(b[i], t3)
    {
      assert b[i] in multiset(b);
      assert b[i] in a;
    }
    assert |a| == |multiset(a)| == |multiset(b)| == |b|;
    if a != [] {
      assert a[0] in multiset(b);
      var j :| 0 <= j < |b| && b[j] == a[0];
      MultisetRemove(a, b, j);
      SitePatternsCons(a, t1, t2, t3);
      SitePatternsSplice(b, j, t1, t2, t3);
      SitePatternsPermutation(a[1..], b[..j] + b[j + 1..], t1, t2, t3);
    }
  }

  /** Multiplying by a non-negative factor keeps order. */
  lemma MulMonotone(x: real, y: real, z: real)
    requires 0.0 <= x && y <= z
    ensures x * y <= x * z
  {
    assert x * z - x * y == x * (z - y);
  }

  /** Multiplying a weight by a factor in [0, 1] keeps it in [0, the weight]. */
  lemma Scaled(a: real, b: real)
    requires 0.0 <= a && 0.0 <= b <= 1.0
    ensures 0.0 <= a * b <= a
  {
    MulMonotone(a, 0.0, b);
    MulMonotone(a, b, 1.0);
    assert a * 0.0 == 0.0 && a * 1.0 == a;
  }

  /** A product w of three weights in [0, 1] is a weight in [0, 1]. */
  lemma TripleWithin(w: real, x: real, y: real, z: real)
    requires 0.0 <= x <= 1.0 && 0.0 <= y <= 1.0 && 0.0 <= z <= 1.0 && w == x * y * z
    ensures 0.0 <= w <= 1.0
  {
    Scaled(x, y);
    Scaled(x * y, z);
  }

  /** The six patterns, with the all-ancestral and all-derived ones, weigh 1 together. */
  lemma EightPatterns(f1: real, f2: real, f3: real)
    ensures Total(SiteContribution(f1, f2, f3)) + (1.0 - f1) * (1.0 - f2) * (1.0 - f3) + f1 * f2 * f3 == 1.0
  {
  }

  /** With frequencies in [0, 1] a site adds a weight in [0, 1] to each pattern. */
  lemma ContributionEachWithin(f1: real, f2: real, f3: real)
    requires 0.0 <= f1 <= 1.0 && 0.0 <= f2 <= 1.0 && 0.0 <= f3 <= 1.0
    ensures EachWithin(SiteContribution(f1, f2, f3), 1.0)
  {
    var s := SiteContribution(f1, f2, f3);
    TripleWithin(s.abba, 1.0 - f1, f2, f3);
    TripleWithin(s.baba, f1, 1.0 - f2, f3);
    TripleWithin(s.bbaa, f1, f2, 1.0 - f3);
    TripleWithin(s.baaa, f1, 1.0 - f2, 1.0 - f3);
    TripleWithin(s.abaa, 1.0 - f1, f2, 1.0 - f3);
    TripleWithin(s.aaba, 1.0 - f1, 1.0 - f2, f3);
  }

  /**
    With frequencies in [0, 1] a site adds at most 1 to the six patterns
    together: the all-ancestral and all-derived patterns (AAAA, BBBB) take the
    rest of the site's weight.
   */
  lemma ContributionWithin(f1: real, f2: real, f3: real)
    requires 0.0 <= f1 <= 1.0 && 0.0 <= f2 <= 1.0 && 0.0 <= f3 <= 1.0
    ensures EachWithin(SiteContribution(f1, f2, f3), 1.0)
    ensures 0.0 <= Total(SiteContribution(f1, f2, f3)) <= 1.0
  {
    ContributionEachWithin(f1, f2, f3);
    EightPatterns(f1, f2, f3);
    var none, all := (1.0 - f1) * (1.0 - f2) * (1.0 - f3), f1 * f2 * f3;
    TripleWithin(none, 1.0 - f1, 1.0 - f2, 1.0 - f3);
    TripleWithin(all, f1, f2, f3);
    var t := Total(SiteContribution(f1, f2, f3));
    assert t + none + all == 1.0 && 0.0 <= none && 0.0 <= all;
  }

  /**
    If every genotype lies in [0, 1], each of the six counts, and also their
    sum, lies between 0 and the number of sites.
   */
  lemma {:induction false} SitePatternsWithin(m: Matrix, t1: seq<nat>, t2: seq<nat>, t3: seq<nat>)
    requires ValidTaxa(m, t1, t2, t3) && GenotypesWithin(m, 1)
    ensures EachWithin(SitePatterns(m, t1, t2, t3), |m| as real)
    ensures 0.0 <= Total(SitePatterns(m, t1, t2, t3)) <= |m| as real
  {
    if m != [] {
      SitePatternsCons(m, t1, t2, t3);
      assert GenotypesWithin(m[1..], 1) by {
        assert forall i :: 0 <= i < |m| - 1 ==> m[1..][i] == m[i + 1];
      }
      SitePatternsWithin(m[1..], t1, t2, t3);
      FreqWithin(m, t1, 1);
      FreqWithin(m, t2, 1);
      FreqWithin(m, t3, 1);
      ContributionWithin(SiteFreq(m[0], t1), SiteFreq(m[0], t2), SiteFreq(m[0], t3));
    }
  }

  /**
    A site whose three genotypes are 0 or 1 adds 1 to at most one pattern and
    0 to the others: 1 to exactly one when the genotypes are not all equal,
    nothing when they are (an AAAA or BBBB site).
   */
  lemma BinarySite(a: int, b: int, c: int)
    requires a in {0, 1} && b in {0, 1} && c in {0, 1}
    ensures EachWithin(SiteContribution(a as real, b as real, c as real), 1.0)
    ensures var s := SiteContribution(a as real, b as real, c as real);
      && s.abba in {0.0, 1.0} && s.baba in {0.0, 1.0} && s.bbaa in {0.0, 1.0}
      && s.baaa in {0.0, 1.0} && s.abaa in {0.0, 1.0} && s.aaba in {0.0, 1.0}
    ensures Total(SiteContribution(a as real, b as real, c as real)) == if a == b == c then 0.0 else 1.0
  {
  }

  /** The number of sites whose genotypes in columns c1, c2, c3 are not all equal. */
  function PolymorphicSites(m: Matrix, c1: nat, c2: nat, c3: nat): (n: nat)
    requires ColumnsExist(m, [c1, c2, c3])
    ensures n <= |m|
  {
    if m == [] then 0
    else
      assert ColumnsExist(m[1..], [c1, c2, c3]) by {
        assert forall i :: 0 <= i < |m| - 1 ==> m[1..][i] == m[i + 1];
      }
      var row := m[0];
      assert ColumnsOf(row, [c1, c2, c3]);
      assert c1 < |row| && c2 < |row| && c3 < |row| by {
        assert [c1, c2, c3][0] == c1 && [c1, c2, c3][1] == c2 && [c1, c2, c3][2] == c3;
      }
      (if row[c1] == row[c2] == row[c3] then 0 else 1) + PolymorphicSites(m[1..], c1, c2, c3)
  }

  /** The one-member case of `DerivedAlleleFreq`'s contract, for a single row: the frequency is the member's genotype. */
  lemma OneMemberFreq(row: Row, c: nat)
    requires c < |row|
    ensures ColumnsOf(row, [c]) && SiteFreq(row, [c]) == row[c] as real
  {
    assert [c][0] == c && [c][1..] == [];
    assert TaxonSum(row, [c]) == row[c] + TaxonSum(row, []) == row[c];
    assert |[c]| as real == 1.0;
  }

  /** With one-member lineages a site contributes the products of its raw genotypes. */
  lemma OneMemberContribution(row: Row, c1: nat, c2: nat, c3: nat)
    requires c1 < |row| && c2 < |row| && c3 < |row|
    ensures ColumnsOf(row, [c1]) && ColumnsOf(row, [c2]) && ColumnsOf(row, [c3])
    ensures RowContribution(row, [c1], [c2], [c3])
         == SiteContribution(row[c1] as real, row[c2] as real, row[c3] as real)
  {
    OneMemberFreq(row, c1);
    OneMemberFreq(row, c2);
    OneMemberFreq(row, c3);
  }

  /** Three one-member lineages name columns of every row. */
  lemma OneMemberColumns(m: Matrix, c1: nat, c2: nat, c3: nat)
    requires ValidTaxa(m, [c1], [c2], [c3])
    ensures ColumnsExist(m, [c1, c2, c3])
    ensures forall i :: 0 <= i < |m| ==> c1 < |m[i]| && c2 < |m[i]| && c3 < |m[i]|
  {
    forall i | 0 <= i < |m|
      ensures ColumnsOf(m[i], [c1, c2, c3]) && c1 < |m[i]| && c2 < |m[i]| && c3 < |m[i]|
    {
      assert ColumnsOf(m[i], [c1]) && ColumnsOf(m[i], [c2]) && ColumnsOf(m[i], [c3]);
      assert [c1][0] == c1 && [c2][0] == c2 && [c3][0] == c3;
    }
  }

  /** The total of a sum of count tuples is the sum of their totals. */
  lemma TotalAdd(a: Counts, b: Counts)
    ensures Total(Add(a, b)) == Total(a) + Total(b)
  {
  }

  /** A site with 0/1 genotypes and one-member lineages adds 1 in all if polymorphic, else 0. */
  lemma BinaryRowTotal(row: Row, c1: nat, c2: nat, c3: nat)
    requires c1 < |row| && c2 < |row| && c3 < |row|
    requires row[c1] in {0, 1} && row[c2] in {0, 1} && row[c3] in {0, 1}
    ensures ColumnsOf(row, [c1]) && ColumnsOf(row, [c2]) && ColumnsOf(row, [c3])
    ensures Total(RowContribution(row, [c1], [c2], [c3])) == if row[c1] == row[c2] == row[c3] then 0.0 else 1.0
  {
    OneMemberContribution(row, c1, c2, c3);
    BinarySite(row[c1], row[c2], row[c3]);
  }

  /** One step of the binary count: the first site adds 1 exactly when it is polymorphic. */
  lemma BinaryStep(m: Matrix, c1: nat, c2: nat, c3: nat)
    requires m != [] && ValidTaxa(m, [c1], [c2], [c3]) && GenotypesWithin(m, 1)
    requires c1 < |m[0]| && c2 < |m[0]| && c3 < |m[0]|
    ensures ValidTaxa(m[1..], [c1], [c2], [c3])
    ensures Total(SitePatterns(m, [c1], [c2], [c3]))
         == (if m[0][c1] == m[0][c2] == m[0][c3] then 0.0 else 1.0) + Total(SitePatterns(m[1..], [c1], [c2], [c3]))
  {
    var row := m[0];
    assert row[c1] in {0, 1} && row[c2] in {0, 1} && row[c3] in {0, 1};
    SitePatternsCons(m, [c1], [c2], [c3]);
    var rc, rest := RowContribution(row, [c1], [c2], [c3]), SitePatterns(m[1..], [c1], [c2], [c3]);
    assert SitePatterns(m, [c1], [c2], [c3]) == Add(rc, rest);
    BinaryRowTotal(row, c1, c2, c3);
    assert Total(rc) == if row[c1] == row[c2] == row[c3] then 0.0 else 1.0;
    TotalAdd(rc, rest);
  }

  /**
    With 0/1 genotypes and one-member lineages, the six counts sum to the number
    of sites whose three genotypes are not all equal, so to at most the number
    of sites.
   */
  lemma {:induction false} SitePatternsBinary(m: Matrix, c1: nat, c2: nat, c3: nat)
    requires ValidTaxa(m, [c1], [c2], [c3]) && GenotypesWithin(m, 1)
    ensures ColumnsExist(m, [c1, c2, c3])
    ensures Total(SitePatterns(m, [c1], [c2], [c3])) == PolymorphicSites(m, c1, c2, c3) as real
  {
    OneMemberColumns(m, c1, c2, c3);
    if m != [] {
      BinaryStep(m, c1, c2, c3);
      assert GenotypesWithin(m[1..], 1) by {
        assert forall i :: 0 <= i < |m| - 1 ==> m[1..][i] == m[i + 1];
      }
      SitePatternsBinary(m[1..], c1, c2, c3);
    }
  }

  /** The counts of a three-site matrix are the sum of its three sites' contributions. */
  lemma ThreeSiteSum(m: Matrix, t1: seq<nat>, t2: seq<nat>, t3: seq<nat>)
    requires |m| == 3 && ValidTaxa(m, t1, t2, t3)
    ensures SitePatterns(m, t1, t2, t3)
         == Add(RowContribution(m[0], t1, t2, t3),
                Add(RowContribution(m[1], t1, t2, t3),
                    Add(RowContribution(m[2], t1, t2, t3), Zero)))
  {
    var m1, m2 := m[1..], m[2..];
    assert m1[1..] == m2 && m2[1..] == [] && m1[0] == m[1] && m2[0] == m[2];
    SitePatternsCons(m, t1, t2, t3);
    SitePatternsCons(m1, t1, t2, t3);
    SitePatternsCons(m2, t1, t2, t3);
  }

  /** A three-column site's contribution for lineages P1 = [0], P2 = [1], P3 = [2]. */
  lemma ThreeColumnSite(r: Row, a: int, b: int, c: int)
    requires r == [a, b, c]
    ensures ColumnsOf(r, [0]) && ColumnsOf(r, [1]) && ColumnsOf(r, [2])
    ensures RowContribution(r, [0], [1], [2]) == SiteContribution(a as real, b as real, c as real)
  {
    OneMemberContribution(r, 0, 1, 2);
  }

  /** Three sites with one derived-allele pattern each: one ABBA, one BABA and one BBAA site. */
  lemma ThreeSiteExample(r0: Row, r1: Row, r2: Row)
    requires r0 == [0, 1, 1] && r1 == [1, 0, 1] && r2 == [1, 1, 0]
    ensures ValidTaxa([r0, r1, r2], [0], [1], [2])
    ensures SitePatterns([r0, r1, r2], [0], [1], [2]) == Counts(1.0, 1.0, 1.0, 0.0, 0.0, 0.0)
  {
    assert RowContribution(r0, [0], [1], [2]) == Counts(1.0, 0.0, 0.0, 0.0, 0.0, 0.0) by {
      ThreeColumnSite(r0, 0, 1, 1);
    }
    assert RowContribution(r1, [0], [1], [2]) == Counts(0.0, 1.0, 0.0, 0.0, 0.0, 0.0) by {
      ThreeColumnSite(r1, 1, 0, 1);
    }
    assert RowContribution(r2, [0], [1], [2]) == Counts(0.0, 0.0, 1.0, 0.0, 0.0, 0.0) by {
      ThreeColumnSite(r2, 1, 1, 0);
    }
    var m := [r0, r1, r2];
    assert ValidTaxa(m, [0], [1], [2]);
    ThreeSiteSum(m, [0], [1], [2]);
  }
}
