/**
  Block bootstrap of a genotype matrix. Each replicate draws 1000 windows of
  100 kb, each the closed interval [start, start + 100000]; the sites whose
  positions fall in a window are copied, in their original order, onto the end
  of a resampled genome, and the six site-pattern counts of that genome (with
  P1 = column 0, P2 = column 1, P3 = column 2) are appended to six output
  vectors. The random window starts are an input here: one sequence of 1000
  starts per replicate.
 */
module Bootstrap {
  import opened Frequency
  import opened Patterns

  /** Width of a window: a window starting at s ends at s + WindowWidth, both ends included. */
  const WindowWidth: int := 100_000

  /** Windows drawn per replicate. */
  const WindowsPerReplicate: nat := 1000

  /** Largest window start the draw produces (starts are drawn from [0, MaxStart]). */
  const MaxStart: int := 99_900_000

  /** Every site has the three genotype columns the bootstrap assumes. */
  predicate ThreeColumns(m: Matrix)
  {
    forall i :: 0 <= i < |m| ==> |m[i]| == 3
  }

  /** The window starts of one replicate: exactly 1000 starts, each in [0, MaxStart]. */
  predicate ValidDraw(starts: seq<int>)
  {
    |starts| == WindowsPerReplicate && forall j :: 0 <= j < |starts| ==> 0 <= starts[j] <= MaxStart
  }

  /** A position lies in the closed interval [start, end]. */
  predicate InWindow(p: int, start: int, end: int)
  {
    start <= p <= end
  }

  /** The indices from `from` on whose positions lie in [start, end], in ascending order. */
  function WindowIndicesFrom(pos: seq<int>, start: int, end: int, from: nat): (idx: seq<nat>)
    requires from <= |pos|
    ensures forall k :: 0 <= k < |idx| ==> from <= idx[k] < |pos| && InWindow(pos[idx[k]], start, end)
    ensures forall k, l :: 0 <= k < l < |idx| ==> idx[k] < idx[l]
    ensures forall i :: from <= i < |pos| && InWindow(pos[i], start, end) ==> i in idx
    decreases |pos| - from
  {
    if from == |pos| then []
    else (if InWindow(pos[from], start, end) then [from] else []) + WindowIndicesFrom(pos, start, end, from + 1)
  }

  /**
    The sites of a window: exactly the indices whose positions lie in the
    closed interval [start, end], each once, in ascending order.
   */
  function WindowIndices(pos: seq<int>, start: int, end: int): (idx: seq<nat>)
    ensures forall k :: 0 <= k < |idx| ==> idx[k] < |pos| && InWindow(pos[idx[k]], start, end)
    ensures forall k, l :: 0 <= k < l < |idx| ==> idx[k] < idx[l]
    ensures forall i :: 0 <= i < |pos| && InWindow(pos[i], start, end) ==> i in idx
  {
    WindowIndicesFrom(pos, start, end, 0)
  }

  /** The rows of the matrix at the given indices, in the given order. */
  function SelectRows(m: Matrix, idx: seq<nat>): (w: Matrix)
    requires forall k :: 0 <= k < |idx| ==> idx[k] < |m|
    ensures |w| == |idx| && forall k :: 0 <= k < |idx| ==> w[k] == m[idx[k]]
  {
    seq(|idx|, k requires 0 <= k < |idx| => m[idx[k]])
  }

  /** The windowed matrix of one window start: the rows of its sites, in their original order. */
  function Window(m: Matrix, pos: seq<int>, start: int): Matrix
    requires |pos| == |m|
  {
    SelectRows(m, WindowIndices(pos, start, start + WindowWidth))
  }

  /** Reference definition of a window's rows: walk the sites and keep those positioned in [start, end]. */
  function FilterRows(m: Matrix, pos: seq<int>, start: int, end: int): Matrix
    requires |pos| == |m|
  {
    if m == [] then []
    else (if InWindow(pos[0], start, end) then [m[0]] else []) + FilterRows(m[1..], pos[1..], start, end)
  }

  /** Selecting rows at concatenated index lists concatenates the selections. */
  lemma SelectRowsAppend(m: Matrix, a: seq<nat>, b: seq<nat>)
    requires forall k :: 0 <= k < |a| ==> a[k] < |m|
    requires forall k :: 0 <= k < |b| ==> b[k] < |m|
    ensures forall k :: 0 <= k < |a + b| ==> (a + b)[k] < |m|
    ensures SelectRows(m, a + b) == SelectRows(m, a) + SelectRows(m, b)
  {
    assert forall k :: 0 <= k < |a + b| ==> (a + b)[k] == if k < |a| then a[k] else b[k - |a|];
  }

  /** Selecting the window's indices from `from` on keeps exactly the in-window rows of the suffix. */
  lemma {:induction false} SelectIsFilter(m: Matrix, pos: seq<int>, start: int, end: int, from: nat)
    requires |pos| == |m| && from <= |m|
    ensures SelectRows(m, WindowIndicesFrom(pos, start, end, from)) == FilterRows(m[from..], pos[from..], start, end)
    decreases |m| - from
  {
    if from < |m| {
      var head: seq<nat> := if InWindow(pos[from], start, end) then [from] else [];
      SelectIsFilter(m, pos, start, end, from + 1);
      SelectRowsAppend(m, head, WindowIndicesFrom(pos, start, end, from + 1));
      assert m[from..][0] == m[from] && pos[from..][0] == pos[from];
      assert m[from..][1..] == m[from + 1..] && pos[from..][1..] == pos[from + 1..];
    }
  }

  /**
    The windowed matrix is the sequence of rows whose positions lie in the
    window, in their original order.
   */
  lemma WindowIsFilter(m: Matrix, pos: seq<int>, start: int)
    requires |pos| == |m|
    ensures Window(m, pos, start) == FilterRows(m, pos, start, start + WindowWidth)
  {
    SelectIsFilter(m, pos, start, start + WindowWidth, 0);
    assert m[0..] == m && pos[0..] == pos;
  }

  /** The number of sites matched by the windows of the given starts, counted with repetition. */
  function WindowRowCount(pos: seq<int>, starts: seq<int>): nat
  {
    if starts == [] then 0
    else WindowRowCount(pos, starts[..|starts| - 1]) + |WindowIndices(pos, starts[|starts| - 1], starts[|starts| - 1] + WindowWidth)|
  }

  /**
    The resampled genome of one replicate: the windowed matrices of its starts,
    concatenated in the order drawn. Its row count is the total number of
    window matches, and every one of its rows is a row of the original matrix.
   */
  function Resample(m: Matrix, pos: seq<int>, starts: seq<int>): (g: Matrix)
    requires |pos| == |m|
    ensures |g| == WindowRowCount(pos, starts)
    ensures forall k :: 0 <= k < |g| ==> g[k] in m
    decreases |starts|
  {
    if starts == [] then []
    else Resample(m, pos, starts[..|starts| - 1]) + Window(m, pos, starts[|starts| - 1])
  }

  /** A three-column matrix accepts the lineages P1 = [0], P2 = [1], P3 = [2]. */
  lemma ThreeColumnTaxa(m: Matrix)
    requires ThreeColumns(m)
    ensures ValidTaxa(m, [0], [1], [2])
  {
    forall i | 0 <= i < |m|
      ensures ColumnsOf(m[i], [0]) && ColumnsOf(m[i], [1]) && ColumnsOf(m[i], [2])
    {
    }
  }

  /** Rows drawn from a three-column matrix form a three-column matrix. */
  lemma RowsOfThreeColumns(m: Matrix, g: Matrix)
    requires ThreeColumns(m)
    requires forall k :: 0 <= k < |g| ==> g[k] in m
    ensures ThreeColumns(g)
  {
  }

  /** The site-pattern counts of one replicate's resampled genome, for P1 = [0], P2 = [1], P3 = [2]. */
  function ReplicateCounts(m: Matrix, pos: seq<int>, starts: seq<int>): Counts
    requires ThreeColumns(m) && |pos| == |m|
  {
    var g := Resample(m, pos, starts);
    RowsOfThreeColumns(m, g);
    ThreeColumnTaxa(g);
    SitePatterns(g, [0], [1], [2])
  }

  /** The site-pattern counts of each window on its own, summed over the windows. */
  function WindowTotals(m: Matrix, pos: seq<int>, starts: seq<int>): Counts
    requires ThreeColumns(m) && |pos| == |m|
  {
    if starts == [] then Zero
    else
      var w := Window(m, pos, starts[|starts| - 1]);
      RowsOfThreeColumns(m, w);
      ThreeColumnTaxa(w);
      Add(WindowTotals(m, pos, starts[..|starts| - 1]), SitePatterns(w, [0], [1], [2]))
  }

  /** A replicate's counts are the sums of its windows' counts. */
  lemma {:induction false} ReplicateIsSumOfWindows(m: Matrix, pos: seq<int>, starts: seq<int>)
    requires ThreeColumns(m) && |pos| == |m|
    ensures ReplicateCounts(m, pos, starts) == WindowTotals(m, pos, starts)
    decreases |starts|
  {
    if starts != [] {
      var front := starts[..|starts| - 1];
      var g, w := Resample(m, pos, front), Window(m, pos, starts[|starts| - 1]);
      ReplicateIsSumOfWindows(m, pos, front);
      RowsOfThreeColumns(m, g);
      RowsOfThreeColumns(m, w);
      ThreeColumnTaxa(g);
      ThreeColumnTaxa(w);
      SitePatternsAppend(g, w, [0], [1], [2]);
    }
  }

  /**
    The block bootstrap: for replicate i, concatenate the windows of the starts
    in draws[i] and count its site patterns; element i of each output vector is
    the corresponding count of that replicate.
   */
  method GenotypeMatrixBootstrap(m: Matrix, pos: seq<int>, nReplicates: nat, draws: seq<seq<int>>)
    returns (abba: seq<real>, baba: seq<real>, bbaa: seq<real>, baaa: seq<real>, abaa: seq<real>, aaba: seq<real>)
    requires ThreeColumns(m) && |pos| == |m|
    requires |draws| == nReplicates
    requires forall i :: 0 <= i < |draws| ==> ValidDraw(draws[i])
    ensures |abba| == |baba| == |bbaa| == |baaa| == |abaa| == |aaba| == nReplicates
    ensures forall i :: 0 <= i < nReplicates ==>
      var c := ReplicateCounts(m, pos, draws[i]);
      && abba[i] == c.abba && baba[i] == c.baba && bbaa[i] == c.bbaa
      && baaa[i] == c.baaa && abaa[i] == c.abaa && aaba[i] == c.aaba
  {
    abba, baba, bbaa, baaa, abaa, aaba := [], [], [], [], [], [];
    for i := 0 to nReplicates
      invariant |abba| == |baba| == |bbaa| == |baaa| == |abaa| == |aaba| == i
      invariant forall r :: 0 <= r < i ==>
        var c := ReplicateCounts(m, pos, draws[r]);
        && abba[r] == c.abba && baba[r] == c.baba && bbaa[r] == c.bbaa
        && baaa[r] == c.baaa && abaa[r] == c.abaa && aaba[r] == c.aaba
    {
      var starts := draws[i];
      var genome: Matrix := [];
      for j := 0 to WindowsPerReplicate
        invariant genome == Resample(m, pos, starts[..j])
      {
        var start := starts[j];
        var end := start + WindowWidth;
        var variants := WindowIndices(pos, start, end);
        var windowed := SelectRows(m, variants);
        assert starts[..j + 1][..j] == starts[..j];
        genome := genome + windowed;
      }
      assert starts[..WindowsPerReplicate] == starts;
      RowsOfThreeColumns(m, genome);
      ThreeColumnTaxa(genome);
      var c := SitePatterns(genome, [0], [1], [2]);
      abba, baba, bbaa := abba + [c.abba], baba + [c.baba], bbaa + [c.bbaa];
      baaa, abaa, aaba := baaa + [c.baaa], abaa + [c.abaa], aaba + [c.aaba];
    }
  }
}
