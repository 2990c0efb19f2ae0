/**
 How the host program shares the DCT work between its two harts. Hart 0
 loads the input matrix and zeroes the output matrix; then, for every output
 cell, each hart sums the terms of its own basis indices
 `k = hart_id, hart_id + PROCESSORS, ...` below `m` and adds its partial sum
 into the shared cell.

 Floats are modelled as reals. The value of a term (the input sample times
 the cosine the accelerator returns) is given, not computed.
 */
module HostWork {
  import opened Platform

  /** The basis indices below `m` that hart `hart` visits. */
  function Assigned(hart: nat, m: int): set<int>
  {
    set k | 0 <= k < m && k % PROCESSORS == hart
  }

  /** The two harts' index sets are disjoint and together cover 0..m-1. */
  lemma StridePartition(m: int)
    ensures Assigned(0, m) * Assigned(1, m) == {}
    ensures forall k :: k in Assigned(0, m) + Assigned(1, m) <==> 0 <= k < m
  {
  }

  /**
   The stride loop `for (k = hart_id; k < m; k = k + PROCESSORS)`: the indices
   it visits, in order.
   */
  method StrideIndices(hart: nat, m: int) returns (ks: seq<int>)
    requires hart < PROCESSORS
    ensures forall t :: 0 <= t < |ks| ==> ks[t] == hart + PROCESSORS * t
    ensures forall k :: k in ks <==> k in Assigned(hart, m)
  {
    ks := [];
    var k: int := hart;
    while k < m
      invariant k == hart + PROCESSORS * |ks|
      invariant forall t :: 0 <= t < |ks| ==> ks[t] == hart + PROCESSORS * t
      invariant forall j :: j in ks <==> 0 <= j < k && j % PROCESSORS == hart
      invariant ks != [] ==> k - PROCESSORS < m
    {
      ks := ks + [k];
      k := k + PROCESSORS;
    }
  }

  /** The sum of `terms[from..]`. */
  function Sum(terms: seq<real>, from: nat): real
    decreases |terms| - from
  {
    if from >= |terms| then 0.0 else terms[from] + Sum(terms, from + 1)
  }

  /** The sum of `terms[from]`, `terms[from + PROCESSORS]`, ... */
  function StrideSum(terms: seq<real>, from: nat): real
    decreases |terms| - from
  {
    if from >= |terms| then 0.0 else terms[from] + StrideSum(terms, from + PROCESSORS)
  }

  /** The partial sums of two neighbouring harts add up to the whole sum. */
  lemma {:induction false} StrideSumSplit(terms: seq<real>, from: nat)
    ensures StrideSum(terms, from) + StrideSum(terms, from + 1) == Sum(terms, from)
    decreases |terms| - from
  {
    if from < |terms| {
      StrideSumSplit(terms, from + 1);
    }
  }

  /**
   `local_sum` of one hart for one output cell: the loop over its stride,
   with `terms[k]` the product the loop adds for index `k`.
   */
  method LocalSum(terms: seq<real>, hart: nat) returns (localSum: real)
    requires hart < PROCESSORS
    ensures localSum == StrideSum(terms, hart)
  {
    localSum := 0.0;
    var k: nat := hart;
    while k < |terms|
      invariant localSum + StrideSum(terms, k) == StrideSum(terms, hart)
    {
      localSum := localSum + terms[k];
      k := k + PROCESSORS;
    }
  }

  /**
   Hart 0's set-up of the matrices: the input matrix receives the values read
   from the test-case file, row by row, and every output cell is zeroed.
   */
  method LoadMatrices(values: seq<seq<real>>, n: nat, m: nat) returns (input: array2<real>, output: array2<real>)
    requires |values| == n && forall i :: 0 <= i < n ==> |values[i]| == m
    ensures fresh(input) && fresh(output) && input != output
    ensures input.Length0 == n && input.Length1 == m && output.Length0 == n && output.Length1 == m
    ensures forall i, j :: 0 <= i < n && 0 <= j < m ==> input[i, j] == values[i][j] && output[i, j] == 0.0
  {
    input := new real[n, m];
    output := new real[n, m];
    for i := 0 to n
      invariant forall r, c :: 0 <= r < i && 0 <= c < m ==> input[r, c] == values[r][c] && output[r, c] == 0.0
    {
      for j := 0 to m
        invariant forall r, c :: 0 <= r < i && 0 <= c < m ==> input[r, c] == values[r][c] && output[r, c] == 0.0
        invariant forall c :: 0 <= c < j ==> input[i, c] == values[i][c] && output[i, c] == 0.0
      {
        input[i, j] := values[i][j];
        output[i, j] := 0.0;
      }
    }
  }

  /**
   Both harts' contributions to one output cell, one after the other as the
   mutex serialises them: each scales its stride sum by the column's factor
   `scale` (1/sqrt(m) for column 0, sqrt(2/m) otherwise) and adds it to the
   shared cell. From a zeroed cell the result is the scaled sum of all terms.
   */
  method AccumulateCell(output: array2<real>, i: nat, j: nat, terms: seq<real>, scale: real)
    requires i < output.Length0 && j < output.Length1
    modifies output
    ensures output[i, j] == old(output[i, j]) + scale * Sum(terms, 0)
    ensures forall r, c :: 0 <= r < output.Length0 && 0 <= c < output.Length1 && (r, c) != (i, j) ==>
              output[r, c] == old(output[r, c])
  {
    var s0 := LocalSum(terms, 0);
    output[i, j] := output[i, j] + s0 * scale;
    var s1 := LocalSum(terms, 1);
    output[i, j] := output[i, j] + s1 * scale;
    StrideSumSplit(terms, 0);
    assert s0 * scale + s1 * scale == scale * (s0 + s1);
  }
}
