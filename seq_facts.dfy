/** Small facts about sequences: regrouping concatenations, and the positions at which a
    sequence of flags is set. */
module SeqFacts {
  /** Regrouping a sequence built one piece at a time. */
  lemma Regroup<T>(a: seq<T>, b: seq<T>, c: seq<T>, d: seq<T>)
    ensures a + b + c + d == a + (b + c + d)
  {
  }

  /** The positions, from `from` on, at which `flags` is set, in increasing order. */
  function TruePositions(flags: seq<bool>, from: nat): (idx: seq<nat>)
    requires from <= |flags|
    decreases |flags| - from
    ensures forall j :: 0 <= j < |idx| ==> from <= idx[j] < |flags|
  {
    if from == |flags| then []
    else
      var rest := TruePositions(flags, from + 1);
      if flags[from] then [from] + rest else rest
  }

  /** The positions are listed in strictly increasing order. */
  lemma {:induction false} TruePositionsIncrease(flags: seq<bool>, from: nat)
    requires from <= |flags|
    decreases |flags| - from
    ensures forall i, j :: 0 <= i < j < |TruePositions(flags, from)| ==>
              TruePositions(flags, from)[i] < TruePositions(flags, from)[j]
  {
    if from < |flags| {
      TruePositionsIncrease(flags, from + 1);
      var rest := TruePositions(flags, from + 1);
      if flags[from] {
        var idx := [from] + rest;
        assert TruePositions(flags, from) == idx;
        forall i, j | 0 <= i < j < |idx|
          ensures idx[i] < idx[j]
        {
          assert idx[j] == rest[j - 1];
          if i > 0 {
            assert idx[i] == rest[i - 1] < rest[j - 1];
          }
        }
      }
    }
  }

  /** A position from `from` on is listed exactly when its flag is set. */
  lemma {:induction false} TruePositionsExact(flags: seq<bool>, from: nat)
    requires from <= |flags|
    decreases |flags| - from
    ensures forall k :: from <= k < |flags| ==> (k in TruePositions(flags, from) <==> flags[k])
  {
    if from < |flags| {
      TruePositionsExact(flags, from + 1);
      assert from !in TruePositions(flags, from + 1);
    }
  }
}
