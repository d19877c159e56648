/**
 * Target selection: the least face value that does not appear in a window of
 * recent rounds, or 0 when all six appear.
 */
module Target {
  import opened Dice

  /** The set of face values shown by the rounds. */
  function Faces(rounds: seq<Round>): (seen: set<int>)
    ensures forall v :: v in seen ==> 1 <= v <= 6
  {
    if rounds == [] then {}
    else
      var last := rounds[|rounds| - 1];
      Faces(rounds[..|rounds| - 1]) + {last.first, last.second, last.third}
  }

  /** A value is in `Faces` exactly when some round shows it. */
  lemma {:induction false} FacesShown(rounds: seq<Round>, v: int)
    ensures v in Faces(rounds) <==> exists i :: 0 <= i < |rounds| && rounds[i].Shows(v)
  {
    if rounds != [] {
      var init := rounds[..|rounds| - 1];
      FacesShown(init, v);
      if v in Faces(init) {
        var i :| 0 <= i < |init| && init[i].Shows(v);
        assert rounds[i] == init[i];
      }
      if exists i :: 0 <= i < |rounds| && rounds[i].Shows(v) {
        var i :| 0 <= i < |rounds| && rounds[i].Shows(v);
        if i < |init| {
          assert init[i] == rounds[i];
        }
      }
    }
  }

  /** The least value in `from..6` missing from `seen`, or 0 when none is missing. */
  function LeastAbsent(seen: set<int>, from: int): (k: int)
    requires 1 <= from <= 7
    ensures k == 0 || from <= k <= 6
    ensures k == 0 <==> forall v :: from <= v <= 6 ==> v in seen
    ensures k != 0 ==> k !in seen && forall v :: from <= v < k ==> v in seen
    decreases 7 - from
  {
    if from == 7 then 0
    else if from !in seen then from
    else LeastAbsent(seen, from + 1)
  }

  /**
   * FindBestNumberToBet: the least face value shown by none of the rounds; 0
   * exactly when every face value is shown.
   */
  function FindBestNumberToBet(rounds: seq<Round>): (k: int)
    ensures 0 <= k <= 6
    ensures k == 0 <==> forall v :: 1 <= v <= 6 ==> v in Faces(rounds)
    ensures k != 0 ==> k !in Faces(rounds) && forall v :: 1 <= v < k ==> v in Faces(rounds)
  {
    var seen := Faces(rounds);
    var k := LeastAbsent(seen, 1);
    assert k != 0 ==> k !in Faces(rounds);
    k
  }

  /**
   * The source's own procedure: collect every face value of every round into a
   * list, then scan 1..6 for the first value the list does not contain.
   */
  method FindBestNumberByScan(rounds: seq<Round>) returns (k: int)
    ensures k == FindBestNumberToBet(rounds)
  {
    var allValues: seq<int> := [];
    var j := 0;
    while j < |rounds|
      invariant 0 <= j <= |rounds|
      invariant forall v :: v in allValues <==> v in Faces(rounds[..j])
    {
      var r := rounds[j];
      assert rounds[..j + 1][..j] == rounds[..j];
      allValues := allValues + [r.first, r.second, r.third];
      j := j + 1;
    }
    assert rounds[..|rounds|] == rounds;
    var i := 1;
    while i <= 6
      invariant 1 <= i <= 7
      invariant forall v :: 1 <= v < i ==> v in Faces(rounds)
    {
      if i !in allValues {
        return i;
      }
      i := i + 1;
    }
    return 0;
  }

  /** The rounds the decision looks at: the first `min(count, |rounds|)` of them. */
  function Window(rounds: seq<Round>, count: int): (w: seq<Round>)
    requires 0 <= count
    ensures |w| <= count && |w| <= |rounds|
    ensures |w| == count || |w| == |rounds|
    ensures w <= rounds
  {
    rounds[..if count < |rounds| then count else |rounds|]
  }

  /**
   * With at least one round considered, the window holds the latest round, so
   * the chosen target never shows in the latest round.
   */
  lemma LatestRoundNeverHit(rounds: seq<Round>, count: int)
    requires 1 <= count && 1 <= |rounds|
    ensures var k := FindBestNumberToBet(Window(rounds, count)); k != 0 ==> !rounds[0].Shows(k)
  {
    var w := Window(rounds, count);
    var k := FindBestNumberToBet(w);
    if k != 0 && rounds[0].Shows(k) {
      assert w[0] == rounds[0];
      FacesShown(w, k);
      assert false;
    }
  }

  /** Worked examples: a window missing 4..6, a window showing every face, and no rounds at all. */
  lemma BestTargetExamples()
    ensures FindBestNumberToBet([Round(1, 2, 3)]) == 4
    ensures FindBestNumberToBet([Round(1, 2, 3), Round(4, 5, 6)]) == 0
    ensures FindBestNumberToBet([]) == 1
  {
  }
}
