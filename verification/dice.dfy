/**
 * The die-symbol codec and the decoding of the server's recent-results list.
 *
 * The six die faces are the Unicode symbols U+2680 .. U+2685. The source
 * works on UTF-16 code units and the model on Unicode scalar values; for
 * decoding the two agree, because the six symbols are single code units and
 * no half of a surrogate pair is ever a die symbol.
 */
module Dice {
  import opened Wrappers
  import Json

  /** A die face value. */
  type Face = v: int | 1 <= v <= 6 witness 1

  /** One resolved round: the three faces in the order the server lists them. */
  datatype Round = Round(first: Face, second: Face, third: Face) {
    /** The round is a "hit" for `v` when one of its faces shows `v`. */
    predicate Shows(v: int) {
      v == first || v == second || v == third
    }
  }

  const Symbol1: string := "\U{2680}"
  const Symbol2: string := "\U{2681}"
  const Symbol3: string := "\U{2682}"
  const Symbol4: string := "\U{2683}"
  const Symbol5: string := "\U{2684}"
  const Symbol6: string := "\U{2685}"

  /** The symbol-to-value table. */
  const DiceMap: map<string, Face> :=
    map[Symbol1 := 1, Symbol2 := 2, Symbol3 := 3, Symbol4 := 4, Symbol5 := 5, Symbol6 := 6]

  /** The value-to-symbol direction: the symbol of `n`, or the empty string when `n` is no face. */
  function ReturnNumberBox(n: int): (s: string)
    ensures 1 <= n <= 6 ==> s in DiceMap && DiceMap[s] == n
    ensures !(1 <= n <= 6) ==> s == ""
    ensures s != "" ==> |s| == 1
  {
    match n
    case 1 => Symbol1
    case 2 => Symbol2
    case 3 => Symbol3
    case 4 => Symbol4
    case 5 => Symbol5
    case 6 => Symbol6
    case _ => ""
  }

  /** Every key of the table is a one-character symbol, and encoding its value gives it back. */
  lemma DiceMapInvertible()
    ensures forall s :: s in DiceMap ==> |s| == 1 && ReturnNumberBox(DiceMap[s]) == s
    ensures forall s, t :: s in DiceMap && t in DiceMap && DiceMap[s] == DiceMap[t] ==> s == t
    ensures forall n: Face :: ReturnNumberBox(n) in DiceMap
  {
  }

  /** The face a single character stands for, if it is a die symbol. */
  function FaceOf(c: char): (r: Option<Face>)
    ensures r.Some? <==> [c] in DiceMap
    ensures r.Some? ==> DiceMap[[c]] == r.value
  {
    if [c] in DiceMap then Some(DiceMap[[c]]) else None
  }

  /**
   * One entry of `recentResults`: a string whose first three characters are
   * all die symbols becomes a round; anything else is dropped whole.
   */
  function DecodeRound(entry: Json.Json): (r: Option<Round>)
    ensures r.Some? <==>
      entry.JString? && |entry.text| >= 3
      && [entry.text[0]] in DiceMap && [entry.text[1]] in DiceMap && [entry.text[2]] in DiceMap
    ensures r.Some? ==>
      && r.value.first == DiceMap[[entry.text[0]]]
      && r.value.second == DiceMap[[entry.text[1]]]
      && r.value.third == DiceMap[[entry.text[2]]]
  {
    if entry.JString? && |entry.text| >= 3 then
      var t := entry.text;
      match (FaceOf(t[0]), FaceOf(t[1]), FaceOf(t[2]))
      case (Some(a), Some(b), Some(c)) => Some(Round(a, b, c))
      case _ => None
    else
      None
  }

  /** The rounds of the decodable entries, in the order of the entries. */
  function DecodeAll(entries: seq<Json.Json>): (rounds: seq<Round>)
    ensures |rounds| <= |entries|
    ensures |rounds| == |entries| <==> forall i :: 0 <= i < |entries| ==> DecodeRound(entries[i]).Some?
  {
    if entries == [] then []
    else
      var rest := DecodeAll(entries[1..]);
      match DecodeRound(entries[0])
      case Some(r) => [r] + rest
      case None => rest
  }

  /**
   * ParseRecentResults over the properties of the `args` object: the decoded
   * rounds of `recentResults` when it is an array, and no rounds otherwise.
   */
  function ParseRecentResults(args: map<string, Json.Json>): (rounds: seq<Round>)
    ensures "recentResults" !in args || !args["recentResults"].JArray? ==> rounds == []
    ensures |rounds| <= (if "recentResults" in args && args["recentResults"].JArray?
                         then |args["recentResults"].items| else 0)
  {
    if "recentResults" in args && args["recentResults"].JArray? then
      DecodeAll(args["recentResults"].items)
    else
      []
  }

  /** The indices of the entries that decode, in increasing order. */
  ghost function Kept(entries: seq<Json.Json>): seq<nat>
  {
    if entries == [] then []
    else
      var rest := Shift(Kept(entries[1..]));
      if DecodeRound(entries[0]).Some? then [0] + rest else rest
  }

  ghost function Shift(ix: seq<nat>): (r: seq<nat>)
    ensures |r| == |ix|
    ensures forall k :: 0 <= k < |ix| ==> r[k] == ix[k] + 1
  {
    if ix == [] then [] else [ix[0] + 1] + Shift(ix[1..])
  }

  /** The k-th decoded round is the decoding of the entry at the k-th kept index. */
  lemma {:induction false} KeptIndicesDecode(entries: seq<Json.Json>)
    ensures |Kept(entries)| == |DecodeAll(entries)|
    ensures forall k :: 0 <= k < |Kept(entries)| ==>
      Kept(entries)[k] < |entries| && DecodeRound(entries[Kept(entries)[k]]) == Some(DecodeAll(entries)[k])
  {
    if entries != [] {
      var tail := entries[1..];
      KeptIndicesDecode(tail);
      var rounds, ix, ixt := DecodeAll(entries), Kept(entries), Kept(tail);
      var d := if DecodeRound(entries[0]).Some? then 1 else 0;
      forall k | d <= k < |ix|
        ensures ix[k] < |entries| && DecodeRound(entries[ix[k]]) == Some(rounds[k])
      {
        assert ix[k] == ixt[k - d] + 1;
        assert entries[ix[k]] == tail[ixt[k - d]];
      }
    }
  }

  /** The kept indices are strictly increasing, so the rounds keep the order of the entries. */
  lemma {:induction false} KeptIndicesIncrease(entries: seq<Json.Json>)
    ensures forall k, m :: 0 <= k < m < |Kept(entries)| ==> Kept(entries)[k] < Kept(entries)[m]
    ensures forall k :: 0 <= k < |Kept(entries)| ==> Kept(entries)[k] < |entries|
  {
    if entries != [] {
      KeptIndicesIncrease(entries[1..]);
    }
  }

  /** An entry whose index is not kept does not decode: nothing decodable is dropped. */
  lemma {:induction false} DroppedEntriesDoNotDecode(entries: seq<Json.Json>)
    ensures forall i :: 0 <= i < |entries| && i !in Kept(entries) ==> DecodeRound(entries[i]).None?
  {
    if entries != [] {
      var tail := entries[1..];
      DroppedEntriesDoNotDecode(tail);
      var ix, ixt := Kept(entries), Kept(tail);
      forall i | 0 < i < |entries| && DecodeRound(entries[i]).Some?
        ensures i in ix
      {
        assert entries[i] == tail[i - 1];
        var k :| 0 <= k < |ixt| && ixt[k] == i - 1;
        var d := if DecodeRound(entries[0]).Some? then 1 else 0;
        assert ix[k + d] == i;
      }
    }
  }

  /** The text the server uses for a round: its three symbols. */
  function RoundText(r: Round): (t: string)
    ensures |t| == 3
  {
    ReturnNumberBox(r.first) + ReturnNumberBox(r.second) + ReturnNumberBox(r.third)
  }

  /** Decoding the text of a round gives the round back. */
  lemma DecodeRoundText(r: Round)
    ensures DecodeRound(Json.JString(RoundText(r))) == Some(r)
  {
  }

  /** The entries of a recent-results list that spells out the given rounds. */
  function RoundEntries(rounds: seq<Round>): (entries: seq<Json.Json>)
    ensures |entries| == |rounds|
  {
    if rounds == [] then [] else [Json.JString(RoundText(rounds[0]))] + RoundEntries(rounds[1..])
  }

  /** A list spelling out rounds decodes to exactly those rounds, in order. */
  lemma {:induction false} DecodeRoundEntries(rounds: seq<Round>)
    ensures DecodeAll(RoundEntries(rounds)) == rounds
  {
    if rounds != [] {
      DecodeRoundText(rounds[0]);
      DecodeRoundEntries(rounds[1..]);
      assert RoundEntries(rounds)[1..] == RoundEntries(rounds[1..]);
    }
  }
}
