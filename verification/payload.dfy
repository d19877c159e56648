/**
 * The two outbound messages of a bet, as structured records: the chip-log
 * record and the bet action. JSON serialization is not modelled.
 */
module Payload {
  import opened Wrappers
  import opened Dice

  /** What a bet is about: the target face, the stake, and the round it is placed in. */
  datatype Wager = Wager(target: Face, stake: int, gameTime: string, gameId: string)

  datatype Dimensions = Dimensions(width: int, height: real)

  datatype ChipValue = ChipValue(
    kind: string,
    codes: map<string, int>,
    amount: int,
    currency: string,
    chipStack: seq<int>,
    gameType: string,
    tableMinLimit: int,
    tableMaxLimit: int,
    bets: map<string, int>,
    gameTime: string,
    channel: string,
    orientation: string,
    gameDimensions: Dimensions,
    gameId: string)

  /** The first message: `{"log": {"type": ..., "value": ...}}`. */
  datatype ChipLog = ChipLog(kind: string, value: ChipValue)

  datatype BetTags = BetTags(
    mwLayout: int,
    openMwTables: int,
    btVideoQuality: string,
    btTableView: string,
    orientation: string,
    videoProtocol: string)

  datatype BetArgs = BetArgs(gameId: string, kind: string, chips: map<string, int>, betTags: BetTags)

  /** The second message: `{"id": ..., "type": ..., "args": ...}`. */
  datatype BetAction = BetAction(id: string, kind: string, args: BetArgs)

  const KeyPrefix: string := "SicBo_"

  /** The bet key of a face: "SicBo_" followed by its decimal digit. */
  function BetKey(n: Face): (key: string)
    ensures |key| == |KeyPrefix| + 1 && key[..|KeyPrefix|] == KeyPrefix
  {
    KeyPrefix + [('0' as int + n) as char]
  }

  /** Reads a bet key back: the face it names, if it is the key of a face. */
  function KeyTarget(key: string): (r: Option<Face>)
    ensures r.Some? ==> BetKey(r.value) == key
  {
    if |key| == |KeyPrefix| + 1 && key[..|KeyPrefix|] == KeyPrefix
       && '1' <= key[|KeyPrefix|] <= '6'
    then
      var n: Face := key[|KeyPrefix|] as int - '0' as int;
      assert key == KeyPrefix + [key[|KeyPrefix|]];
      Some(n)
    else None
  }

  /** Every face's key reads back as that face, so distinct faces have distinct keys. */
  lemma BetKeyRoundTrip(n: Face)
    ensures KeyTarget(BetKey(n)) == Some(n)
  {
  }

  /** The two messages SendBetAsync sends, in order, for a wager. */
  function Encode(w: Wager): (p: (ChipLog, BetAction))
    ensures p.0.kind == "CLIENT_BET_CHIP" && p.1.kind == "dice.betAction" && p.1.args.kind == "SET_CHIPS"
    ensures p.0.value.codes == map[BetKey(w.target) := w.stake]
    ensures p.0.value.bets == p.0.value.codes
    ensures p.0.value.amount == w.stake
    ensures p.0.value.gameTime == w.gameTime && p.0.value.gameId == w.gameId
    ensures p.1.args.gameId == w.gameId
    ensures |p.1.args.chips| == 1
    ensures forall s :: s in p.1.args.chips ==> s in DiceMap && DiceMap[s] == w.target && p.1.args.chips[s] == w.stake
  {
    var chipLog := ChipLog(
      "CLIENT_BET_CHIP",
      ChipValue(
        "Chip",
        map[BetKey(w.target) := w.stake],
        w.stake,
        "IQD",
        [200, 500, 1000, 2000, 5000, 25000],
        "sicbo",
        200,
        2500000,
        map[BetKey(w.target) := w.stake],
        w.gameTime,
        "PCMac",
        "landscape",
        Dimensions(1122, 631.125),
        w.gameId));
    var betAction := BetAction(
      "alevmddm5e",
      "dice.betAction",
      BetArgs(
        w.gameId,
        "SET_CHIPS",
        map[ReturnNumberBox(w.target) := w.stake],
        BetTags(8, 1, "_hd", "1", "landscape", "fmp4")));
    assert map[ReturnNumberBox(w.target) := w.stake].Keys == {ReturnNumberBox(w.target)};
    (chipLog, betAction)
  }

  /** The wager a pair of messages carries, when they are the messages of some wager. */
  ghost function DecodeWager(p: (ChipLog, BetAction)): (r: Option<Wager>)
  {
    var v := p.0.value;
    if |v.codes| != 1 then None
    else
      var key :| key in v.codes;
      match KeyTarget(key)
      case None => None
      case Some(n) => Some(Wager(n, v.amount, v.gameTime, v.gameId))
  }

  /** The messages carry everything of the wager: decoding them gives it back. */
  lemma EncodeDecodeRoundTrip(w: Wager)
    ensures DecodeWager(Encode(w)) == Some(w)
  {
  }
}
