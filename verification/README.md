# SuperSicBoBot betting engine in Dafny

This project models the betting engine of `DiceGameClient`, a client for a live
Sic Bo dice feed. The client reads one server message at a time. `balanceUpdated`
messages update the balances. `dice.state` messages carry the round time, the game
id and the recent results. From the recent results the client picks a target face
and may send a bet on it, escalating the stake while the target persists.

The model is a pure step function `Engine.Process(cfg, session, message, now)`.
It takes an immutable session record, a message already parsed into an abstract
JSON value, and the UTC time of day. It returns the next session, the bet sent (if
any), and the exception that cut the message short (if any). Around it:

- `Dice`: the die-symbol table (U+2680..U+2685 to 1..6), its inverse, and the
  decoding of `recentResults`.
- `Target`: the least face missing from a window of rounds.
- `Clock`: the `HH:mm:ss` round-time gate with its 8-second tolerance.
- `Payload`: the two bet messages as structured records.
- `Ledger`: the first and current balance.
- `Settings`: the start-up validation of bet amount and row count.
- `Json` and `Faults`: the JSON accessors the handler uses, and the exceptions they raise.

Every exception in the handler is caught inside it, so a fault skips the rest of
that one message. Fields already assigned before the throw keep their new values.
An unparsable round time is therefore not fatal: the message sends no bet and the
session carries on.

Further points of the handler's behaviour:
- The "hit" reset tests whether the latest round shows the NEW target, not the
  previously bet one. With at least one row considered this can never happen
  (`Engine.HitResetUnreachable`). A hit of the previous target still clears the
  count, because the new target then differs from it
  (`Engine.HitOfLastTargetResetsRetry`).
- Reaching the retry limit only skips the bet. No suppressed state is stored.
- Missing fields are not errors: a property that is absent is skipped.
- Wrong value kinds raise a fault: a "type" that is a number, or "args" that is not an object.
- A bet needs a round time different from the one before the message. It does not
  mean at most one bet per round time. If the round time changes and later returns
  to an earlier value, that earlier round is bet on again
  (`Engine.RevisitedRoundTimeBetsAgain`).

`StateMessage`, `Scenario1..3` and `StateMessageDecides` exist to state a worked
scenario as three lemmas, one per message
(`Engine.ScenarioFirstBet`, `Engine.ScenarioSecondBet`, `Engine.ScenarioLimitReached`).

## Model

| member | source | states |
|---|---|---|
| Dice.ReturnNumberBox | SuperSicBoBot/Program.cs:368-380 | each face 1..6 maps to a one-character symbol that the table maps back to that face; every other number gives the empty string |
| Dice.DiceMapInvertible | SuperSicBoBot/Program.cs:11-14 | the table is a bijection between six one-character symbols and 1..6, and ReturnNumberBox inverts it |
| Dice.DecodeRound | SuperSicBoBot/Program.cs:218-237 | an entry decodes iff it is a string of length at least 3 whose first three characters are all die symbols; the round holds their faces in order, otherwise the whole entry is dropped |
| Dice.ParseRecentResults | SuperSicBoBot/Program.cs:210-243 | no rounds unless `recentResults` is present and an array; never more rounds than entries |
| Dice.DecodeAll | SuperSicBoBot/Program.cs:216-240 | never more rounds than entries, and as many rounds as entries iff every entry decodes |
| Dice.KeptIndicesDecode | SuperSicBoBot/Program.cs:216-240 | the k-th decoded round is the decoding of the k-th kept entry |
| Dice.KeptIndicesIncrease | SuperSicBoBot/Program.cs:216-240 | kept entry indices strictly increase, so decoding keeps the server's order |
| Dice.DroppedEntriesDoNotDecode | SuperSicBoBot/Program.cs:218-238 | every entry that is not kept fails to decode: only non-strings, short strings and unmapped symbols are dropped |
| Dice.DecodeRoundText | SuperSicBoBot/Program.cs:225-236 | decoding the three symbols of a round gives that round back |
| Dice.DecodeRoundEntries | SuperSicBoBot/Program.cs:210-243 | a list that spells out rounds decodes to exactly those rounds |
| Target.FacesShown | SuperSicBoBot/Program.cs:247-251 | a value is among the collected faces iff some round of the window shows it |
| Target.FindBestNumberToBet | SuperSicBoBot/Program.cs:245-263 | the result is in 0..6; it is 0 iff all six faces appear; otherwise it is absent from the window and every smaller face appears |
| Target.FindBestNumberByScan | SuperSicBoBot/Program.cs:247-262 | the source's collect-then-scan procedure computes the least missing face |
| Target.Window | SuperSicBoBot/Program.cs:126-127 | the window is the prefix of the rounds of length min(rows, number of rounds) |
| Target.LatestRoundNeverHit | SuperSicBoBot/Program.cs:126-148 | with at least one row and one round, the chosen target never shows in the latest round |
| Target.BestTargetExamples | SuperSicBoBot/Program.cs:255-262 | [(1,2,3)] gives 4, [(1,2,3),(4,5,6)] gives 0, no rounds gives 1 |
| Clock.IsGameTimeValid | SuperSicBoBot/Program.cs:353-366 | a FormatError iff the text is not HH:mm:ss; otherwise true iff now is within 8 seconds of the round time on today's date, bounds included |
| Clock.ParseTimeOfDay | SuperSicBoBot/Program.cs:355 | only eight-character texts with ':' at positions 2 and 5 are accepted; with the two lemmas below, the accepted texts are exactly the canonical HH:mm:ss spellings |
| Clock.ParseFormatRoundTrip | SuperSicBoBot/Program.cs:355 | parsing the canonical HH:mm:ss text of any time of day gives it back |
| Clock.ParsedTextIsCanonical | SuperSicBoBot/Program.cs:355 | every accepted text is the canonical text of its value: exactly two ASCII digits per field, no other spelling |
| Clock.ToleranceBoundary | SuperSicBoBot/Program.cs:362-363 | exactly 8 seconds early or late passes; one tick more fails |
| Clock.MidnightIsNotBridged | SuperSicBoBot/Program.cs:357-359 | a 23:59:59 round is rejected two seconds after midnight, because it is placed on the new date |
| Clock.MalformedTimesThrow | SuperSicBoBot/Program.cs:365 | empty, out-of-range and one-digit-hour texts raise the format error |
| Payload.BetKeyRoundTrip | SuperSicBoBot/Program.cs:283 | the key `SicBo_<N>` reads back as N, so distinct faces have distinct keys |
| Payload.Encode | SuperSicBoBot/Program.cs:273-330 | the messages are a CLIENT_BET_CHIP log and a dice.betAction of kind SET_CHIPS; the chip log holds exactly `SicBo_<N>` with the stake in both maps, the stake as amount, and the round time and game id; the bet action has one chip, keyed by the symbol of N, with the stake |
| Payload.EncodeDecodeRoundTrip | SuperSicBoBot/Program.cs:273-306 | the target, stake, round time and game id can be read back from the messages |
| Settings.PromptBetAmount | SuperSicBoBot/Program.cs:444-455 | the result is one of 200, 500, 1000, 2000: the input when it is one of them, 200 otherwise |
| Settings.PromptSearchRows | SuperSicBoBot/Program.cs:457-477 | the result is in {1,2,3,5,...,10}: the input when allowed, 5 otherwise |
| Settings.ValidationIsIdempotent | SuperSicBoBot/Program.cs:461-470 | validated values pass unchanged; 4 rows fall back to 5 |
| Ledger.Record | SuperSicBoBot/Program.cs:95-100 | the current balance becomes the reported one; the first balance is set only while none has been captured |
| Ledger.FirstBalanceCapturedOnce | SuperSicBoBot/Program.cs:95-100 | after balance messages from the start, first is the first reported and current the last |
| Ledger.RecordAllAfterFirst | SuperSicBoBot/Program.cs:95-100 | once captured, the first balance never changes again |
| Json.TryGetProperty | SuperSicBoBot/Program.cs:199-207 | a key lookup on an object; a fault on any other kind of value |
| Json.GetString | SuperSicBoBot/Program.cs:201 | the text of a string, null for JSON null, a fault otherwise |
| Json.TryGetDouble | SuperSicBoBot/Program.cs:92-93 | the double of a number, a fault on any other kind of value |
| Engine.EventArgs | SuperSicBoBot/Program.cs:108-110 | yields args iff the root is an object whose "type" is exactly the given string and which has "args"; faults iff the root is no object or "type" is neither string nor null |
| Engine.BalanceMessage | SuperSicBoBot/Program.cs:88-106 | a balanceUpdated message whose args report a number records it, and the ledger changes only to record a balance the message reports; it faults, always with a wrong value kind, exactly when "type" is neither string nor null, the root or the args is no object, or "balance" is no number; the ledger changes only on a balanceUpdated message, and then the first balance is kept once captured |
| Engine.StakeForRetry | SuperSicBoBot/Program.cs:264-268 | a series starts at the base stake, and each further bet in a row adds one base stake |
| Engine.UpdateGameState | SuperSicBoBot/Program.cs:197-208 | round time and game id are replaced only when present (null as empty) and kept when absent; a wrong kind of "number" leaves the session unchanged, a wrong kind of "gameId" faults after the round-time update and keeps the game id; the fault is always a wrong value kind; the betting fields are untouched |
| Engine.Rearm | SuperSicBoBot/Program.cs:144-153 | a hit clears target and count; a target other than the last clears the count |
| Engine.Decide | SuperSicBoBot/Program.cs:118-181 | a negative row count faults; no missing face leaves the session; otherwise, after re-arming, a bet is sent iff the round time is new, passes the gate and the count is below 2; the bet is on the least missing face of the window at base times the new count, and without it the session is the re-armed one; a fault then occurs iff the round time does not parse, and it is the time-format error |
| Engine.DiceStateMessage | SuperSicBoBot/Program.cs:108-183 | any other message leaves the session; args that are no object give a wrong value kind fault and change nothing; the balances are never touched; a bet goes on the least missing face of the message's own decoded rounds |
| Engine.Process | SuperSicBoBot/Program.cs:79-195 | text that is not JSON gives the JSON syntax fault and a fault in the balance branch a wrong value kind, both leaving the session; a bet comes only from a dice.state message, on the least missing face of its decoded rounds; it needs a changed round time and a passing gate, and carries that time and id; without a bet the count is kept or cleared; with one it starts at 1 or grows by one on the same target |
| Engine.DiceStateDecides | SuperSicBoBot/Program.cs:108-127 | for every dice.state message with object args: a fault in the field update ends it, no decoded rounds ends it, otherwise the decision is taken on the decoded rounds with a new round iff the round time changed |
| Engine.BalanceUpdateRecorded | SuperSicBoBot/Program.cs:88-100 | a balanceUpdated message reporting a number records that balance, sends nothing and changes nothing else |
| Engine.HitResetUnreachable | SuperSicBoBot/Program.cs:142-153 | with at least one row the hit branch never fires; re-arming only clears the count on a target change |
| Engine.HitOfLastTargetResetsRetry | SuperSicBoBot/Program.cs:142-174 | if the latest round shows the last target, the count restarts: no bet leaves it 0, a bet is at base stake |
| Engine.ProcessPreservesValid | SuperSicBoBot/Program.cs:157-174 | 0 <= retry <= 2 and the last target in {-1, 1..6} hold after every message |
| Engine.TargetChangeResetsRetry | SuperSicBoBot/Program.cs:150-153 | a new target clears the count even when nothing is sent; a bet on it is at base stake |
| Engine.FirstBalanceKept | SuperSicBoBot/Program.cs:95-100 | once captured, no message changes the first balance |
| Engine.UpdateGameStateIdempotent | SuperSicBoBot/Program.cs:197-208 | applying the same fields twice equals applying them once |
| Engine.BalanceMessageIdempotent | SuperSicBoBot/Program.cs:92-100 | recording the same balance message twice equals recording it once |
| Engine.ReprocessSendsNothing | SuperSicBoBot/Program.cs:112-174 | handling the same message again never bets; with at least one row it leaves the session unchanged |
| Engine.DiceStateTwice | SuperSicBoBot/Program.cs:108-183 | handling the same dice.state message again never bets, and with at least one row leaves the session unchanged |
| Engine.EscalationIsLinear | SuperSicBoBot/Program.cs:157-174 | from the start, each bet is at base stake or continues the previous bet's target with one more base; stakes lie between base and 2 times base |
| Engine.StepKeepsEscalation | SuperSicBoBot/Program.cs:342-343 | one message keeps the memory of the last bet (while the count is positive, the last bet went to the last target at base times the count) and keeps stakes linear and bounded |
| Engine.ValidatedConfig | SuperSicBoBot/Program.cs:428-431 | the configuration built from validated inputs has at least one row and a base stake in 200..2000 |
| Engine.ValidatedStakesFitInt32 | SuperSicBoBot/Program.cs:264-268 | under validated inputs every stake is in 200..4000, so the 32-bit product never wraps |
| Engine.StateMessageDecides | SuperSicBoBot/Program.cs:108-127 | a well-formed state message updates time and id, decodes its rounds and decides on them |
| Engine.ScenarioTargets | SuperSicBoBot/Program.cs:126-127 | the three scenario windows show 1..5, so 6 is the target |
| Engine.ScenarioFirstBet | SuperSicBoBot/Program.cs:142-174 | base 200, five rows, results covering 1..5: the first new round sends 200 on 6 and sets the count to 1 |
| Engine.ScenarioSecondBet | SuperSicBoBot/Program.cs:142-174 | the next round with 6 still missing sends 400 on 6 and sets the count to 2 |
| Engine.RoundTimeMovesOn | SuperSicBoBot/Program.cs:112-118 | after the first bet on 12:00:00, a message for 12:00:01 without results only moves the round time on |
| Engine.RevisitedRoundTimeBetsAgain | SuperSicBoBot/Program.cs:112-174 | the new-round test compares with the previous round time only: coming back from 12:00:01 to 12:00:00 bets a second time on 12:00:00, at 400 |
| Engine.ScenarioLimitReached | SuperSicBoBot/Program.cs:157-163 | the round after that sends nothing, because the count has reached the limit of 2 |

## Left out

- WebSocket lifecycle (`RunAsync`, `ConnectAndListenAsync`, `SendMessageAsync`, the 3-second reconnect loop): network I/O. A message cut short by the 8192-byte receive buffer appears as unparsable text.
- A failure between the two sends of a bet: network I/O. The model assumes both sends succeed. In the source a throw from the send skips the state updates at lines 342-343.
- `Task.Delay` pauses and cancellation: timing only, no logical content.
- `UpdateTitleAsync` and all console output, including the `hide` flag, which only silences a console line: UI and concurrency.
- `CheckActivationAsync`, `Console.ReadLine` and `int.TryParse`: I/O. The validators take the already-parsed integer, or None.
- `JsonDocument.Parse`: the message arrives as an abstract JSON value, or None for text that is not JSON. Duplicate property names are not representable.
- `JsonSerializer` output and its escaping: the bets are structured records.
- The win/lose delta at line 103 and double arithmetic: `Balance` is stored, never computed with.
- `DateTime.UtcNow`: `now` is a parameter, in ticks since UTC midnight. The date part cancels because the round time is placed on now's date.
- The `List.Sort` at line 253: it does not change which values the list contains, so the result is unaffected.
- The second suppression check at lines 165-169: it is subsumed by the check at line 157 and can never fire.
- 32-bit `int` arithmetic: integers are unbounded. `Engine.ValidatedStakesFitInt32` shows that stakes stay far below 2^31 under validated inputs.
- Strings are sequences of Unicode scalar values, not UTF-16 code units. For decoding rounds the two agree: the die symbols are single code units, and a surrogate half is never a die symbol. A JSON string with an escaped unpaired surrogate cannot be represented at all; on such an entry GetString throws, so the source's ParseRecentResults throws after the game state was updated and the message ends without a decision.
