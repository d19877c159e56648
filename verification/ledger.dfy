/**
 * Balance bookkeeping: the first balance the server reports is kept as the
 * reference for the win/lose figure, and the latest one as the current balance.
 */
module Ledger {
  import opened Json

  datatype Ledger = Ledger(first: Balance, current: Balance, awaitingFirst: bool)

  /** Both balances start at zero, before any balance message has arrived. */
  const Initial: Ledger := Ledger(Balance(0.0), Balance(0.0), true)

  /** The effect of one balance message. */
  function Record(l: Ledger, b: Balance): (l': Ledger)
    ensures l'.current == b && !l'.awaitingFirst
    ensures l'.first == (if l.awaitingFirst then b else l.first)
  {
    Ledger(if l.awaitingFirst then b else l.first, b, false)
  }

  /** The ledger after a sequence of balance messages, oldest first. */
  function RecordAll(l: Ledger, bs: seq<Balance>): Ledger
    decreases |bs|
  {
    if bs == [] then l else RecordAll(Record(l, bs[0]), bs[1..])
  }

  /**
   * After any non-empty sequence of balance messages from the start, the first
   * balance is the first one reported and the current balance the last one.
   */
  lemma {:induction false} FirstBalanceCapturedOnce(bs: seq<Balance>)
    requires |bs| >= 1
    ensures RecordAll(Initial, bs).first == bs[0]
    ensures RecordAll(Initial, bs).current == bs[|bs| - 1]
    ensures !RecordAll(Initial, bs).awaitingFirst
  {
    RecordAllAfterFirst(Record(Initial, bs[0]), bs[1..]);
  }

  /** Once the first balance is captured, further messages only move the current balance. */
  lemma {:induction false} RecordAllAfterFirst(l: Ledger, bs: seq<Balance>)
    requires !l.awaitingFirst
    ensures RecordAll(l, bs).first == l.first && !RecordAll(l, bs).awaitingFirst
    ensures RecordAll(l, bs).current == if bs == [] then l.current else bs[|bs| - 1]
    decreases |bs|
  {
    if bs != [] {
      RecordAllAfterFirst(Record(l, bs[0]), bs[1..]);
    }
  }
}
