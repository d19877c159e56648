/**
 * The exceptions the message handler of the bot can raise. Every one of them is
 * caught by the handler itself, so a fault only ends the processing of the
 * current message; it never ends the session.
 */
module Faults {

  datatype Fault =
    | JsonSyntax          // JsonDocument.Parse rejected the text (JsonException)
    | WrongValueKind      // a JsonElement accessor applied to the wrong kind of value
    | RangeOutOfBounds    // List.GetRange called with a negative count
    | TimeFormat          // the round time is not of the form HH:mm:ss
}
