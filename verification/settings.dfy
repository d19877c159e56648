/**
 * The validation of the two configuration values read at start-up. Reading the
 * console and int.TryParse are not modelled: the input is the parsed integer,
 * or None when the text was not an integer.
 */
module Settings {
  import opened Wrappers

  const DefaultBetAmount: int := 200
  const DefaultSearchRows: int := 5

  predicate AllowedBetAmount(n: int) {
    n == 200 || n == 500 || n == 1000 || n == 2000
  }

  /** The accepted row counts: 1 to 10 except 4, which the source's list leaves out. */
  predicate AllowedSearchRows(n: int) {
    n == 1 || n == 2 || n == 3 || n == 5 || n == 6 || n == 7 || n == 8 || n == 9 || n == 10
  }

  /** PromptBetAmount: the input when it is an allowed amount, the default 200 otherwise. */
  function PromptBetAmount(input: Option<int>): (r: int)
    ensures AllowedBetAmount(r)
    ensures input.Some? && AllowedBetAmount(input.value) ==> r == input.value
    ensures !(input.Some? && AllowedBetAmount(input.value)) ==> r == DefaultBetAmount
  {
    if input.Some? && AllowedBetAmount(input.value) then input.value else DefaultBetAmount
  }

  /** PromptSearchRows: the input when it is an allowed row count, the default 5 otherwise. */
  function PromptSearchRows(input: Option<int>): (r: int)
    ensures AllowedSearchRows(r)
    ensures input.Some? && AllowedSearchRows(input.value) ==> r == input.value
    ensures !(input.Some? && AllowedSearchRows(input.value)) ==> r == DefaultSearchRows
  {
    if input.Some? && AllowedSearchRows(input.value) then input.value else DefaultSearchRows
  }

  /**
   * Validation is a projection: a validated value passes unchanged. Four rows
   * are not accepted and fall back to five.
   */
  lemma ValidationIsIdempotent(a: Option<int>, b: Option<int>)
    ensures PromptBetAmount(Some(PromptBetAmount(a))) == PromptBetAmount(a)
    ensures PromptSearchRows(Some(PromptSearchRows(b))) == PromptSearchRows(b)
    ensures PromptSearchRows(Some(4)) == 5
    ensures 1 <= PromptSearchRows(b) <= 10 && 200 <= PromptBetAmount(a) <= 2000
  {
  }
}
