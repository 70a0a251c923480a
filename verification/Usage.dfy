/** `TokenUsage`: what one or several model calls cost. */
module Usage {
  datatype TokenUsage = TokenUsage(input: int, output: int, cacheCreation: int, cacheRead: int)

  const NO_USAGE := TokenUsage(0, 0, 0, 0)

  function Add(a: TokenUsage, b: TokenUsage): TokenUsage {
    TokenUsage(a.input + b.input, a.output + b.output, a.cacheCreation + b.cacheCreation, a.cacheRead + b.cacheRead)
  }

  /** Adding up does not depend on order or grouping, and no call costs nothing. */
  lemma AddingUp(a: TokenUsage, b: TokenUsage, c: TokenUsage)
    ensures Add(a, b) == Add(b, a) && Add(Add(a, b), c) == Add(a, Add(b, c)) && Add(NO_USAGE, a) == a
  {
  }
}
