/** What the components share about numbers. */
module Numbers {
  type Byte = n: int | 0 <= n < 256

  /** What a condition adds to a count. */
  function One(b: bool): nat {
    if b then 1 else 0
  }
}
