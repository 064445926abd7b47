/** The fixed bounds the shell declares in include/shell.h. */
module Limits {
  /** MAXARGS: the most tokens `tokenize` returns and the most arguments a stage may hold. */
  const MaxArgs: nat := 10

  /**
   * ARGLEN: the size in bytes of each token buffer, terminator included.
   * A `char` of the model is one byte of a C string, so a word of `n`
   * characters needs `n + 1` of these bytes.
   */
  const ArgLen: nat := 30
}
