/** Optional values: JavaScript's `null`/absent field and a parser's "no parse". */
module Options {
  datatype Option<+T> = None | Some(value: T)
}
