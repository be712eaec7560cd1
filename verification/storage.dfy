/** What the components read from browser storage. Storage itself is not
    modelled: a stored value is an input, `None` when the key is absent. */
module Storage {
  import opened Options

  /** `if (!token)` fails: the token is absent or the empty string. */
  predicate HasToken(token: Option<string>) {
    token.Some? && token.value != ""
  }
}
