/** The optional-value wrapper used for every `?:` field of the AST and for
    reading past the end of the token sequence. */
module Wrappers {

  datatype Option<+T> = None | Some(value: T)
}
