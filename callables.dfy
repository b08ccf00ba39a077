/** Python callables as the framework inspects them with `inspect`: a
    callable is an identity (Python's `is`), a `__name__`, its parameter
    names in order, whether it takes `*args` or `**kwargs`, and whether it is
    a coroutine function. Calling one is outside the model. */
module Callables {
  import opened Text

  datatype Callback = Callback(
    id: nat,
    name: string,
    params: seq<string>,
    varPositional: bool,
    varKeyword: bool,
    isCoroutine: bool)

  /** `accept_arguments`: the parameter names include every name given. */
  predicate AcceptsArguments(f: Callback, names: set<string>) {
    names <= Elems(f.params)
  }

  /** `accept_var_key_word_argument`: the callable takes `**kwargs`. */
  predicate AcceptsVarKeyword(f: Callback) {
    f.varKeyword
  }

  /** `only_accept_argument` for a plain function: exactly one parameter,
      named `name`. */
  predicate OnlyAccepts(f: Callback, name: string) {
    f.params == [name]
  }
}
