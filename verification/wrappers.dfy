/** The optional value used wherever the C++ code holds something that may
    be null (`entry_t *`, `value_expr_t *`, `element_t *`). */
module Wrappers {

  datatype Option<+T> = None | Some(value: T)
}
