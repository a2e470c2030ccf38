/**
 * Results of operations that can fail.  `Option` stands for Rust's `Option`;
 * `Outcome` adds a `Panic` case for the operations whose source aborts the
 * program (an index out of bounds, an `unwrap` on nothing, an explicit
 * `panic!` or a failed `assert!`).
 */
module Outcomes {

  datatype Option<T> = None | Some(value: T)

  datatype Outcome<T> = Done(value: T) | Panic
}
