/** Optional values and results, shared by the inference, AST visitor and type map modules. */
module Wrappers {

  /** `std::optional<T>`. */
  datatype Option<+T> = None | Some(value: T)

  /** `absl::StatusOr<R>` / `llvm::Expected<R>`: a value or an error. */
  datatype Result<+R, +E> = Success(value: R) | Failure(error: E)
}
