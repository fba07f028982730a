/** The absent-or-present value that the mapper's lookups return
    (Kotlin's nullable results, `?.let { ... }`). */
module Optional {

  datatype Option<+T> = None | Some(value: T)
}
