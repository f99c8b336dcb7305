/** Optional values: TypeScript's `T | undefined`, `T | null` and optional fields (`x?: T`). */
module Wrappers {

  datatype Option<T> = None | Some(value: T)
}
