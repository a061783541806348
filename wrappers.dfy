/** The optional value used where the TypeScript code has `T | null` or
    `undefined` (a product that has not been loaded, an `Array.find` miss). */
module Wrappers {

  datatype Option<+T> = None | Some(value: T)
}
