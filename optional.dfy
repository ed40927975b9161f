/** An optional value: stands for TypeScript's `T | null` and for optional properties. */
module Optional {

  datatype Option<+T> = None | Some(value: T)
}
