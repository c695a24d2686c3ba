/** Optional values: `T | undefined` and `T | null` in the TypeScript types, `null` in the Java ones. */
module Optional {

  datatype Option<+T> = None | Some(value: T)
}
