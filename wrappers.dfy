/** An optional value: `undefined`, `null` or the `''` "nothing selected"
    marker of the source, versus a present value. */
module Wrappers {
  datatype Option<T> = None | Some(value: T)

  /** The value of a `<select>` whose first option is an empty
      placeholder and whose other options carry ids. */
  datatype Choice = Placeholder | Chosen(id: nat)
}
