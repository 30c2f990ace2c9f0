/** An optional value: stands for a JavaScript value that may be `undefined`
    (an absent record field, a failed lookup, a `NaN` parse). */
module Options {
  datatype Option<+T> = None | Some(value: T)
}
