/**
 * Values shared by every part of the model: the optional-value wrapper and the
 * JavaScript values that flow through deferreds, tasks and process steps.
 */
module Values {

  /** `null` / absent versus present. */
  datatype Option<+T> = None | Some(value: T)

  /**
   * The JavaScript values the core passes around. Only the shape of a value
   * matters to the core: `undefined` (a `resolve()` with no argument), `null`
   * (the placeholder the process records for the missing half of an outcome),
   * the empty object `{}` that the exclusive-task manager fans out, and opaque
   * data or text produced by step functions.
   */
  datatype Value = Undefined | Null | EmptyObject | Datum(id: nat) | Text(text: string)
}
