/** Values shared by the browser script and the relay endpoint. */
module Values {

  datatype Option<+T> = None | Some(value: T)

  /** A flat scalar as it travels in an event body: a JSON value on the
      browser side, the decoded PHP value on the relay side. Floats, arrays
      and objects are not modelled. */
  datatype Value = Null | Bool(b: bool) | Int(i: int) | Str(s: string)
}
