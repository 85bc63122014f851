/**
 * The runtime values the interpreter manipulates (the C# `object?` it passes around):
 * `null`, `bool`, `double` and `string`. The double is modelled as an exact `real`.
 */
module Values {

  datatype Value = Nil | Bool(b: bool) | Num(n: real) | Str(s: string)
}
