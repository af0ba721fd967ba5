/**
  Runtime values of the language: the four kinds of Java object the
  interpreter ever handles (null, Boolean, Double, String).
*/
module Values {
  import opened Doubles

  datatype Value = Nil | Bool(b: bool) | Num(d: Double) | Str(s: string)
}
