/**
 * The cell values of the generated table. A column of the table mixes integers, floats
 * with two decimals, strings and NaN; the model tags each cell with its kind.
 */
module Values {
  /** A numeric cell: a Python int, or a float rounded to two decimals kept as hundredths. */
  datatype Number = Int(i: int) | Hundredths(h: int)

  /** A cell: a number, a string, or the missing marker that stands for np.nan. */
  datatype Value = Num(n: Number) | Text(s: string) | Missing
}
