/** The `incolumn` template helper of cmd/server/main.go, which spreads pictures over four columns. */
module Templates {
  /**
   * Whether the picture at `index` goes into column `colNum`: `index % 4 == colNum`
   * with Go's `%`, whose remainder is truncated toward zero and takes the sign of `index`.
   */
  function InColumn(colNum: int, index: int): (b: bool)
    ensures index >= 0 ==> (b <==> 0 <= colNum < 4 && (index - colNum) % 4 == 0)
    ensures index < 0 ==> (b <==> -4 < colNum <= 0 && (index - colNum) % 4 == 0)
  {
    var rem := if index >= 0 then index % 4 else -((-index) % 4);
    rem == colNum
  }

  /** Every picture of a gallery (index 0, 1, ...) lands in exactly one of the columns 0 to 3. */
  lemma EachIndexInOneColumn(index: nat)
    ensures InColumn(index % 4, index) && 0 <= index % 4 < 4
    ensures forall colNum :: InColumn(colNum, index) ==> colNum == index % 4
  {
  }
}
