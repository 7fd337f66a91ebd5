/** The smaller and the larger of two numbers, as minTime and maxTime take them of two dates. */
module Numbers {
  function Min(a: int, b: int): int {
    if a < b then a else b
  }

  function Max(a: int, b: int): int {
    if a > b then a else b
  }
}
