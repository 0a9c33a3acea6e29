/** Times are counted in microseconds. */
module Times {
  const SECOND: nat := 1000000
}
