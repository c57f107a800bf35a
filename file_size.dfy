/**
 * Size arithmetic of app.js: `Math.round(bytes / (1024 * 1024))` and the comparison of the
 * resulting megabytes with the configured `MAX_FILE_SIZE`.
 */
module FileSize {

  const BytesPerMegabyte: int := 1048576   // 1024 * 1024
  const HalfMegabyte: int := 524288        // 2^19

  /**
   * `Math.round(bytes / 2^20)` on an integer byte count. The quotient is exact in a double, and
   * `Math.round` returns the nearest integer with ties going up, which is floor(x + 1/2);
   * Dafny's `/` by a positive divisor is floor division.
   */
  function ToMegabytes(bytes: int): (mb: int)
    ensures mb * BytesPerMegabyte - HalfMegabyte <= bytes < mb * BytesPerMegabyte + HalfMegabyte
  {
    (bytes + HalfMegabyte) / BytesPerMegabyte
  }

  /** Only one integer is within half a megabyte of `bytes` (ties going up), so it is the rounded value. */
  lemma RoundingIsNearest(bytes: int, m: int)
    requires m * BytesPerMegabyte - HalfMegabyte <= bytes < m * BytesPerMegabyte + HalfMegabyte
    ensures m == ToMegabytes(bytes)
  {
  }

  /** More bytes never round to fewer megabytes. */
  lemma ToMegabytesMonotonic(b1: int, b2: int)
    requires b1 <= b2
    ensures ToMegabytes(b1) <= ToMegabytes(b2)
  {
  }

  /** `fileSizeMB > MAX_FILE_SIZE`, both read as numbers. */
  predicate TooBig(mb: int, maxMegabytes: int) {
    mb > maxMegabytes
  }

  /**
   * The size gate in bytes: a file is refused exactly when it holds at least
   * `MAX_FILE_SIZE` megabytes and a half.
   */
  lemma TooBigThreshold(bytes: int, maxMegabytes: int)
    ensures TooBig(ToMegabytes(bytes), maxMegabytes) <==> bytes >= maxMegabytes * BytesPerMegabyte + HalfMegabyte
  {
    var m := ToMegabytes(bytes);
    if m > maxMegabytes {
      assert (maxMegabytes + 1) * BytesPerMegabyte <= m * BytesPerMegabyte;
    } else {
      assert m * BytesPerMegabyte <= maxMegabytes * BytesPerMegabyte;
    }
  }
}
