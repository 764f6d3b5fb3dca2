/** The fold-level word both folders store per line.

    The low 16 bits hold the line's own level, bits 16 and up the level of the
    line after it, and bit 13 (the header flag) says that the level rises after
    this line.  Levels are unbounded integers here; the packing reproduces the
    source's `levelCurrent | levelNext << 16 | header` exactly whenever the current
    level is in [0, 0x10000) and nothing overflows 32 bits. */
module FoldLevel {

  const SC_FOLDLEVELBASE: int := 0x400
  const SC_FOLDLEVELHEADERFLAG: int := 0x2000

  /** The stored word for a line whose level is cur and whose successor's level is next.
      The header flag is OR'ed in, so it adds 0x2000 only when that bit is clear. */
  function PackLevel(cur: int, next: int): int
  {
    var flag := if cur < next && (cur / SC_FOLDLEVELHEADERFLAG) % 2 == 0 then SC_FOLDLEVELHEADERFLAG else 0;
    cur + flag + next * 0x10000
  }

  /** `lev >> 16`: the level of the next line, which is what a restart reads back. */
  function LevelNextOf(lev: int): int
  {
    lev / 0x10000
  }

  predicate IsHeader(lev: int)
  {
    (lev / SC_FOLDLEVELHEADERFLAG) % 2 == 1
  }

  /** For levels below 0x2000 the word decodes back to both levels and the flag is
      set exactly when the level rises. */
  lemma PackLevelDecode(cur: int, next: int)
    requires 0 <= cur < SC_FOLDLEVELHEADERFLAG
    ensures LevelNextOf(PackLevel(cur, next)) == next
    ensures PackLevel(cur, next) % SC_FOLDLEVELHEADERFLAG == cur
    ensures IsHeader(PackLevel(cur, next)) <==> cur < next
  {
    assert cur / SC_FOLDLEVELHEADERFLAG == 0;
    var b := if cur < next then 1 else 0;
    var w := PackLevel(cur, next);
    assert w == next * 0x10000 + (cur + b * 0x2000);
    DivMulAdd(next, cur + b * 0x2000, 0x10000);
    var q := next * 4 * 2 + b;
    assert w == q * 0x2000 + cur;
    DivMulAdd(q, cur, SC_FOLDLEVELHEADERFLAG);
    EvenPlus(next * 4, b);
  }

  /** (2k + b) % 2 == b for a bit b. */
  lemma EvenPlus(k: int, b: int)
    requires b == 0 || b == 1
    ensures (k * 2 + b) % 2 == b
  {
    DivMulAdd2(k, b);
  }

  lemma DivMulAdd2(q: int, r: int)
    requires 0 <= r < 2
    ensures (q * 2 + r) / 2 == q && (q * 2 + r) % 2 == r
  {
  }

  lemma DivMulAdd(q: int, r: int, d: int)
    requires d == 0x10000 || d == SC_FOLDLEVELHEADERFLAG
    requires 0 <= r < d
    ensures (q * d + r) / d == q && (q * d + r) % d == r
  {
    if d == 0x10000 {
      assert (q * 0x10000 + r) / 0x10000 == q;
    } else {
      assert (q * 0x2000 + r) / 0x2000 == q;
    }
  }
}
