/** The two reference tables of `script.js`, as instants in milliseconds
    since the Unix epoch (each entry is the ISO 8601 timestamp of the source,
    with its `-03:00` offset, converted once), and the proof that both are
    strictly ascending, which the scans over them rely on. */
module MoonTables {

  const DayMs: int := 86_400_000

  /** New moons, 2024-11-01T12:47-03:00 through 2025-12-20T01:43-03:00. */
  const LunasNuevas: seq<int> := [
    1730476020000, 1733044860000, 1735608420000, 1738164960000,
    1740714300000, 1743256680000, 1745793060000, 1748325720000,
    1750858320000, 1753395060000, 1755939960000, 1758495240000,
    1761060300000, 1763632020000, 1766205780000
  ]

  /** Full moons, 2024-11-15T21:29-03:00 through 2025-12-04T23:14-03:00. */
  const LunasLlenas: seq<int> := [
    1731716940000, 1734264120000, 1736818020000, 1739379180000,
    1741946100000, 1744514520000, 1747079760000, 1749638640000,
    1752190620000, 1754736960000, 1757279340000, 1759819680000,
    1762359540000, 1764900840000
  ]

  predicate StrictlyIncreasing(s: seq<int>) {
    forall i, j :: 0 <= i < j < |s| ==> s[i] < s[j]
  }

  predicate AdjacentIncreasing(s: seq<int>) {
    forall i :: 0 <= i < |s| - 1 ==> s[i] < s[i + 1]
  }

  /** Each entry below its successor makes the whole sequence ascending. */
  lemma {:induction false} AdjacentMakesStrict(s: seq<int>)
    requires AdjacentIncreasing(s)
    ensures StrictlyIncreasing(s)
  {
    if |s| > 1 {
      var t := s[..|s| - 1];
      assert AdjacentIncreasing(t) by {
        forall i | 0 <= i < |t| - 1 ensures t[i] < t[i + 1] {
          assert t[i] == s[i] && t[i + 1] == s[i + 1];
        }
      }
      AdjacentMakesStrict(t);
      forall i, j | 0 <= i < j < |s| ensures s[i] < s[j] {
        if j < |s| - 1 {
          assert s[i] == t[i] && s[j] == t[j];
        } else if i < |s| - 2 {
          assert s[i] == t[i] && s[|s| - 2] == t[|s| - 2];
        }
      }
    }
  }

  /** Both tables are strictly ascending: the `break` in the new-moon scan
      and the early return in the full-moon scan depend on it. */
  lemma TablesAscending()
    ensures |LunasNuevas| == 15 && StrictlyIncreasing(LunasNuevas)
    ensures |LunasLlenas| == 14 && StrictlyIncreasing(LunasLlenas)
  {
    AdjacentMakesStrict(LunasNuevas);
    AdjacentMakesStrict(LunasLlenas);
  }
}
