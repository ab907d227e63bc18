/** The capacity descriptor shown on each card, looked up by skip size in yards. */
module Capacity {

  datatype CapacityInfo = CapacityInfo(binBags: string, description: string)

  /** The sizes the table knows. */
  const KnownSizes: set<int> := {4, 6, 8, 10, 12, 14, 16, 20, 40}

  const Table: map<int, CapacityInfo> := map[
    4 := CapacityInfo("30-35", "Small bathroom renovation"),
    6 := CapacityInfo("45-50", "Kitchen renovation"),
    8 := CapacityInfo("60-65", "Large house clearance"),
    10 := CapacityInfo("75-80", "Garden landscaping"),
    12 := CapacityInfo("90-95", "Major renovation"),
    14 := CapacityInfo("105-110", "Construction project"),
    16 := CapacityInfo("120-125", "Large construction"),
    20 := CapacityInfo("150+", "Commercial project"),
    40 := CapacityInfo("300+", "Major commercial work")
  ]

  /** What every size outside the table gets. */
  const Placeholder: CapacityInfo := CapacityInfo("N/A", "Various projects")

  /**
   * The table entry for a listed size, the placeholder otherwise. Every table
   * entry is truthy, so `||` falls back exactly on the missing sizes, and the
   * placeholder is never a table entry: it is shown exactly for unlisted sizes.
   */
  function Lookup(size: int): (c: CapacityInfo)
    ensures size in KnownSizes ==> c == Table[size]
    ensures c == Placeholder <==> size !in KnownSizes
    ensures c.binBags == "N/A" <==> size !in KnownSizes
  {
    if size in Table then Table[size] else Placeholder
  }

  /** The table has exactly the nine listed sizes. */
  lemma TableSizes()
    ensures Table.Keys == KnownSizes && |Table| == 9
  {
    assert |KnownSizes| == 9;
  }

  /** Size 8 is a large house clearance; unlisted 25 gets the placeholder. */
  lemma LookupExamples()
    ensures Lookup(8) == CapacityInfo("60-65", "Large house clearance")
    ensures Lookup(6) == CapacityInfo("45-50", "Kitchen renovation")
    ensures Lookup(25) == CapacityInfo("N/A", "Various projects")
  {
  }
}
