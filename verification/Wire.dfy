/** The decoded v1 batch (`wire.rs`) and the per-call deltas the collector derives from it. */
module Wire {

  /** One per-call record. `parent == 0` means "top-level call"; the wire numbers calls from 1. */
  datatype Call = Call(
    callId: nat, parent: nat, fnId: nat, depth: nat,
    tIn: int, tOut: int, cpuU: int, cpuS: int, memIn: int, memOut: int,
    abnormalExit: bool)

  datatype DictEntry = DictEntry(fnId: nat, fqn: string, file: string, line: nat, kind: nat)

  datatype Batch = Batch(droppedRecords: nat, dict: seq<DictEntry>, calls: seq<Call>)

  const I64_MIN: int := -0x8000_0000_0000_0000
  const I64_MAX: int := 0x7fff_ffff_ffff_ffff

  /** Rust's `i64::saturating_sub`. */
  function SaturatingSub(a: int, b: int): int {
    if a - b < I64_MIN then I64_MIN else if a - b > I64_MAX then I64_MAX else a - b
  }

  /** The wall delta of a call: inverted clocks (`tOut < tIn`) count as zero. */
  function Wall(c: Call): nat {
    var d := SaturatingSub(c.tOut, c.tIn);
    if d < 0 then 0 else d
  }

  predicate Inverted(c: Call) {
    c.tOut < c.tIn
  }

  /** The six columns of a `nodes` row that a folded call adds to. */
  datatype Totals = Totals(calls: int, wall: int, cpuU: int, cpuS: int, mem: int, abnormal: int) {
    function Plus(o: Totals): Totals {
      Totals(calls + o.calls, wall + o.wall, cpuU + o.cpuU, cpuS + o.cpuS, mem + o.mem, abnormal + o.abnormal)
    }
  }

  const ZERO := Totals(0, 0, 0, 0, 0, 0)

  function Delta(c: Call): Totals {
    Totals(1, Wall(c), c.cpuU, c.cpuS, SaturatingSub(c.memOut, c.memIn), if c.abnormalExit then 1 else 0)
  }
}
