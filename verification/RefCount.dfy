/** The shared counter of `refcount.rs`: a 32-bit atomic, plain or hardened. */
module RefCount {
  const U32_MODULUS := 0x1_0000_0000
  const MAX_REFCOUNT := 0x7FFF_FFFF

  type u32 = x: int | 0 <= x < 0x1_0000_0000

  datatype Mode = Plain | Hardened

  /** The stored value after a change; `Halted` when `refcount_violation` stops the machine. */
  datatype Counter = Halted | Now(n: u32)

  function Add(m: Mode, c: u32): Counter {
    if m.Hardened? && c >= MAX_REFCOUNT then Halted
    else if c == 0xFFFF_FFFF then Now(0)
    else Now(c + 1)
  }

  function Sub(m: Mode, c: u32): Counter {
    if c > 0 then Now(c - 1)
    else if m.Hardened? then Halted
    else Now(0xFFFF_FFFF)
  }

  /** The atomic cell that the objects share. */
  class AtomicCounter {
    const mode: Mode
    var value: u32

    constructor (mode: Mode, value: u32)
      ensures this.mode == mode && this.value == value
    {
      this.mode, this.value := mode, value;
    }

    /** `refcount::add`: a hardened update that is refused leaves the cell as it was. */
    method Increment() returns (r: Counter)
      modifies this
      ensures r == Add(mode, old(value))
      ensures r == if r.Halted? then Halted else Now(value)
      ensures r.Halted? ==> value == old(value)
    {
      if mode.Hardened? && value >= MAX_REFCOUNT {
        return Halted;
      }
      value := if value == 0xFFFF_FFFF then 0 else value + 1;
      return Now(value);
    }

    /** `refcount::sub`. */
    method Decrement() returns (r: Counter)
      modifies this
      ensures r == Sub(mode, old(value))
      ensures r == if r.Halted? then Halted else Now(value)
      ensures r.Halted? ==> value == old(value)
    {
      if mode.Hardened? && value == 0 {
        return Halted;
      }
      value := if value == 0 then 0xFFFF_FFFF else value - 1;
      return Now(value);
    }
  }

  datatype Change = Up | Down

  /** The counter after a run of changes. */
  function Run(m: Mode, c: u32, ops: seq<Change>): Counter {
    if ops == [] then Now(c)
    else
      var n := |ops| - 1;
      match Run(m, c, ops[..n])
      case Halted => Halted
      case Now(v) => if ops[n].Up? then Add(m, v) else Sub(m, v)
  }

  /** How many references there really are. */
  function Level(c: int, ops: seq<Change>): int {
    if ops == [] then c
    else
      var n := |ops| - 1;
      Level(c, ops[..n]) + if ops[n].Up? then 1 else -1
  }

  /** The number of references after the first k changes is one that `i32` can hold. */
  ghost predicate InRange(c: int, ops: seq<Change>, k: nat)
    requires k <= |ops|
  {
    0 <= Level(c, ops[..k]) <= 0x7FFF_FFFF
  }

  ghost predicate StaysInRange(c: int, ops: seq<Change>) {
    forall k :: 0 <= k <= |ops| ==> InRange(c, ops, k)
  }

  lemma InRangePrefix(c: int, ops: seq<Change>, n: nat, k: nat)
    requires k <= n <= |ops|
    ensures InRange(c, ops[..n], k) <==> InRange(c, ops, k)
  {
    assert ops[..n][..k] == ops[..k];
  }

  lemma RangeOfPrefix(c: int, ops: seq<Change>, n: nat)
    requires |ops| == n + 1
    ensures StaysInRange(c, ops) <==> StaysInRange(c, ops[..n]) && 0 <= Level(c, ops) <= 0x7FFF_FFFF
  {
    assert ops[..n + 1] == ops;
    assert InRange(c, ops, n + 1) <==> 0 <= Level(c, ops) <= 0x7FFF_FFFF;
    forall k | 0 <= k <= n ensures InRange(c, ops[..n], k) <==> InRange(c, ops, k) {
      InRangePrefix(c, ops, n, k);
    }
  }

  /** The hardened counter runs exactly as long as the number of references stays within
    * `0..=i32::MAX`, and then it is that number and the plain counter is the same. */
  lemma {:induction false} HardenedAndPlainAgree(c: u32, ops: seq<Change>)
    requires c <= 0x7FFF_FFFF
    ensures Run(Hardened, c, ops).Now? <==> StaysInRange(c, ops)
    ensures StaysInRange(c, ops) ==>
              Run(Hardened, c, ops) == Run(Plain, c, ops) && Run(Plain, c, ops).n == Level(c, ops)
  {
    if ops != [] {
      RangeOfPrefix(c, ops, |ops| - 1);
      HardenedAndPlainAgree(c, ops[..|ops| - 1]);
      var init := ops[..|ops| - 1];
      assert init[..|init|] == init;
      assert StaysInRange(c, init) ==> InRange(c, init, |init|);
    } else {
      assert InRange(c, ops, 0);
      assert Run(Hardened, c, ops) == Now(c);
    }
  }

  /** The plain counter never stops: it is the number of references modulo 2^32. */
  lemma {:induction false} PlainWraps(c: u32, ops: seq<Change>)
    ensures Run(Plain, c, ops).Now?
    ensures exists laps: int :: Level(c, ops) == Run(Plain, c, ops).n + laps * 0x1_0000_0000
  {
    if ops == [] {
      assert Level(c, ops) == Run(Plain, c, ops).n + 0 * 0x1_0000_0000;
    } else {
      var n := |ops| - 1;
      PlainWraps(c, ops[..n]);
      var laps: int :| Level(c, ops[..n]) == Run(Plain, c, ops[..n]).n + laps * 0x1_0000_0000;
      var now := Run(Plain, c, ops).n;
      var next := if ops[n].Up? && now == 0 then laps + 1
                  else if ops[n].Down? && now == 0xFFFF_FFFF then laps - 1
                  else laps;
      assert Level(c, ops) == now + next * 0x1_0000_0000;
    }
  }
}
