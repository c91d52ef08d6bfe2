/**
 * The on-chip flash as the config store sees it (`embassy_rp::flash`, which is
 * not part of this model): a byte array that reads as 0xFF once erased, whose
 * program operation can only clear bits, with the driver's bounds and
 * alignment checks. Hardware failures are a parameter of each operation. Every
 * attempted operation is logged, in order, in `ops`.
 */
module FlashDevice {
  import opened Wrappers

  /** The erase granularity of the RP2040 flash. */
  const ERASE_SIZE: nat := 4096
  /** `FLASH_SIZE`: 2 MiB. */
  const FLASH_SIZE: nat := 2 * 1024 * 1024
  /** What an erased byte reads as. */
  const ERASED: bv8 := 0xFF

  /** Why a flash operation failed. */
  datatype Error = OutOfBounds | Unaligned | Other

  /** An attempted flash operation. */
  datatype Op = ReadOp(addr: nat, len: nat) | EraseOp(from: nat, to: nat) | ProgramOp(addr: nat, data: seq<bv8>)

  /** `mem` with every byte in `[from, to)` erased. */
  function Erased(mem: seq<bv8>, from: nat, to: nat): (m: seq<bv8>)
    ensures |m| == |mem|
    ensures forall i :: 0 <= i < |m| ==> m[i] == if from <= i < to then ERASED else mem[i]
  {
    seq(|mem|, i requires 0 <= i < |mem| => if from <= i < to then ERASED else mem[i])
  }

  /** `mem` after programming `data` at `addr`: each byte can only lose bits. */
  function Programmed(mem: seq<bv8>, addr: nat, data: seq<bv8>): (m: seq<bv8>)
    ensures |m| == |mem|
    ensures forall i :: 0 <= i < |m| ==> m[i] == if addr <= i < addr + |data| then mem[i] & data[i - addr] else mem[i]
  {
    seq(|mem|, i requires 0 <= i < |mem| => if addr <= i < addr + |data| then mem[i] & data[i - addr] else mem[i])
  }

  /** Programming over erased bytes stores exactly the data. */
  lemma ProgramErased(mem: seq<bv8>, from: nat, to: nat, addr: nat, data: seq<bv8>)
    requires from <= addr && addr + |data| <= to <= |mem|
    ensures Programmed(Erased(mem, from, to), addr, data)[addr .. addr + |data|] == data
  {
    var m := Programmed(Erased(mem, from, to), addr, data);
    forall k | 0 <= k < |data|
      ensures m[addr + k] == data[k]
    {
      assert Erased(mem, from, to)[addr + k] == ERASED;
      assert ERASED & data[k] == data[k];
    }
  }

  /** Programming over bytes that are not erased can lose the data: 0x01 programmed with 0x02 reads 0x00. */
  lemma ProgramNeedsErase()
    ensures Programmed([0x01], 0, [0x02]) == [0x00]
  {
    assert Programmed([0x01], 0, [0x02])[0] == 0x01 & 0x02;
  }

  /** Programming two pieces one after the other is programming them joined. */
  lemma {:induction false} ProgramAppend(mem: seq<bv8>, addr: nat, data: seq<bv8>, x: bv8)
    ensures Programmed(Programmed(mem, addr, data), addr + |data|, [x]) == Programmed(mem, addr, data + [x])
  {
    var lhs := Programmed(Programmed(mem, addr, data), addr + |data|, [x]);
    var rhs := Programmed(mem, addr, data + [x]);
    forall i | 0 <= i < |mem|
      ensures lhs[i] == rhs[i]
    {
      if addr <= i < addr + |data| {
        assert (data + [x])[i - addr] == data[i - addr];
      } else if i == addr + |data| {
        assert (data + [x])[i - addr] == x;
      }
    }
  }

  class Flash {
    /** The bytes of the flash. */
    var mem: seq<bv8>
    /** Every operation attempted, oldest first. */
    var ops: seq<Op>

    ghost predicate Valid()
      reads this
    {
      |mem| == FLASH_SIZE
    }

    constructor (contents: seq<bv8>)
      requires |contents| == FLASH_SIZE
      ensures Valid() && mem == contents && ops == []
    {
      mem := contents;
      ops := [];
    }

    /** `blocking_read`: `len` bytes from `addr`. */
    method BlockingRead(addr: nat, len: nat, fault: bool) returns (r: Result<seq<bv8>, Error>)
      requires Valid()
      modifies this
      ensures Valid() && mem == old(mem)
      ensures ops == old(ops) + [ReadOp(addr, len)]
      ensures r == if addr + len > FLASH_SIZE then Err(OutOfBounds)
                   else if fault then Err(Other)
                   else Ok(mem[addr .. addr + len])
    {
      ops := ops + [ReadOp(addr, len)];
      if addr + len > FLASH_SIZE {
        return Err(OutOfBounds);
      }
      if fault {
        return Err(Other);
      }
      r := Ok(mem[addr .. addr + len]);
    }

    /** `blocking_erase`: erases `[from, to)`, which must be whole erase blocks. */
    method BlockingErase(from: nat, to: nat, fault: bool) returns (r: Outcome<Error>)
      requires Valid()
      modifies this
      ensures Valid()
      ensures ops == old(ops) + [EraseOp(from, to)]
      ensures r == if from > to || to > FLASH_SIZE then Fail(OutOfBounds)
                   else if from % ERASE_SIZE != 0 || to % ERASE_SIZE != 0 then Fail(Unaligned)
                   else if fault then Fail(Other)
                   else Pass
      ensures mem == if r.Pass? then Erased(old(mem), from, to) else old(mem)
    {
      ops := ops + [EraseOp(from, to)];
      if from > to || to > FLASH_SIZE {
        return Fail(OutOfBounds);
      }
      if from % ERASE_SIZE != 0 || to % ERASE_SIZE != 0 {
        return Fail(Unaligned);
      }
      if fault {
        return Fail(Other);
      }
      mem := Erased(mem, from, to);
      r := Pass;
    }

    /** `blocking_write`: programs `data` at `addr`. A failed write changes nothing. */
    method BlockingWrite(addr: nat, data: seq<bv8>, fault: bool) returns (r: Outcome<Error>)
      requires Valid()
      modifies this
      ensures Valid()
      ensures ops == old(ops) + [ProgramOp(addr, data)]
      ensures r == if addr + |data| > FLASH_SIZE then Fail(OutOfBounds)
                   else if fault then Fail(Other)
                   else Pass
      ensures mem == if r.Pass? then Programmed(old(mem), addr, data) else old(mem)
    {
      ops := ops + [ProgramOp(addr, data)];
      if addr + |data| > FLASH_SIZE {
        return Fail(OutOfBounds);
      }
      if fault {
        return Fail(Other);
      }
      mem := Programmed(mem, addr, data);
      r := Pass;
    }
  }
}
