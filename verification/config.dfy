/**
 * The persistent configuration (`DbwConfig` and `write_flash` in lib_config.rs):
 * two bytes, the active button and the valet flag, at the start of the erase
 * block that follows `ADDR_OFFSET`.
 */
module Config {
  import opened Wrappers
  import opened FlashDevice

  /** Offset of the reserved area from the start of the flash. */
  const ADDR_OFFSET: nat := 0x100000
  /** Where the config block starts: `ADDR_OFFSET + ERASE_SIZE`. */
  const CONFIG_BASE: nat := ADDR_OFFSET + ERASE_SIZE

  /** What is stored: the discriminant of the active button and the valet flag. */
  datatype DbwConfig = DbwConfig(activeButton: bv8, valetMode: bv8)

  /** Decodes the first two bytes of a block read. */
  function Decode(buf: seq<bv8>): DbwConfig
    requires |buf| >= 2
  {
    DbwConfig(buf[0], buf[1])
  }

  /** `as_array`: the bytes written, active button first. */
  function AsArray(c: DbwConfig): (buf: seq<bv8>)
    ensures |buf| == 2
    ensures Decode(buf) == c
  {
    [c.activeButton, c.valetMode]
  }

  /** Decoding loses nothing of the two stored bytes. */
  lemma EncodeDecode(buf: seq<bv8>)
    requires |buf| >= 2
    ensures AsArray(Decode(buf)) == buf[..2]
  {
  }

  /** The config a successful `read` of `mem` yields. */
  function StoredConfig(mem: seq<bv8>): DbwConfig
    requires |mem| == FLASH_SIZE
  {
    Decode(mem[CONFIG_BASE .. CONFIG_BASE + ERASE_SIZE])
  }

  /** How many of the first `n` byte writes succeed before the first one in `failing`. */
  function WrittenBefore(failing: set<nat>, n: nat): (k: nat)
    ensures k <= n
    ensures forall j :: 0 <= j < k ==> j !in failing
    ensures k < n ==> k in failing
  {
    WrittenFrom(failing, 0, n)
  }

  function WrittenFrom(failing: set<nat>, i: nat, n: nat): (k: nat)
    requires i <= n
    requires forall j :: 0 <= j < i ==> j !in failing
    ensures i <= k <= n
    ensures forall j :: 0 <= j < k ==> j !in failing
    ensures k < n ==> k in failing
    decreases n - i
  {
    if i == n || i in failing then i else WrittenFrom(failing, i + 1, n)
  }

  /** The byte writes `write` attempts for the first `n` bytes of `buf`, one byte each. */
  function ProgramOps(base: nat, buf: seq<bv8>, n: nat): (ops: seq<Op>)
    requires n <= |buf|
    ensures |ops| == n
    ensures forall j :: 0 <= j < n ==> ops[j] == ProgramOp(base + j, [buf[j]])
  {
    if n == 0 then [] else ProgramOps(base, buf, n - 1) + [ProgramOp(base + n - 1, [buf[n - 1]])]
  }

  /** The byte writes `write(config)` attempts: each byte up to and including the first that fails. */
  function WriteOps(config: DbwConfig, failing: set<nat>): (ops: seq<Op>)
    ensures var k := WrittenBefore(failing, 2);
      |ops| == (if k == 2 then 2 else k + 1)
      && forall j :: 0 <= j < |ops| ==> ops[j] == ProgramOp(CONFIG_BASE + j, [AsArray(config)[j]])
  {
    var k := WrittenBefore(failing, 2);
    ProgramOps(CONFIG_BASE, AsArray(config), if k == 2 then 2 else k + 1)
  }

  /** Programming the next byte of `buf` extends the programmed prefix by one. */
  lemma ProgramNext(mem: seq<bv8>, buf: seq<bv8>, i: nat)
    requires i < |buf|
    ensures Programmed(Programmed(mem, CONFIG_BASE, buf[..i]), CONFIG_BASE + i, [buf[i]])
         == Programmed(mem, CONFIG_BASE, buf[..i + 1])
  {
    ProgramAppend(mem, CONFIG_BASE, buf[..i], buf[i]);
    assert buf[..i] + [buf[i]] == buf[..i + 1];
  }

  /**
   * `DbwConfig::read` (lib_config.rs:22-35): reads the whole config block and
   * decodes its first two bytes; a failed read is returned as the error.
   */
  method Read(flash: Flash, fault: bool) returns (r: Result<DbwConfig, Error>)
    requires flash.Valid()
    modifies flash
    ensures flash.Valid() && flash.mem == old(flash.mem)
    ensures flash.ops == old(flash.ops) + [ReadOp(CONFIG_BASE, ERASE_SIZE)]
    ensures r == if fault then Err(Other) else Ok(StoredConfig(flash.mem))
  {
    var read := flash.BlockingRead(CONFIG_BASE, ERASE_SIZE, fault);
    match read {
      case Ok(buf) =>
        r := Ok(DbwConfig(buf[0], buf[1]));
      case Err(e) =>
        r := Err(e);
    }
  }

  /** One `blocking_write` of `write`'s loop: byte `i` of `buf`, extending the programmed prefix when it succeeds. */
  method WriteByte(flash: Flash, ghost start: seq<bv8>, buf: seq<bv8>, i: nat, fault: bool) returns (w: Outcome<Error>)
    requires flash.Valid() && i < |buf| <= 2 && |start| == FLASH_SIZE
    requires flash.mem == Programmed(start, CONFIG_BASE, buf[..i])
    modifies flash
    ensures flash.Valid()
    ensures w == if fault then Fail(Other) else Pass
    ensures flash.mem == if fault then old(flash.mem) else Programmed(start, CONFIG_BASE, buf[..i + 1])
    ensures flash.ops == old(flash.ops) + [ProgramOp(CONFIG_BASE + i, [buf[i]])]
  {
    w := flash.BlockingWrite(CONFIG_BASE + i, [buf[i]], fault);
    ProgramNext(start, buf, i);
  }

  /**
   * `DbwConfig::write` (lib_config.rs:37-55): writes the two bytes one at a
   * time at consecutive addresses and stops at the first failed write.
   * `failing` holds the indices of the byte writes the hardware rejects.
   */
  method Write(flash: Flash, config: DbwConfig, failing: set<nat>) returns (r: Outcome<Error>)
    requires flash.Valid()
    modifies flash
    ensures flash.Valid()
    ensures var k := WrittenBefore(failing, 2);
      && r == (if k == 2 then Pass else Fail(Other))
      && flash.mem == Programmed(old(flash.mem), CONFIG_BASE, AsArray(config)[..k])
      && flash.ops == old(flash.ops) + WriteOps(config, failing)
  {
    var buf := AsArray(config);
    var j := 0;
    for i := 0 to |buf|
      invariant flash.Valid()
      invariant j == i
      invariant forall n :: 0 <= n < i ==> n !in failing
      invariant flash.mem == Programmed(old(flash.mem), CONFIG_BASE, buf[..i])
      invariant flash.ops == old(flash.ops) + ProgramOps(CONFIG_BASE, buf, i)
    {
      var w := WriteByte(flash, old(flash.mem), buf, j, i in failing);
      if w.Fail? {
        assert WrittenBefore(failing, 2) == i;
        return Fail(w.error);
      }
      j := j + 1;
    }
    assert buf[..2] == buf;
    r := Pass;
  }

  /** What hardware failures hit one `write_flash`. */
  datatype Faults = Faults(readBefore: bool, erase: bool, program: set<nat>, readAfter: bool)

  /** The flash contents after `write_flash(config)` under `faults`. */
  function AfterWriteFlash(mem: seq<bv8>, config: DbwConfig, faults: Faults): (m: seq<bv8>)
    requires |mem| == FLASH_SIZE
    ensures |m| == FLASH_SIZE
  {
    var erased := if faults.erase then mem else Erased(mem, CONFIG_BASE, CONFIG_BASE + ERASE_SIZE);
    Programmed(erased, CONFIG_BASE, AsArray(config)[..WrittenBefore(faults.program, 2)])
  }

  /** When the erase and both byte writes succeed, a later read returns the config written. */
  lemma WriteThenRead(mem: seq<bv8>, config: DbwConfig, faults: Faults)
    requires |mem| == FLASH_SIZE
    requires !faults.erase && 0 !in faults.program && 1 !in faults.program
    ensures StoredConfig(AfterWriteFlash(mem, config, faults)) == config
  {
    var buf := AsArray(config);
    assert WrittenBefore(faults.program, 2) == 2;
    assert buf[..2] == buf;
    ProgramErased(mem, CONFIG_BASE, CONFIG_BASE + ERASE_SIZE, CONFIG_BASE, buf);
    var m := AfterWriteFlash(mem, config, faults);
    assert m[CONFIG_BASE .. CONFIG_BASE + 2] == buf;
    assert m[CONFIG_BASE .. CONFIG_BASE + ERASE_SIZE][0] == m[CONFIG_BASE];
    assert m[CONFIG_BASE .. CONFIG_BASE + ERASE_SIZE][1] == m[CONFIG_BASE + 1];
  }

  /** Whatever fails, `write_flash` never changes a byte outside the config block. */
  lemma WriteFlashStaysInBlock(mem: seq<bv8>, config: DbwConfig, faults: Faults, i: nat)
    requires |mem| == FLASH_SIZE
    requires i < FLASH_SIZE && !(CONFIG_BASE <= i < CONFIG_BASE + ERASE_SIZE)
    ensures AfterWriteFlash(mem, config, faults)[i] == mem[i]
  {
  }

  /** The erase of the config block and the `write` that follows it, as `write_flash` makes them. */
  method EraseAndWrite(flash: Flash, config: DbwConfig, faults: Faults)
    requires flash.Valid()
    modifies flash
    ensures flash.Valid()
    ensures flash.mem == AfterWriteFlash(old(flash.mem), config, faults)
    ensures flash.ops == old(flash.ops) + [EraseOp(CONFIG_BASE, CONFIG_BASE + ERASE_SIZE)] + WriteOps(config, faults.program)
  {
    assert CONFIG_BASE % ERASE_SIZE == 0 && (CONFIG_BASE + ERASE_SIZE) % ERASE_SIZE == 0;
    var erase := flash.BlockingErase(CONFIG_BASE, CONFIG_BASE + ERASE_SIZE, faults.erase);
    assert erase.Pass? <==> !faults.erase;
    var written := Write(flash, config, faults.program);
  }

  /**
   * `write_flash` (lib_config.rs:58-83): read, erase the config block, write,
   * read again. Every failure is only logged; nothing is returned.
   */
  method WriteFlash(flash: Flash, config: DbwConfig, faults: Faults)
    requires flash.Valid()
    modifies flash
    ensures flash.Valid()
    ensures flash.mem == AfterWriteFlash(old(flash.mem), config, faults)
    ensures flash.ops == old(flash.ops) + [ReadOp(CONFIG_BASE, ERASE_SIZE)] + [EraseOp(CONFIG_BASE, CONFIG_BASE + ERASE_SIZE)]
                         + WriteOps(config, faults.program) + [ReadOp(CONFIG_BASE, ERASE_SIZE)]
  {
    var before := Read(flash, faults.readBefore);
    EraseAndWrite(flash, config, faults);
    var after := Read(flash, faults.readAfter);
  }
}
