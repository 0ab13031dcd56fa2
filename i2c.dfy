/** An abstract two-wire bus with one register-addressed device on it.
    Every write is recorded in a log; a write addressed to the device also
    updates the device's register file.  A write is a two-byte buffer:
    the register address followed by the value stored there.
 */
module I2C {

  /** A bus byte; also the type of a 7-bit device address. */
  type Byte = x: int | 0 <= x < 256

  datatype Option<T> = None | Some(value: T)

  /** One bus transaction: device address, the two bytes sent
      (register, value) and the repeated-start flag. */
  datatype I2CWrite = I2CWrite(addr: Byte, reg: Byte, value: Byte, repeat: bool)

  /** The value held in register `reg`, if the register file has one. */
  function Read(regs: map<Byte, Byte>, reg: Byte): Option<Byte>
  {
    if reg in regs then Some(regs[reg]) else None
  }

  /** Does `w` store into register `reg` of the device at `device`? */
  predicate Hits(w: I2CWrite, device: Byte, reg: Byte)
  {
    w.addr == device && w.reg == reg
  }

  /** The effect of one write on the register file of the device at `device`:
      writes to any other address leave it as it was. */
  function Step(device: Byte, regs: map<Byte, Byte>, w: I2CWrite): map<Byte, Byte>
  {
    if w.addr == device then regs[w.reg := w.value] else regs
  }

  /** The register file after the writes `ws`, performed in order. */
  function Apply(device: Byte, regs: map<Byte, Byte>, ws: seq<I2CWrite>): map<Byte, Byte>
    decreases |ws|
  {
    if ws == [] then regs else Apply(device, Step(device, regs, ws[0]), ws[1..])
  }

  /** Reference view of a write sequence, independent of any starting state:
      the value of the last write in `ws` into register `reg`, if any. */
  function LastWrite(device: Byte, ws: seq<I2CWrite>, reg: Byte): (r: Option<Byte>)
    ensures r.None? <==> forall i :: 0 <= i < |ws| ==> !Hits(ws[i], device, reg)
    decreases |ws|
  {
    if ws == [] then None
    else
      var later := LastWrite(device, ws[1..], reg);
      if later.Some? then later
      else if Hits(ws[0], device, reg) then Some(ws[0].value)
      else None
  }

  /** The position in `ws` of the write whose value `LastWrite` reports:
      a write into `reg`, and no later one is. */
  function LastIndex(device: Byte, ws: seq<I2CWrite>, reg: Byte): (i: nat)
    requires LastWrite(device, ws, reg).Some?
    ensures i < |ws| && Hits(ws[i], device, reg) && ws[i].value == LastWrite(device, ws, reg).value
    ensures forall j :: i < j < |ws| ==> !Hits(ws[j], device, reg)
    decreases |ws|
  {
    if LastWrite(device, ws[1..], reg).Some? then 1 + LastIndex(device, ws[1..], reg) else 0
  }

  /** Performing two write sequences one after the other is performing
      their concatenation. */
  lemma {:induction false} ApplyAppend(device: Byte, regs: map<Byte, Byte>, a: seq<I2CWrite>, b: seq<I2CWrite>)
    ensures Apply(device, regs, a + b) == Apply(device, Apply(device, regs, a), b)
    decreases |a|
  {
    if a != [] {
      assert (a + b)[0] == a[0];
      assert (a + b)[1..] == a[1..] + b;
      ApplyAppend(device, Step(device, regs, a[0]), a[1..], b);
    } else {
      assert a + b == b;
    }
  }

  /** Two writes in a row. */
  lemma ApplyPair(device: Byte, regs: map<Byte, Byte>, first: I2CWrite, second: I2CWrite)
    ensures Apply(device, regs, [first, second]) == Step(device, Step(device, regs, first), second)
  {
    var mid := Step(device, regs, first);
    assert [first, second][1..] == [second];
    assert Apply(device, regs, [first, second]) == Apply(device, mid, [second]);
    assert [second][1..] == [];
    assert Apply(device, mid, [second]) == Apply(device, Step(device, mid, second), []);
  }

  /** Register by register, the file after `ws` holds the last value `ws`
      wrote there, and the old contents where `ws` wrote nothing. */
  lemma {:induction false} ApplyAt(device: Byte, regs: map<Byte, Byte>, ws: seq<I2CWrite>, reg: Byte)
    ensures Read(Apply(device, regs, ws), reg) ==
            if LastWrite(device, ws, reg).Some? then LastWrite(device, ws, reg) else Read(regs, reg)
    decreases |ws|
  {
    if ws != [] {
      ApplyAt(device, Step(device, regs, ws[0]), ws[1..], reg);
    }
  }

  /** Replaying a write sequence a second time changes nothing more:
      each register ends with the last value written to it either way. */
  lemma ApplyIdempotent(device: Byte, regs: map<Byte, Byte>, ws: seq<I2CWrite>)
    ensures Apply(device, Apply(device, regs, ws), ws) == Apply(device, regs, ws)
  {
    var once := Apply(device, regs, ws);
    var twice := Apply(device, once, ws);
    forall reg: Byte
      ensures Read(twice, reg) == Read(once, reg)
    {
      ApplyAt(device, once, ws, reg);
      ApplyAt(device, regs, ws, reg);
    }
    ReadExtensional(twice, once);
  }

  /** Two register files that read alike at every register are equal. */
  lemma ReadExtensional(a: map<Byte, Byte>, b: map<Byte, Byte>)
    requires forall reg: Byte :: Read(a, reg) == Read(b, reg)
    ensures a == b
  {
    forall reg: Byte | reg in a ensures reg in b && a[reg] == b[reg] {
      assert Read(a, reg) == Read(b, reg);
    }
    forall reg: Byte | reg in b ensures reg in a {
      assert Read(a, reg) == Read(b, reg);
    }
  }

  /** The bus, seen from the device at `device`: its register file and the
      log of every write put on the bus since power-on. */
  class Bus {
    const device: Byte
    ghost const powerOn: map<Byte, Byte>
    var regs: map<Byte, Byte>
    var log: seq<I2CWrite>

    /** The register file is exactly what the logged writes made of the
        power-on contents. */
    ghost predicate Valid()
      reads this
    {
      regs == Apply(device, powerOn, log)
    }

    constructor (device: Byte, powerOn: map<Byte, Byte>)
      ensures Valid()
      ensures this.device == device && this.powerOn == powerOn
      ensures regs == powerOn && log == []
    {
      this.device := device;
      this.powerOn := powerOn;
      regs := powerOn;
      log := [];
    }

    /** Send the two-byte buffer `buf` (register, value) to address `addr`. */
    method Write(addr: Byte, buf: array<Byte>, repeat: bool)
      requires Valid()
      requires buf.Length == 2
      modifies this
      ensures Valid()
      ensures log == old(log) + [I2CWrite(addr, buf[0], buf[1], repeat)]
      ensures regs == Step(device, old(regs), I2CWrite(addr, buf[0], buf[1], repeat))
    {
      var w := I2CWrite(addr, buf[0], buf[1], repeat);
      ApplyAppend(device, powerOn, log, [w]);
      assert Apply(device, regs, [w]) == Step(device, regs, w);
      regs := Step(device, regs, w);
      log := log + [w];
    }
  }
}
