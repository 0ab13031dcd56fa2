/** The :MOVE Motor buggy's motor driver: a PCA9632 PWM chip on the I2C bus
    at address 0x62 whose four PWM registers drive the two motors, one
    forward and one reverse channel per motor.  A signed speed becomes two
    register writes: the magnitude, saturated at 255, into the channel of
    the speed's direction, and 0 into the other channel.
 */
module KitronikMOVEMotor {
  import opened I2C

  /** Bus address of the PCA9632. */
  const ChipAddr: Byte := 0x62
  const Mode1RegAddr: Byte := 0x00
  const Mode2RegAddr: Byte := 0x01
  /** The LEDOUT register: how each output is driven. */
  const MotorOutAddr: Byte := 0x08
  /** Normal mode, no sub-address response. */
  const Mode1RegValue: Byte := 0x00
  /** Outputs change on ACK, open-drain. */
  const Mode2RegValue: Byte := 0x04
  /** All four outputs follow their PWM registers. */
  const MotorOutValue: Byte := 0xAA
  /** The lower of each motor's two PWM register addresses. */
  const LeftMotorReg: Byte := 0x04
  const RightMotorReg: Byte := 0x02

  datatype Motor = Left | Right

  function Other(m: Motor): Motor
  {
    match m
    case Left => Right
    case Right => Left
  }

  function Abs(x: int): nat
  {
    if x < 0 then -x else x
  }

  /** The PWM duty a speed asks for: its magnitude, saturated at 255. */
  function Clamp(speed: int): (r: Byte)
    ensures r <= Abs(speed)
    ensures r == Abs(speed) <==> Abs(speed) <= 255
    ensures r == 255 <==> Abs(speed) >= 255
    ensures r == 0 <==> speed == 0
  {
    if Abs(speed) > 255 then 255 else Abs(speed)
  }

  /** The register that drives motor `m` forwards.  The two motors are
      wired in opposite senses: the left motor's forward channel is the
      lower of its pair, the right motor's the upper. */
  function ForwardReg(m: Motor): Byte
  {
    match m
    case Left => LeftMotorReg
    case Right => RightMotorReg + 1
  }

  /** The register that drives motor `m` backwards. */
  function ReverseReg(m: Motor): Byte
  {
    match m
    case Left => LeftMotorReg + 1
    case Right => RightMotorReg
  }

  /** A positive speed drives the forward channel; zero and negative
      speeds drive the reverse channel. */
  function DrivenReg(m: Motor, speed: int): Byte
  {
    if speed > 0 then ForwardReg(m) else ReverseReg(m)
  }

  function GroundedReg(m: Motor, speed: int): Byte
  {
    if speed > 0 then ReverseReg(m) else ForwardReg(m)
  }

  /** An addressed register write to the chip, without repeated start. */
  function ChipWrite(reg: Byte, value: Byte): I2CWrite
  {
    I2CWrite(ChipAddr, reg, value, false)
  }

  /** The bus traffic of one motor command. */
  function MotorWrites(m: Motor, speed: int): seq<I2CWrite>
  {
    [ChipWrite(DrivenReg(m, speed), Clamp(speed)), ChipWrite(GroundedReg(m, speed), 0)]
  }

  /** The bus traffic of stopping both motors. */
  function StopWrites(): seq<I2CWrite>
  {
    [ChipWrite(LeftMotorReg, 0), ChipWrite(LeftMotorReg + 1, 0),
     ChipWrite(RightMotorReg, 0), ChipWrite(RightMotorReg + 1, 0)]
  }

  /** The bus traffic of setting the chip up. */
  function InitWrites(): seq<I2CWrite>
  {
    [ChipWrite(Mode1RegAddr, Mode1RegValue), ChipWrite(Mode2RegAddr, Mode2RegValue),
     ChipWrite(MotorOutAddr, MotorOutValue)]
  }

  /** The chip's register file after the writes `ws`. */
  function After(regs: map<Byte, Byte>, ws: seq<I2CWrite>): map<Byte, Byte>
  {
    Apply(ChipAddr, regs, ws)
  }

  /** A speed beyond full scale in either direction produces exactly the
      writes of full scale in that direction. */
  lemma MotorCommandSaturates(m: Motor, speed: int)
    ensures speed > 255 ==> MotorWrites(m, speed) == MotorWrites(m, 255)
    ensures speed < -255 ==> MotorWrites(m, speed) == MotorWrites(m, -255)
  {
  }

  /** A motor command is exactly two writes to the chip: first the
      saturated magnitude into the channel of the speed's direction, then
      0 into the motor's other channel. */
  lemma MotorCommandShape(m: Motor, speed: int)
    ensures |MotorWrites(m, speed)| == 2
    ensures forall w :: w in MotorWrites(m, speed) ==> w.addr == ChipAddr && !w.repeat
    ensures MotorWrites(m, speed)[0].reg == (if speed > 0 then ForwardReg(m) else ReverseReg(m))
    ensures MotorWrites(m, speed)[0].value == Clamp(speed)
    ensures MotorWrites(m, speed)[1].reg == (if speed > 0 then ReverseReg(m) else ForwardReg(m))
    ensures MotorWrites(m, speed)[1].value == 0
    ensures MotorWrites(m, speed)[0].reg != MotorWrites(m, speed)[1].reg
  {
  }

  /** After a motor command, the motor's forward channel holds the duty
      when the speed is positive and 0 otherwise, its reverse channel holds
      the duty when the speed is not positive and 0 otherwise, and every
      other register is as it was. */
  lemma MotorCommandEffect(m: Motor, regs: map<Byte, Byte>, speed: int)
    ensures Read(After(regs, MotorWrites(m, speed)), ForwardReg(m)) ==
            Some(if speed > 0 then Clamp(speed) else 0)
    ensures Read(After(regs, MotorWrites(m, speed)), ReverseReg(m)) ==
            Some(if speed > 0 then 0 else Clamp(speed))
    ensures forall reg: Byte :: reg != ForwardReg(m) && reg != ReverseReg(m) ==>
              Read(After(regs, MotorWrites(m, speed)), reg) == Read(regs, reg)
  {
    var ws := MotorWrites(m, speed);
    ApplyPair(ChipAddr, regs, ws[0], ws[1]);
  }

  /** A motor command leaves the other motor's channels and the mode and
      output-control registers untouched. */
  lemma MotorCommandIsolated(m: Motor, regs: map<Byte, Byte>, speed: int)
    ensures Read(After(regs, MotorWrites(m, speed)), ForwardReg(Other(m))) == Read(regs, ForwardReg(Other(m)))
    ensures Read(After(regs, MotorWrites(m, speed)), ReverseReg(Other(m))) == Read(regs, ReverseReg(Other(m)))
    ensures Read(After(regs, MotorWrites(m, speed)), Mode1RegAddr) == Read(regs, Mode1RegAddr)
    ensures Read(After(regs, MotorWrites(m, speed)), Mode2RegAddr) == Read(regs, Mode2RegAddr)
    ensures Read(After(regs, MotorWrites(m, speed)), MotorOutAddr) == Read(regs, MotorOutAddr)
  {
    MotorCommandEffect(m, regs, speed);
  }

  /** After a motor command at most one of the motor's channels is
      nonzero: the forward one exactly when the speed is positive, the
      reverse one exactly when it is negative.  Speed 0 leaves both at 0. */
  lemma MotorChannelsExclusive(m: Motor, regs: map<Byte, Byte>, speed: int)
    ensures Read(After(regs, MotorWrites(m, speed)), ForwardReg(m)) == Some(0) ||
            Read(After(regs, MotorWrites(m, speed)), ReverseReg(m)) == Some(0)
    ensures Read(After(regs, MotorWrites(m, speed)), ForwardReg(m)) != Some(0) <==> speed > 0
    ensures Read(After(regs, MotorWrites(m, speed)), ReverseReg(m)) != Some(0) <==> speed < 0
  {
    MotorCommandEffect(m, regs, speed);
  }

  /** A motor command overwrites both of the motor's channels, so only the
      last command given to a motor matters. */
  lemma MotorCommandOverrides(m: Motor, regs: map<Byte, Byte>, first: int, second: int)
    ensures After(After(regs, MotorWrites(m, first)), MotorWrites(m, second)) ==
            After(regs, MotorWrites(m, second))
  {
    var mid := After(regs, MotorWrites(m, first));
    MotorCommandEffect(m, regs, first);
    MotorCommandEffect(m, mid, second);
    MotorCommandEffect(m, regs, second);
    ReadExtensional(After(mid, MotorWrites(m, second)), After(regs, MotorWrites(m, second)));
  }

  /** Repeating a motor command leaves the registers as one command did. */
  lemma MotorCommandIdempotent(m: Motor, regs: map<Byte, Byte>, speed: int)
    ensures After(After(regs, MotorWrites(m, speed)), MotorWrites(m, speed)) ==
            After(regs, MotorWrites(m, speed))
  {
    ApplyIdempotent(ChipAddr, regs, MotorWrites(m, speed));
  }

  /** Stopping zeroes all four motor channels and nothing else. */
  lemma StopMotorsEffect(regs: map<Byte, Byte>)
    ensures forall m: Motor :: Read(After(regs, StopWrites()), ForwardReg(m)) == Some(0)
    ensures forall m: Motor :: Read(After(regs, StopWrites()), ReverseReg(m)) == Some(0)
    ensures forall reg: Byte :: reg !in {ForwardReg(Left), ReverseReg(Left), ForwardReg(Right), ReverseReg(Right)} ==>
              Read(After(regs, StopWrites()), reg) == Read(regs, reg)
  {
  }

  /** Stopping both motors leaves the chip as commanding speed 0 to the
      left motor and then to the right motor does. */
  lemma StopEqualsZeroSpeed(regs: map<Byte, Byte>)
    ensures After(regs, StopWrites()) == After(After(regs, MotorWrites(Left, 0)), MotorWrites(Right, 0))
  {
  }

  /** Stopping twice leaves the registers as stopping once did. */
  lemma StopIdempotent(regs: map<Byte, Byte>)
    ensures After(After(regs, StopWrites()), StopWrites()) == After(regs, StopWrites())
  {
  }

  /** Set-up programs MODE1, MODE2 and LEDOUT to their fixed values and
      touches no other register. */
  lemma InitEffect(regs: map<Byte, Byte>)
    ensures Read(After(regs, InitWrites()), Mode1RegAddr) == Some(Mode1RegValue)
    ensures Read(After(regs, InitWrites()), Mode2RegAddr) == Some(Mode2RegValue)
    ensures Read(After(regs, InitWrites()), MotorOutAddr) == Some(MotorOutValue)
    ensures forall reg: Byte :: reg !in {Mode1RegAddr, Mode2RegAddr, MotorOutAddr} ==>
              Read(After(regs, InitWrites()), reg) == Read(regs, reg)
  {
  }

  /** The buggy's motor driver.  It keeps no state of its own: every
      command is a sequence of writes on the bus to the chip. */
  class MOVEMotor {
    const bus: Bus

    ghost predicate Valid()
      reads this, bus
    {
      bus.Valid() && bus.device == ChipAddr
    }

    /** Program MODE1, MODE2 and LEDOUT so that all four outputs are under
        PWM register control. */
    constructor (bus: Bus)
      requires bus.Valid() && bus.device == ChipAddr
      modifies bus
      ensures this.bus == bus && Valid()
      ensures bus.log == old(bus.log) + InitWrites()
      ensures bus.regs == After(old(bus.regs), InitWrites())
    {
      this.bus := bus;
      new;
      var buffer := new Byte[2];
      buffer[0] := Mode1RegAddr;
      buffer[1] := Mode1RegValue;
      bus.Write(ChipAddr, buffer, false);
      buffer[0] := Mode2RegAddr;
      buffer[1] := Mode2RegValue;
      bus.Write(ChipAddr, buffer, false);
      buffer[0] := MotorOutAddr;
      buffer[1] := MotorOutValue;
      bus.Write(ChipAddr, buffer, false);
    }

    /** Drive the left motor at `speed`, -255 (full reverse) to 255 (full
        forward); larger magnitudes saturate. */
    method LeftMotor(speed: int)
      requires Valid()
      modifies bus
      ensures Valid()
      ensures bus.log == old(bus.log) + MotorWrites(Left, speed)
      ensures bus.regs == After(old(bus.regs), MotorWrites(Left, speed))
      ensures Read(bus.regs, LeftMotorReg) == Some(if speed > 0 then Clamp(speed) else 0)
      ensures Read(bus.regs, LeftMotorReg + 1) == Some(if speed > 0 then 0 else Clamp(speed))
      ensures forall reg: Byte :: reg != LeftMotorReg && reg != LeftMotorReg + 1 ==>
                Read(bus.regs, reg) == Read(old(bus.regs), reg)
    {
      var motorBuffer := new Byte[2];
      var gndPinBuffer := new Byte[2];
      if Abs(speed) > 255 {
        motorBuffer[1] := 255;
      } else {
        motorBuffer[1] := Abs(speed);
      }
      gndPinBuffer[1] := 0x00;
      if speed > 0 {
        motorBuffer[0] := LeftMotorReg;
        gndPinBuffer[0] := LeftMotorReg + 1;
      } else {
        motorBuffer[0] := LeftMotorReg + 1;
        gndPinBuffer[0] := LeftMotorReg;
      }
      bus.Write(ChipAddr, motorBuffer, false);
      bus.Write(ChipAddr, gndPinBuffer, false);
      ApplyPair(ChipAddr, old(bus.regs), MotorWrites(Left, speed)[0], MotorWrites(Left, speed)[1]);
      MotorCommandEffect(Left, old(bus.regs), speed);
    }

    /** Drive the right motor at `speed`, -255 (full reverse) to 255 (full
        forward); larger magnitudes saturate. */
    method RightMotor(speed: int)
      requires Valid()
      modifies bus
      ensures Valid()
      ensures bus.log == old(bus.log) + MotorWrites(Right, speed)
      ensures bus.regs == After(old(bus.regs), MotorWrites(Right, speed))
      ensures Read(bus.regs, RightMotorReg + 1) == Some(if speed > 0 then Clamp(speed) else 0)
      ensures Read(bus.regs, RightMotorReg) == Some(if speed > 0 then 0 else Clamp(speed))
      ensures forall reg: Byte :: reg != RightMotorReg && reg != RightMotorReg + 1 ==>
                Read(bus.regs, reg) == Read(old(bus.regs), reg)
    {
      var motorBuffer := new Byte[2];
      var gndPinBuffer := new Byte[2];
      if Abs(speed) > 255 {
        motorBuffer[1] := 255;
      } else {
        motorBuffer[1] := Abs(speed);
      }
      gndPinBuffer[1] := 0x00;
      if speed > 0 {
        motorBuffer[0] := RightMotorReg + 1;
        gndPinBuffer[0] := RightMotorReg;
      } else {
        motorBuffer[0] := RightMotorReg;
        gndPinBuffer[0] := RightMotorReg + 1;
      }
      bus.Write(ChipAddr, motorBuffer, false);
      bus.Write(ChipAddr, gndPinBuffer, false);
      ApplyPair(ChipAddr, old(bus.regs), MotorWrites(Right, speed)[0], MotorWrites(Right, speed)[1]);
      MotorCommandEffect(Right, old(bus.regs), speed);
    }

    /** Stop both motors by zeroing all four motor channels. */
    method StopMotors()
      requires Valid()
      modifies bus
      ensures Valid()
      ensures bus.log == old(bus.log) + StopWrites()
      ensures bus.regs == After(old(bus.regs), StopWrites())
      ensures bus.regs == After(After(old(bus.regs), MotorWrites(Left, 0)), MotorWrites(Right, 0))
    {
      var stopBuffer := new Byte[2];
      stopBuffer[0] := LeftMotorReg;
      stopBuffer[1] := 0x00;
      bus.Write(ChipAddr, stopBuffer, false);
      stopBuffer[0] := LeftMotorReg + 1;
      bus.Write(ChipAddr, stopBuffer, false);
      stopBuffer[0] := RightMotorReg;
      bus.Write(ChipAddr, stopBuffer, false);
      stopBuffer[0] := RightMotorReg + 1;
      bus.Write(ChipAddr, stopBuffer, false);
      StopEqualsZeroSpeed(old(bus.regs));
    }
  }
}
