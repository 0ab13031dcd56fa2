# Kitronik :MOVE Motor — register-driven motor driver

A model of `KitronikMOVEMotor.py`, the micro:bit library that drives the two
motors of the Kitronik :MOVE Motor buggy through a PCA9632 PWM chip at I2C
address 0x62. The chip has four PWM registers, 0x02 to 0x05, and each motor
owns two of them: one drives it forwards and one drives it backwards.

- Set-up (`MOVEMotor.__init__`) writes three fixed values to the chip:
  MODE1 := 0x00, MODE2 := 0x04 and LEDOUT (0x08) := 0xAA.
- `LeftMotor(speed)` and `RightMotor(speed)` take a signed speed. The
  magnitude is saturated at 255. It is written into the channel of the
  speed's direction, and then 0 is written into the motor's other channel.
  Speed 0 follows the "backwards" branch: it writes 0 into the reverse
  channel and then 0 into the forward channel.
- The two motors are wired in opposite senses. The left motor's forward
  channel is 0x04 and its reverse channel 0x05. The right motor's forward
  channel is 0x03 and its reverse channel 0x02.
- `StopMotors()` writes 0 to 0x04, 0x05, 0x02 and 0x03, in that order.

The model has two modules.

- `I2C` (`i2c.dfy`) stands in for the micro:bit's `i2c` object. A `Bus`
  holds the register file of the one device on it (a `map` from register
  to byte) and a log of every write put on the bus. `Bus.Write` sends a
  two-byte buffer (register, value), as the library's `bytearray(2)`
  buffers are. Its invariant `Valid()` says that the register file is
  exactly what the logged writes made of the power-on contents. `Apply`
  replays a write sequence on a register file. `LastWrite` is an
  independent reference view: the value of the last write into a given
  register. `ApplyAt` proves that the two views agree.
- `KitronikMOVEMotor` (`kitronik_move_motor.dfy`) holds the library's
  constants and a class `MOVEMotor`. Its constructor and its three methods
  fill `array<Byte>` buffers slot by slot and write them to the bus, as the
  source does. Each method is proved against a pure function that gives
  its bus traffic: `MotorWrites(m, speed)`, `StopWrites()` or
  `InitWrites()`. The method's `ensures` state the new log and the new
  register file in terms of that function. The properties of the traffic
  are lemmas about those functions.

The Python class keeps no fields and uses a global `i2c`. In the model,
`MOVEMotor` holds the bus it writes to as a `const` given to its
constructor. The bus has no failure path, because the library has none.

## Model

| member | source | states |
|---|---|---|
| `KitronikMOVEMotor.Clamp` | KitronikMOVEMotor.py:61-64 | the duty written is at most the speed's magnitude, always lies in 0..255, equals the magnitude exactly when that is at most 255, is 255 exactly when the magnitude is at least 255, and is 0 exactly for speed 0 |
| `KitronikMOVEMotor.MotorCommandSaturates` | KitronikMOVEMotor.py:81-84 | a speed above 255 gives the same writes as 255, and a speed below -255 the same writes as -255, for either motor |
| `KitronikMOVEMotor.MotorCommandShape` | KitronikMOVEMotor.py:65-74 | a motor command is exactly two writes to 0x62 without repeated start: the duty into the forward channel if the speed is positive and the reverse channel otherwise, then 0 into the motor's other channel, at two distinct registers |
| `KitronikMOVEMotor.MotorCommandEffect` | KitronikMOVEMotor.py:85-96 | after a command the motor's forward register holds the duty if the speed is positive and 0 otherwise, its reverse register holds 0 if the speed is positive and the duty otherwise, and every other register is unchanged |
| `KitronikMOVEMotor.MotorCommandIsolated` | KitronikMOVEMotor.py:73-74 | a command to one motor leaves the other motor's two registers and MODE1, MODE2 and LEDOUT unchanged |
| `KitronikMOVEMotor.MotorChannelsExclusive` | KitronikMOVEMotor.py:65-72 | after a command at least one of the motor's channels is 0; the forward channel is nonzero exactly when the speed is positive and the reverse channel exactly when it is negative, so speed 0 leaves both at 0 |
| `KitronikMOVEMotor.MotorCommandOverrides` | KitronikMOVEMotor.py:58-74 | a command to a motor after another one to the same motor leaves the registers as the second command alone does |
| `KitronikMOVEMotor.MotorCommandIdempotent` | KitronikMOVEMotor.py:77-96 | giving the same motor command twice leaves the registers as giving it once does |
| `KitronikMOVEMotor.StopMotorsEffect` | KitronikMOVEMotor.py:99-109 | stopping leaves all four motor registers at 0 and every other register unchanged |
| `KitronikMOVEMotor.StopEqualsZeroSpeed` | KitronikMOVEMotor.py:98-109 | the register file after stopping equals that after speed 0 to the left motor and then speed 0 to the right motor |
| `KitronikMOVEMotor.StopIdempotent` | KitronikMOVEMotor.py:99-109 | stopping twice leaves the registers as stopping once does |
| `KitronikMOVEMotor.InitEffect` | KitronikMOVEMotor.py:30-35 | set-up leaves MODE1 at 0x00, MODE2 at 0x04 and LEDOUT at 0xAA and every other register unchanged |
| `KitronikMOVEMotor.MOVEMotor.constructor` | KitronikMOVEMotor.py:43-54 | set-up appends exactly the writes 0x00 := 0x00, 0x01 := 0x04, 0x08 := 0xAA to the log, in that order, and the register file becomes the old one with those writes applied |
| `KitronikMOVEMotor.MOVEMotor.LeftMotor` | KitronikMOVEMotor.py:58-74 | appends exactly the left motor's command traffic to the log; afterwards 0x04 holds the duty if the speed is positive and 0 otherwise, 0x05 holds 0 if the speed is positive and the duty otherwise, and all other registers are unchanged |
| `KitronikMOVEMotor.MOVEMotor.RightMotor` | KitronikMOVEMotor.py:77-96 | appends exactly the right motor's command traffic to the log; afterwards 0x03 holds the duty if the speed is positive and 0 otherwise, 0x02 holds 0 if the speed is positive and the duty otherwise, and all other registers are unchanged |
| `KitronikMOVEMotor.MOVEMotor.StopMotors` | KitronikMOVEMotor.py:99-109 | appends exactly the writes of 0 to 0x04, 0x05, 0x02, 0x03, in that order, to the log; the register file ends as after speed 0 to the left motor and then to the right |
| `I2C.Bus.Write` | KitronikMOVEMotor.py:73-74 | a write of a two-byte buffer appends one entry to the log and stores the value into the register of the device it is addressed to, keeping the register file equal to the replay of the log |
| `I2C.ApplyAt` | KitronikMOVEMotor.py:103-109 | after a sequence of register writes, each register holds the value of the last write into it, or its old contents if nothing was written there |
| `I2C.ApplyIdempotent` | KitronikMOVEMotor.py:99-109 | replaying any write sequence a second time leaves the register file as one replay did |

## Left out

- `MOVEMotor.py`, the demo program: an endless loop that only sequences
  motor calls, sleeps, plays music and lights the headlights.
- The real I2C transport: acknowledgement, bus errors and timing. A write
  always succeeds, because the library has no error path.
- I2C.Bus.Write: models two-byte buffers only, because every write in the
  library is a `bytearray(2)`; longer writes with the chip's register
  auto-increment are not modelled.
- Non-integer speeds. The library's `math.fabs` and `int()` truncation of
  a float speed are not modelled; a speed is an `int`, whose magnitude is
  exactly the truncated absolute value.
- What the PCA9632 registers mean electrically (PWM frequency, open-drain
  outputs). Registers are plain bytes.
- Hardware-revision detection, a single-wire LED-protocol motor backend,
  brake flags, servo control and indicator LEDs. None of these exists in
  `KitronikMOVEMotor.py`; it drives only the register chip, for which it
  has no detection and no failure signal.
