# Crown-Robot hexapod firmware: calibration console and leg kinematics

A Dafny model of two parts of the Crown-Robot (RoBoy) hexapod firmware, with
proofs about that model.

- **The calibration console** (`usb_connection.c`):
  - the global 6 x 3 table `servo_calibrated_value` of signed servo trims (coxa, tibia, femur for each leg);
  - the menu steps `calibrate_servo` and `set_leg_calibration`, which adjust one trim by a number read from the console;
  - the loop of `flash_data_to_memory`, which lays the table into the page buffer;
  - the values the two status screens show (`crown_robot_servo_angle_status` and `leg_calibration_status`);
  - the line reader `get_char_from_tinyusb`.
- **The per-leg inverse kinematics** (`movement/kinematics.cpp`):
  - the hard-coded trims `servo_state`;
  - the `Kinematics` constructor;
  - `Kinematics::endpoint`, which solves one leg's joint angles for a target point and writes the trimmed commands to three channels of the 18-channel servo cluster.

Files:

- `layout.dfy` (module `Layout`): the 6 legs x 3 joints layout. It defines the flat index `3 * leg + joint`, which the flash image and the servo channels both use, and proves that it is a bijection onto 0..17.
- `decimal.dfy` (module `Decimal`): the decimal text the console reads and writes.
  - `Atoi` is `atoi` as section 7.22.1.2 of ISO C11 defines it (through `strtol` with base 10, section 7.22.1.4). It skips leading white space, takes an optional sign, then the longest run of digits; no digits gives 0.
  - `FormatInt` is the `%d` conversion of section 7.21.6.1.
  - The round trip `Atoi(FormatInt(n) + rest) == n` is proved whenever `rest` is empty or does not start with a digit.
- `usb_connection.dfy` (module `UsbConnection`): the calibration console.
  - `CalibrationTable` is a class over an `array2<int>`, and its methods update the table in place.
  - The specification functions work on the table's value, a `seq<seq<int>>`.
  - `GetLine` reads a line into a `char` array with the source's `while` loop.
- `kinematics.dfy` (module `Movement`): the leg solver.
  - `SolveLeg` states the solver's formulas and what its distances are. `Kinematics.Endpoint` performs them step by step, as the source does.
  - The mathematical library is a `MathLib` value with four fields, `sqrt`, `acos`, `atan2` and floating-point division. Only two facts about it are assumed where a lemma needs them:
    - `ExactSqrt`: the square root of a non-negative number is a non-negative number whose square is that number.
    - `ExactDivision`: division by a non-zero number is real division.
  - The link lengths L1, L2, L3 are a `Links` parameter.
- `wrappers.dfy` (module `Wrappers`): `Option`.

`UsbConnection.CalibrationScenario` is a worked example, checked by assertions: on a fresh joint, two calibration steps entering "5" leave the trim at 10 and echo "100", and an empty line then aborts.

Choices made in the model:

- **Trims and angles.** They are unbounded integers. Kinematic quantities are `real`.
- **Console input.** It is a given string: the text waiting on the console, of which `CdcRead` returns what one `tud_cdc_read` delivers, or the character stream for the line reader.
- **Early return of `calibrate_servo`.** This path declares a new local `repeat` (usb_connection.c:198). So the caller's flag comes back unchanged from `CalibrateServo`. `SetLegCalibration` then sets it to true anyway (usb_connection.c:216-225).
- **Empty input to `calibrate_servo`.** It is not a line feed, so it counts as `atoi("") == 0` being added, and the unchanged angle is echoed.
- **Enter sent as "\r" or "\r\n".** The abort test looks only for '\n' (usb_connection.c:196), so this is no abort either: `atoi` skips the white space, finds no digits, 0 is added and the unchanged angle is echoed (`CarriageReturnIsNoAbort`).
- **The femur quotient.** The source divides by `2 * L3 * L2` (movement/kinematics.cpp:32). `CosineOpposite(m, L2, L3, r3)` divides by `2 * L2 * L3`, which is the same product.
- **`servo_state` row comments.** The source comments the last two rows `//6` and `//5` (movement/kinematics.cpp:12-13). The code indexes the table by `leg_num` regardless, and so does `ServoTrim`.

## Model

| member | source | states |
|---|---|---|
| Layout.FlatIndex | usb_connection.c:80-81 | cell (leg, joint) goes to 3 * leg + joint; dividing by 3 gives the leg back and the remainder gives the joint; the index is a channel 0..17 exactly when the leg is 0..5 |
| Layout.FlatIndexOfSplit | usb_connection.c:80-81 | every index i is the flat index of (i / 3, i % 3), and i is in 0..17 exactly when i / 3 is a leg: the loop visits each cell of the table |
| Layout.FlatIndexInjective | movement/kinematics.cpp:34-36 | two (leg, joint) cells with the same flat index are the same cell, so distinct legs never share a servo channel |
| UsbConnection.AdjustTrim | usb_connection.c:201 | the table after `+= delta` on one cell: that cell is the old value plus delta, the other 17 cells are unchanged |
| UsbConnection.AdjustTrimCumulative | usb_connection.c:201 | two successive adjustments of one cell by d1 then d2 give the same table as one adjustment by d1 + d2 |
| UsbConnection.CalibrationTable.constructor | usb_connection.c:12-19 | a new table has the 6 x 3 shape and all 18 trims are 0 |
| UsbConnection.CalibrationTable.Trims | usb_connection.c:12-19 | the table's value is a 6 x 3 grid holding exactly the array's cells |
| UsbConnection.CdcRead | usb_connection.c:194 | one read returns a prefix of the waiting text: all of it when it fits, otherwise exactly `capacity` characters |
| UsbConnection.TruncatedCalibrationRead | usb_connection.c:194 | with the capacity as written (3 characters), typing "-100" and Enter delivers "-10", so atoi gives -10 where the typed number is -100 |
| UsbConnection.CalibrationReadRoundTrip | usb_connection.c:194-201 | with the intended 15-character capacity, any number whose `%d` text is shorter than 15, typed then Enter, is read back by atoi as that number |
| UsbConnection.CarriageReturnIsNoAbort | usb_connection.c:196-201 | "\r" or "\r\n" does not start with '\n', so it is no abort, and `atoi` reads it as 0 |
| UsbConnection.CalibrationTable.CalibrateServo | usb_connection.c:188-205 | the input is what one read of at most 15 characters delivers (the corrected capacity; the source reads 3, see Left out); input starting with '\n': table unchanged, reply "go back", caller's repeat flag unchanged (the shadowing local); otherwise the table is the old one with atoi(input) added to [leg][servo], the reply is the `%d` text of 90 + the new trim, and repeat is true |
| UsbConnection.SelectedJoint | usb_connection.c:214-227 | a selector picks a joint exactly when it is '1', '2' or '3', and then the joint is its digit minus one (coxa, tibia, femur) |
| UsbConnection.CalibrationTable.SetLegCalibration | usb_connection.c:207-232 | selector not '1'..'3': table unchanged, "Invalid servo number", repeat false; otherwise repeat ends true, and the table and reply are those of CalibrateServo on the selected joint (unchanged with "go back" on a leading '\n') |
| UsbConnection.ToUint8 | usb_connection.c:81 | the `uint8_t` conversion: a value in 0..255 is kept, and any value is congruent to its byte modulo 256 |
| UsbConnection.Flatten | usb_connection.c:80-81 | 18 cells in row-major order: cell (l, j) at index 3 * l + j |
| UsbConnection.Unflatten | usb_connection.c:80-81 | the 6 x 3 table whose cell (l, j) is entry 3 * l + j |
| UsbConnection.UnflattenFlatten | usb_connection.c:80-81 | unflattening the flattened table gives the table back |
| UsbConnection.FlattenUnflatten | usb_connection.c:80-81 | flattening the unflattened 18 cells gives the cells back |
| UsbConnection.FlashImage | usb_connection.c:80-81 | 18 bytes; byte 3 * l + j is cell (l, j) reduced to `uint8_t` |
| UsbConnection.LoadImage | usb_connection.c:80-81 | the 6 x 3 table read back from the first 18 bytes of a page: cell (l, j) is byte 3 * l + j |
| UsbConnection.LoadFlashImage | usb_connection.c:80-81 | each trim read back from the image lies in 0..255 and agrees with the stored trim modulo 256 |
| UsbConnection.FlashImageRoundTrip | usb_connection.c:80-81 | when every trim is in 0..255, the table read back from the image is the table itself |
| UsbConnection.FlashImageOfAdjust | usb_connection.c:80-81 | adjusting one trim changes exactly one byte of the image, the one at that cell's flat index |
| UsbConnection.CalibrationTable.FlashDataToMemory | usb_connection.c:78-84 | the first 18 bytes of the page buffer become the flash image of the current table; bytes 18 and above are unchanged |
| UsbConnection.Angles | usb_connection.c:138-143 | 18 angles in row-major order, angle of cell (l, j) = 90 + trim |
| UsbConnection.DiagramCell | usb_connection.c:138-143 | each placeholder of the body diagram names a valid (leg, joint) cell |
| UsbConnection.DiagramPlaceholder | usb_connection.c:138-143 | every (leg, joint) cell of the table is shown at some placeholder, the one returned |
| UsbConnection.DiagramCellsCoverTable | usb_connection.c:138-143 | placeholders and cells correspond one to one: the placeholder of placeholder k's cell is k, and no cell is shown twice |
| UsbConnection.DiagramArguments | usb_connection.c:138-143 | placeholder k of the body diagram gets the angle 90 + trim of DiagramCell(k), and the 18 values are a permutation of the 18 angles |
| UsbConnection.DiagramShowsCellAngles | usb_connection.c:138-143 | 18 values that give each placeholder its cell's angle 90 + trim are the entries of `Angles` at those cells' flat indices |
| UsbConnection.DiagramArgumentsByTriples | usb_connection.c:138-143 | 18 values that give each placeholder its cell's angle are a permutation of all 18 angles |
| UsbConnection.LegDiagramJoint | usb_connection.c:163-166 | the leg diagram's three angle placeholders show joints of the leg: femur, coxa, tibia in that order |
| UsbConnection.LegStatusOf | usb_connection.c:149-179 | the leg diagram gets the 1-based leg number, then at placeholder k the angle of joint LegDiagramJoint(k), a permutation of that leg's three angles; the readout has three `%d` texts that read back as the coxa, tibia and femur angles, in that order |
| UsbConnection.ReadBack | usb_connection.c:202 | `atoi` of the `%d` echo of a value is that value |
| UsbConnection.ReadBackAll | usb_connection.c:170-176 | every `%d` text in a list reads back as its value |
| UsbConnection.UnsignedText | usb_connection.c:121-137 | the `%u` text of a value is a non-empty run of digits, and `atoi` reads it back as the value modulo 2^32 |
| UsbConnection.UnsignedTexts | usb_connection.c:119-143 | the diagram texts as written (`%u`): each reads back as its value modulo 2^32 |
| UsbConnection.SignedTexts | usb_connection.c:170-176 | the texts under `%d`: each reads back as the value itself |
| UsbConnection.DiagramTextWrapsNegativeAngles | usb_connection.c:138 | a femur trim of leg 1 below -90 makes the first diagram value negative; its `%u` text reads back as that value plus 2^32, its `%d` text as the value |
| UsbConnection.LineLength | usb_connection.c:39-47 | the number of characters before the first '\n' or '\r': none of them is a line end, and the character after them is one (or the stream ends) |
| UsbConnection.LineLengthOfLine | usb_connection.c:39-47 | a line without line ends, then '\n' or '\r', then anything splits off as exactly that line |
| UsbConnection.GetLine | usb_connection.c:36-48 | the buffer's first LineLength(stream) cells become those characters in order, the terminator is not stored, the rest of the buffer is unchanged, and the stream resumes after the terminator |
| Decimal.DigitChar | usb_connection.c:202 | the character of a digit value is a digit with that value |
| Decimal.Atoi | usb_connection.c:201 | no digits after the white space and optional sign gives 0; a negative result needs a '-' as the first character after the white space |
| Decimal.SkipSpaceIdempotent | usb_connection.c:201 | skipping white space twice is skipping it once, and what is left does not start with white space |
| Decimal.AtoiSkipsSpace | usb_connection.c:201 | leading white space does not change the value `atoi` reads |
| Decimal.AtoiPlusSign | usb_connection.c:201 | a leading '+' gives the same value as no sign |
| Decimal.LeadingDigits | usb_connection.c:201 | the run `atoi` takes is made of digits only |
| Decimal.LeadingDigitsOfDigits | usb_connection.c:201 | digits followed by a non-digit: `atoi`'s digit run is exactly those digits |
| Decimal.NatDigits | usb_connection.c:202 | the decimal digits of n: non-empty, digits only, denoting n, with no leading zero |
| Decimal.FormatInt | usb_connection.c:202 | the `%d` text is non-empty and starts with a digit or '-' |
| Decimal.AtoiOfDigits | usb_connection.c:201 | `atoi` of digits followed by a non-digit is the digits' value |
| Decimal.AtoiOfNegatedDigits | usb_connection.c:201 | `atoi` of '-', digits, then a non-digit is minus the digits' value |
| Decimal.AtoiFormatInt | usb_connection.c:201-202 | `atoi` reads back the `%d` text of any integer, followed by anything that does not start with a digit |
| Decimal.FormatIntInjective | usb_connection.c:202 | distinct integers have distinct `%d` texts |
| Movement.Degrees | movement/kinematics.cpp:30-32 | the conversion `* 180 / M_PI`: degrees times pi is radians times 180 |
| Movement.HypotLength | movement/kinematics.cpp:23-25 | with an exact square root, `sqrt(pow(a, 2) + pow(b, 2))` is non-negative and its square is a^2 + b^2 |
| Movement.SolveLeg | movement/kinematics.cpp:23-32 | r2 = r1 - L1; with an exact square root, r1 >= 0 with r1^2 = x^2 + y^2 and r3 >= 0 with r3^2 = r2^2 + z^2 |
| Movement.CoxaIgnoresHeight | movement/kinematics.cpp:23-30 | theta1 is atan2(y, x) in degrees, and theta1, r1 and r2 do not depend on z |
| Movement.TibiaSingularity | movement/kinematics.cpp:25-27 | r3 = 0, where phi2's quotient divides by zero, exactly when r2 = 0 and z = 0 |
| Movement.CosineQuotient | movement/kinematics.cpp:27 | with non-zero sides the law-of-cosines argument is the exact real quotient (a^2 + b^2 - c^2) / (2ab) |
| Movement.TibiaJointAngle | movement/kinematics.cpp:27 | phi2 is acos of the law of cosines on r3, L2 and L3, which is the exact quotient whenever r3 is non-zero |
| Movement.TibiaAngle | movement/kinematics.cpp:28-31 | phi3 = atan2(z, r2), and theta2 is phi2 in degrees plus phi3 in degrees |
| Movement.FemurAngle | movement/kinematics.cpp:32 | theta3 is acos of the law of cosines on L2, L3 and r3 in degrees, with the exact quotient when both links are non-zero |
| Movement.ServoTrim | movement/kinematics.cpp:7-14 | the hard-coded trim of a leg's joint, in degrees; every one lies within 10 degrees of zero |
| Movement.JointCommand | movement/kinematics.cpp:34-36 | a joint's command less its `servo_state` trim is the solved angle: theta1 for the coxa, theta2 + 90 for the tibia, theta3 for the femur |
| Movement.Commanded | movement/kinematics.cpp:34-36 | after commanding a leg, channels 3 * leg .. 3 * leg + 2 carry its three joint commands and the other 15 channels are unchanged |
| Movement.LegsDoNotInterfere | movement/kinematics.cpp:34-36 | commanding two different legs gives the same channels in either order, and each leg keeps the commands it was given |
| Movement.Kinematics.constructor | movement/kinematics.cpp:16-19 | the cluster and the leg number are stored as given |
| Movement.Kinematics.Endpoint | movement/kinematics.cpp:21-42 | at exactly the origin: no field and no channel changes; otherwise the fields hold SolveLeg's values and the cluster is Commanded(old cluster, leg, solution) |

## Left out

- TinyUSB I/O is not modelled: `tud_cdc_available`, `tud_cdc_read`, `tud_cdc_read_char`, the writes and flushes, and the `tud_task` busy-wait loops (usb_connection.c:40-41, 50-65, 189-195, 208-213). Console input is a given string instead. Of `tud_cdc_read` only how many characters one call delivers is modelled, as `CdcRead`, and the calibration step uses the corrected 15-character read (see the Findings and the two lines below).
- How much text is waiting when `tud_cdc_read` runs is timing: `CdcRead` takes the waiting text as given.
- `read_integer_from_usb` (usb_connection.c:181-186) is console I/O around `atoi`. Only `atoi` is modelled.
- `get_char_from_tinyusb` waits forever for a line end and never checks the buffer's size (usb_connection.c:39-47). `GetLine` requires a line end in the stream and a buffer long enough for the line. The unused `index` (usb_connection.c:37) is left out.
- Flash erase and programming are left out because they are hardware storage: `flash_data_in_memory`, and `flash_range_program` (usb_connection.c:73-76, 83). The `printf` progress messages are left out too.
- The banners, the menu text and the literal format text of the status screens are presentation only (usb_connection.c:67-134, 150-162, 168-178): only the values passed to the screens are modelled.
- The ADC sensor setup (usb_connection.c:21-34) is hardware.
- RoBoy-CrownRobot.cpp is not part of this model. It holds the dual-core start, the FIFO handoff, the network set-up and the servo calibration curves.
- Body-level inverse kinematics (`inverse_kinematics`) is not part of this model.
- kinematics.hpp is not part of this model. The link lengths L1, L2, L3 it defines are a `Links` parameter.
- `ServoCluster::value` is taken to store the given value in the given channel. Any clamping or calibration the servo library applies is not part of this model.
- Floating point is not modelled: `float` fields, `pow` and `sqrt` in `double`, rounding, NaN and infinities. `SolveLeg` works over `real`. `sqrt`, `acos`, `atan2` and division are the uninterpreted `MathLib` fields, constrained only by `ExactSqrt` and `ExactDivision`. There is no reachability check and no `acos` domain check, as in the source.
- `volatile` on `servo_state` has no observable effect in a sequential model.
- UsbConnection.CalibrationTable.CalibrateServo: reads with the intended 15 characters (`CalibrationReadCapacity`), not the 3 characters `sizeof(buffer) - 1` gives as written (usb_connection.c:194). So "-100" and Enter adds -100 here, where the source adds -10; `TruncatedCalibrationRead` states the source's behaviour.
- UsbConnection.CalibrationTable.SetLegCalibration: inherits that 15-character read from `CalibrateServo`, not the source's 3 characters.
- UsbConnection.CalibrationTable.CalibrateServo: does not model 32-bit `int` overflow of `+=`, because trims are unbounded integers here. C leaves that overflow undefined.
- Decimal.Atoi: has no bound on its result. C leaves an out-of-range `atoi` result undefined.

## Findings

| source | as written | input that shows it | evidently intended | confidence | as-written member | corrected member |
|---|---|---|---|---|---|---|
| usb_connection.c:121-143 (and 152-166) | the status diagrams print `90 + servo_calibrated_value[l][j]`, a signed `int`, with `%u` | any trim below -90, e.g. a femur trim of -91 on leg 1: the diagram shows 4294967295 where the angle is -1 | print the angle as signed, as the readout at usb_connection.c:170-176 does with `%d` | medium, not executed | UsbConnection.DiagramTextWrapsNegativeAngles | UsbConnection.SignedTexts |
| usb_connection.c:194 | `calibrate_servo` reads with `tud_cdc_read(buffer, sizeof(buffer) - 1)`, but `buffer` is a `char *` parameter, so at most `sizeof(char *) - 1` characters are read: 3 on a 32-bit target | typing "-100" then Enter adds -10 to the trim | read up to the caller's buffer less its terminator, as `read_integer_from_usb` does with its 16-byte array (usb_connection.c:182-183); the model uses 15 characters | medium, not executed | UsbConnection.TruncatedCalibrationRead | UsbConnection.CalibrationReadRoundTrip |

Strictly, passing a negative `int` to `%u` is not defined by section 7.21.6.1 of ISO C11. `UnsignedTexts` models what a 32-bit two's-complement newlib prints. `SignedTexts` models the corrected `%d` rendering, and it reads each value back exactly; `Decimal.AtoiFormatInt` proves the underlying round trip.
