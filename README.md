# Intel IoT Developer Kit samples: the control logic, in Dafny

The samples are small programs for Intel boards (Galileo, Edison, UP2)
that poll sensors through the MRAA/UPM libraries and drive actuators. This
project models the control logic that sits inside their polling loops.
Each program is modelled from its own source, and the C++ and Java ports
are kept apart where they differ. Sensor readings are parameters.
Commands to devices (stepper and motor drivers, LCD, backlight, buzzer,
relay, LED bar, cloud writes) are recorded in logs or returned as values.

- **Automatic curtain** (`CurtainRules`, `CurtainCpp`, `CurtainJava`). A
  stepper position between 0 and 8192 in quarter turns of 1024 steps. A
  CONFIG/NORMAL loop and a ±5 lux dead band decide whether to draw or open.
  A configuration loop turns the rotary angle into a lux target.
- **Vehicle fleet tracker** (`FleetText`, `FleetCpp`, `FleetJava`). The
  `getline` splitter and the line assembler that picks an NMEA 0183 GGA
  sentence out of a serial buffer. Also the JSON line sent to the cloud
  agent, the guards of the coordinate conversion and the `std::stoi` that
  can end the C++ program, the tailgate latch and the distance flag. The Java port compares strings with `==`, so it compares
  objects; `Common.JavaString` models this.
- **Robot** (`RoverRules`, `RobotCpp`, `RobotJava`). The compass window on
  the LCD, the battery latch with its toggled red channel, the collision
  stop, and the command dispatcher. In the Java rover a voltage whose text
  is shorter than four characters (0 V gives "0.0") makes `substring(0, 4)`
  throw, and the battery thread ends there.
- **Temperature LCD** (`TemperatureRules`, `TemperatureLcd`). The running
  minimum and maximum since the last press of the button, and the backlight
  ramp from blue to orange.
- **Smart PV panels** (`SolarRules`, `SolarCpp`, `SolarJava`). The
  calibration averages and the ladder that turns the panel toward the
  brighter sensor.
- **Tan responsibly** (`TanRules`, `TanCpp`, `TanJava`). The UV index, the
  sunburn message, the backlight bands and the buzzer.
- **Sound bar** (`SoundBar`). The pin choice and the mapping of the running
  sound average onto a `uint8_t` LED bar level.
- **Plant health** (`PlantHealth`). The pump, backlight and LCD decisions of
  one check.
- Shared helpers: `Common` holds the boards, C/Java truncating division,
  `uint8_t` wrap-around, Java `~` and Java string identity. `Lcd` models the
  two-row character LCD as a replay of cursor, write and clear operations.

Every forever loop is modelled over a finite run of readings. Each thread
body is one method call per pass.

## Model

| member | source | states |
|---|---|---|
| Common.TruncDiv | robot/cpp/robot.cpp:89-90 | C/Java `/` truncates toward zero: the remainder is smaller than the divisor and has the sign of the dividend |
| Common.Uint8 | sound-bar/cpp/sound-bar.cpp:74-75 | a store into a `uint8_t` gives a value in 0..255 that is congruent to the int modulo 256 |
| Common.Uint8Complement | robot/cpp/robot.cpp:114-139 | `~` on a `uint8_t` stored back gives 255 minus the value |
| Common.JavaComplement | robot/maven/src/main/java/iotdk/example/Robot.java:160 | Java `~` gives -1 minus the value |
| Common.TruncReal | automatic-curtain/maven/src/main/java/iotdk/example/AutomaticCurtain.java:148 | a float-to-int cast truncates toward zero: the floor for non-negative values, the ceiling for negative ones |
| CurtainRules.Drawn | automatic-curtain/cpp/automatic-curtain.cpp:197-209 | a draw request adds 1024 unless the curtain is at 8192; the position stays a multiple of 1024 in 0..8192 although the guard is only an equality test |
| CurtainRules.Opened | automatic-curtain/cpp/automatic-curtain.cpp:217-228 | an open request subtracts 1024 unless the curtain is at 0, and the position stays valid |
| CurtainRules.LuxDecision | automatic-curtain/cpp/automatic-curtain.cpp:252-264 | draw if and only if the reading is above target+5, open if and only if it is below target-5, hold if and only if it is inside the band; the three cases are exclusive |
| CurtainRules.Apply | automatic-curtain/cpp/automatic-curtain.cpp:238-265 | one light check keeps the position valid |
| CurtainRules.Replay | automatic-curtain/cpp/automatic-curtain.cpp:331-353 | any run of light checks keeps the position valid |
| CurtainRules.DrawThenOpen | automatic-curtain/cpp/automatic-curtain.cpp:197-228 | an open undoes a draw that moved the motor |
| CurtainRules.OpenThenDraw | automatic-curtain/cpp/automatic-curtain.cpp:197-228 | a draw undoes an open that moved the motor |
| CurtainRules.ReplayFromOpen | automatic-curtain/cpp/automatic-curtain.cpp:90-110 | from the initial position 0, every run of checks stays a multiple of 1024 in 0..8192 |
| CurtainRules.ReplayDistance | automatic-curtain/cpp/automatic-curtain.cpp:197-228 | n checks move the curtain by at most n quarter turns |
| CurtainRules.DeadBandKeepsPosition | automatic-curtain/cpp/automatic-curtain.cpp:252-264 | readings inside the dead band never move the curtain, whatever its position |
| CurtainRules.Decisions | automatic-curtain/cpp/automatic-curtain.cpp:252-264 | each reading of a run gets its own decision against the target |
| CurtainRules.Commands | automatic-curtain/cpp/automatic-curtain.cpp:197-228 | a light check sends no motor command exactly when the position stays; otherwise it sends the draw or the open commands, as decided |
| CurtainCpp.InitPlatform | automatic-curtain/cpp/automatic-curtain.cpp:56-83 | pins 1/2/4 and bus 0; on an UP2 with the shield, 512 is added to the rotary, light and button pins (not the bus); an UP2 without it returns -1; every other board returns 0 |
| CurtainRules.LuxOfAngle | automatic-curtain/cpp/automatic-curtain.cpp:134-138 | an angle in 0..300 degrees gives a target in 0..60, in both ports |
| CurtainCpp.SetupLuxTarget | automatic-curtain/cpp/automatic-curtain.cpp:120-168 | the configuration loop returns what the reference function gives: the error outcome at the first failed LCD write, otherwise the target of the first pass with the button at 1 |
| CurtainCpp.ConfirmedTargetComesFromPressedPass | automatic-curtain/cpp/automatic-curtain.cpp:120-168 | a confirmed target is angle/5 of a pass with the button at 1 and both writes successful, and every earlier pass went through unconfirmed |
| CurtainCpp.ConfirmedTargetInRange | automatic-curtain/cpp/automatic-curtain.cpp:134-163 | with angles in 0..300, a confirmed target lies in 0..60 |
| CurtainCpp.Curtain.constructor | automatic-curtain/cpp/automatic-curtain.cpp:110 | the program starts open, in CONFIG, with no target assigned |
| CurtainCpp.Curtain.DrawCurtain | automatic-curtain/cpp/automatic-curtain.cpp:197-209 | returns true if and only if the curtain was not drawn; then 1024 is added and the draw commands are sent; otherwise nothing changes |
| CurtainCpp.Curtain.OpenCurtain | automatic-curtain/cpp/automatic-curtain.cpp:217-228 | returns true if and only if the curtain was not open; then 1024 is subtracted and the open commands are sent; otherwise nothing changes |
| CurtainCpp.Next | automatic-curtain/cpp/automatic-curtain.cpp:331-353 | one iteration: a button at 1 forces CONFIG; CONFIG leaves the curtain and the motor log alone and completes exactly when the button is pressed, storing the confirmed target or the error code 99; NORMAL without a press keeps the target, moves the curtain as the dead band decides and logs exactly that move's commands; NORMAL always has a target; the motor log only grows |
| CurtainCpp.Loop | automatic-curtain/cpp/automatic-curtain.cpp:277-353 | the loop over a run of iterations stops at the first one left waiting for the button; the status is NORMAL after a completed run and CONFIG after an interrupted one; the position stays valid and the motor log only grows |
| CurtainCpp.NormalLoopReplaysDecisions | automatic-curtain/cpp/automatic-curtain.cpp:331-353 | in NORMAL with the button never pressed, every iteration completes, the status and the target stay, and the curtain ends where the dead-band decisions on the readings take it |
| CurtainCpp.Curtain.CheckLux | automatic-curtain/cpp/automatic-curtain.cpp:238-265 | follows the dead-band decision, and sends exactly the commands of the move it makes: none inside the band; status and target are unchanged |
| CurtainCpp.Curtain.Iterate | automatic-curtain/cpp/automatic-curtain.cpp:331-353 | the new position, status, target and motor log are those of one iteration of the loop |
| CurtainCpp.Curtain.Run | automatic-curtain/cpp/automatic-curtain.cpp:277-353 | the new position, status, target and motor log, and the number of completed iterations, are those of the loop over the run |
| CurtainJava.SetupLuxTarget | automatic-curtain/maven/src/main/java/iotdk/example/AutomaticCurtain.java:142-167 | the loop returns the target of the first pass with the button at 1; it has no error outcome |
| CurtainJava.SetupTargetFromPressedPass | automatic-curtain/maven/src/main/java/iotdk/example/AutomaticCurtain.java:142-167 | the returned target comes from the first pass with the button at 1, and it lies in 0..60 for angles in 0..300 |
| CurtainJava.AutomaticCurtain.constructor | automatic-curtain/maven/src/main/java/iotdk/example/AutomaticCurtain.java:111-116 | starts open, in CONFIG, with target 0, and the pins set by `initPlatform` |
| CurtainJava.AutomaticCurtain.InitPlatform | automatic-curtain/maven/src/main/java/iotdk/example/AutomaticCurtain.java:275-292 | on an UP2 with the shield flag, 512 is added once to aPin1, aPin2 and dPin4; otherwise the pins stay as they were |
| CurtainJava.AutomaticCurtain.DrawCurtain | automatic-curtain/maven/src/main/java/iotdk/example/AutomaticCurtain.java:197-209 | returns true and adds 1024 unless the curtain is at 8192, where nothing changes |
| CurtainJava.AutomaticCurtain.OpenCurtain | automatic-curtain/maven/src/main/java/iotdk/example/AutomaticCurtain.java:218-229 | returns true and subtracts 1024 unless the curtain is at 0, where nothing changes |
| CurtainJava.Next | automatic-curtain/maven/src/main/java/iotdk/example/AutomaticCurtain.java:334-348 | one iteration: a button at 1 forces CONFIG; CONFIG leaves the curtain and the motor log alone and completes exactly when the button is pressed, storing the configured target; NORMAL without a press keeps the target, moves the curtain as the dead band decides and logs exactly that move's commands; the motor log only grows |
| CurtainJava.Loop | automatic-curtain/maven/src/main/java/iotdk/example/AutomaticCurtain.java:294-348 | the loop over a run of iterations stops at the first one left waiting for the button; the status is NORMAL after a completed run and CONFIG after an interrupted one; the position stays valid and the motor log only grows |
| CurtainJava.NormalLoopReplaysDecisions | automatic-curtain/maven/src/main/java/iotdk/example/AutomaticCurtain.java:334-348 | in NORMAL with the button never pressed, every iteration completes, the status and the target stay, and the curtain ends where the dead-band decisions on the readings take it |
| CurtainJava.AutomaticCurtain.CheckLux | automatic-curtain/maven/src/main/java/iotdk/example/AutomaticCurtain.java:249-261 | follows the dead-band decision, and sends exactly the commands of the move it makes: none inside the band |
| CurtainJava.AutomaticCurtain.Iterate | automatic-curtain/maven/src/main/java/iotdk/example/AutomaticCurtain.java:334-348 | the new position, status, target and motor log are those of one iteration of the loop; NORMAL is reached only after a target was configured |
| CurtainJava.AutomaticCurtain.Run | automatic-curtain/maven/src/main/java/iotdk/example/AutomaticCurtain.java:294-348 | the new position, status, target and motor log, and the number of completed iterations, are those of the loop over the run |
| FleetText.Pieces | kits/transportation-safety/c++/VehicleFleetTracker.cpp:134-143 | the pieces between delimiters: one more piece than delimiters, and no piece holds the delimiter |
| FleetText.JoinPieces | kits/transportation-safety/c++/VehicleFleetTracker.cpp:134-143 | joining the pieces with the delimiter gives back the string |
| FleetText.PiecesWithoutDelimiter | kits/transportation-safety/c++/VehicleFleetTracker.cpp:134-143 | a string without a delimiter is its own single piece |
| FleetText.PiecesAppend | kits/transportation-safety/c++/VehicleFleetTracker.cpp:134-143 | appending a delimiter and a delimiter-free piece appends that piece |
| FleetText.PiecesJoin | kits/transportation-safety/c++/VehicleFleetTracker.cpp:134-143 | splitting a join of delimiter-free pieces gives the pieces back |
| FleetText.CloudMessage | kits/transportation-safety/c++/VehicleFleetTracker.cpp:121 | the message is the component and the value inside the 16 fixed characters of `{"n":"…","v":"…"}` plus a newline |
| FleetText.FirstIndexOf | kits/transportation-safety/c++/VehicleFleetTracker.cpp:121 | the first position of a character, or the length when it does not occur |
| FleetText.CloudMessageRoundTrip | kits/transportation-safety/c++/VehicleFleetTracker.cpp:121 | a receiver reads back exactly the component and the value that were sent, when the component has no quote |
| FleetText.ParsedMessageIsCloudMessage | kits/transportation-safety/c++/VehicleFleetTracker.cpp:121 | every line that reads back was built by the message format from a quote-free component |
| FleetText.ParsedBody | kits/transportation-safety/c++/VehicleFleetTracker.cpp:121 | a line that reads back has the head and the tail of a message around the component, the separator and the value |
| FleetText.WritesSeparatedByClear | kits/transportation-safety/c++/VehicleFleetTracker.cpp:335-359 | two cloud writes are always separated by a pass with no detection: only a clear sensor re-arms the latch |
| FleetText.DetectionFollowsWrite | kits/transportation-safety/c++/VehicleFleetTracker.cpp:335-359 | every run of detections begins with a write, so no run goes unreported |
| FleetCpp.GetlineSplit | kits/transportation-safety/c++/VehicleFleetTracker.cpp:134-143 | `split` yields no items exactly for the empty string, and no item holds the delimiter |
| FleetCpp.Split | kits/transportation-safety/c++/VehicleFleetTracker.cpp:134-143 | the getline loop computes the reference split: the last delimiter ends an item without starting a new one |
| FleetCpp.SplitJoin | kits/transportation-safety/c++/VehicleFleetTracker.cpp:134-143 | joining the items reproduces the input, less one trailing delimiter |
| FleetCpp.SplitOfJoin | kits/transportation-safety/c++/VehicleFleetTracker.cpp:134-143 | splitting a join of delimiter-free items whose last item is non-empty gives the items back |
| FleetCpp.GgaOutcome | kits/transportation-safety/c++/VehicleFleetTracker.cpp:238-249 | a GGA line is reported if and only if neither coordinate makes the conversion throw; otherwise the exception ends the program |
| FleetCpp.ParseLine | kits/transportation-safety/c++/VehicleFleetTracker.cpp:235-253 | a handled line always has an outcome: a report, another sentence, a short GGA line whose indexing is undefined, or a conversion that throws |
| FleetCpp.GgaSentenceReported | kits/transportation-safety/c++/VehicleFleetTracker.cpp:238-249 | a GGA sentence of at least six fields is handled with fields 2 to 5: one cloud write, unless a coordinate makes the conversion throw |
| FleetCpp.ParseGpsData | kits/transportation-safety/c++/VehicleFleetTracker.cpp:188-259 | the character loop computes the reference scan of the first `result` bytes |
| FleetCpp.EofEndsScan | kits/transportation-safety/c++/VehicleFleetTracker.cpp:199-206 | a byte equal to EOF stops the scan: nothing after it matters |
| FleetCpp.UnterminatedLineIgnored | kits/transportation-safety/c++/VehicleFleetTracker.cpp:199-206 | a fragment that no newline ends is never parsed |
| FleetCpp.LineCompleted | kits/transportation-safety/c++/VehicleFleetTracker.cpp:254-257 | characters are assembled into the line until a newline, and then that line is handled |
| FleetCpp.FirstLineHandled | kits/transportation-safety/c++/VehicleFleetTracker.cpp:209-253 | leading empty lines are skipped, and the first non-empty line is the only one handled, whatever follows it |
| FleetCpp.SkipSpace | kits/transportation-safety/c++/VehicleFleetTracker.cpp:163 | `std::stoi` skips exactly the leading white space |
| FleetCpp.LeadingDigits | kits/transportation-safety/c++/VehicleFleetTracker.cpp:163 | the digits `std::stoi` reads: the longest run of decimal digits at the front |
| FleetCpp.DigitsValue | kits/transportation-safety/c++/VehicleFleetTracker.cpp:163 | the value of n digits is below 10 to the n |
| FleetCpp.StoiValue | kits/transportation-safety/c++/VehicleFleetTracker.cpp:163 | a converted value fits the 32-bit `int`; text without digits after the white space and sign, or outside that range, throws |
| FleetCpp.NoDigitThrows | kits/transportation-safety/c++/VehicleFleetTracker.cpp:163 | text without any digit makes `std::stoi` throw |
| FleetCpp.ShortNumberConverts | kits/transportation-safety/c++/VehicleFleetTracker.cpp:163-166 | text that starts with at most nine digits converts to their value |
| FleetCpp.UndigitedCoordinateThrows | kits/transportation-safety/c++/VehicleFleetTracker.cpp:149-163 | a non-empty coordinate field without any digit passes the empty-text guard and makes `std::stoi` throw, for every hemisphere |
| FleetCpp.ConvertRawCoords | kits/transportation-safety/c++/VehicleFleetTracker.cpp:149-170 | empty text gives 0 before any arithmetic; non-empty text `std::stoi` rejects throws; otherwise the sign is negative if and only if the direction is "S" or "W" |
| FleetCpp.TailgateChecker | kits/transportation-safety/c++/VehicleFleetTracker.cpp:335-359 | the LED follows the sensor, and pass i writes to the cloud if and only if it detects and the previous pass did not |
| FleetJava.DropTrailingEmpty | kits/transportation-safety/java/VehicleFleetTracker.java:179 | `split` drops only trailing empty strings and keeps the rest in order |
| FleetJava.JavaSplit | kits/transportation-safety/java/VehicleFleetTracker.java:208 | without a match the array holds the string itself; otherwise fresh pieces, none holding the delimiter |
| FleetJava.AllPiecesEmpty | kits/transportation-safety/java/VehicleFleetTracker.java:208 | every piece is empty if and only if the string consists only of delimiters |
| FleetJava.SplitEmptyIff | kits/transportation-safety/java/VehicleFleetTracker.java:208-211 | a split yields an empty array (so `vecStr[0]` throws) if and only if the text is non-empty and made only of the delimiter |
| FleetJava.ParseGpsData | kits/transportation-safety/java/VehicleFleetTracker.java:170-225 | the loop visits every line of the whole buffer, skips empty ones, ignores `result`, and computes the reference run |
| FleetJava.RuntimeLinesNeverReport | kits/transportation-safety/java/VehicleFleetTracker.java:208-223 | lines built at run time never match the literal by `==`, so nothing is reported; the loop throws if and only if some line is made only of commas |
| FleetJava.DecodedBufferNeverReports | kits/transportation-safety/java/VehicleFleetTracker.java:257 | the decoded buffer is a new string, so no GGA sentence is ever reported |
| FleetJava.NoLineEverReports | kits/transportation-safety/java/VehicleFleetTracker.java:211-216 | whatever the lines, nothing is reported: a first field that is the literal itself has no comma after it, so reading field 2 throws first |
| FleetJava.GgaLineReportedByEquals | kits/transportation-safety/java/VehicleFleetTracker.java:211-222 | with `.equals`, a GGA sentence of at least six fields is reported with fields 2 to 5, ahead of whatever the following lines report |
| FleetJava.ConvertRawCoords | kits/transportation-safety/java/VehicleFleetTracker.java:131-143 | unparseable text gives 0 and nothing throws; otherwise the sign is negative if and only if the direction is the same object as the literal "S" or "W" |
| FleetJava.RuntimeDirectionNeverNegates | kits/transportation-safety/java/VehicleFleetTracker.java:142 | a direction taken from a split is a new object, so even "S" and "W" never negate |
| FleetJava.ReflectiveRunnable | kits/transportation-safety/java/VehicleFleetTracker.java:321-349 | the LED follows the sensor, and there is one cloud write per run of detections |
| FleetJava.DistanceRunnable | kits/transportation-safety/java/VehicleFleetTracker.java:287-311 | after each pass `displayTime` is the negation of that pass's detection |
| Lcd.Spaces | smart-pv-panels/cpp/smart-pv.cpp:87-94 | the padding a write past the end of a row leaves before the text: n blanks |
| Lcd.Overwrite | smart-pv-panels/cpp/smart-pv.cpp:87-94 | a write puts the text at the cursor column, keeps what was around it and pads a gap with spaces |
| Lcd.ReplayAppend | smart-pv-panels/cpp/smart-pv.cpp:87-94 | replaying two sequences of operations in turn is replaying their concatenation |
| Lcd.ReplayTwo | smart-pv-panels/cpp/smart-pv.cpp:87-94 | a cursor placement and the write after it can be replayed first |
| Lcd.ClearForgets | smart-pv-panels/cpp/smart-pv.cpp:113-115 | after a clear the screen shows only what follows it; a final clear leaves it blank |
| Lcd.NatText | smart-pv-panels/cpp/smart-pv.cpp:83-84 | a natural number is written as at least one decimal digit |
| Lcd.IntText | smart-pv-panels/cpp/smart-pv.cpp:83-84 | `%d` writes a minus sign exactly for negative numbers |
| PlantHealth.MonitorPlantConditions | plant-health/cpp/plant-health.cpp:80-129 | every check sets a backlight colour and writes the LCD |
| PlantHealth.PumpIffDry | plant-health/cpp/plant-health.cpp:96-109 | the pump runs for 10 seconds if and only if the moisture is below 300, and the relay ends off |
| PlantHealth.FinalBacklight | plant-health/cpp/plant-health.cpp:113-118 | the final colour is red if and only if the temperature is below 18 or above 30 or the intensity is below 50, and green otherwise; the steel blue of dry soil never stays |
| PlantHealth.FinalRows | plant-health/cpp/plant-health.cpp:121-128 | the screen ends with the temperature row and the light row, and "Dry soil!" is gone |
| PlantHealth.Program | plant-health/cpp/plant-health.cpp:131-167 | an unsupported board exits before any sensor is created; otherwise each check runs in turn |
| RoverRules.HeadingWindow | robot/cpp/robot.cpp:67-100 | an index in 0..36 gives the 11 characters of the strip from that index |
| RoverRules.WindowFitsExactly | robot/cpp/robot.cpp:94-100 | the window lies inside the 47-character strip if and only if the index is in 0..36 |
| RoverRules.CardinalAtCentre | robot/cpp/robot.cpp:67 | headings 0, 90, 180, 270 and 360 centre N, E, S, W and N |
| RoverRules.HeadingIndex | robot/cpp/robot.cpp:89-90 | the index `hdg / 10` is in 0..36 if and only if the heading is in -9..369 |
| RobotCpp.HeadingLine | robot/cpp/robot.cpp:79-108 | the heading line is written if and only if the index is in 0..36, and it is "HDG: " and the window |
| RobotCpp.HeadingLineCardinal | robot/cpp/robot.cpp:67-100 | a heading at a multiple of 90 degrees shows its compass point in the middle of the line |
| RobotCpp.Dispatched | robot/cpp/robot.cpp:264-315 | "stop" or an empty command stops without a speed; a missing or out-of-range speed issues nothing; speeds are equal and in 0..255 |
| RobotCpp.MoveRefusedIffBothBlocked | robot/cpp/robot.cpp:291-314 | a move is refused if and only if both of its sensors are blocked (fwd FL+FR, left FL+RL, right FR+RR, rev RL+RR); an unknown command stops |
| RobotCpp.DirectionsOnlyForClearMoves | robot/cpp/robot.cpp:291-314 | directions are set only for the four moves, with fwd (CCW, CW), left (CCW, CCW), right (CW, CW) and rev (CW, CCW) |
| RobotCpp.Rover.constructor | robot/cpp/robot.cpp:59-65 | no sensor is blocked, the battery latch is set, red starts at 0x3F |
| RobotCpp.Rover.BatteryPass | robot/cpp/robot.cpp:111-151 | a low reading sets the latch, flashes red and complements the red bits; otherwise green is set only if the latch was set, and the latch clears |
| RobotCpp.BatteryColors | robot/cpp/robot.cpp:111-151 | a run of battery passes shows at most one colour per pass |
| RobotCpp.LowBatteryFlashesAlternately | robot/cpp/robot.cpp:111-151 | while the voltage stays low, every pass flashes red, alternating between the red bits and their complement |
| RobotCpp.FineBatteryGreenOnce | robot/cpp/robot.cpp:111-151 | while the voltage stays fine, the backlight turns green once, on the first pass, and only if the latch was set |
| RobotCpp.Rover.BatteryRun | robot/cpp/robot.cpp:111-151 | red is complemented once per low reading, so an even count restores it; the latch follows the latest reading; the backlight shows the colours of the run |
| RobotCpp.Rover.CollisionPass | robot/cpp/robot.cpp:154-188 | each flag takes its sensor's reading, and the motors stop when any flag is set |
| RobotCpp.Rover.Command | robot/cpp/robot.cpp:264-315 | one pass of the command loop sends exactly the dispatched commands |
| RobotCpp.RedToggleInvolution | robot/cpp/robot.cpp:139 | two toggles of the red bits restore them |
| RobotJava.HeadingLine | robot/maven/src/main/java/iotdk/example/Robot.java:105-115 | the index is clamped into 0..36, so a line of "HDG: " and a window is always written |
| RobotJava.HeadingLineAgreesWithCpp | robot/maven/src/main/java/iotdk/example/Robot.java:105-115 | where the C++ port writes, both ports write the same line; below the range Java shows window 0, above it window 36 |
| RobotJava.Dispatched | robot/maven/src/main/java/iotdk/example/Robot.java:279-322 | the loop ends if and only if the word is not the literal "stop" or "" and no short follows; speeds are equal and in 0..255 |
| RobotJava.ScannerStopReadsSpeed | robot/maven/src/main/java/iotdk/example/Robot.java:282-295 | a scanned "stop" is not the literal, so it reads a speed: it stops only through the last branch, does nothing out of range, and ends the loop without a number |
| RobotJava.MoveGateAndForwardDirections | robot/maven/src/main/java/iotdk/example/Robot.java:298-322 | the same sensor pairs refuse a move as in C++, but forward drives (CCW, CCW) where C++ drives (CCW, CW) |
| RobotJava.Rover.constructor | robot/maven/src/main/java/iotdk/example/Robot.java:62-70 | no sensor is blocked, the battery latch is set, red starts at 0x3F |
| RobotJava.Completed | robot/maven/src/main/java/iotdk/example/Robot.java:137-145 | the thread completes exactly the passes before the first reading whose `Float.toString` text is shorter than four characters: none of them has such a text, and the next one does |
| RobotJava.LiveColors | robot/maven/src/main/java/iotdk/example/Robot.java:155-180 | passes that all complete show at most one colour each |
| RobotJava.BatteryColors | robot/maven/src/main/java/iotdk/example/Robot.java:137-180 | a run shows at most one colour per completed pass; nothing of the pass that throws at `substring(0, 4)` or of any later pass is shown |
| RobotJava.LiveLowFlashesAlternately | robot/maven/src/main/java/iotdk/example/Robot.java:155-165 | completed low passes flash red, alternating between red and its `~`, one colour each |
| RobotJava.LowBatteryFlashesAlternately | robot/maven/src/main/java/iotdk/example/Robot.java:137-165 | while the voltage stays low, every pass until the thread ends flashes red, alternating between red and its `~`; the number of colours is the number of completed passes |
| RobotJava.LiveFineGreenOnce | robot/maven/src/main/java/iotdk/example/Robot.java:166-179 | completed fine passes turn the backlight green once, on the first pass, and only if the latch was set |
| RobotJava.FineBatteryGreenOnce | robot/maven/src/main/java/iotdk/example/Robot.java:137-179 | while the voltage stays fine, the backlight turns green once, on the first pass, only if the latch was set and that pass does not throw |
| RobotJava.ShortTextEndsThread | robot/maven/src/main/java/iotdk/example/Robot.java:143-145 | a pass whose voltage text is too short (such as "0.0" for 0 V) ends the thread: the backlight shows exactly what the passes before it show |
| RobotJava.Rover.BatteryPass | robot/maven/src/main/java/iotdk/example/Robot.java:137-180 | a too-short voltage text throws before the latch and the backlight are touched and the thread ends; otherwise a low reading sets the latch, flashes red and toggles red with `~`, and a fine one turns green only on the low-to-ok transition and clears the latch |
| RobotJava.Rover.CompletedPasses | robot/maven/src/main/java/iotdk/example/Robot.java:137-180 | over passes that all complete, red is toggled once per low reading, the latch follows the latest reading, and the backlight shows their colours |
| RobotJava.Rover.BatteryRun | robot/maven/src/main/java/iotdk/example/Robot.java:137-180 | the thread completes exactly `Completed` passes and stops at the pass that throws; red and the latch are those the completed passes leave, and the backlight shows `BatteryColors` |
| RobotJava.Rover.CollisionPass | robot/maven/src/main/java/iotdk/example/Robot.java:190-201 | each flag takes its sensor's reading, and any set flag stops the motors |
| RobotJava.Rover.Command | robot/maven/src/main/java/iotdk/example/Robot.java:279-322 | one pass sends exactly the dispatched commands, and continues unless the speed read fails |
| RobotJava.RedToggleInvolution | robot/maven/src/main/java/iotdk/example/Robot.java:137-160 | two toggles restore red, and 0x3F toggles to -0x40 |
| SolarRules.Average | smart-pv-panels/cpp/smart-pv.cpp:208-209 | the calibrated average lies between the two readings and is half their sum, to within one |
| SolarRules.DecideCharacterised | smart-pv-panels/cpp/smart-pv.cpp:110-146 | no sun if and only if both readings are below 2; otherwise a move if and only if a side is below its average; the direction is CW if and only if left < right, CCW if and only if left > right, and unchanged when they are equal |
| SolarRules.MotorCommands | smart-pv-panels/cpp/smart-pv.cpp:118-146 | a pass sends motor commands if and only if it tracks, and a move is always 128 steps |
| SolarRules.DirectionKeptWithoutUnequalMove | smart-pv-panels/cpp/smart-pv.cpp:121-143 | a run with no moving pass with unequal readings leaves the driver's direction as it was |
| SolarRules.DirectionFollowsLastUnequalMove | smart-pv-panels/cpp/smart-pv.cpp:121-143 | after a run the driver points toward the brighter sensor of the last moving pass with unequal readings: clockwise if and only if its left reading is the smaller |
| SolarRules.RunMotorCommands | smart-pv-panels/cpp/smart-pv.cpp:118-146 | a run sends at most two motor commands per pass |
| SolarRules.RunMotorCommandsSetDirection | smart-pv-panels/cpp/smart-pv.cpp:118-146 | the direction last sent to the driver after a run's commands is the direction the ladder leaves after that run |
| SolarRules.ReadingsShown | smart-pv-panels/cpp/smart-pv.cpp:87-94 | whatever the screen held, it shows "Left: " with the left reading and "Right: " with the right reading |
| SolarRules.LastSetDirectionAfterPass | smart-pv-panels/cpp/smart-pv.cpp:118-146 | the direction the driver holds moves exactly as the pass decides |
| SolarRules.CalibrationEndsCounterClockwise | smart-pv-panels/cpp/smart-pv.cpp:191-205 | calibration leaves the driver set counter-clockwise |
| SolarCpp.DarkPassLeavesScreenBlank | smart-pv-panels/cpp/smart-pv.cpp:110-115 | "No sun" is written and then cleared, so the screen ends blank |
| SolarCpp.DarkRunEndsBlank | smart-pv-panels/cpp/smart-pv.cpp:110-115 | after a run whose last pass found no sun the screen is blank, whatever came before |
| SolarCpp.SolarTracker.constructor | smart-pv-panels/cpp/smart-pv.cpp:181-209 | the intro, the two calibration moves, the averages, and the driver set counter-clockwise |
| SolarCpp.SolarTracker.Pass | smart-pv-panels/cpp/smart-pv.cpp:72-148 | one pass shows the readings, follows the ladder and keeps the driver's direction equal to the last one sent |
| SolarCpp.SolarTracker.Run | smart-pv-panels/cpp/smart-pv.cpp:214-216 | the driver ends in the direction the ladder leaves it after the whole run; the motor and LCD logs grow by exactly the commands and screen operations of the run's passes, in order |
| SolarCpp.Start | smart-pv-panels/cpp/smart-pv.cpp:150-209 | an unsupported board returns before any device is created; otherwise the tracker is calibrated |
| SolarJava.DarkPassShowsNoSun | smart-pv-panels/maven/src/main/java/iotdk/example/SmartPhotovoltaicPanels.java:120-125 | the screen is cleared and then "No sun" is written, so exactly "No sun" stays visible |
| SolarJava.DarkRunShowsNoSun | smart-pv-panels/maven/src/main/java/iotdk/example/SmartPhotovoltaicPanels.java:120-125 | after a run whose last pass found no sun the screen shows exactly "No sun", whatever came before |
| SolarJava.SmartPhotovoltaicPanels.constructor | smart-pv-panels/maven/src/main/java/iotdk/example/SmartPhotovoltaicPanels.java:187-249 | pins from `initPlatform`, the intro, calibration and the averages, and the driver counter-clockwise |
| SolarJava.SmartPhotovoltaicPanels.InitPlatform | smart-pv-panels/maven/src/main/java/iotdk/example/SmartPhotovoltaicPanels.java:169-185 | on an UP2 with the shield flag, 512 is added once to both light sensor pins |
| SolarJava.SmartPhotovoltaicPanels.Pass | smart-pv-panels/maven/src/main/java/iotdk/example/SmartPhotovoltaicPanels.java:84-156 | one pass shows the readings, follows the ladder and keeps the driver's direction equal to the last one sent |
| SolarJava.SmartPhotovoltaicPanels.Run | smart-pv-panels/maven/src/main/java/iotdk/example/SmartPhotovoltaicPanels.java:254-261 | the driver ends in the direction the ladder leaves it after the whole run; the motor and LCD logs grow by exactly the commands and screen operations of the run's passes, in order |
| SoundBar.ChoosePins | sound-bar/cpp/sound-bar.cpp:79-93 | on an UP2 with the shield the pins are 512/514/515; without it `main` returns -1; other boards leave the pins unassigned |
| SoundBar.BarLevel | sound-bar/cpp/sound-bar.cpp:132-133 | the level stored in the `uint8_t` is in 0..255 |
| SoundBar.BarLevelInRange | sound-bar/cpp/sound-bar.cpp:44-53 | averages in 50..200 give levels in 0..10, with 50 giving 0 and 200 giving 10 |
| SoundBar.BarLevelMonotone | sound-bar/cpp/sound-bar.cpp:132-133 | over 50..200 a louder average never shows a lower level |
| SoundBar.BarLevelOutsideRange | sound-bar/cpp/sound-bar.cpp:74-75 | averages from -3000 to 35 wrap around in the `uint8_t` to a level above 10; 36..49 give 0; 215..3889 give a level above 10; further out the byte wraps again, so 3890 and -3790 give 0 |
| SoundBar.BarsAfter | sound-bar/cpp/sound-bar.cpp:124-137 | a run sends at most one level per window, each in 0..255 |
| SoundBar.LevelIsLastBar | sound-bar/cpp/sound-bar.cpp:124-137 | the level after a run is the last level sent to the bar, or the starting level when none was sent |
| SoundBar.LevelAfterUnsampled | sound-bar/cpp/sound-bar.cpp:126-136 | windows with no samples leave the level and the context as they were |
| SoundBar.LevelAfterLastSampled | sound-bar/cpp/sound-bar.cpp:126-136 | after a run, the level is that of the last window with samples, and the context is the one that window found |
| SoundBar.SoundLevelBar.constructor | sound-bar/cpp/sound-bar.cpp:118-120 | the context starts at 0, 0, 10 and the level at 0 |
| SoundBar.SoundLevelBar.Pass | sound-bar/cpp/sound-bar.cpp:124-137 | with samples the context is updated and its level is sent to the bar; without samples nothing changes |
| SoundBar.SoundLevelBar.Run | sound-bar/cpp/sound-bar.cpp:124-137 | the loop leaves the level and the context of the last window with samples, and sends one level per such window to the bar, in order |
| TanRules.UvIndex | tan-responsibly/cpp/tan-responsibly.cpp:87-88 | the index is the intensity (307 times the raw reading) divided by 200, truncated |
| TanRules.MessageBands | tan-responsibly/cpp/tan-responsibly.cpp:98-106 | exactly one message per index: the readout up to 4, 30 minutes for 5..7, 20 for 8..9, 10 from 10 on; the time never grows with the index |
| TanRules.ColourBands | tan-responsibly/cpp/tan-responsibly.cpp:112-122 | exactly one colour per index: green up to 2, yellow 3..5, orange 6..7, red 8..10, violet from 11 on; 10 is red |
| TanRules.UvAloneWarns | tan-responsibly/cpp/tan-responsibly.cpp:98-126 | when the UV index alone sounds the buzzer, the backlight is red or violet and the message warns of sunburn within 20 minutes |
| TanRules.CheckWarningConditions | tan-responsibly/cpp/tan-responsibly.cpp:73-127 | a check sends five or six effects |
| TanRules.CheckShowsReadings | tan-responsibly/cpp/tan-responsibly.cpp:91-122 | a check writes the temperature row, then the message row, then sets the colour of the index |
| TanRules.SoundIffThreshold | tan-responsibly/cpp/tan-responsibly.cpp:124-126 | a check plays the sound if and only if the index is at least 8 or the temperature above 30, and never stops it |
| TanRules.StopSoundOnlyAtStart | tan-responsibly/cpp/tan-responsibly.cpp:158-164 | no check stops the buzzer |
| TanRules.SoundInRunIff | tan-responsibly/cpp/tan-responsibly.cpp:161-164 | the sound plays in a run if and only if some check meets the buzzer condition |
| TanRules.ChecksSnoc | tan-responsibly/cpp/tan-responsibly.cpp:161-164 | a run grows by the effects of its last check |
| TanRules.RunGrows | tan-responsibly/cpp/tan-responsibly.cpp:158-164 | the effects after the stop of the buzzer grow by those of each further check |
| TanRules.RunEffects | tan-responsibly/cpp/tan-responsibly.cpp:158-164 | the buzzer is stopped first and never again, and it sounds if and only if some check meets the condition |
| TanCpp.Program | tan-responsibly/cpp/tan-responsibly.cpp:129-167 | an unsupported board exits before any device is created; otherwise the buzzer is stopped first |
| TanJava.TanResponsibly.constructor | tan-responsibly/maven/src/main/java/iotdk/example/TanResponsibly.java:177-201 | the pins from `initPlatform`, and the buzzer stopped once before any check |
| TanJava.TanResponsibly.InitPlatform | tan-responsibly/maven/src/main/java/iotdk/example/TanResponsibly.java:159-175 | on an UP2 with the shield flag, 512 is added once to both sensor pins and the buzzer pin |
| TanJava.TanResponsibly.Check | tan-responsibly/maven/src/main/java/iotdk/example/TanResponsibly.java:92-146 | one check sends exactly the effects of the shared ladders |
| TanJava.TanResponsibly.Run | tan-responsibly/maven/src/main/java/iotdk/example/TanResponsibly.java:201-211 | the effects are the stop of the buzzer followed by each check in turn |
| TemperatureRules.Fade | temperature-lcd/cpp/temperature-lcd.cpp:106-114 | the fade lies in 0..1 |
| TemperatureRules.FloorOfQuotient | temperature-lcd/cpp/temperature-lcd.cpp:117-119 | truncating an exact quotient is integer division |
| TemperatureRules.BacklightClosedForm | temperature-lcd/cpp/temperature-lcd.cpp:106-119 | 18 degrees and below give (0,0,255), 31 and above give (255,64,0), and in between each component is an integer quotient by 13 |
| TemperatureRules.BacklightInRange | temperature-lcd/cpp/temperature-lcd.cpp:117-119 | every component fits in 0..255 (green in 0..64), so the stores keep it |
| TemperatureRules.BacklightMonotone | temperature-lcd/cpp/temperature-lcd.cpp:106-119 | warmer readings never make the light less red or green, nor more blue |
| TemperatureRules.SeqMin | temperature-lcd/cpp/temperature-lcd.cpp:88-90 | the smallest reading of a run |
| TemperatureRules.SeqMax | temperature-lcd/cpp/temperature-lcd.cpp:91-93 | the largest reading of a run |
| TemperatureLcd.InitPlatform | temperature-lcd/cpp/temperature-lcd.cpp:142-165 | on an UP2 with the shield, pins 516/515/512 and bus 0 and result 0; on an UP2 without it, only the bus and result -1; elsewhere nothing is assigned |
| TemperatureLcd.CppPinsAreJavaPinsOnGrovePi | temperature-lcd/maven/src/main/java/iotdk/example/DisplayTemperatureOnLCD.java:133-143 | only on an UP2 with the shield does C++ give every device a pin, and there each pin is the Java pin plus 512 |
| TemperatureLcd.SinceLastPress | temperature-lcd/cpp/temperature-lcd.cpp:84-94 | the readings since the last press, or all of them |
| TemperatureLcd.Statics | temperature-lcd/cpp/temperature-lcd.cpp:67-94 | a press sets both statics to the reading |
| TemperatureLcd.StaticsAreWindowExtremes | temperature-lcd/cpp/temperature-lcd.cpp:67-94 | after a reading, the statics are the smallest and largest readings since the last press (or the start), so INT_MAX and INT_MIN never survive |
| TemperatureLcd.SecondRowShowsWindowExtremes | temperature-lcd/cpp/temperature-lcd.cpp:97-104 | the second row shows the smallest and the largest reading since the last press |
| TemperatureLcd.StaticsBracketWindow | temperature-lcd/maven/src/main/java/iotdk/example/DisplayTemperatureOnLCD.java:84-95 | the minimum never exceeds the maximum, and both bracket every reading since the last press |
| TemperatureLcd.MinMaxSnoc | temperature-lcd/cpp/temperature-lcd.cpp:88-93 | one more reading moves the extremes only if it passes them |
| TemperatureLcd.HistorySnoc | temperature-lcd/cpp/temperature-lcd.cpp:83-127 | one more reading moves the statics as an update does and adds its colour |
| TemperatureLcd.Colors | temperature-lcd/cpp/temperature-lcd.cpp:117-127 | one backlight colour per reading, the colour of that reading |
| TemperatureLcd.TemperatureDisplay.constructor | temperature-lcd/cpp/temperature-lcd.cpp:67-68 | the statics start at INT_MAX and INT_MIN |
| TemperatureLcd.TemperatureDisplay.Update | temperature-lcd/cpp/temperature-lcd.cpp:83-127 | after an update min ≤ reading ≤ max; a press sets both to the reading; otherwise min never rises and max never falls; the rows and the colour are sent |
| TemperatureLcd.TemperatureDisplay.Run | temperature-lcd/cpp/temperature-lcd.cpp:197-201 | from the start, the statics are those of the whole run, and the backlight shows each reading's colour in turn |

## Left out

- MRAA/UPM device calls are not modelled. Readings are parameters, and commands are values or logs. Write failures are modelled only where the program acts on them (the C++ curtain configuration loop).
- Threads, the robot's mutex, `volatile` flags and signal handlers are not modelled. Each thread body is one method call per pass, and forever loops run over a finite sequence of passes.
- Floating point is not modelled:
  - the degree arithmetic of `convertRawCoords` (only its guards and its `std::stoi` are modelled);
  - the battery voltage (its comparison with 7.2 V is a boolean input; for the Java rover, whether `Float.toString` of it is shorter than four characters is a second boolean input);
  - the compass heading (its rounded int is the input);
  - how `<<`, `Float.toString` and Java string concatenation write a float (an input string).
  The UV intensity and the plant light intensity are exact reals. The temperature fade is an exact quotient; single precision cannot change a truncated component there.
- Sleeps, `checkRoot`, messages on standard output and error, and the checks that devices were created are not modelled.
- UPM's `getSampledWindow` and `findThreshold` are not part of this model. Their sample count and resulting context are inputs of each sound window.
- The stepper speed settings are not modelled, nor the LCD's column wrap and rows beyond the second.
- Overflow of the 32-bit int sum in the solar `Average` is not modelled.
- The fleet tracker's `displayTime` LCD thread, its GPS reading thread, the UDP socket and the C++ `backupDistanceChecker` are not part of this model. The Java `distanceRunnable` is modelled as its flag only, without its LCD message.
- Robot LCD text is not modelled beyond the heading line: the voltage row and the messages the command loop prints.
- The Java rover's `Scanner.next()` is modelled as always returning a fresh string object, so the `==` test with "stop" or "" never holds. An `InputMismatchException` from `nextShort` ends the loop.
- The C++ fleet tracker indexes fields 2 to 5 of a GGA line with fewer than six fields; `UndefinedIndex` is its outcome.
- TemperatureLcd.TemperatureDisplay.Run: starts from the state the program starts in (no reading yet), as `main` does. It states the LCD rows only through `Update`.
- CurtainCpp.Curtain.Run and CurtainJava.AutomaticCurtain.Run: stop at the first iteration whose configuration passes run out before the button is pressed. The program would still be waiting there.
- FleetCpp.ConvertRawCoords: does not model the `out_of_range` that `std::stof` throws for a number whose exponent leaves the float range (such as "1e99"). Text that `std::stoi` accepts is taken to convert.
- SoundBar.BarLevel: assumes the UPM `runningAverage` is a signed int. Its declaration is not part of this model.
- CurtainCpp.InitPlatform, TemperatureLcd.InitPlatform and SoundBar.ChoosePins: take the C++ shield macro as a parameter.

## Findings

| source | as written | input that shows it | evidently intended | confidence | as-written member | corrected member |
|---|---|---|---|---|---|---|
| kits/transportation-safety/java/VehicleFleetTracker.java:211 | `vecStr[0] == "$GPGGA"` compares the first field of a split with the literal by object identity | any buffer holding a GGA sentence, such as `$GPGGA,123519,4807.038,N,01131.000,E,1` followed by a newline: the split makes a fresh string, so nothing is reported | compare with `.equals`, and report fields 2 to 5 of every GGA line | not executed | FleetJava.NoLineEverReports | FleetJava.GgaLineReportedByEquals |
