# DroidOS in Dafny

A verified model of the parts of DroidOS whose correctness is not obvious from reading one
function: the YAML fallback parser and printer, the safety-controller firmware and its
CRC-8, the drive loop, the host safety stack with its persisted e-stop latch, service
lifecycle and boot, the Rocky policy pipeline, the JSON extractor and the A/B update slots.

Check everything with `dafny verify dfyconfig.toml`.

## How it is built

| files | part |
|---|---|
| `Crc8`, `Bytes`, `Orbits` | `crc8` as division by x^8+x^2+x+1 (the parameters of the Packet Error Code in section 5.4 of SMBus 2.0) |
| `Firmware` | the control loop as a run of frames, polls and contactor updates over 32-bit time |
| `PyText`, `YamlScalar`, `YamlFlow`, `YamlParser`, `YamlBlocks`, `YamlGaps`, `YamlDumper`, `YamlRoundTrip`, `YamlText` | scalars, lines and text of the YAML subset |
| `Drive`, `DriveAlignment`, `BehaviourTree`, `DriveProtocol`, `Executive` | velocity controller and integration, the tree, `_drive_to` with arbitrary interference |
| `DroidStates`, `SafetyStack`, `SafetyHistory` | state graph, safety controller, gateway, latch, runs with reboots; power, grants and faults read off the history |
| `Lifecycle`, `Assessment`, `Supervisor` | services under failing hooks, readiness, boot |
| `Rocky`, `JsonScan`, `Update`, `Wrappers` | policy and pipeline, brace scan, slots |

Code that updates state is modelled by classes and loops, each proved against a function
of the old state; the theorems about all runs are lemmas about those functions. Clock
readings, hook verdicts, file contents, decoder results, sensor readings and the moments
at which others act are inputs. Floats are exact reals. The trigonometric functions are
parameters constrained by the laws in `Drive.Trig.Lawful` (addition, period, unit circle,
cos a >= 1 - a^2/2, norm and polar form, pi > 3) and, for the linear budget, in
`DriveAlignment.SineLaws`.

## What the code does that its documentation does not say

- The firmware comments call unknown commands "treated conservatively"; power is removed
  only until the contactor update of the same pass (`Firmware.UnknownFrameIsHeartbeat`).
- `_drive_to` says power is always released; an exception inside `drive` skips the release.
  `DriveProtocol.FinalPower` says exactly when power is left on, and
  `DriveProtocol.AlwaysReleasedIff` when that cannot happen.
- `enter_active` succeeds in any state, and a granted drive that starts in DEGRADED ends in
  READY; a refused one leaves DEGRADED as it is (`DriveProtocol.FinalState`).
- The update service says a failed boot returns to the previous slot; an unhealthy report
  without a preceding install leaves the slot that is running
  (`Update.UnhealthyKeepsIff`, `Update.UnhealthyFreshSystem`).
- `failed_services` may name a service that a later dependant's activation brought up
  (`Supervisor.ReportedButUp`), and never names the gateway (`Supervisor.FailedIff`).
- A saved latch is best effort. The file is truncated before it is written, so a failing
  write can lose even an e-stop that was on file (`SafetyStack.EstopPersistsIff`,
  `SafetyStack.NoGrantUntilReset`).
- The parser drops lines silently below a list item (`YamlGaps.DropsNothingIff`).

## Model

| member | source | states |
|---|---|---|
| `Crc8.Compute` | firmware/safety-controller/src/main.c:141-149 | the two nested loops compute the bit-serial register run from zero, whose meaning is fixed by the lemmas below |
| `Crc8.RegisterIsRemainder` | firmware/safety-controller/src/main.c:141-149 | the register is a remainder: message times x^8 equals quotient times x^8+x^2+x+1 plus the register, coefficient by coefficient, for every message |
| `Crc8.RemainderUnique` | firmware/safety-controller/src/main.c:141-149 | division by the generator has only one quotient and one remainder below degree 8 |
| `Crc8.ChecksumIsTheRemainder` | firmware/safety-controller/src/main.c:141-149 | any byte that is a remainder of the message is its checksum |
| `Crc8.ChecksumLinear` | firmware/safety-controller/src/main.c:141-149 | for equal lengths the checksum of a bytewise xor is the xor of the checksums |
| `Crc8.ResidueIsZero` | firmware/safety-controller/src/main.c:141-149 | message plus trailer byte has checksum zero if and only if the trailer is the checksum |
| `Crc8.BurstDetected` | firmware/safety-controller/src/main.c:141-149 | a nonzero error confined to 8 consecutive bits changes the checksum at every message length and position |
| `Crc8.RegisterParity` | firmware/safety-controller/src/main.c:141-149 | the parity of the register is the parity of all bits fed to it |
| `Crc8.OddErrorDetected` | firmware/safety-controller/src/main.c:141-149 | an error flipping an odd number of bits changes the checksum |
| `Crc8.OrderOfX` | firmware/safety-controller/src/main.c:141-149 | shifting 1 returns to 1 after exactly the multiples of 127 steps |
| `Crc8.TwoFlipsDetected` | firmware/safety-controller/src/main.c:141-149 | two flipped bits are detected if and only if their distance is not a multiple of 127 |
| `Firmware.Controller.EnterSafeState` | firmware/safety-controller/src/main.c:32-36 | ORs in the fault bits, opens the contactor, changes nothing else |
| `Firmware.Controller.OnHostMessage` | firmware/safety-controller/src/main.c:45-71 | one frame: heartbeat, request, clear mask, reported bits, unknown type |
| `Firmware.Controller.PollHardwareFaults` | firmware/safety-controller/src/main.c:74-88 | one poll: e-stop latch, over-temperature, joint limit, silence by 32-bit age |
| `Firmware.Controller.UpdateContactor` | firmware/safety-controller/src/main.c:90-98 | closes exactly when power is requested and may be enabled |
| `Firmware.Controller.Iteration` | firmware/safety-controller/src/main.c:117-127 | one pass of the loop is the run of its frames, its poll and its contactor update |
| `Firmware.ContactorClosedIff` | firmware/safety-controller/src/main.c:32-98 | for every run: the contactor is closed if and only if the last ENABLE/DISABLE was ENABLE, no e-stop was ever sampled, every raised bit has a later CLEAR_FAULT that covers it, and the modular host age is below 100 |
| `Firmware.PoweredInvariant` | firmware/safety-controller/src/main.c:32-98 | at every instant of every run, power on implies requested, no latch and no fault bit |
| `Firmware.EstopIsFinal` | firmware/safety-controller/src/main.c:58-62 | after a sampled e-stop no continuation of the run closes the contactor |
| `Firmware.FrameCodes` | firmware/safety-controller/src/main.c:45-71 | what each frame type does, by its number on the wire |
| `Firmware.FrameFaults` | firmware/safety-controller/src/main.c:58-65 | frame 0x04 clears exactly bits 1 to 4, frame 0x05 adds exactly the bits of its first payload byte |
| `Firmware.UnknownOpens` | firmware/safety-controller/src/main.c:66-69 | any other frame opens the contactor at once and counts as contact |
| `Firmware.PollLimits` | firmware/safety-controller/src/main.c:74-88 | a poll raises bit 0 on the e-stop, 1 from 85 degrees, 2 on a joint limit, 4 from 100 ms of silence, and keeps power if and only if it raises none |
| `Firmware.UnknownFrameIsHeartbeat` | firmware/safety-controller/src/main.c:66-69 | from the next contactor update on, an unknown frame has done exactly what a heartbeat would have |
| `Firmware.UnknownFrameKeepsPower` | firmware/safety-controller/src/main.c:66-69 | a concrete run in which a powered droid keeps its power through an unknown frame |
| `Firmware.SilenceLatches` | firmware/safety-controller/src/main.c:85-87 | with bounded gaps between looks, true silence of 100 ms or more at a poll has latched the silence bit |
| `Firmware.WrapSafeIff` | firmware/safety-controller/src/main.c:38-42 | "a closed contactor implies true silence below 100 ms" holds for all runs if and only if the gap between looks is at most 2^32 - 100 ms |
| `YamlScalar.SplitFlow` | src/droidos/util/miniyaml.py:88-105 | the character loop splits at the commas outside quotes and drops an empty tail |
| `YamlFlow.FlowIsStretches` | src/droidos/util/miniyaml.py:88-105 | for every text the parts are the stripped stretches between the commas that stand outside quotes, and the tail after the last of them if it is not blank |
| `YamlFlow.FlowListReadBack` | src/droidos/util/miniyaml.py:71-76 | one or more parts without commas or quotes, joined by ", " in brackets, read as the list of what each part reads as |
| `YamlFlow.FixedWords` | src/droidos/util/miniyaml.py:57-68 | the spellings of null, true, false and the two empty containers |
| `YamlFlow.QuotedIsString` | src/droidos/util/miniyaml.py:69-70 | any text in single or in double quotes reads as that text |
| `YamlFlow.DecimalIsFloat` | src/droidos/util/miniyaml.py:81-84 | digits, a point and digits read as a float |
| `YamlFlow.DigitsAreInt` | src/droidos/util/miniyaml.py:77-80 | up to 4300 digits with or without a sign read as the integer that their places give |
| `YamlScalar.StripComment` | src/droidos/util/miniyaml.py:139-150 | the character loop cuts at the first hash outside quotes that starts the line or follows a blank |
| `YamlFlow.CutsAtComment` | src/droidos/util/miniyaml.py:139-150 | what is left of a line is what comes before its first hash that stands outside quotes and starts the line or follows a blank |
| `YamlScalar.IntRoundTrip` | src/droidos/util/miniyaml.py:57-85 | decimal text of an integer reads back as that integer if and only if it has at most 4300 digits |
| `YamlScalar.PlainLeaf` | src/droidos/util/miniyaml.py:285-295 | an unquoted string reads back if and only if it looks like no keyword, number (in the digits of any script), quoted or flow token, nor (outside a list) a block header |
| `YamlScalar.WideDigitLost` | src/droidos/util/miniyaml.py:57-85 | a single non-ASCII digit is written plainly and read as a number |
| `YamlScalar.QuotedLeaf` | src/droidos/util/miniyaml.py:285-295 | a quoted string reads back if and only if the comment stripper cuts none of its token; quotes inside it are not escaped |
| `YamlScalar.CoveredIff` | src/droidos/util/miniyaml.py:139-150 | that is, if and only if no hash after a blank stands where the string's own quotes have closed the token's |
| `YamlScalar.OutsideIsOdd` | src/droidos/util/miniyaml.py:139-150 | without single quotes, those are the places after an odd number of double quotes |
| `YamlScalar.UnquotedIsCovered` | src/droidos/util/miniyaml.py:139-150 | nothing is cut from the token of a string without double quotes |
| `YamlScalar.QuoteThenHashLost` | src/droidos/util/miniyaml.py:139-150 | a string with a double quote and then a hash after a blank that does not read back |
| `YamlScalar.LeafRoundTrip` | src/droidos/util/miniyaml.py:57-85 | printing and reading any null, bool, int, one-line string or empty container gives it back if and only if the leaf condition holds |
| `YamlParser.CleanLines` | src/droidos/util/miniyaml.py:126-136 | the line loop keeps exactly the lines that show something, with their indents |
| `YamlBlocks.LineBreaks` | src/droidos/util/miniyaml.py:126-128 | every break character ends a line; a carriage return with its line feed ends one |
| `YamlBlocks.NothingVanishes` | src/droidos/util/miniyaml.py:130-132 | blank lines and comment lines vanish |
| `YamlBlocks.MarkerVanishes` | src/droidos/util/miniyaml.py:133-134 | lines that start with `---` or `...` vanish with all that follows on them |
| `YamlBlocks.ContentKept` | src/droidos/util/miniyaml.py:128-136 | a content line keeps its indent and its text, with or without a comment after it |
| `YamlParser.ParseBlockScalar` | src/droidos/util/miniyaml.py:204-220 | consumes exactly the deeper lines and joins or folds them |
| `YamlBlocks.LiteralKeepsLines` | src/droidos/util/miniyaml.py:204-220 | a `|` block is its lines each with a line feed and splits back into them; with `-` only the last line feed goes |
| `YamlBlocks.FoldedIsOneLine` | src/droidos/util/miniyaml.py:204-220 | a `>` block is its lines with one space between any two and nothing after the last, `-` or not |
| `YamlBlocks.BlockEntry` | src/droidos/util/miniyaml.py:182-188 | a block scalar entry takes exactly the deeper lines below it, whatever follows them |
| `YamlParser.ParseEntry` | src/droidos/util/miniyaml.py:175-200 | one turn of the mapping loop: every error and every kind of value |
| `YamlBlocks.LaterWins` | src/droidos/util/miniyaml.py:169-201 | the later value of a repeated key replaces the earlier one in its place; other keys keep their values |
| `YamlBlocks.ReadKeysDistinct` | src/droidos/util/miniyaml.py:169-201 | no mapping that is read holds a key twice |
| `YamlBlocks.MappingErrors` | src/droidos/util/miniyaml.py:174-181 | a deeper line, a list item and a line without a colon are each their own error; a shallower line ends the mapping |
| `YamlBlocks.ListErrors` | src/droidos/util/miniyaml.py:226-234 | a deeper line in a list is an error; a shallower one, or one that is no item, ends it |
| `YamlBlocks.BareKeyIsNull` | src/droidos/util/miniyaml.py:189-197 | a key with nothing behind or below it reads as null |
| `YamlBlocks.IndentsAreRelative` | src/droidos/util/miniyaml.py:153-250 | changing all indents so that deeper lines stay deeper, and the two columns of every dash stay two, changes neither the value nor the error |
| `YamlParser.ParseMap` | src/droidos/util/miniyaml.py:169-201 | the index loop is the recursive reader on the remaining lines; it ends at a shallower line |
| `YamlParser.SubBlock` | src/droidos/util/miniyaml.py:239-243 | the synthetic block is the item followed by all deeper lines |
| `YamlParser.ParseItem` | src/droidos/util/miniyaml.py:235-249 | one turn of the list loop, with the mapping read from a synthetic block |
| `YamlParser.ParseList` | src/droidos/util/miniyaml.py:223-250 | the index loop is the recursive reader on the remaining lines |
| `YamlParser.ParseBlock` | src/droidos/util/miniyaml.py:163-166 | dispatches to list or mapping and always advances |
| `YamlParser.ParseText` | src/droidos/util/miniyaml.py:153-160 | total: every text yields a value or one of the errors |
| `YamlGaps.GaplessDropsNothing` | src/droidos/util/miniyaml.py:153-250 | if outside block scalars no list item that opens a mapping has a line below it indented exactly one column deeper than its dash, the parser agrees with a strict one that reports any line left unread, so it raises or consumes every line |
| `YamlGaps.DropsNothingIff` | src/droidos/util/miniyaml.py:223-250 | a successful parse has accounted for every line if and only if there is no such line |
| `YamlGaps.EvenInputDropsNothing` | src/droidos/util/miniyaml.py:153-250 | in particular if all indents are even |
| `YamlGaps.OddInputDropsLines` | src/droidos/util/miniyaml.py:223-250 | with an odd indent a line is silently dropped |
| `YamlDumper.DumpText` | src/droidos/util/miniyaml.py:256-282 | the printer that appends to a list computes the recursive printer |
| `YamlDumper.DumpEntries` | src/droidos/util/miniyaml.py:258-268 | the loop over a mapping |
| `YamlDumper.DumpItems` | src/droidos/util/miniyaml.py:269-281 | the loop over a list, with the first line of a mapping moved up to the dash |
| `YamlRoundTrip.BlockReadBack` | src/droidos/util/miniyaml.py:163-250 | parsing the lines of a printed block, at any depth and with anything shallower after it, gives what its leaves read back as |
| `YamlRoundTrip.ReadBackIdentity` | src/droidos/util/miniyaml.py:57-85 | reading back is the identity on a value if and only if every leaf reads back |
| `YamlText.DumpThenParse` | src/droidos/util/miniyaml.py:153-295 | the parse of the printed text of every supported block value, computed exactly |
| `YamlText.RoundTripIff` | src/droidos/util/miniyaml.py:153-295 | parse(dump(v)) gives v if and only if every leaf reads back |
| `YamlText.TidyRoundTrip` | src/droidos/util/miniyaml.py:153-295 | values whose strings hold no double quote and are quoted by the printer or look like nothing else come back, at any depth |
| `YamlText.TopLevelScalarLost` | src/droidos/util/miniyaml.py:153-166 | no scalar and no empty container at top level comes back, `{}` included |
| `Drive.WrapRange` | src/droidos/services/motion.py:153-154 | the wrapped angle lies in [-pi, pi) and differs by whole turns |
| `Drive.WrapUnique` | src/droidos/services/motion.py:153-154 | it is the only such angle |
| `Drive.WrapAdd` | src/droidos/backends/simulation.py:223-224 | wrapping an addend first changes nothing |
| `Drive.ClampsPass` | src/droidos/services/motion.py:91-101 | both clamps pass every command of the velocity controller unchanged |
| `Drive.LimitsMean` | src/droidos/services/motion.py:92-94 | a given limit beats the advertised speed, which beats 0.3 m/s; without a given turning limit it is 0.8 rad/s |
| `Drive.ClampNearest` | src/droidos/services/motion.py:149-150 | the clamp gives the admissible value nearest to the asked one |
| `Drive.MotionClampMeans` | src/droidos/services/motion.py:91-101 | any command comes out within the limits, without sideways motion unless the body is omnidirectional, and passes the second clamp; one already within them is unchanged |
| `Drive.CommandMeans` | src/droidos/services/motion.py:104-118 | the controller turns toward the goal at twice the error up to the limit, and advances only within 0.3 rad, at the limit or at the distance, whichever is less |
| `Drive.IntegrateMeans` | src/droidos/backends/simulation.py:69-78 | a step moves the body by the commanded velocity times the time, along its heading and across it |
| `Drive.TurnTick` | src/droidos/services/motion.py:104-118 | a turning tick takes exactly 0.1*min(2 abs(e), max_ang) off the yaw error, without overshoot or wrap jump, and moves nothing else |
| `Drive.AdvanceTick` | src/droidos/backends/simulation.py:69-78 | an advancing tick takes at least 0.9 * 0.1*min(max_lin, d) off the distance, through both clamps and the pose integration |
| `Drive.DistanceNeverGrows` | src/droidos/executive/executive.py:269-291 | over the whole powered loop the distance to the goal never increases |
| `Drive.TurningEnds` | src/droidos/services/motion.py:104-118 | consecutive turning ticks number at most (pi - 0.3)/step + 1 |
| `Drive.Arrives` | src/droidos/executive/executive.py:269-291 | for any limits, a number of ticks computed from distance, heading and limits within which some pose is inside the arrival radius |
| `DriveAlignment.KeepsAligned` | src/droidos/services/motion.py:104-118 | a body that turns at 0.6 rad/s or faster and is aligned stays aligned on an advancing tick: the bearing shifts by less than the droid turns |
| `DriveAlignment.ArrivesInLine` | src/droidos/executive/executive.py:269-291 | such a body arrives within a number of ticks linear in the distance: one advance step per advance and one turn step per turn |
| `DriveAlignment.BudgetReaches` | src/droidos/executive/executive.py:24-26 | the 3000 ticks of a drive suffice for every goal within 39 m |
| `BehaviourTree.TickChildren` | src/droidos/executive/behaviour_tree.py:52-75 | the composite loop: which children were ticked, in which states, and why it stopped |
| `BehaviourTree.RunTree` | src/droidos/executive/behaviour_tree.py:78-84 | the bounded runner never answers RUNNING |
| `BehaviourTree.FirstSettledTick` | src/droidos/executive/behaviour_tree.py:78-84 | the runner answers with the first tick that is not RUNNING, and fails after exactly the budget if there is none |
| `BehaviourTree.DualTick` | src/droidos/executive/behaviour_tree.py:52-75 | selectors are sequences with success and failure exchanged, for every tree |
| `BehaviourTree.CascadeOfThree` | src/droidos/executive/executive.py:293-298 | the three actions of a drive each run once, in order, only after those before succeeded |
| `Executive.Executive.DriveTick` | src/droidos/executive/executive.py:270-289 | one tick: the interference before it, then the checks in their order, which say whether and how it ends the loop, and a velocity command only if it does not |
| `Executive.Executive.DriveLoop` | src/droidos/executive/executive.py:269-291 | at most 3000 ticks: which ticks went on, what ended the loop, and exactly what happened to the host |
| `Executive.Executive.PoweredDrive` | src/droidos/executive/executive.py:264-302 | everything after a grant, in order, with all interference, up to the release that an exception skips |
| `Executive.Executive.DriveTo` | src/droidos/executive/executive.py:249-304 | exactly the drive that the plan and the world determine: outcome, number of ticks and final host; the lemmas on `Drove` and `Final` below are therefore about it |
| `DriveProtocol.DrivenOnce` | src/droidos/executive/executive.py:269-291 | a plan and a world determine the number of ticks and the outcome |
| `DriveProtocol.OutcomeFromFlags` | src/droidos/executive/executive.py:269-291 | every tick that went on was uncancelled, localized, unblocked and farther than 0.15 m; below 3000 ticks the outcome is cancelled, lost, blocked or arrived if and only if the next tick's flags and distance say so, and timeout if and only if 3000 went on |
| `DriveProtocol.FlagEndsDrive` | src/droidos/executive/executive.py:271-285 | a cancellation, lost localization or obstacle at a tick: the drive gets no further, ends for one of these reasons if it gets there, and leaves the body where that tick found it |
| `DriveProtocol.LoopTakesAll` | src/droidos/executive/executive.py:269-291 | exactly the interference that the world holds for the ticks that began happens during the loop, in order |
| `DriveProtocol.FinalState` | src/droidos/executive/executive.py:249-304 | an e-stop anywhere in what the world holds up to where the drive ends leaves EMERGENCY_STOPPED; otherwise the exact final state from the start state and the outcome |
| `DriveProtocol.StateAfterDrive` | src/droidos/executive/executive.py:264-304 | without an e-stop a drive that returns leaves a ready, degraded or active droid READY |
| `DriveProtocol.StopInTick` | src/droidos/executive/executive.py:269-291 | an e-stop, fault or release before any check of a tick leaves the body where that tick began, for the rest of the drive |
| `DriveProtocol.StopBeforeTicks` | src/droidos/executive/executive.py:258-267 | one between the grant and the first tick leaves the body where the drive began |
| `DriveProtocol.StandingStopRefuses` | src/droidos/executive/executive.py:258-262 | a stop or fault that nobody takes back before the request refuses the drive, and the pose never changes |
| `DriveProtocol.FinalPower` | src/droidos/executive/executive.py:300-304 | from an unpowered start: both powers off on every normal return; backend power left on if and only if the drive raises and nothing since the grant cut it |
| `DriveProtocol.RaisedFacts` | src/droidos/executive/executive.py:249-304 | refused if and only if not granted; raises if and only if granted, the body cannot move, and the first tick gets as far as commanding it to |
| `DriveProtocol.ArrivalFacts` | src/droidos/executive/executive.py:286-288 | arrival is within the radius; an undisturbed granted drive of a body that can move arrives if and only if the powered loop comes close enough within 3000 ticks |
| `DriveProtocol.NearGoalsReached` | src/droidos/executive/executive.py:269-291 | it does for every goal within 39 m, for a body at least as fast as 0.15 m/s and 0.6 rad/s |
| `DriveProtocol.AlwaysReleasedIff` | src/droidos/executive/executive.py:300-304 | every possible drive ends unpowered if and only if the body can move, the goal is already within reach, or the controller is dead |
| `DriveProtocol.EstopEndsDrive` | src/droidos/executive/executive.py:249-304 | an e-stop at any point leaves the droid EMERGENCY_STOPPED at the end |
| `DriveProtocol.StepsKeepOff` | src/droidos/executive/executive.py:249-304 | without a grant, power stays off and the body stays put |
| `DriveProtocol.CruiseKeepsState` | src/droidos/executive/executive.py:264-304 | without an e-stop, interference and velocity commands leave the droid state alone, so only the entry and the exit of a drive move it |
| `DriveProtocol.PowerLastsUntilCut` | src/droidos/executive/executive.py:249-304 | granted power lasts if and only if no stop, fault or release occurs |
| `DroidStates.StateMachine.Transition` | src/droidos/core/states.py:126-133 | takes legal transitions, refuses others without effect, and keeps the history a chain |
| `DroidStates.StateMachine.Force` | src/droidos/core/states.py:135-139 | always moves, and the record says so |
| `DroidStates.GraphReversed` | src/droidos/core/states.py:54-102 | the transition graph agrees with the one read backwards, state by state |
| `DroidStates.EstopNeedsRecovery` | src/droidos/core/states.py:38-102 | by legal transitions alone, every path from an e-stop to a state outside the motion-forbidden set passes RECOVERY or BOOTING, and such a state permits motion |
| `SafetyStack.SimulatedSafetyController.CheckWatchdog` | src/droidos/backends/safety_controller.py:69-74 | stale or unlinked hosts lose power; the whole new state is given |
| `SafetyStack.SimulatedSafetyController.SetLink` | src/droidos/backends/safety_controller.py:77-80 | losing the link loses power; the whole new state is given |
| `SafetyStack.SimulatedSafetyController.EngageEstop` | src/droidos/backends/safety_controller.py:86-91 | latches, cuts power, records the reason; the whole new state is given |
| `SafetyStack.SimulatedSafetyController.ResetEstop` | src/droidos/backends/safety_controller.py:93-96 | clears the latch and the e-stop faults only; the whole new state is given |
| `SafetyStack.SimulatedSafetyController.RequestPowerEnable` | src/droidos/backends/safety_controller.py:99-104 | enables exactly when nothing speaks against it; the whole new state is given |
| `SafetyStack.SimulatedSafetyController.ReportFault` | src/droidos/backends/safety_controller.py:113-115 | adds the fault and cuts power; the whole new state is given |
| `SafetyStack.SimulatedSafetyController.ClearAllFaults` | src/droidos/backends/safety_controller.py:120-121 | keeps exactly the e-stop faults; the whole new state is given |
| `SafetyStack.SimulatedSafetyController.Status` | src/droidos/backends/safety_controller.py:124-134 | checks the watchdog, then reports; the whole new state is given |
| `SafetyStack.SafetyGateway.EngageEstop` | src/droidos/services/safety_gateway.py:67-76 | the whole effect of an e-stop: controller, backend power, latch file, forced state |
| `SafetyStack.SafetyGateway.ResetEstop` | src/droidos/services/safety_gateway.py:78-83 | the whole effect of a reset |
| `SafetyStack.SafetyGateway.RequestMotionPermission` | src/droidos/services/safety_gateway.py:89-107 | grants exactly when healthy and willing, and what a grant changes |
| `SafetyStack.SafetyGateway.ReleaseMotionPermission` | src/droidos/services/safety_gateway.py:109-115 | the whole effect of a release |
| `SafetyStack.SafetyGateway.ReportFault` | src/droidos/services/safety_gateway.py:117-121 | the whole effect of a fault |
| `SafetyStack.SafetyGateway.SetSafetyLink` | src/droidos/services/safety_gateway.py:124-127 | link loss cuts the controller but not the backend |
| `SafetyStack.SafetyGateway.OnConfigure` | src/droidos/services/safety_gateway.py:36-39 | loads the latch; raises exactly on a file that is not UTF-8 or not a JSON object |
| `SafetyStack.SafetyGateway.OnActivate` | src/droidos/services/safety_gateway.py:41-47 | both power flags off |
| `SafetyStack.SafetyGateway.EstopEngaged` | src/droidos/services/safety_gateway.py:85-86 | reads the latch without a heartbeat, which still checks the watchdog |
| `SafetyStack.StartProcess` | src/droidos/services/safety_gateway.py:30-47 | a process start over a latch file is the reboot step of the run model |
| `SafetyStack.RunKeepsPower` | src/droidos/services/safety_gateway.py:67-127 | in every run: controller power implies no e-stop, no fault, link up; backend power implies a token, no e-stop, no fault |
| `SafetyStack.StatusAgrees` | src/droidos/backends/safety_controller.py:29-40 | after any run a status permits movement if and only if it reports power |
| `SafetyHistory.SilentHostLosesPower` | src/droidos/backends/safety_controller.py:55-74 | over every run from a process start: a status that reports power or permits movement comes at most 1.0 s after the last heartbeat of the run |
| `SafetyHistory.LateReadCutsPower` | src/droidos/backends/safety_controller.py:69-74 | a status read later than that leaves power off until the next request, whatever else happens |
| `SafetyHistory.ControllerPoweredIff` | src/droidos/backends/safety_controller.py:54-134 | over every run from a process start: controller power is on if and only if some request was granted and logged in time, and no stop, release, fault, lost link, reboot or late look came since |
| `SafetyHistory.GrantFromHistory` | src/droidos/services/safety_gateway.py:89-107 | a request is granted if and only if, by the history of the process, the link is up, no e-stop stands, no fault is pending and the status is read within 1.0 s of the heartbeat |
| `SafetyHistory.FaultsFromRun` | src/droidos/backends/safety_controller.py:86-121 | over every run without a reboot: a fault is on record if and only if it was recorded and not removed since, e-stop faults by a reset only or by name |
| `SafetyHistory.RequestMeans` | src/droidos/services/safety_gateway.py:89-107 | what a granted and a refused request leave behind |
| `SafetyHistory.StatusMeans` | src/droidos/backends/safety_controller.py:124-134 | each field of a status by the state it was read from |
| `SafetyHistory.RebootMeans` | src/droidos/services/safety_gateway.py:30-47 | a new process starts with all power off and remembers only the e-stop on file |
| `SafetyHistory.FaultsAfterReboot` | src/droidos/services/safety_gateway.py:151-160 | after a reboot the only fault is the reason of an e-stop on file |
| `SafetyStack.PoweredExactlyWhileHolding` | src/droidos/services/safety_gateway.py:67-121 | the backend is powered if and only if some granted permission was not released, stopped, faulted or rebooted since |
| `SafetyStack.PoseMovesOnlyWhileHolding` | src/droidos/backends/simulation.py:69-78 | the pose changes only in a drive step while a permission is held |
| `SafetyStack.CutFreezesPose` | src/droidos/backends/simulation.py:69-78 | without a new request an unpowered body never moves |
| `SafetyStack.EstopStateStays` | src/droidos/services/safety_gateway.py:67-76 | the droid is EMERGENCY_STOPPED throughout a run if and only if the run holds no reboot, no shutdown and no re-assessment at a time when the e-stop has been reset |
| `SafetyStack.StopOutlastsDrive` | src/droidos/services/safety_gateway.py:67-127 | gateway operations and drive steps alone never leave EMERGENCY_STOPPED |
| `SafetyStack.LatchAgreesAlways` | src/droidos/services/safety_gateway.py:151-170 | with successful writes the latch file agrees with the controller in every run, reboots included |
| `SafetyStack.EstopPersistsIff` | src/droidos/services/safety_gateway.py:162-170 | an e-stop survives a reboot if and only if its write succeeded, or failed without touching a file that already said so |
| `SafetyStack.LostWriteLosesEstop` | src/droidos/services/safety_gateway.py:162-170 | a first e-stop whose write fails is forgotten by the next process, which grants motion |
| `SafetyStack.TornWriteLosesEstop` | src/droidos/services/safety_gateway.py:162-170 | a recorded e-stop, a second one whose write fails after truncating the file, and a reboot: motion is granted |
| `SafetyStack.StoppedUntilErased` | src/droidos/services/safety_gateway.py:151-170 | without a reset the file of a stopped host says so if and only if no failed write has emptied it since the last successful one, and while it does the e-stop holds |
| `SafetyStack.NoGrantUntilReset` | src/droidos/services/safety_gateway.py:67-107 | after a recorded e-stop and any run without a reset: no continuation short of a reset or another e-stop is granted motion, reboots included, if and only if no later failed write has emptied the file |
| `Lifecycle.ManagedService.Configure` | src/droidos/services/lifecycle.py:45-51 | the whole effect of configure under any hook verdict, including which hooks ran |
| `Lifecycle.ManagedService.Activate` | src/droidos/services/lifecycle.py:53-62 | the whole effect of activate under any hook verdict, including which hooks ran |
| `Lifecycle.ManagedService.Deactivate` | src/droidos/services/lifecycle.py:64-70 | the whole effect of deactivate under any hook verdict, including which hooks ran |
| `Lifecycle.ManagedService.Cleanup` | src/droidos/services/lifecycle.py:72-75 | the whole effect of cleanup under any hook verdict, including which hooks ran |
| `Lifecycle.ManagedService.Shutdown` | src/droidos/services/lifecycle.py:77-83 | the whole effect of shutdown under any hook verdict, including which hooks ran and whether the cleanup hook raised out of the call |
| `Lifecycle.ManagedService.Restart` | src/droidos/services/lifecycle.py:85-89 | the whole effect of restart under any hook verdict, including which hooks ran |
| `Lifecycle.ActiveIffBroughtUp` | src/droidos/services/lifecycle.py:45-89 | over every call sequence: ACTIVE if and only if configure and later activate succeeded, with no cleanup or shutdown since the first and no deactivation since the second |
| `Lifecycle.CallRuns` | src/droidos/services/lifecycle.py:45-89 | exactly which hooks each call runs, in order, by the state it finds; what it counts and which exception it remembers |
| `Lifecycle.RestartsCounted` | src/droidos/services/lifecycle.py:85-89 | over every call sequence the restart count is the number of restart calls |
| `Lifecycle.ShutdownDeactivates` | src/droidos/services/lifecycle.py:77-83 | shutting down an active service runs its deactivate hook first |
| `Lifecycle.OrderFacts` | src/droidos/services/supervisor.py:135-139 | every registered requirement is attempted before its service, and the recursion stays below it in rank |
| `Lifecycle.OrderIsClosure` | src/droidos/services/supervisor.py:135-139 | exactly the transitive registered requirements are attempted: a closed set inside every closed set around the service |
| `Assessment.Assess` | src/droidos/services/supervisor.py:142-205 | each reason is listed if and only if its condition holds, and the state follows from which conditions hold |
| `Assessment.FoundFitIff` | src/droidos/services/supervisor.py:142-205 | ready or degraded if and only if not stopped and healthy with the four critical services active, no issue but placeholders, enough battery, the bus online, required hardware present and responding and no actuator fault; ready if and only if besides every sensor responds |
| `Assessment.BackendReasons` | src/droidos/services/supervisor.py:170-197 | the backend checks list exactly the battery, actuator, sensor, fault and bus conditions that hold |
| `Assessment.OptionalSensorsDown` | src/droidos/services/supervisor.py:189-193 | exactly the optional sensors that do not respond |
| `Supervisor.ShippedGraphIsRanked` | src/droidos/services/supervisor.py:37-51 | the shipped requirements are acyclic and the activation list names exactly the shipped services |
| `Supervisor.ShippedOrder` | src/droidos/services/supervisor.py:37-51 | the gateway is listed first, all but three services require it, and each is listed after all it requires |
| `Supervisor.InTurnKeeps` | src/droidos/services/supervisor.py:115-124 | no pattern of hook failures loses a loaded latch, turns power on, clears an e-stop or takes an active service down |
| `Supervisor.BootOrderFacts` | src/droidos/services/supervisor.py:115-124 | all listed services are attempted, each after its requirements |
| `Supervisor.BootIsSafe` | src/droidos/services/supervisor.py:65-158 | motion-permitting outcomes need every critical service active, no e-stop, no inhibiting condition and all power off; a latched file never permits motion, and gives EMERGENCY_STOPPED once the gateway is configured |
| `Supervisor.BootKeeps` | src/droidos/services/supervisor.py:65-133 | after a boot backend power is on if and only if it was on, no connection was made and the gateway is not active; controller power if and only if it was on and the gateway is not configured |
| `Supervisor.Supervisor.ActivateWithDeps` | src/droidos/services/supervisor.py:135-139 | the recursion terminates and equals attempting its order one by one, ignoring the results of requirements |
| `Supervisor.Supervisor.AssessReadiness` | src/droidos/services/supervisor.py:142-205 | polls the controller as the code does and assesses what it saw |
| `Supervisor.Supervisor.Settle` | src/droidos/services/supervisor.py:207-214 | forces exactly when the target differs and is no legal successor |
| `Supervisor.Supervisor.BringUp` | src/droidos/services/supervisor.py:115-124 | failed_services grows by exactly the registered listed services, other than the gateway, that were not active right after their own turn, in order |
| `Supervisor.FailedIff` | src/droidos/services/supervisor.py:115-124 | a name is reported if and only if a turn of its own left it inactive; the gateway never is |
| `Supervisor.UnreportedIsUp` | src/droidos/services/supervisor.py:115-124 | a listed service that is not reported is active at the end |
| `Supervisor.EndsActiveIff` | src/droidos/services/supervisor.py:135-139 | a service that starts unconfigured ends active if and only if its configure hook succeeded in one attempt and its activate hook in that or a later one |
| `Supervisor.ReportedButUp` | src/droidos/services/supervisor.py:115-124 | a boot whose state estimator fails its own turn, is reported, and is brought up by the turn of navigation |
| `Supervisor.Supervisor.Boot` | src/droidos/services/supervisor.py:65-133 | from POWERED_OFF: the exact history, nothing forced, ending in the assessed state, the attempts in order, and the safety of the outcome |
| `Supervisor.Supervisor.Refresh` | src/droidos/services/supervisor.py:217-221 | re-assessment ends in the assessed state, forced exactly where no legal transition leads there, and is the re-assessment step of the run model |
| `Rocky.Decide` | rocky/policy.py:116-160 | the ordered rules and the pattern loop amount to: deny if forbidden, matching, disabled or empty; else allow if harmless; else ask |
| `Rocky.KindNeeds` | rocky/policy.py:14-22 | short of network risk, forbidden risk and patterns: each of the five kinds is denied if and only if its own capability is disabled, other kinds never |
| `Rocky.NetworkNeeds` | rocky/policy.py:174-175 | at network risk any kind but a command is denied if and only if network is disabled |
| `Rocky.CommandNeeds` | rocky/policy.py:144-173 | a command is denied if and only if it has no name or its one capability is disabled: privileged for `sudo` and 17 others or at that risk, else network, else shell_read for a read-only listed command, else shell_write |
| `Rocky.OneCapabilityDecides` | rocky/policy.py:137-142 | no capability but the one an action needs changes its decision |
| `Rocky.UnaskedIff` | rocky/policy.py:144-160 | what is not denied runs unasked if and only if it is read-only and, for a command, listed and not dangerous |
| `Rocky.ContentPatternDenies` | rocky/policy.py:131-135 | a forbidden pattern anywhere in the content denies any action |
| `Rocky.CommandPatternDenies` | rocky/policy.py:108-112 | and so does one anywhere in the stripped command line |
| `Rocky.WordsAppend` | rocky/policy.py:108-112 | the command line is the command and its arguments with one space between any two |
| `Rocky.StricterNeverRaises` | rocky/policy.py:116-176 | adding patterns or dangerous commands or disabling capabilities never raises a decision |
| `Rocky.ShrinkSafeIff` | rocky/policy.py:163-176 | shrinking the allowlist never raises a decision, for all actions and registries, if and only if shell_write enabled implies shell_read enabled |
| `Rocky.ShrinkNeverAllows` | rocky/policy.py:163-176 | even otherwise a smaller allowlist never lets anything run unasked |
| `Rocky.ValidateAction` | rocky/rockyctl:43-55 | each schema fault has its error, and there are no errors exactly for well-formed proposals |
| `Rocky.Pipeline.HandleAction` | rocky/rockyctl:58-92 | the whole effect of one call on rows, tool calls, log and executions |
| `Rocky.PipelineFaithful` | rocky/rockyctl:58-92 | over every request sequence: one row per accepted request with its decision and a final status, tool calls are exactly the rows of cleared requests once each in order, and nothing else ran |
| `Rocky.StatusMeans` | rocky/rockyctl:65-88 | each final status of a row by its decision, the `--yes` flag and the executor's verdict |
| `Rocky.LogMeans` | rocky/rockyctl:60-91 | one log entry per request, naming its row and whether it was run |
| `Rocky.UnclearedNeverRuns` | rocky/audit.py:50-80 | a denied or unconfirmed row has no tool call |
| `JsonScan.CloseBrace` | src/droidos/language/providers.py:225-236 | the inner loop finds the closing end of a start, or there is none |
| `JsonScan.FirstJsonObject` | src/droidos/language/providers.py:222-237 | returns the decoding at the least brace whose closed segment decodes, and None if and only if no segment does, for every text and decoder |
| `JsonScan.ClosedIsNested` | src/droidos/language/providers.py:225-236 | the segments considered are exactly the properly nested texts in one pair of braces |
| `JsonScan.EmbeddedIsFirst` | src/droidos/language/providers.py:222-237 | a decodable text after brace-free text is a hit if and only if it is closed, whatever follows, and then it is the first and only hit at its start |
| `JsonScan.RejectedHidesRest` | src/droidos/language/providers.py:222-237 | after one pair of braces whose segment is rejected, nothing is found in text without an opening brace |
| `JsonScan.BraceInStringLost` | src/droidos/language/providers.py:225-236 | the object {"a":"}"} is not closed in that sense and is not found |
| `Update.Updater.Install` | src/droidos/services/update.py:93-108 | the whole effect of an install |
| `Update.Updater.ConfirmBootHealth` | src/droidos/services/update.py:111-129 | the whole effect of a boot report |
| `Update.Updater.Rollback` | src/droidos/services/update.py:131-141 | the whole effect of a manual rollback |
| `Update.RunConsistent` | src/droidos/services/update.py:93-141 | over every run with named versions, where an unhealthy report comes only while next_boot differs from the active slot: the running version is the active slot's |
| `Update.UnhealthyKeepsIff` | src/droidos/services/update.py:121-126 | an unhealthy report keeps that agreement if and only if next_boot differs from the active slot or both slots hold the same version |
| `Update.UnhealthyFreshSystem` | src/droidos/services/update.py:28-38 | on a fresh system an unhealthy report activates the empty slot while the old version is reported running |
| `Update.HealthyKeepsIff` | src/droidos/services/update.py:113-120 | installing and booting a bundle keeps it if and only if the bundle's version is named (or is the build's own) |
| `Update.InstallsKeepActive` | src/droidos/services/update.py:93-108 | any number of installs leaves the active slot and the running version untouched |
| `Update.LastAcceptedIsStaged` | src/droidos/services/update.py:93-108 | after any installs the slot that is not active holds the last accepted version, not yet healthy, and boots next |
| `Update.HealthyBootRuns` | src/droidos/services/update.py:113-120 | a healthy boot then runs that version from that slot (the build's own if it has no name), and the old slot keeps its content |
| `Update.LastOutcome` | src/droidos/services/update.py:95-139 | what each operation records as its result; a rejected bundle changes nothing else |
| `Update.RollbackMeans` | src/droidos/services/update.py:131-141 | taken if and only if the other slot has a version, which it then runs; a second one undoes it |
| `Update.FailedBootRestores` | src/droidos/services/update.py:111-129 | installs followed by a failed boot restore active slot, its content and running version; next_boot becomes the active slot |
| `Update.RollbackUndoesUpdate` | src/droidos/services/update.py:131-141 | a rollback after a healthy update returns to the old slot and version |
| `Update.OnlyVerifiedRuns` | src/droidos/services/update.py:93-141 | in every run, slots and running version hold only initial, built-in or verified versions |

## Left out

- Executive.Executive.DriveTo: calls the three closures directly; `BehaviourTree.CascadeOfThree` shows that this is what ticking the sequence amounts to; reported data and reason texts are not modelled. The only exception modelled is the one of a body that cannot move, and those who interfere use the safety gateway only, not `refresh` or a shutdown.
- YamlText.RoundTripIff: excludes floats (their text form), integers of more than 4300 digits (which Python refuses to print), strings with line breaks, keys that need quoting or repeat, and lists directly inside lists, which the printer hands to Python's `str`.
- YamlScalar.PlainLeaf: takes the decimal digits of Unicode 14.0 and the default limit of 4300 digits; interpreters with another table or limit differ there.
- Drive.Arrives: assumes the trigonometric laws and exact arithmetic, as do the results built on it; rounding is not modelled.
- Firmware.Controller.Iteration: omits the status transmission and the watchdog pet, which touch no safety state.
- Crc8.Compute: states facts about `crc8` only; the UART frame reader is not part of this model.
- SafetyStack.SafetyGateway.RequestMotionPermission: returns the verdict without the reason text; audit and bus events are modelled only by the status read they make.
- SafetyStack.StartProcess: assumes a backend is present, as do the gateway's other methods; a latch file that cannot be opened for reading counts as missing. A reboot keeps the pose, as a real body does; the simulated backend of a new process starts at the origin.
- Supervisor.Supervisor.Boot: keeps services as values in a map instead of references to service objects (`Lifecycle.ManagedService` computes the same functions), so aliasing between registry entries is not captured; the boot report is not modelled, and hooks of services other than the gateway touch neither controller, backend power, latch nor droid state. `restart_failed` is not modelled, and `request_shutdown` only by its effect on the host in `SafetyStack.Step`.
- Rocky.Decide: values that are not strings are taken in their text form, and reason texts are dropped; the Rocky YAML loader is not modelled.
- Update.Updater.Install: the verdict on a bundle (checksum, signature) is an input; saving and loading the slot file is not modelled.
- PyYAML, when installed, replaces the modelled parser; its behaviour is not modelled.
- Task bookkeeping in `run_intent`, the other intent handlers, navigation, perception, world model and memory: field reads and list filters.
- Gait inference, joint commands, motor temperatures and battery: no stated specification beyond clamps.
- Command broker, authentication, command-line tools, language rendering, voice, HTTP, SQLite, ROS 2 and packaging: input and output, or one gate after another.
