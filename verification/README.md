# Verified models of the telescope control suite

This project models the parts of the ACT telescope suite that decide how the telescope moves, how it talks to its
controllers, and how its measurements are kept, and proves what those parts guarantee.

* **Motor controller** (`MotorDefs`, `SoftLimits`, `MotorMachine`, `MotorInvariants`, `MotorRuns`, `MotorEffects`,
  `MotorSky`, `MotorGotos`, `MotorOrders`, `MotorSettling`, `MotorDriver`). The driver is a state machine over goto, cardinal and handset moves, tracking and all-stop, with
  position kept by dead reckoning from a count-down step counter. `MotorMachine` gives each entry point as a function on
  the driver's and the controller card's state; `MotorDriver.Driver` works on fields as the driver does and is proved to
  compute those functions; the theorems are about every run of them. `MotorEffects`, `MotorSky`, `MotorOrders` and
  `MotorSettling` say what the functions mean for the axes, the sky and the clock, in compass directions, steps and seconds.
* **Soft limit tables** (`LimitTables`): the program that generates them by bisection, and the altitude
  formula by what its sines and cosines do: their signs, and where they rise and fall.
* **PLC link** (`PlcFraming`, `PlcCommand`, `PlcStatus`, `PlcProtocol`, `PlcSafety`, `PlcOrders`, `PlcLine`, `PlcReport`,
  `PlcDriver`): reassembly of messages from chunks, the one-request-at-a-time protocol, the command string with its one-shot
  orders, incremental decoding, and what commands order and reports say by their places and characters.
* **Photometry** (`Pmt`, `PmtRuns`, `PmtLimits`, `PmtReplies`, `PmtDriver`): probe, integration and cut-out by millisecond
  ticks, in readings and milliseconds, and the ring of records.
* **Calendar** (`Calendar`, `DateNormalisation`, `JulianDay`): dates brought into range in place, and the Julian day formula.
* **Star patterns** (`PatternMatch`, `PatternGreedy`, `PatternSearch`, `PatternPairs`, `PatternExamples`): clustering of
  differences and the greedy search, over real numbers.

An entry point is one atomic step. Time, counter readings, limit switches, and whether a write or an allocation succeeds
are parameters. Facts about devices (the position of the axes, the last command written, the readings taken) are kept
beside the driver's own state so that theorems can speak about them.

Where the code does something else than its comments, messages or names promise, the model follows the code:

* `start_goto` and `start_card` say the telescope must be initialised; one initialised axis is enough (`drivers/motor_driver/motor_intfce.c:227`).
* The planner's answer that "should never happen" does not happen, but a leg may still cross a soft limit by way of the tolerances (`SoftLimits.LegClearExactly`).
* A second cardinal command is refused as busy, so the code that would redirect the move is never reached (`drivers/motor_driver/motor_intfce.c:334-340`).
* Tracking corrections to the north, south or east never end by themselves, because steps made are added to what is open (`drivers/motor_driver/motor_intfce.c:884-900`, `MotorSky.OtherCorrectionsNeverEnd`), and each tick books one step for the sky where the sky makes 31 a second (`MotorSky.SkyOutrunsRounds`).
* A cardinal move ended while tracking catches up with the way of the sky since the move began, not since it was ended, and goes west also where the planner has no answer (`drivers/motor_driver/motor_intfce.c:837-861`, `MotorSky.CatchUpExactly`, `MotorSky.GoesWestExactly`).
* Close by its target a goto at guide speed gets faster than ordered, as the approach rate is the minimum rate (`drivers/motor_driver/motor_intfce.c:787-796`, `MotorSettling.FasterCloseByExactly`).
* The first command writes the slot of each wheel that the PLC reports into the tens digit of its order, where it stays; later orders write the units digit (`drivers/act_plc/act_plc.c:283-286`, `PlcOrders.SlotReadsBackExactly`).
* Focus orders of more than three digits are cut to their first three (`PlcOrders.FocusReadsBackExactly`).
* The photometer's cut-out multiplies the counts of L milliseconds by 1000 / L rounded down: it is right at every limit only if L divides 1000, and nothing is ever cut off in samples of more than a second, which orders may ask for (`drivers/pmt_driver/pmt_driver.c:515`, `PmtLimits.JudgedRightlyExactly`, `PmtLimits.DazzledToTheEnd`).
* The test for over-long messages can never be true, because the byte counter is one byte wide (`drivers/plc_ldisc/plc_ldisc.c:184`, `PlcFraming.LongMessageIsCut`), and characters without an end mark may overrun the buffer (`PlcFraming.GapMayOverrun`).
* The soft limit program searches from the middle of the hour angle range and takes the altitude there for the highest, but the meridian is 4708 steps east of it: some northern rows with positions above the limit are refused as a whole, and rows beyond the pole, where the altitude dips, are cleared as a whole (`utils/motor_gen_soft_lim.c:61`, `LimitTables.HighButRefusedExactly`, `LimitTables.LowButClearedExactly`).
* The focus region character `8` is documented as inward and used as outward (`drivers/act_plc/plc_definitions.h:22` and `57`).
* Only the second digit of an end code is looked at (`drivers/act_plc/act_plc.c:302-317`).
* `check_date_time_ranges` promises a corrected date; past December it is a year early (`libs/act_positastro.c:41-53`).
* The century term of the Julian day uses the day where the standard formula uses the month (`libs/act_positastro.c:346-348`).
* The matcher passes over clusters no larger than the best number of pairs, taking a cluster's size for a bound on the pairs it maps; it is none (`softw/act_acq/pattern_match.c:209-210`, `PatternExamples.SearchMayMissTheBest`).
* The matcher's wrapper walks as many points as there are matches, not all points of the list (`softw/act_acq/pattern_match.c:41`).

## Model

| member | source | states |
|---|---|---|
| MotorRuns.DeadReckoningHa | drivers/motor_driver/motor_intfce.c:627-650 | Over every run of commands, handset changes, monitor ticks and axis steps that sets no zero point, driver hour angle minus mechanical hour angle is constant, but for exactly two steps of drift per step made during a tracking correction to the east |
| MotorRuns.DeadReckoningDec | drivers/motor_driver/motor_intfce.c:627-650 | Over the same runs, driver declination minus mechanical declination is constant without exception |
| MotorRuns.EastCorrectionDrifts | drivers/motor_driver/motor_intfce.c:636-639 | The drift is real: after setting coordinates, tracking and ordering an adjustment to the east, one tick and five steps put the hour angle ten steps off |
| MotorRuns.SlowReversal | drivers/motor_driver/motor_intfce.c:1079-1092 | Over every run, the directions sent to an axis that moves faster than the minimum rate are at most as many as the all-stops, unloadings and limit hits of the run |
| MotorRuns.AllStopSafety | drivers/motor_driver/motor_intfce.c:379-390 | In every state reachable from loading: goto and cardinal move exclude each other; with all-stop set the last direction sent is 0, there is no goto and no tracking, and a cardinal move has direction 0 |
| MotorRuns.AllStopHolds | drivers/motor_driver/motor_intfce.c:486-513 | While all-stop stays on, no sequence of events moves the axes |
| MotorRuns.TickAtHardLimit | drivers/motor_driver/motor_intfce.c:657-735 | A tick that reads a hard limit in the current direction stops the motion or sets one of three flags that were unset, and leaves the direction |
| MotorRuns.LimitResponse | drivers/motor_driver/motor_intfce.c:725-732 | If every tick reads a hard limit in the current direction, the motor has been stopped within one tick more than there are unset flags, whatever steps of the axes and commands lie between, as long as these clear no flag |
| MotorRuns.FourTicksStop | drivers/motor_driver/motor_intfce.c:657-749 | So the fourth tick at the latest stops it |
| MotorRuns.FourTicksAlone | drivers/motor_driver/motor_intfce.c:657-749 | Without commands it is stopped by then and stays so |
| MotorRuns.ThreeTicksMayNotStop | drivers/motor_driver/motor_intfce.c:712-732 | Three ticks may not: in a state reached from loading by setting coordinates, a goto, and clearing the initialisation flags, each tick only announces ERR_LIMS, DEC_INIT or HA_INIT and skips the check of the motion |
| MotorRuns.StepKeepsInvariant | drivers/motor_driver/motor_intfce.c:215-590 | The law of every single entry point, tick and axis step: invariant, offsets, position and fast stops |
| MotorRuns.CancelledGotoStops | drivers/motor_driver/motor_intfce.c:275-293 | From every goto in every state of the invariant: after end_goto, in every run of commands, ticks and steps, no move is under way at some point not later than the nineteenth tick that gets to the check of the motion |
| MotorRuns.CancelledGotoStopsIn | drivers/motor_driver/motor_intfce.c:751-765 | The same for a cancelled goto whose rate reaches the minimum in n ramping steps, with n + 1 such ticks |
| MotorRuns.CancelledStep | drivers/motor_driver/motor_intfce.c:737-765 | Nothing brings a cancelled goto back: every event ends it, slows it down by one ramping step if it is a tick that gets to the check, or leaves its rate |
| MotorRuns.ClearGotoIsAccepted | drivers/motor_driver/motor_intfce.c:215-273 | An idle, initialised driver clear of limits accepts every goto to a clear target it is not already at |
| MotorInvariants.StartGotoKeeps | drivers/motor_driver/motor_intfce.c:215-273 | Starting a goto keeps the invariant, both offsets, the position, and breaks off no fast motion |
| MotorInvariants.EndGotoKeeps | drivers/motor_driver/motor_intfce.c:275-293 | Ending a goto does too, also where tracking is resumed at once |
| MotorInvariants.StartCardKeeps | drivers/motor_driver/motor_intfce.c:295-356 | Starting a cardinal move does too |
| MotorInvariants.EndCardKeeps | drivers/motor_driver/motor_intfce.c:358-370 | Ending a cardinal move does too |
| MotorInvariants.ToggleAllStopKeeps | drivers/motor_driver/motor_intfce.c:379-390 | All-stop keeps invariant, offsets and position, breaks off at most one fast motion, and leaves the motor stopped |
| MotorInvariants.StartTrackingKeeps | drivers/motor_driver/motor_intfce.c:417-425 | Tracking may start while the union still holds the finished move: nothing is pending, so the stale bytes change no coordinate |
| MotorInvariants.AdjustTrackingKeeps | drivers/motor_driver/motor_intfce.c:432-440 | A tracking adjustment keeps invariant and offsets, also over stale parameters |
| MotorInvariants.HandsetKeeps | drivers/motor_driver/motor_intfce.c:486-590 | A handset change keeps the invariant and both offsets; only a newly pressed all-stop may break off a fast motion |
| MotorInvariants.CheckGotoKeeps | drivers/motor_driver/motor_intfce.c:737-798 | The goto check keeps them, and at a limit it aborts |
| MotorInvariants.CheckCardKeeps | drivers/motor_driver/motor_intfce.c:800-869 | The cardinal check keeps them, and at a limit (a soft one only without handset) it aborts |
| MotorInvariants.CatchUpKeeps | drivers/motor_driver/motor_intfce.c:849-855 | Catching up with the sky stores the new direction before it starts the move, and loses no step |
| MotorInvariants.CheckTrackingKeeps | drivers/motor_driver/motor_intfce.c:871-920 | The tracking check keeps them, and at a limit switches all-stop on |
| MotorInvariants.LookAroundKeeps | drivers/motor_driver/motor_intfce.c:667-723 | Reading limits and coordinates changes an offset only by setting a zero point, and only on that axis |
| MotorInvariants.TickKeeps | drivers/motor_driver/motor_intfce.c:657-735 | A whole tick: invariant, position, offsets unless zeroed, and no fast stop unless a limit was found |
| MotorInvariants.MoveStepsKeeps | drivers/motor_driver/motor_intfce.c:627-650 | Steps of the axes leave both offsets alone, except two steps per step of a correction to the east |
| MotorDefs.RampIsStrict | drivers/motor_driver/motor_intfce.c:1055-1077 | Between slew and minimum rate a ramping step moves strictly towards the request and never past it |
| MotorDefs.RampArrives | drivers/motor_driver/motor_intfce.c:1055-1077 | Every request in that range is met within 18 steps, from any rate in it |
| MotorDefs.SeventeenStepsAreNotEnough | drivers/motor_driver/motor_intfce.c:1055-1077 | The bound is sharp: from slew rate, 17 steps do not reach the minimum rate |
| SoftLimits.PlannerNeverStuck | drivers/motor_driver/motor_intfce.c:966-974 | With nested limit tables and clear position and target, the answer that should never happen does not, and "arrived" means within both tolerances |
| SoftLimits.DirectionMeans | drivers/motor_driver/motor_intfce.c:922-975 | Which axis the planner moves, for each combination of open axes and clear corners, as an if-and-only-if per answer |
| SoftLimits.ClearFurtherSouth | drivers/motor_driver/motor_intfce.c:1094-1109 | With nested tables, what is clear stays clear further south |
| SoftLimits.LegClearExactly | drivers/motor_driver/motor_intfce.c:951-975 | A planned leg stays clear of the soft limits exactly if it is not a last leg that ends beyond a limit of the coordinate it does not correct |
| SoftLimits.ALegMayCrossTheLimit | drivers/motor_driver/motor_intfce.c:934-948 | A clear position and clear target whose only leg crosses the western limit, by way of the tolerance in declination |
| SoftLimits.TargetSafeExactly | drivers/motor_driver/motor_intfce.c:951-975 | The targets approached without touching a soft limit from every clear position are exactly those clear by the tolerances (a condition on the tables alone) |
| SoftLimits.TargetSafeInRangeExactly | drivers/motor_driver/motor_intfce.c:951-975 | The same for the clear positions in the range of the axes: every hour angle within the tolerance that is clear at declination 0 is clear at that of the target, and one and two steps north of it the hour angle of the target is clear or no clear one in range is farther away than the tolerance |
| SoftLimits.PlannedCourseIsClear | drivers/motor_driver/motor_intfce.c:951-975 | From a clear position to such a target, the planner answers, and all that lies ahead in its direction, to the coordinate of the target, is clear |
| SoftLimits.MovedCourseIsClear | drivers/motor_driver/motor_intfce.c:767-770 | A course that is held stays clear when the target moves in hour angle to another such target, on either side of the telescope |
| SoftLimits.PlannedCourseExtends | drivers/motor_driver/motor_intfce.c:951-975 | Planned courses may be held so: in hour angle they run in a row that is clear at the hour angle of every such target of its declination |
| SoftLimits.GotoStaysClear | drivers/motor_driver/motor_intfce.c:767-785 | On the way to such a target, whether each new plan is followed at once or the direction is held on to, every position passed and all that lies ahead is clear, the planner always answers, it says "arrived" exactly within the tolerances, and the target gets no farther |
| MotorGotos.DirectionRule | drivers/motor_driver/motor_intfce.c:772-785 | A fast goto keeps its direction whatever the plan says; a slow one takes the planned direction, or ends when the plan is none |
| MotorGotos.AcceptedGotoStaysClear | drivers/motor_driver/motor_intfce.c:215-273 | Every goto that the driver accepts to a safe target, tracking or not: in every run, at any rate and whatever else is commanded, while the target moves with the sky from tick to tick and each tick finds it safe, its position and all that lies ahead stay clear of the soft limits until it is over |
| MotorGotos.GotoRunStaysClear | drivers/motor_driver/motor_intfce.c:737-798 | The same from any state of such a goto on |
| MotorGotos.TickEndsGotoOnlyFor | drivers/motor_driver/motor_intfce.c:742-780 | A tick ends such a goto only for a hard limit in its direction, its cancellation, or because the telescope is where it was ordered, to three and two steps; while tracking, where the sky, at 31 steps a second, has taken that place since the goto began: never for a soft limit |
| SoftLimits.LegsApproach | drivers/motor_driver/motor_intfce.c:951-975 | Every movement along a planned leg brings the target nearer |
| LimitTables.BisectFinds | utils/motor_gen_soft_lim.c:99-112 | From either side the bisection ends on a step not above the limit, which is on the limit or next to one at or above it |
| LimitTables.RowsRise | utils/motor_gen_soft_lim.c:114-126 | By the formula of the altitude, a declination with positive cosine has one peak, at the meridian, and is higher in the middle of the range than at its eastern end |
| LimitTables.RowsDip | utils/motor_gen_soft_lim.c:114-126 | With negative cosine, beyond the pole, it falls to the meridian and rises after it |
| LimitTables.WestLimitGrows | utils/motor_gen_soft_lim.c:59-77 | Where each row has one peak, not west of the middle of the range, and altitude falls with declination, the western limit does not decrease with declination |
| LimitTables.EastLimitShrinks | utils/motor_gen_soft_lim.c:79-97 | Nor does the eastern limit increase, though the altitude still rises beyond the middle, from which the bisection starts |
| LimitTables.RisingRowExactly | utils/motor_gen_soft_lim.c:59-97 | What the limits of a row with a peak accept: nothing if its middle is below the altitude limit, otherwise exactly what is not below it and the two end steps of the bisection |
| LimitTables.DippingRowExactly | utils/motor_gen_soft_lim.c:59-97 | Of a row that dips: all of it if both ends are above the altitude limit, otherwise only such an end |
| LimitTables.FlatRowExactly | utils/motor_gen_soft_lim.c:59-97 | Of a row of one altitude: all or nothing, and nothing if it is on the limit |
| LimitTables.GenerateTables | utils/motor_gen_soft_lim.c:32-56 | The tables hold exactly the limits of every declination from the first limited one on; there is none if and only if no declination is limited |
| LimitTables.GeneratedTablesAreNested | utils/motor_gen_soft_lim.c:34-45 | Generated tables are nested in declination, which is what the planner relies on, where the rows they hold have one peak and altitude falls with declination |
| LimitTables.LowerExactly | utils/motor_gen_soft_lim.c:114-126 | By the formula, one declination is lower than another at all hour angles of the range if and only if it is at the meridian and at both ends |
| LimitTables.SkyTablesAreNested | utils/motor_gen_soft_lim.c:34-45 | So tables generated with the formula of the altitude are nested, if in the rows they hold the cosine of the declination is positive and the altitude falls with declination at the meridian and at both ends of the range |
| LimitTables.LookupIsInside | drivers/motor_driver/motor_intfce.c:1094-1109 | On the whole range the look-up of the driver is the comparison with the limits, also in the rows that the tables do not hold |
| LimitTables.TableLookupExactly | drivers/motor_driver/motor_intfce.c:1094-1109 | For every position in range, which ones generated tables clear, by the altitude at that position, in the middle and at the ends of its row, and the sign of the cosine of the declination |
| LimitTables.TableLookupDecidesAltitude | drivers/motor_driver/motor_intfce.c:1094-1109 | Where that cosine is positive and the middle of the row is not below the limit, a refused position is below it and a cleared one is not, but for the two end steps of the bisection |
| LimitTables.HighButRefusedExactly | utils/motor_gen_soft_lim.c:66-70 | North of the pole, a position at or above the limit is refused if and only if the middle of its row is below the limit |
| LimitTables.LowButClearedExactly | utils/motor_gen_soft_lim.c:66-70 | A position below the limit is cleared if and only if it is an end step of the bisection in a row that the tables open, or it lies beyond the pole in a row with both ends above the limit |
| LimitTables.HillAndDipAreSkies | utils/motor_gen_soft_lim.c:114-126 | The rows of these two inputs are altitudes by the formula, with positive and with negative cosine of the declination |
| LimitTables.AHighRowIsRefused | utils/motor_gen_soft_lim.c:67-70 | A row whose peak is above the limit and that is refused as a whole |
| LimitTables.ALowDipIsCleared | utils/motor_gen_soft_lim.c:67-70 | A row that dips below the limit and is accepted as a whole |
| LimitTables.GeneratedTablesPlanEveryGoto | drivers/motor_driver/motor_intfce.c:951-975 | From the altitude formula to the planner: every goto between positions that such tables clear is planned |
| MotorEffects.CardIsAcceptedExactly | drivers/motor_driver/motor_intfce.c:295-332 | Exactly these cardinal commands are accepted: nothing moves or is stopped, an axis is initialised, direction 1 to 8, speed 1 to 3, and no limit forbids the way |
| MotorEffects.CardMovesAxes | drivers/motor_driver/motor_intfce.c:977-1010 | After an accepted cardinal command the axes go the way ordered for all steps of the counter: hour angle falls for 2 to 4 and rises for 6 to 8, declination rises for 8, 1 and 2 and falls for 4 to 6 |
| MotorEffects.CardSpeed | drivers/motor_driver/motor_intfce.c:1021-1053 | It asks for its speed, in hour angle while tracking the ordered speed over the sky to the nearest clock divisor, and starts no faster than the minimum rate |
| MotorEffects.HandsetMovesAxes | drivers/motor_driver/motor_intfce.c:515-590 | From an idle driver each combination of buttons starts the move its buttons name, at their speed |
| MotorEffects.HandsetAsks | drivers/motor_driver/motor_intfce.c:545-590 | During a handset move the buttons ask for their way and speed, and their release for the end; nothing else changes |
| MotorEffects.HandsetSwitches | drivers/motor_driver/motor_intfce.c:492-530 | Opposite buttons newly pressed together switch all-stop, or tracking |
| MotorEffects.TrackingGoesWest | drivers/motor_driver/motor_intfce.c:392-430 | Tracking goes west at the clock divisor of the sky; switched off, nothing moves |
| MotorEffects.AdjustmentMovesAxes | drivers/motor_driver/motor_intfce.c:871-920 | An adjustment moves the axes by its signs where it exceeds the tolerances, at guide speed over the sky in hour angle; in declination alone the telescope goes on with the sky |
| MotorEffects.PlanMovesNearer | drivers/motor_driver/motor_intfce.c:922-975 | A planned direction moves one axis, and every step up to the coordinate of the target brings the telescope one step nearer |
| MotorEffects.GotoMovesNearer | drivers/motor_driver/motor_intfce.c:215-273 | So does every accepted goto, at its speed, started no faster than the minimum rate |
| MotorEffects.GotoIsAcceptedExactly | drivers/motor_driver/motor_intfce.c:215-250 | Exactly these gotos are accepted: between clear places in range farther apart than the tolerances, a corner clear if both axes are open, and no limit in the way first taken |
| MotorEffects.SoftLimitsForbidExactly | drivers/motor_driver/motor_intfce.c:1094-1109 | Where a position is not clear, the soft limits forbid exactly the ways on which nothing clear lies ahead |
| MotorEffects.WesternSwitchExactly | drivers/motor_driver/motor_intfce.c:668-704 | A look zeroes the hour angle exactly when the western switch is newly read near its place or before the axis is initialised; what the driver showed is taken off, steps not yet credited stay |
| MotorEffects.SouthernSwitchExactly | drivers/motor_driver/motor_intfce.c:668-704 | The same for the southern switch and declination |
| MotorEffects.LimitFlagExactly | drivers/motor_driver/motor_intfce.c:705-721 | The error flag is set exactly when a switch is read or the position looked at is not clear |
| MotorOrders.GotoEndsOnlyFor | drivers/motor_driver/motor_intfce.c:215-273 | From the command on, over every undisturbed run: an accepted goto to a safe target is ended by a tick only for a hard limit in its direction, its cancellation, or because the telescope is where the command ordered, as the sky has taken that place along since the command |
| MotorOrders.GotoKeepsOrder | drivers/motor_driver/motor_intfce.c:215-293 | Every event leaves a goto under way with the target and the time of its command, and only end_goto cancels it |
| MotorOrders.GotoRunsAtItsRate | drivers/motor_driver/motor_intfce.c:737-798 | Over every run, the card runs at the rate that the goto has reached |
| MotorOrders.TickKeepsCard | drivers/motor_driver/motor_intfce.c:800-869 | A tick leaves a cardinal move with what was ordered, or ends it |
| MotorOrders.CardIsRecorded | drivers/motor_driver/motor_intfce.c:342-355 | An accepted cardinal move is recorded with the time of its command |
| MotorOrders.EndOrderIsForPrograms | drivers/motor_driver/motor_intfce.c:358-370 | The end order ends only moves that a program began |
| MotorOrders.HandsetIsIgnored | drivers/motor_driver/motor_intfce.c:486-545 | The handset does nothing while nothing changes on it, while a program moves the telescope, or while all is stopped |
| MotorOrders.StoppedAtLimitsExactly | drivers/motor_driver/motor_intfce.c:804-811 | A move whose end is not asked for is ended exactly at a limit switch in its direction, or at a soft limit if a program began it |
| MotorOrders.TrackingIsSwitchedExactly | drivers/motor_driver/motor_intfce.c:392-430 | Tracking is switched exactly where the hour angle is known and not all is stopped |
| MotorOrders.GotoEndsTrackingExactly | drivers/motor_driver/motor_intfce.c:751-780 | A goto that arrives leaves the telescope following the sky exactly if it is to track and the hour angle is known, else at rest |
| MotorOrders.CardEndsTrackingExactly | drivers/motor_driver/motor_intfce.c:850-860 | So does a cardinal move that is over |
| MotorOrders.SmallCorrectionsAreDropped | drivers/motor_driver/motor_intfce.c:896-906 | Corrections within the tolerances are dropped without a trace |
| MotorOrders.CoordinatesAreSet | drivers/motor_driver/motor_intfce.c:454-484 | Coordinates and initialisation are those set, axis by axis |
| MotorOrders.NoAnswerExactly | drivers/motor_driver/motor_intfce.c:922-949 | The planner has no answer exactly for targets beyond the axes and places that are not clear |
| MotorOrders.SpeedingUpTakesEighteen | drivers/motor_driver/motor_intfce.c:1055-1077 | From the minimum rate slewing is reached in 18 steps and not in 17 |
| MotorSky.TrackTimeIsSkySteps | drivers/motor_driver/motor_intfce.c:89-89 | The steps counted for the sky are the whole steps it makes at 31 a second, rounded towards the start on either side of it |
| MotorSky.TargetFollowsSky | drivers/motor_driver/motor_intfce.c:767-770 | The target of a goto: at rest where it was ordered, while tracking as many steps west of it as the sky has made since the goto began |
| MotorSky.CatchUpExactly | drivers/motor_driver/motor_intfce.c:837-861 | A slow cardinal move whose end is asked for is over exactly if it was not ended while tracking, or if the place where it was ended, as the sky has taken it along since the move began, is in range and not more than three steps west; otherwise it goes west, at the minimum rate |
| MotorSky.GoesWestExactly | drivers/motor_driver/motor_intfce.c:843-844 | Also where the planner has no answer, because the byte of its error has all bits |
| MotorSky.EndMarksPlace | drivers/motor_driver/motor_intfce.c:358-370 | Where a move is ended while tracking is the place it is to be left at |
| MotorSky.RoundCorrects | drivers/motor_driver/motor_intfce.c:884-918 | What each tick makes of a tracking correction: it goes on with what the driver takes to be open, or the telescope is back on the way of the sky |
| MotorSky.EndedCorrection | drivers/motor_driver/motor_intfce.c:884-918 | A correction that ends leaves the telescope within three steps of where it was ordered, taken along by one step a tick; it was one to the west |
| MotorSky.OtherCorrectionsNeverEnd | drivers/motor_driver/motor_intfce.c:884-900 | A correction to the north, south or east never ends by itself: steps made are added to what is open |
| MotorSky.CorrectionEndsExactly | drivers/motor_driver/motor_intfce.c:884-906 | Corrections end if and only if they are to the west, in hour angle alone, and the axes do not step over the place |
| MotorSky.SkyOutrunsRounds | drivers/motor_driver/motor_intfce.c:884-884 | The step booked for the sky in each of twenty ticks a second leaves eleven of its 31 unbooked |
| MotorSettling.CardSettles | drivers/motor_driver/motor_intfce.c:816-868 | In every reachable state of a cardinal move: whatever steps, commands and ticks lie between, after eighteen checks in which the same is asked for, it goes the way asked for or is over (or catches up, if its end is) |
| MotorSettling.CardSettlesIn | drivers/motor_driver/motor_intfce.c:816-868 | The same within n checks for a rate that reaches the minimum in n ramping steps |
| MotorSettling.GotoRampsExactly | drivers/motor_driver/motor_intfce.c:787-796 | Each check takes a goto one ramping step towards the minimum rate, exactly if less than 3177 steps of declination or 2334 of hour angle are left on its axis, and else towards the ordered rate |
| MotorSettling.FasterCloseByExactly | drivers/motor_driver/motor_intfce.c:787-796 | Close by its target a goto gets faster exactly if it was slower than the minimum rate: one at guide speed comes in faster than ordered |
| MotorSettling.EasesOff | drivers/motor_driver/motor_intfce.c:787-796 | Every goto in every reachable state is slow, or over, after eighteen checks close by its target |
| MotorDriver.Driver.UpdateMotorCoords | drivers/motor_driver/motor_intfce.c:627-650 | In place: credits the counted steps to the coordinates as the dead-reckoning function does |
| MotorDriver.Driver.BeginMove | drivers/motor_driver/motor_intfce.c:1079-1085 | In place: coordinates first, then counter, rate (never faster than the minimum) and direction |
| MotorDriver.Driver.HaltMove | drivers/motor_driver/motor_intfce.c:1087-1092 | In place: coordinates, counter 0, direction 0 |
| MotorDriver.Driver.StartGotoMove | drivers/motor_driver/motor_intfce.c:215-273 | In place: refines `MotorMachine.StartGoto`, keeps the invariant, and gives the right reply for every refusal |
| MotorDriver.Driver.EndGotoMove | drivers/motor_driver/motor_intfce.c:275-293 | In place: a slow goto stops at once and tracking resumes, a fast one is marked cancelled; refines `MotorMachine.EndGoto` and keeps the invariant of all runs |
| MotorDriver.Driver.StartCardMove | drivers/motor_driver/motor_intfce.c:295-356 | In place: refines `MotorMachine.StartCard`, keeps the invariant, and gives the right reply for every refusal; which way and how fast that moves the axes is `MotorEffects.CardMovesAxes` |
| MotorDriver.Driver.SwitchAllStop | drivers/motor_driver/motor_intfce.c:379-390 | In place: refines `MotorMachine.ToggleAllStop` and keeps the invariant |
| MotorDriver.Driver.SetTracking | drivers/motor_driver/motor_intfce.c:392-430 | In place: refines `MotorMachine.ToggleTracking` and keeps the invariant, whatever the union held before |
| MotorDriver.Driver.HandleHandset | drivers/motor_driver/motor_intfce.c:486-590 | In place: all-stop, tracking and moves by handset refine `MotorMachine.Handset` and keep the invariant |
| MotorDriver.Driver.CheckMotors | drivers/motor_driver/motor_intfce.c:657-735 | In place: one monitor tick, with the short-circuited check |
| MotorDriver.Driver.CheckGotoMove | drivers/motor_driver/motor_intfce.c:737-798 | In place: limits, easing off, re-planning and ramping of a goto refine `MotorMachine.CheckGoto`; where its target is says `MotorSky.TargetFollowsSky`, how it eases off `MotorSettling.GotoRampsExactly` |
| MotorDriver.Driver.CheckCardMove | drivers/motor_driver/motor_intfce.c:800-869 | In place: limits, ramping, turning and catching up of a cardinal move refine `MotorMachine.CheckCard` |
| MotorDriver.Driver.CheckTrackingMove | drivers/motor_driver/motor_intfce.c:871-920 | In place: limits and corrections while tracking refine `MotorMachine.CheckTracking` |
| PlcFraming.StreamIsDeliveredExactly | drivers/plc_ldisc/plc_ldisc.c:161-222 | All ways to cut a stream of messages with gaps into chunks stay inside the buffer and deliver exactly its messages, in order, once, nothing else, after any earlier traffic: if and only if what is held before the first message fits the buffer, every message has at most 255 characters, and with its gap at most 256 |
| PlcFraming.StreamIsDelivered | drivers/plc_ldisc/plc_ldisc.c:161-222 | The half of that for one way to cut the stream |
| PlcFraming.GapStaysInside | drivers/plc_ldisc/plc_ldisc.c:193-221 | Characters without a mark stay inside the buffer if and only if they fit behind what it holds |
| PlcFraming.GapMayOverrun | drivers/plc_ldisc/plc_ldisc.c:193-221 | 257 characters without a mark do not |
| PlcFraming.ChunksDoNotMatterExactly | drivers/plc_ldisc/plc_ldisc.c:161-222 | A stream that never overfills the buffer is received alike in all chunks if and only if no message has a second start mark |
| PlcFraming.CutMatters | drivers/plc_ldisc/plc_ldisc.c:172-220 | Every stream that has one can be cut in two so that what is delivered or held is another |
| PlcFraming.ChunksDoNotMatter | drivers/plc_ldisc/plc_ldisc.c:161-222 | Without a second start mark, the result in any chunks is that of the scanner on the whole, and no copy leaves the buffer |
| PlcFraming.ReceiveIsFeed | drivers/plc_ldisc/plc_ldisc.c:161-222 | On every chunk that does not overfill the buffer, the recursive receiver does what a scanner reading single characters does |
| PlcFraming.FeedMessage | drivers/plc_ldisc/plc_ldisc.c:180-213 | One message is delivered once, whatever stale bytes were in the buffer |
| PlcFraming.FrameIsReceived | drivers/plc_ldisc/plc_ldisc.c:180-213 | A message in a chunk of its own is delivered whole if and only if it has at most 255 characters |
| PlcFraming.LongMessageIsCut | drivers/plc_ldisc/plc_ldisc.c:183-193 | A longer one loses a multiple of 256 characters at its end, since the byte counter wraps and its test cannot fail |
| PlcFraming.ChunksMatterForDoubleStart | drivers/plc_ldisc/plc_ldisc.c:172-220 | With two start marks chunks do matter: in one chunk the first counts, in two the second |
| PlcFraming.LineDiscipline.PlcReceive | drivers/plc_ldisc/plc_ldisc.c:161-222 | In place, on the receive buffer: the receiver, given that its copies stay inside the buffer |
| PlcFraming.LineDiscipline.StoreFirst | drivers/plc_ldisc/plc_ldisc.c:180-221 | In place: what the buffer holds after a chunk up to its first end mark |
| PlcFraming.LineDiscipline.Find | drivers/plc_ldisc/plc_ldisc.c:163-179 | The scanning loops find the first position of a mark, or none |
| PlcSafety.OneRequestAtATime | drivers/act_plc/act_plc.c:333-390 | From loading on, over every interleaving: a request is written only when none is awaited, and a response is awaited exactly while the timer is armed |
| PlcSafety.StepKeepsAlive | drivers/act_plc/act_plc.c:469-524 | A link on which a response is awaited or a poll queued stays so, exactly unless a response flushes a held-back command whose write fails with no poll queued |
| PlcSafety.LinkStaysAliveExactly | drivers/act_plc/act_plc.c:319-390 | Over every run: in all its states a response is awaited or a poll is queued, if and only if no flush fails its write while no poll is queued |
| PlcSafety.LinkStaysAlive | drivers/act_plc/act_plc.c:319-390 | So from loading on |
| PlcSafety.RespondKeeps | drivers/act_plc/act_plc.c:469-524 | A response keeps the invariant, and keeps the link alive exactly under that condition |
| PlcSafety.FailedFlushStalls | drivers/act_plc/act_plc.c:517-521 | Otherwise the order is forgotten and neither poll nor timeout is left to revive the link |
| PlcSafety.StallIsReachable | drivers/act_plc/act_plc.c:517-521 | That happens: an order while the first status is awaited, and a failed write when a given response arrives |
| PlcSafety.QuietResponseIsValid | drivers/act_plc/act_plc.c:446-467 | That response, with zeros throughout, passes all tests for a status response |
| PlcSafety.OneShotLeavesOnlyWhenWritten | drivers/act_plc/act_plc.c:420-444 | A one-shot command (watchdog, camera reset, focus, aperture, filter) disappears only when it was in the command last written and that is acknowledged, or when a focus movement replaces a focus order |
| PlcSafety.OneShotsAreNotLost | drivers/act_plc/act_plc.c:420-444 | The same over every interleaving of orders, polls, timeouts, responses and failed writes |
| PlcSafety.AcknowledgedOneShotsAreGone | drivers/act_plc/act_plc.c:432-440 | An acknowledged command takes all its one-shots with it |
| PlcSafety.RequestsKeepOrders | drivers/act_plc/act_plc.c:683-923 | No request withdraws a one-shot still ordered, but for a focus movement replacing a focus order; the digits of the command stay digits |
| PlcProtocol.InitOrdersNothing | drivers/act_plc/act_plc.c:257-292 | The first command string is initialised, has digits in its fields, and orders nothing |
| PlcProtocol.ParsedKeepsFields | drivers/act_plc/act_plc.c:102-133 | Decoding a status string changes no one-shot: it touches the two door commands only |
| PlcCommand.ClearOneShotsClears | drivers/act_plc/act_plc.c:432-440 | The edits after an acknowledged command leave no one-shot, and the shutter command and all other characters as they were |
| PlcCommand.CloseShutterMeans | drivers/act_plc/act_plc.c:545-563 | Closing the PMT shutter clears the shutter bit, sends the wheels to their safe slots 8 and 9, withdraws the mirror order, and leaves every other character and bit as it was |
| PlcCommand.RequestsKeepResets | drivers/act_plc/act_plc.c:527-563 | No request withdraws a watchdog or camera reset that is still ordered |
| PlcCommand.StampedPassesCheck | drivers/act_plc/act_plc.c:295-300 | What the driver writes (in 7-bit characters) passes the check it applies to what it receives |
| PlcCommand.StampIsIdempotent | drivers/act_plc/act_plc.c:371-371 | Adding the check sequence twice changes nothing |
| PlcCommand.HexRoundTrip | drivers/act_plc/act_plc.c:52-72 | Digits and their values are inverse to each other |
| PlcStatus.ParseIsDecode | drivers/act_plc/act_plc.c:82-255 | After an accepted string without NULs the status is a full decode of it, whatever was decoded before, and a change is reported exactly if a decoded character changed |
| PlcStatus.IncrementalIsFull | drivers/act_plc/act_plc.c:82-255 | Incremental decoding of any sequence of strings gives the full decode of the last |
| PlcStatus.HandsetCallsChain | drivers/act_plc/act_plc.c:209-219 | Each call of the handset handler starts from the keys that the last one ended with |
| PlcReport.ReportIsRead | drivers/act_plc/act_plc.c:82-235 | What the PLC prints for a report (dome 3599 - p, sign and digits of the focus, doors, wheels, mirror, shutter, errors, tension, both bytes, each at its place, either case of digits) is the status told, for every report and whatever was read before |
| PlcReport.ReportsAreTold | drivers/act_plc/act_plc.c:446-467 | From loading on, whatever happened: the report that answers a status request, printed with its check sequence, is accepted and told, with notice if it is new |
| PlcReport.PrintIsAccepted | drivers/act_plc/act_plc.c:446-467 | Every printed report is a complete and valid status response |
| PlcReport.PrintPrints | drivers/act_plc/act_plc.c:82-235 | And says the report at the places of the string |
| PlcReport.StatusIsFromResponses | drivers/act_plc/act_plc.c:446-524 | Only an accepted status response changes what is told |
| PlcReport.NoticeIsGivenExactly | drivers/act_plc/act_plc.c:504-516 | Notice of a new status is given exactly for an accepted response that differs in a decoded character, and stays until it is read |
| PlcOrders.RequestsAreMeant | drivers/act_plc/act_plc.c:683-927 | What every request orders, by the places and characters of the command: door 1 open and 2 close with the watchdog reset, 3599 less the azimuth in four digits, sign and digits of the focus, wheel slots, mirror and tension bits, resets; everything else stays |
| PlcOrders.AzimuthReadsBack | drivers/act_plc/act_plc.c:706-720 | The azimuth digits read back as 3599 - v mod 3600 |
| PlcOrders.FocusReadsBackExactly | drivers/act_plc/act_plc.c:773-794 | The focus digits read back as the ordered position if and only if it has at most three digits |
| PlcOrders.DoorOrderExactly | drivers/act_plc/act_plc.c:100-135 | What becomes of the order of a door at every event: a request for that door sets it, a status that newly reports an end it was ordered to withdraws it, nothing else touches it |
| PlcOrders.DoorIsWithdrawnExactly | drivers/act_plc/act_plc.c:100-135 | An order to open is withdrawn by a new report of the open end and by no other, one to close by the closed end |
| PlcOrders.WithdrawalIsWritten | drivers/act_plc/act_plc.c:251-254 | The withdrawal is written at once, if the line takes it |
| PlcOrders.FirstCommandMeans | drivers/act_plc/act_plc.c:257-292 | The first command sends the dome to 0 with limits 10 and 5 and offset 105, repeats shutter, tension, mirror, wheels and focus as reported, and orders nothing else |
| PlcOrders.SlotReadsBackExactly | drivers/act_plc/act_plc.c:840-872 | The two digits of a wheel say the ordered slot if and only if the tens digit is 0 |
| PlcOrders.TensDigitsStayOverRuns | drivers/act_plc/act_plc.c:283-286 | The tens digit, set from the slot first reported, never changes |
| PlcLine.LineIsUpExactly | drivers/act_plc/act_plc.c:333-524 | The line is said to be up exactly if the last thing tried on it went well: a write taken, no answer late or refused |
| PlcLine.PollIsPutOffExactly | drivers/act_plc/act_plc.c:333-352 | A poll is put off exactly while a response is awaited or when it cannot be written |
| PlcLine.OrderIsHeldBackExactly | drivers/act_plc/act_plc.c:362-390 | An order is written at once, or held back exactly if a response is awaited or the line does not take it |
| PlcLine.WrittenCommandEnds | drivers/act_plc/act_plc.c:370-371 | A written command ends with its check sequence, asterisk, carriage return and NUL |
| PlcLine.WrongCharacterIsRefused | drivers/act_plc/act_plc.c:295-300 | A status response with one wrong character before its check sequence is refused |
| PlcLine.ReplyIsAcceptedExactly | drivers/act_plc/act_plc.c:420-432 | The one accepted answer to a command, which carries a right check sequence |
| PlcLine.EndCodeIsRefusedExactly | drivers/act_plc/act_plc.c:302-317 | An end code is refused exactly if both characters are digits and the second is not 0 |
| PlcLine.FragmentsAreDropped | drivers/act_plc/act_plc.c:469-476 | What does not begin with an at sign and end with an asterisk is dropped |
| PlcDriver.Driver.SendStatusRequest | drivers/act_plc/act_plc.c:333-360 | In place: refines `PlcProtocol.SendStatReq`, for an accepted and a failed write |
| PlcDriver.Driver.SendCommand | drivers/act_plc/act_plc.c:362-390 | In place, on the command array: refines `PlcProtocol.SendCmd`, for an accepted and a failed write |
| PlcDriver.Driver.ResponseTimeout | drivers/act_plc/act_plc.c:324-331 | In place: refines the timeout step of the protocol and keeps its invariant |
| PlcDriver.Driver.HandleRequest | drivers/act_plc/act_plc.c:929-938 | In place: edits the command and writes it or holds it back, as `PlcProtocol.Order`; keeps the invariant of the link |
| PlcDriver.Driver.EditCommand | drivers/act_plc/act_plc.c:683-927 | In place: every request, character by character; what each one orders from the PLC is `PlcOrders.RequestsAreMeant` |
| PlcDriver.Driver.EditCloseShutter | drivers/act_plc/act_plc.c:545-563 | In place: the same, character by character |
| PlcDriver.Driver.ProcessCmdResp | drivers/act_plc/act_plc.c:420-444 | In place: withdraws the one-shots exactly on a valid response with nothing held back |
| PlcDriver.Driver.ParseStatus | drivers/act_plc/act_plc.c:82-255 | In place: group after group in the order of the code; what it reads from what the PLC prints is `PlcReport.ReportIsRead` |
| PlcDriver.Driver.ProcessResponse | drivers/act_plc/act_plc.c:469-524 | In place: refines `PlcProtocol.Respond` and keeps the invariant of the link |
| PlcDriver.Driver.InitCommand | drivers/act_plc/act_plc.c:257-292 | In place: builds the first command string from the last status characters |
| PmtRuns.ReachableStates | drivers/pmt_driver/pmt_driver.c:434-478 | In every state reachable from loading: probe and integration exclude each other, an integration has no critical error, and stored counts plus current counts equal all readings taken |
| PmtRuns.EndsWithItsLastTick | drivers/pmt_driver/pmt_driver.c:716-774 | Whatever calls come between its ticks, an integration that is not cut off ends with its L*P*R-th tick and no earlier, with R records stored, each the sum of its own P readings |
| PmtRuns.IntegrationRuns | drivers/pmt_driver/pmt_driver.c:716-774 | Over every run, with reads, queries, new limits and refused orders in any places: ticks are counted exactly, the readings taken are every L-th one in order, and the integration is under way for exactly L*P*R ticks |
| PmtRuns.CompleteIntegration | drivers/pmt_driver/pmt_driver.c:716-774 | With the last tick of such a run: R records, the k-th with the sum of its P readings, and all readings together are every L-th one |
| PmtRuns.OtherEventsLeaveIntegration | drivers/pmt_driver/pmt_driver.c:282-405 | All other calls leave records, readings and ticks of an integration alone, unless they cancel it |
| PmtRuns.CancelledIntegration | drivers/pmt_driver/pmt_driver.c:688-702 | A cancelled integration loses no reading: stored counts, the partial record included, equal all readings |
| PmtRuns.CutOut | drivers/pmt_driver/pmt_driver.c:512-548 | Whenever a millisecond's reading times 1000, or the reading of a due sample of L milliseconds times 1000 / L (rounded down), is at or above the limit, the tick ends with neither probe nor integration under way; if one was integrating, the shutter closure was ordered |
| PmtRuns.SamplingTick | drivers/pmt_driver/pmt_driver.c:716-774 | A sampling tick keeps the account, and is cut off exactly if over the limit |
| PmtRuns.ProbeTickKeeps | drivers/pmt_driver/pmt_driver.c:562-602 | A probe tick keeps the invariant and is cut off when over the limit |
| PmtRuns.ReaderGetsRecordsInOrder | drivers/pmt_driver/pmt_driver.c:315-341 | Over every interleaving in which no read comes later than 5000 records behind, the reader gets the stored records in order, once each |
| PmtRuns.ReadGetsNextExactlyInTime | drivers/pmt_driver/pmt_driver.c:333-333 | A read takes the slot of the next record if and only if at most 5000 wait |
| PmtRuns.RateOfSample | drivers/pmt_driver/pmt_driver.c:512-516 | The driver's rate of a due sample of L milliseconds is its reading times 1000 / L |
| PmtLimits.ClosesExactly | drivers/pmt_driver/pmt_driver.c:516-526 | Every tick orders the shutter closed exactly for a reading at or above the limit, unless the last one already was |
| PmtLimits.NewErrorSays | drivers/pmt_driver/pmt_driver.c:512-538 | The error byte: 4 at or above the limit, 2 at 200000 counts a second or more, 0x10 as before, and no other |
| PmtLimits.JudgedRightlyExactly | drivers/pmt_driver/pmt_driver.c:515-517 | Samples of L milliseconds are judged rightly at every limit if and only if L divides 1000 |
| PmtLimits.JudgedRightlyAtExactly | drivers/pmt_driver/pmt_driver.c:515-517 | At one limit, if and only if the fewest counts that are bright are cut off |
| PmtLimits.CutOffIsBright | drivers/pmt_driver/pmt_driver.c:515-517 | Nothing is cut off that is not bright |
| PmtLimits.DueSampleClosesExactly | drivers/pmt_driver/pmt_driver.c:716-745 | Where L divides 1000, a due sample closes the shutter exactly if its counts times 1000 are at least the limit times L |
| PmtLimits.LongSamplesAreNotSeen | drivers/pmt_driver/pmt_driver.c:515-517 | A sample of more than a second is cut off only if the limit is 0 |
| PmtLimits.LongIntegrationsAreNotCutOff | drivers/pmt_driver/pmt_driver.c:716-774 | Over every run that nobody cancels, with positive limits, such an integration is never cut off and the shutter stays open, whatever the readings |
| PmtLimits.DazzledToTheEnd | drivers/pmt_driver/pmt_driver.c:613-655 | From loading: one sample of 1001 ms is accepted, and however bright its reading, it is stored and the shutter stays open |
| PmtLimits.ProbeIsGivenUpExactly | drivers/pmt_driver/pmt_driver.c:562-602 | A probe is given up exactly for a reading r with r * 1000 at or above the limit or r * L at or above 60000, or a critical error not yet read; else it goes on, and becomes the integration at the last second it waits for |
| PmtLimits.ProbeLasts | drivers/pmt_driver/pmt_driver.c:598-601 | Over every calm run an accepted order waits for the third full second, and then integrates as ordered |
| PmtLimits.RecordsAreTimed | drivers/pmt_driver/pmt_driver.c:754-763 | A record carries the time at which it began: the tick that ended the probe or the record before |
| PmtLimits.LimitsAreBounded | drivers/pmt_driver/pmt_driver.c:354-369 | In every reachable state the limit is at most 700000 |
| PmtReplies.OrderIsAcceptedExactly | drivers/pmt_driver/pmt_driver.c:613-655 | Which orders are accepted, and what each reply leaves |
| PmtReplies.ReadIsAnsweredExactly | drivers/pmt_driver/pmt_driver.c:315-351 | A read gets one record exactly if records are announced and one is left; the announcement stays while more are |
| PmtReplies.TickAnnouncesExactly | drivers/pmt_driver/pmt_driver.c:754-756 | A tick announces records exactly when it completes one; the start of an integration takes back the old announcement |
| PmtReplies.ErrorIsUnreadExactly | drivers/pmt_driver/pmt_driver.c:434-478 | When an error counts as unread, for every event |
| PmtReplies.GivenUpProbeTells | drivers/pmt_driver/pmt_driver.c:592-597 | A probe that is given up tells what was found, but not that the counter would overflow |
| PmtReplies.NextRecordTells | drivers/pmt_driver/pmt_driver.c:757-763 | The record after a completed one begins with the error of the last sample alone |
| PmtReplies.RestShowsMilliseconds | drivers/pmt_driver/pmt_driver.c:688-702 | In every reachable state in which nothing integrates, the period shown is a millisecond |
| PmtReplies.SyncTells | drivers/pmt_driver/pmt_driver.c:485-497 | Bit 0x10 says that time is not synchronised; the other bits stay |
| PmtDriver.RingPush | drivers/pmt_driver/pmt_driver.c:691-692 | Storing a record in the ring keeps the newest 5000 in their slots |
| PmtDriver.RingRead | drivers/pmt_driver/pmt_driver.c:333-333 | A slot holds the newest record stored in it |
| PmtDriver.Driver.ReadNext | drivers/pmt_driver/pmt_driver.c:315-351 | In place: hands over that slot, which is the next record while at most 5000 wait |
| PmtDriver.Driver.MillisecHandler | drivers/pmt_driver/pmt_driver.c:434-478 | In place: one tick refines `Pmt.Tick`, and the ring still holds the newest 5000 records |
| PmtDriver.Driver.CheckProbe | drivers/pmt_driver/pmt_driver.c:562-602 | In place: refines `Pmt.ProbeTick`, with the overflow that the ordered sample length would cause |
| PmtDriver.Driver.Order | drivers/pmt_driver/pmt_driver.c:613-655 | In place: refines `Pmt.OrderInteg`, with the right reply for every refusal |
| PmtDriver.Driver.BeginInteg | drivers/pmt_driver/pmt_driver.c:662-681 | In place: an empty ring and record from whatever was there before |
| PmtDriver.Driver.Cancel | drivers/pmt_driver/pmt_driver.c:688-707 | In place: stores what there is in the next slot of the ring and stops |
| PmtDriver.Driver.CheckInteg | drivers/pmt_driver/pmt_driver.c:716-774 | In place: waiting, sampling, cut-off, and closing a record refine `Pmt.BusyTick` |
| PmtDriver.Driver.CheckRate | drivers/pmt_driver/pmt_driver.c:512-548 | In place: the new error byte, and the shutter closure when over-illumination is new; their meaning in counts a second is `PmtLimits.NewErrorSays` and `PmtLimits.ClosesExactly` |
| DateNormalisation.CheckDateTimeRanges | libs/act_positastro.c:54-94 | In place: terminates with exactly the normalised fields; a missing record is left alone |
| DateNormalisation.InstantKeptExactly | libs/act_positastro.c:54-94 | Normalising keeps the instant if and only if every carry fits its field and the days do not run past December |
| DateNormalisation.NormalisingLoses | libs/act_positastro.c:54-94 | What is lost otherwise, to the millisecond |
| DateNormalisation.PastDecemberIsAYearEarly | libs/act_positastro.c:84-93 | Past December the result is exactly one length of that year early, and the year is unchanged |
| DateNormalisation.RolledDays | libs/act_positastro.c:84-88 | Rolling month by month keeps the day of the year, or comes out exactly one year early |
| DateNormalisation.NoDaysBeyondDecember | libs/act_positastro.c:29-39 | Months 12 to 255 have no days: the month byte comes round to January of the same year |
| DateNormalisation.Normalised | libs/act_positastro.c:41-53 | Every field of the result is in range |
| DateNormalisation.NormalisingAgain | libs/act_positastro.c:41-53 | Normalising twice is normalising once |
| DateNormalisation.RollMonths | libs/act_positastro.c:84-88 | In place: the loop over months terminates |
| Calendar.DaysBeforeYearClosed | libs/act_positastro.c:22-39 | The days counted year by year and month by month agree with the Gregorian rule in closed form, for every year |
| JulianDay.JulianDayCountsDays | libs/act_positastro.c:335-350 | For every date from the year -4799 on, the integer part of the Julian day is the recursive day count plus a constant plus an error that is -1, 0 or 1 by an explicit table |
| JulianDay.JulianDayIsRightExactly | libs/act_positastro.c:346-348 | It is right if and only if the day of the month does not disagree with the month about a century year |
| JulianDay.JulianDayIsRightAwayFromCenturies | libs/act_positastro.c:346-348 | It is right in every year that is neither a multiple of 100 nor the one before |
| JulianDay.WrongAtTheCentury | libs/act_positastro.c:346-348 | It is wrong on 3 January 1900 |
| JulianDay.StandardEpoch | libs/act_positastro.c:335-350 | 1 January 2000 has the standard Julian day 2451545 |
| PatternPairs.FindPointListMap | softw/act_acq/pattern_match.c:18-65 | All reported pairs lie within the radius of one offset on both axes, with distinct first indices and the first possible partner each; they are those of the greedy search |
| PatternSearch.FindPointMapping | softw/act_acq/pattern_match.c:118-261 | The mapping found is the outcome of the search: that of a cluster of at least two, while every other maps no more pairs or is no larger; one pair alone is no match; without memory the answer is -1 |
| PatternSearch.Search | softw/act_acq/pattern_match.c:186-244 | The search ends, one cluster fewer to try each round, with what the clusters yield when tried by falling size and then by place |
| PatternSearch.OutcomeIsGreedyBest | softw/act_acq/pattern_match.c:186-244 | That outcome is the mapping of a cluster of at least two, and every other maps no more pairs or is no larger |
| PatternSearch.OutcomeIsUnique | softw/act_acq/pattern_match.c:186-244 | The clusters decide the outcome |
| PatternSearch.SearchFindsMaximumExactly | softw/act_acq/pattern_match.c:209-210 | The search finds the most pairs that any cluster of at least two maps, if and only if there is nothing to map, or some cluster maps the most pairs and all that come before it map fewer pairs than it has members (a condition on the clusters alone) |
| PatternSearch.SearchFindsMaximumIfSizesBound | softw/act_acq/pattern_match.c:209-210 | In particular where no cluster maps more pairs than it has members |
| PatternGreedy.MaximumIsFoundExactly | softw/act_acq/pattern_match.c:186-244 | The same for the loop on sizes and numbers of pairs |
| PatternExamples.SearchMayMissTheBest | softw/act_acq/pattern_match.c:209-210 | Four points and one: the outcome of the search is three pairs, while a cluster it never tries maps four |
| PatternSearch.ClusterAll | softw/act_acq/pattern_match.c:140-172 | In place: sums and counts are those of the clusters by definition, within the arrays |
| PatternSearch.TryOffset | softw/act_acq/pattern_match.c:209-240 | In place: a better mapping replaces the best by a swap of arrays, otherwise the best is untouched |
| PatternSearch.Largest | softw/act_acq/pattern_match.c:190-199 | The first of the largest clusters of at least two, or none |
| PatternSearch.FindNear | softw/act_acq/pattern_match.c:215-227 | The first partner in the second list, or none |
| PatternSearch.OneLessToTry | softw/act_acq/pattern_match.c:243-243 | Ranking of the search: clusters with a count above one |
| PatternMatch.ClustersCover | softw/act_acq/pattern_match.c:140-172 | Every difference is in some cluster, every cluster grew by differences near to its mean at the time, and there are no more clusters than differences |
| PatternMatch.FirstNearIsFirst | softw/act_acq/pattern_match.c:215-227 | The partner is within the radius and none before it is |
| PatternPairs.AllReportedExactly | softw/act_acq/pattern_match.c:41-60 | All matches are reported if and only if every matched first point has an index below the number of matches |
| PatternExamples.MatchesMayBeLost | softw/act_acq/pattern_match.c:41-60 | Two lists for which one of two matches is not reported |
| PatternPairs.ReportedIsSound | softw/act_acq/pattern_match.c:41-60 | Whatever prefix of a mapping is reported, its pairs are sound |
| PatternPairs.MeanShift | softw/act_acq/pattern_match.c:67-103 | The mean shift and mean deviation of the pairs; without pairs the code divides by zero |
| PatternPairs.MeanShiftNearOffset | softw/act_acq/pattern_match.c:67-85 | The mean shift of sound pairs is within the radius of their offset |
| PatternPairs.DeviationBounded | softw/act_acq/pattern_match.c:86-103 | And the mean deviation from it is less than twice the radius |

## Left out

- MotorInvariants.MoveStepsKeeps: assumes that the axes make at most as many steps as the counter holds; what a card does with an exhausted counter is not in the source.
- MotorGotos.AcceptedGotoStaysClear: no zero point or coordinates are set during the goto, every tick finds the target safe (while tracking it may move out of the safe ones), and the axes do not run beyond the coordinate of the target between two looks of the driver; how fast the axes respond is not in the source. If the telescope tracks when the goto is commanded, the steps not yet credited must not change its plan.
- MotorOrders.GotoEndsOnlyFor: under the same conditions.
- MotorEffects.AdjustmentMovesAxes: for corrections in which each axis is 0 or beyond its tolerance; those within are `MotorOrders.SmallCorrectionsAreDropped`.
- MotorSky.OtherCorrectionsNeverEnd: as long as the telescope stays clear of limits, what is taken to be open stays in range of the axes, and each tick finds a step made; at a limit, tracking is stopped.
- PlcReport.ReportsAreTold: for runs whose responses hold no NUL where the driver looks, and 7-bit characters where it does not.
- PmtLimits.ProbeLasts: for runs of ticks alone; each tick with any calls between is `PmtLimits.ProbeIsGivenUpExactly`.
- PlcFraming.LineDiscipline.StoreFirst: requires, as PlcReceive does, that the copy fits the buffer.
- PlcFraming.ChunksDoNotMatterExactly: for streams whose copies stay inside the buffer in the scanner's reading; which streams of messages do is `PlcFraming.StreamIsDeliveredExactly`.
- PlcFraming.LineDiscipline.PlcReceive: requires that no copy overruns the buffer; what the code does after an overrun is not modelled. `PlcFraming.GapStaysInside` and `PlcFraming.StreamIsDeliveredExactly` say when there is none. An unregistered handler is not modelled.
- PlcCommand.StampedPassesCheck: for 7-bit characters; the code prints the check sequence of a command with an odd number of 8-bit characters with more than two digits.
- PlcStatus.ParseIsDecode: the encoder pulses, which are recomputed from every string, are not part of the decoded status.
- PlcStatus.HandsetCallsChain: the call into the motor driver is an entry in a log; the two drivers are not run together.
- PlcSafety.OneShotsAreNotLost: speaks about an initialised command string; commands ordered before the first status are not protected by the code.
- PmtDriver.Driver.MillisecHandler: the update flag and the notification of user programs, and the condition on elapsed time that guards one of them, are not modelled.
- PmtRuns.IntegrationRuns: counts and periods are unbounded integers; the code's `unsigned long` could wrap only beyond any sample the counter can hold.
- JulianDay.JulianDayCountsDays: the integer part only; before the year -4799 the truncating divisions change sign.
- PatternSearch.FindPointMapping: real numbers instead of floating point; product of the list lengths unbounded.
- PatternPairs.FindPointListMap: failing allocations of the point copies and of single list nodes.
- LimitTables.GenerateTables: the altitude is a function of real value and the limit a real number; of the trigonometry the model has the signs and the rise and fall of sines and cosines, not their values, and floating point and the printed text are not modelled.
- LimitTables.SkyTablesAreNested: that altitude falls with declination at three hour angles in the rows of the table is a condition on the formula, which depends on the latitude; the values of sines and cosines that decide it are not modelled.
- MotorDriver.Driver.CheckMotors: the status notification, log messages and re-scheduling of the monitor are not modelled.
- The contents of the shipped table file: the planner's theorems hold for any nested tables, and generated tables are shown to be nested.
- The 16-bit transfer of the rate to the card, the simulator variants of the drivers, and positions beyond the C integer width.
- True concurrency inside one entry point: the code has no locks, the model takes entry points as atomic.
- `check_systime_discrep`, sidereal time, precession, refraction, Sun and Moon, the fraction of a day, and unit conversions of coordinates.
- Kernel, tty and character device plumbing, the other drivers, the graphical programs, databases and image files: no properties of this kind.
- Point list containers, pairs with a missing data pointer, and small accessors: only easy members.
