# RoboMaster simulator, remote-API server and turtle writer: a verified model

This project models three independent systems of the repository and proves what they are for.

* **The RoboMaster simulator.** `DummyRobot` closes the loop around `Robot`: wheels, odometry and
  servos are a complete plant, so whole runs are decided by the code. `BaseMotion` and `MoveProof`
  show that the position controller of the base always reaches its goal. `Arm`, `ArmProof` and
  `ArmKinematics` show that the two coupled arm motors never leave their safe polytope, when the
  final projection is needed and when it is not, and that the inverse kinematics never meets a
  singular Jacobian; `ArmAction` treats the action that moves the tip, its control law and what its
  success is worth. `Odometry` and `MoveTimes` say what the reported twists and times mean. `Gimbal`
  treats angle targets under joint limits, `Actions`, `ActionsProof` and `ActionsExact` the scheduler
  of named actions with its answers, progress reports and exact durations, and `MoveReport` puts the
  base, the arm and the scheduler together.
* **The remote-API server.** `Crc` and `CrcTables` relate the two checksum tables to their shift
  registers and derive what they detect; the CRC-16 has the table and the update of Appendix C.2 of
  RFC 1662, with another initial value and no final complement. `Protocol`, `Frames` and `Server`
  cover framing and dispatch, `Topic`, `Commands` and `Subscriptions` the periodic publishers, the
  heartbeat watchdog, and what a client can rely on.
* **The turtle writer.** `Writer` and `WriterProof` treat the node as a state machine whose
  callbacks may come in any order that its own requests allow; `WriterReturns` says where it returns
  to, and `WriterProgress` what an interruption does when it goes by the book.

Two smaller loops complete it: the one-pass bounding-box scan (`Vision`) and the pair of row flips
between simulator and ROS images (`ImageFlip`). `ServoUnits` relates the simulator's servo encoding
to its decoder on the ROS side.

## How the model is built

Every object that the code updates in place is a class (`BaseMotion.Chassis`, `BaseMotion.MoveAction`,
`ArmRobot.Servo`, `ActionRobot.Action`, `Server.Server`, `Topic.Topic`, `Commands.Commands`,
`WriterNode.WriterNode`, ...). Its `View()` is its state as a value, and each method is proved to take
the view to a function of the old view. The results about single steps and whole runs are lemmas about
these functions, so they hold of the methods.

Floats are reals. Sine, cosine, square root and pi are the parameter `RealMath.Libm`, and `Lawful()`
lists what is used of them: the circle, parity and addition laws, a positive sine on (0, pi), the
defining law of the square root, and 3.14 < pi < 3.15. NaN, which the plant stores to force the next
update of a servo, is `None`; the infinite period of a 0 Hz subscription is `Never`.

## Findings

Where the code and a natural claim about it differ, the model follows the code and the exact
condition is proved.

* `safe_motor_angles` moves by the whole perpendicular distance along each axis and so overshoots into
  the band; it is not the nearest point that its comment announces (`Arm.ProjectionOvershoots`).
* `fixed_angles` looks the gimbal frame up in the yaw frame for both coordinates (`Gimbal.OwnFrames`).
* `decode_request` does not compare the CRC-16 (`Protocol.AcceptanceIgnoresBody`), and `encode_msg`
  announces the length modulo 1024 (`Protocol.DecodeOfEncode`).
* A second subscription under the same key does not change the frequency
  (`Commands.FirstFrequencyStays`), and the watchdog guards connected clients only: a client that
  subscribes without registering is sent frames for ever (`Commands.NeverConnectedKeepsPublishing`).
* Late confirmations of a cancellation throw the writer out of its cycle of states
  (`WriterProof.CycleExactly`, `WriterProof.LateCancelLeavesCycle`). The pen is off whenever the node is
  not writing exactly if each of them finds it off (`WriterProof.PenUpExactly`); one that does not can
  make the node draw during a chase (`WriterProof.LateCancelCanDraw`), on its own path, too
  (`WriterProof.LateCancelDrawsChase`). The waypoints are sent correctly all the same
  (`WriterProof.RunInvariant`).
* Wheel speeds survive the way through the twist only without slip (`Kinematics.WheelsOfTwist`).
* With both motors enabled and in angle mode the controller keeps the arm safe by itself, without the
  projection of the plant, exactly for steps up to tau (`ArmProof.StepSafeExactly`,
  `ArmProof.RunsNeverProjectExactly`). The conditions on the motors are needed: in speed mode the band is
  left for every step size (`ArmProof.SpeedModeNeedsProjection`), and in angle mode a motor that is
  disabled while it turns keeps turning (`ArmProof.DisabledMotorNeedsProjection`).
* Success of an arm action means that the motors are told to turn by less than 0.005 rad. This puts the
  tip within 3 mm of the target as long as the projection does not interfere
  (`ArmAction.SuccessIsAccurate`); with a motor at its limit it can be 60 cm away
  (`ArmAction.UnreachableSucceeds`, `ArmAction.SuccessFarAway`).

## Model

The results come first. The rows from `BaseMotion.MoveAction.DoStep` on are methods: they tie the code,
object by object and loop by loop, to the functions that the results are about.

| member | source | states |
|---|---|---|
| `MoveProof.MoveSucceeds` | robotics-lab-usi-robomaster/src/robomaster_sim/src/robot/action.cpp:3-37 | every accepted move of the base succeeds: for all goals, initial wheel motions, positive speeds and step sizes up to tau, steps lasting more than (d0 + abs(e0)) / min(0.02, v, w) after the first one leave the robot at rest within tolerance of its goal |
| `MoveProof.TrackingArrives` | robotics-lab-usi-robomaster/src/robomaster_sim/src/robot/action.cpp:11-36 | the same from any state of a running move, by the decrease of the remaining error |
| `MoveProof.TrackingStep` | robotics-lab-usi-robomaster/src/robomaster_sim/src/robot/action.cpp:11-36 | one step of the closed loop either arrives or keeps tracking, and the distance and heading errors follow d - dt * min(d / tau, v) and e - dt * min(e / tau, w) |
| `MoveProof.StepShrinksErrors` | robotics-lab-usi-robomaster/src/robomaster_sim/src/robot/action.cpp:24-28 | the commanded twist, realised by the wheels and integrated by the odometry, shrinks both errors by exactly those recurrences |
| `MoveProof.ControlStep` | robotics-lab-usi-robomaster/src/robomaster_sim/src/robot/action.cpp:3-37 | what one `do_step` makes of a fresh reading: success exactly when the norm is below 0.01, otherwise the tracking command on the wheels |
| `MoveProof.ArrivedStays` | robotics-lab-usi-robomaster/src/robomaster_sim/src/robot/action.cpp:19-22 | after success the robot stays where it is for every number and size of steps |
| `MoveProof.DrivenIsReading` | robotics-lab-usi-robomaster/src/robomaster_sim/src/robot/chassis.cpp:44-63 | odometry and IMU attitude together integrate the commanded twist of the wheels, and odometry heading and attitude stay equal |
| `Odometry.TwistIsVelocity` | robotics-lab-usi-robomaster/src/robomaster_sim/src/robot/chassis.cpp:44-61 | over every base step the pose moves by the reported odometry twist times the duration; so does the heading, if it agrees with the attitude |
| `Odometry.RunTravels` | robotics-lab-usi-robomaster/src/robomaster_sim/src/robot/chassis.cpp:44-61 | over every run the reported twists, times their durations, add up to the displacement |
| `Odometry.TwistSeenFromRobot` | robotics-lab-usi-robomaster/src/robomaster_sim/src/robot/chassis.cpp:27-48 | the odometry twist, turned back by the heading, is the body twist, and this is what the wheels were last told |
| `Odometry.DrivesAsAsked` | robotics-lab-usi-robomaster/src/robomaster_sim/src/robot/chassis.cpp:34-37 | a velocity asked for is the body twist from the second step on, over every run |
| `Odometry.DisengagedCoasts` | robotics-lab-usi-robomaster/src/robomaster_sim/src/robot/robot.cpp:62-68 | while the motors are disengaged the wheels go on as they were last told, over every run |
| `MoveTimes.TimeToGoalLeast` | robotics-lab-usi-robomaster/src/robomaster_sim/include/robot/action.hpp:59-62 | the time to a goal is the least one in which the distance and the smallest turn can be covered at the two speeds |
| `MoveTimes.TimesReported` | robotics-lab-usi-robomaster/src/robomaster_sim/src/robot/action.cpp:28-30 | every step that goes on reports the time left from where the robot then is; the first one announces the duration |
| `MoveTimes.NeverEarly` | robotics-lab-usi-robomaster/src/robomaster_sim/src/robot/action.cpp:23-33 | the announced duration never changes and is a lower bound of the real one, up to the time that the tolerance takes |
| `Kinematics.TwistOfWheels` | robotics-lab-usi-robomaster/src/robomaster_sim/src/robot/chassis.cpp:3-25 | the wheel map and the twist map are inverse on twists |
| `Kinematics.WheelsOfTwist` | robotics-lab-usi-robomaster/src/robomaster_sim/src/robot/chassis.cpp:3-25 | on wheel speeds they are inverse exactly if the wheels do not slip |
| `Kinematics.WheelsRoll` | robotics-lab-usi-robomaster/src/robomaster_sim/src/robot/chassis.cpp:3-11 | the wheel speeds of a twist are the only ones at which all four mecanum wheels roll without sliding along the axes of their rollers, which fixes every sign of the map |
| `Kinematics.LeastSlip` | robotics-lab-usi-robomaster/src/robomaster_sim/src/robot/chassis.cpp:13-25 | for any wheel speeds the twist read off them is the only one with the least slip |
| `Kinematics.RelativeToCompose` | robotics-lab-usi-robomaster/src/robomaster_sim/include/utils.hpp:185-206 | `relative_to` undoes the composition of poses |
| `Kinematics.RelativeToOffset` | robotics-lab-usi-robomaster/src/robomaster_sim/include/utils.hpp:190-206 | a relative pose is the offset turned back by the heading of the observer |
| `Kinematics.ComposeAssociative` | robotics-lab-usi-robomaster/src/robomaster_sim/include/utils.hpp:185-188 | poses compose associatively |
| `Kinematics.RotateBack` | robotics-lab-usi-robomaster/src/robomaster_sim/include/utils.hpp:171-175 | rotations are inverted by the opposite angle and keep lengths |
| `Kinematics.RotationTurns` | robotics-lab-usi-robomaster/src/robomaster_sim/include/utils.hpp:87-91 | a rotation adds its angle to the direction of a vector, counterclockwise |
| `RealMath.NormalizeCorrect` | robotics-lab-usi-robomaster/src/robomaster_sim/include/utils.hpp:77-82 | `normalize` brings every angle into [-pi, pi) by whole turns |
| `RealMath.NormalizeUnique` | robotics-lab-usi-robomaster/src/robomaster_sim/include/utils.hpp:77-82 | and is the only such representative |
| `RealMath.NormalizeShrinks` | robotics-lab-usi-robomaster/src/robomaster_sim/include/utils.hpp:77-82 | normalising never makes an angle larger in absolute value |
| `Arm.ProjectionCorrect` | robotics-lab-usi-robomaster/src/robomaster_sim/src/robot/arm.cpp:37-61 | for every input `safe_motor_angles` returns a point of the coupled polytope, is the identity exactly on the polytope, and is idempotent |
| `Arm.ProjectionOvershoots` | robotics-lab-usi-robomaster/src/robomaster_sim/src/robot/arm.cpp:46-59 | outside the band the result is not the nearest point of the comment: the right and left angles keep their sum and end inside the band by sqrt(2) - 1 times the excess |
| `Arm.ProjectionOfOutside` | robotics-lab-usi-robomaster/src/robomaster_sim/src/robot/arm.cpp:43-45 | of a target outside the box only its nearest point in the box matters |
| `Arm.PlantSafe` | robotics-lab-usi-robomaster/src/robomaster_sim/src/dummy_robot.cpp:21-32 | after every plant step the motors are inside the polytope, whatever they were told |
| `ArmProof.StepKeepsInvariant` | robotics-lab-usi-robomaster/src/robomaster_sim/src/dummy_robot.cpp:17-49 | one step of the arm loop keeps the motors safe for every mode, wish and step size |
| `ArmProof.RunSafe` | robotics-lab-usi-robomaster/src/robomaster_sim/src/dummy_robot.cpp:17-49 | in every state that a run leads to the motors are inside the polytope, whatever the modes, wishes and step sizes |
| `ArmProof.ReachableSafe` | robotics-lab-usi-robomaster/src/robomaster_sim/src/dummy_robot.cpp:17-49 | in particular in every state reachable from construction |
| `ArmProof.StepCommands` | robotics-lab-usi-robomaster/src/robomaster_sim/src/robot/robot.cpp:70-100 | a control pass with both motors enabled and in angle mode leaves cross-coupled limits, a safe goal, and speeds towards it |
| `ArmProof.NoOvershoot` | robotics-lab-usi-robomaster/src/robomaster_sim/src/dummy_robot.cpp:82-93 | the clamped proportional speed never passes its goal in a step up to tau, nor exceeds the maximal speed |
| `ArmProof.LimitsCouple` | robotics-lab-usi-robomaster/src/robomaster_sim/src/robot/arm.cpp:80-89 | two motors that approach a safe goal within the cross limits taken before the step meet the coupled limits after it |
| `ArmProof.NoProjectionNeeded` | robotics-lab-usi-robomaster/src/robomaster_sim/src/dummy_robot.cpp:21-32 | after a control pass with both motors enabled and in angle mode, the final projection changes nothing in a step up to tau, even for unequal maximal speeds |
| `ArmProof.StepSafeExactly` | robotics-lab-usi-robomaster/src/robomaster_sim/src/dummy_robot.cpp:21-32 | and it does so for all such states exactly if the step is at most tau |
| `ArmProof.AngleRunsNeverProject` | robotics-lab-usi-robomaster/src/robomaster_sim/src/dummy_robot.cpp:17-49 | over every run with both motors enabled and in angle mode, and steps up to tau, the projection never changes anything |
| `ArmProof.RunsNeverProjectExactly` | robotics-lab-usi-robomaster/src/robomaster_sim/src/dummy_robot.cpp:17-49 | over all such runs from the initial state with steps up to a given size, exactly if that size is at most tau |
| `ArmProof.SpeedModeNeedsProjection` | robotics-lab-usi-robomaster/src/robomaster_sim/src/robot/robot.cpp:86-92 | in speed mode the limits of the single motors do not suffice: for every step size, a run from the initial state would leave the band without the projection |
| `ArmProof.LongStepNeedsProjection` | robotics-lab-usi-robomaster/src/robomaster_sim/src/dummy_robot.cpp:82-88 | nor do they in angle mode for any step longer than tau: a run from the initial state that needs the projection |
| `ArmProof.DisabledMotorNeedsProjection` | robotics-lab-usi-robomaster/src/robomaster_sim/src/robot/robot.cpp:76-82 | nor in angle mode with short steps if a motor is disabled while it turns, because it keeps its speed: a run from the initial state |
| `ArmProof.SpeedKeepsLimits` | robotics-lab-usi-robomaster/src/robomaster_sim/include/robot/servo.hpp:31-72 | in speed mode a servo within its limits stays within them for a whole step, and turns as asked unless that passes a limit or is too fast |
| `ArmProof.SpeedReturns` | robotics-lab-usi-robomaster/src/robomaster_sim/include/robot/servo.hpp:31-72 | a servo outside its limits that is not told to go further out is brought back to the limit in one step, if it is fast enough |
| `ArmProof.SpeedIsVelocity` | robotics-lab-usi-robomaster/src/robomaster_sim/src/dummy_robot.cpp:30-32 | over every step each motor turns by its reported speed times the duration |
| `ArmProof.SpeedWithinMaximum` | robotics-lab-usi-robomaster/src/robomaster_sim/src/dummy_robot.cpp:90-93 | with both motors enabled and in angle mode, and steps up to tau, no reported speed exceeds the maximal one |
| `ArmKinematics.DeterminantNegative` | robotics-lab-usi-robomaster/src/robomaster_sim/src/robot/arm.cpp:10-13 | the determinant of the Jacobian is strictly negative on the whole polytope |
| `ArmKinematics.ReachableRegular` | robotics-lab-usi-robomaster/src/robomaster_sim/src/robot/arm.cpp:20-24 | so it is in every reachable state, and the inverse is defined |
| `ArmKinematics.InverseStepExact` | robotics-lab-usi-robomaster/src/robomaster_sim/src/robot/arm.cpp:15-35 | the Jacobian times the angle step is exactly k times the position error |
| `ArmKinematics.RightColumn` | robotics-lab-usi-robomaster/src/robomaster_sim/src/robot/arm.cpp:3-13 | the first column of the Jacobian is the derivative of the forward map: the exact change for a turn of the right motor by h |
| `ArmKinematics.LeftColumn` | robotics-lab-usi-robomaster/src/robomaster_sim/src/robot/arm.cpp:3-13 | the same for the left motor and the second column |
| `ArmKinematics.TipOfLinks` | robotics-lab-usi-robomaster/src/robomaster_sim/src/robot/arm.cpp:3-8 | the tip is the end of two links of constant length, each turned by its own motor, and its distance from the offset depends on the angle between them only |
| `ArmAction.PositionIsTip` | robotics-lab-usi-robomaster/src/robomaster_sim/src/robot/arm.cpp:63 | after every step of the robot the position is the forward map of the angles that the motors then have |
| `ArmAction.ControlLaw` | robotics-lab-usi-robomaster/src/robomaster_sim/src/robot/arm.cpp:65-74 | the whole pass: while the action is active each step tells the motors to go to the projection of angles for which the Jacobian times the angle step is 0.2 times the target minus the real position of the tip |
| `ArmAction.TipRunCorrect` | robotics-lab-usi-robomaster/src/robomaster_sim/src/robot/action.cpp:48-57 | over every run the motors stay safe, the position is that of the tip, and the target is the one that the first step fixed, relative to where the tip then was |
| `ArmAction.DistanceReported` | robotics-lab-usi-robomaster/src/robomaster_sim/src/robot/action.cpp:57-71 | while the action goes on it reports the distance of the motors from their desired angles, and announces the first one |
| `ArmAction.SuccessIsAccurate` | robotics-lab-usi-robomaster/src/robomaster_sim/src/robot/action.cpp:59-67 | an action that succeeds has its tip within 3 mm of the target in both coordinates, if the angles it steers to are within the coupled limits |
| `ArmAction.UnreachableSucceeds` | robotics-lab-usi-robomaster/src/robomaster_sim/src/robot/arm.cpp:65-74 | without that condition it need not: with the right motor at its upper limit the action succeeds at once for a target 60 cm away |
| `ArmAction.SuccessFarAway` | robotics-lab-usi-robomaster/src/robomaster_sim/src/robot/action.cpp:48-73 | and this happens three steps after construction |
| `Gimbal.FixedYawReachable` | robotics-lab-usi-robomaster/src/robomaster_sim/include/robot/gimbal.hpp:146-160 | in the fixed frame the yaw target is the requested direction, and its servo angle lies within 250 degrees to either side, for every request and reachable servo |
| `Gimbal.FixedYawShortest` | robotics-lab-usi-robomaster/src/robomaster_sim/include/robot/gimbal.hpp:147-158 | and among all reachable servo angles for that direction it is the one with the shortest turn |
| `Gimbal.FixedPitchReachable` | robotics-lab-usi-robomaster/src/robomaster_sim/include/robot/gimbal.hpp:146-160 | the pitch target is within its limits exactly if some reachable angle shows the requested direction |
| `Gimbal.FixedDependsOnDirection` | robotics-lab-usi-robomaster/src/robomaster_sim/include/robot/gimbal.hpp:147 | the target does not depend on the number of turns in the request |
| `Gimbal.FramesAgree` | robotics-lab-usi-robomaster/src/robomaster_sim/include/robot/gimbal.hpp:142-160 | requests in the chassis and gimbal frames lead to the same direction as the request that says the same in the fixed frame |
| `Gimbal.OwnFrames` | robotics-lab-usi-robomaster/src/robomaster_sim/include/robot/gimbal.hpp:142-146 | the pitch is interpreted in its own frame exactly if that is the chassis, or both or none of the frames is the gimbal; the yaw always is |
| `Gimbal.TargetMeans` | robotics-lab-usi-robomaster/src/robomaster_sim/include/robot/gimbal.hpp:138-163 | for yaw and pitch and all frames: the servo angle of the target is the request in the chassis frame, differs from the present one by the request if the yaw frame is the gimbal, and otherwise shows the requested direction |
| `ActionsProof.AcceptedAction` | robotics-lab-usi-robomaster/src/robomaster_sim/src/robot/robot.cpp:145-183 | over any run: while an accepted action is active its name is refused, it is running from its first step until it succeeds, and its client gets exactly one message with state succeed, as the last one |
| `ActionsExact.StartedExactly` | robotics-lab-usi-robomaster/src/robomaster_sim/src/robot/robot.cpp:294-362 | for every robot and every run: a request is started exactly if the robot was built with its part and every action accepted before under its name has ended |
| `ActionsProof.Isolation` | robotics-lab-usi-robomaster/src/robomaster_sim/src/robot/robot.cpp:173-183 | whatever else is submitted and runs, an active action gets to where it would have got alone and sends the same messages |
| `ActionsProof.ActionForward` | robotics-lab-usi-robomaster/src/robomaster_sim/include/robot/action.hpp:27-32 | started, running, succeed: no action moves backwards |
| `ActionsProof.ActionReports` | robotics-lab-usi-robomaster/src/robomaster_sim/include/action.hpp:20-28 | all messages say running but for one, the last one of an action that ended |
| `ActionsProof.RunKeepsInvariant` | robotics-lab-usi-robomaster/src/robomaster_sim/src/robot/robot.cpp:173-183 | every event keeps that no finished action is in the map and that every key holds an action of its own |
| `ActionsProof.ReachableRobot` | robotics-lab-usi-robomaster/src/robomaster_sim/src/robot/robot.cpp:11-27 | so it holds in every state reachable from construction |
| `ActionsProof.RunUsesOnlyParts` | robotics-lab-usi-robomaster/src/robomaster_sim/src/robot/robot.cpp:305-362 | no run ever has an action active for an arm, a gimbal or the servo that it moves, if the robot was not built with it |
| `ActionsProof.PushRate` | robotics-lab-usi-robomaster/src/robomaster_sim/include/action.hpp:21-28 | with steps up to the period, the messages of an action that has run for the time T have periods that add up to at least T and at most a period more |
| `ActionsProof.GoalActionEnds` | robotics-lab-usi-robomaster/src/robomaster_sim/src/robot/action.cpp:3-37 | given the result of its goal test in every step, a base, arm or gimbal action ends exactly at the first one that is positive |
| `MoveReport.MoveStateTowards` | robotics-lab-usi-robomaster/src/robomaster_sim/src/robot/action.cpp:3-23 | for the base this goal test is the norm of the relative goal being below 0.01 |
| `MoveReport.RunTogether` | robotics-lab-usi-robomaster/src/robomaster_sim/src/robot/robot.cpp:173-183 | over every run the scheduled action and the position controller of the base end together |
| `MoveReport.MoveReportsOnce` | robotics-lab-usi-robomaster/src/robomaster_sim/src/robot/action.cpp:3-37 | an accepted move reaches its goal within its time bound and its client is told so exactly once, by its last message, whatever else the robot is asked to do |
| `ActionsProof.ServoActionEnds` | robotics-lab-usi-robomaster/src/robomaster_sim/src/robot/action.cpp:90-112 | with steps of size dt a servo action ends exactly when its goal is first reached or at step floor(5 / dt) + 2 |
| `ActionsProof.SoundActionEnds` | robotics-lab-usi-robomaster/src/robomaster_sim/src/robot/action.cpp:75-88 | with n plays and steps of size dt a sound action ends exactly at step 1 + n * (floor(3 / dt) + 1), with no play left |
| `ActionsProof.SoundPlays` | robotics-lab-usi-robomaster/src/robomaster_sim/src/robot/action.cpp:75-88 | before that, which play is running and for how many steps |
| `ActionsExact.ServoEnds` | robotics-lab-usi-robomaster/src/robomaster_sim/src/robot/action.cpp:90-112 | a servo action accepted at any point of a run ends so |
| `ActionsExact.SoundEnds` | robotics-lab-usi-robomaster/src/robomaster_sim/src/robot/action.cpp:75-88 | and so does a sound action |
| `ActionsExact.SubmittedPushRate` | robotics-lab-usi-robomaster/src/robomaster_sim/include/action.hpp:21-40 | the messages of a submitted action keep pace with its time, at the 1, 5 or 10 Hz of its request |
| `ActionsExact.SubmittedPushCount` | robotics-lab-usi-robomaster/src/robomaster_sim/include/action.hpp:21-40 | with steps shorter than the period they are exactly floor(T * f) + 1 in the time T |
| `ActionsExact.RunRecords` | robotics-lab-usi-robomaster/src/robomaster_sim/src/robot/robot.cpp:173-183 | in every reachable state exactly the names of which an action has ended have a final state, and it is success |
| `ActionsExact.StepSends` | robotics-lab-usi-robomaster/src/robomaster_sim/src/robot/robot.cpp:173-183 | the messages of one step are those of the actions active before it, in the order of their names |
| `MoveReport.ArmStateTowards` | robotics-lab-usi-robomaster/src/robomaster_sim/src/robot/action.cpp:59-68 | for the arm the goal test is the distance of the motors from their desired angles being below 0.005 |
| `CrcTables.Crc8TableCorrect` | robotics-lab-usi-robomaster/src/robomaster_sim/src/protocol.cpp:10-27 | all 256 entries of the CRC-8 table are eight steps of the shift register with polynomial 0x8c |
| `CrcTables.Crc16TableCorrect` | robotics-lab-usi-robomaster/src/robomaster_sim/src/protocol.cpp:29-52 | all 256 entries of the CRC-16 table are eight steps of the shift register with polynomial 0x8408 |
| `CrcTables.Crc8IsSerial` | robotics-lab-usi-robomaster/src/robomaster_sim/src/protocol.cpp:54-60 | the table form equals the bit-serial register on every byte sequence and from every start value |
| `CrcTables.Crc16IsSerial` | robotics-lab-usi-robomaster/src/robomaster_sim/src/protocol.cpp:62-68 | the same for the CRC-16, which consumes a byte by shifting, looking up and combining |
| `CrcTables.Crc8DetectsByte` | robotics-lab-usi-robomaster/src/robomaster_sim/src/protocol.cpp:54-60 | messages of any length that differ in one byte have different CRC-8 |
| `CrcTables.Crc16DetectsBurst` | robotics-lab-usi-robomaster/src/robomaster_sim/src/protocol.cpp:62-68 | messages that differ inside any window of sixteen bits have different CRC-16 |
| `CrcTables.Crc16DetectsTwoBytes` | robotics-lab-usi-robomaster/src/robomaster_sim/src/protocol.cpp:62-68 | in particular inside any two consecutive bytes |
| `CrcTables.Crc16Residue` | robotics-lab-usi-robomaster/src/robomaster_sim/src/protocol.cpp:128-129 | two appended bytes clear the CRC-16 exactly if they are the CRC-16, low byte first |
| `Crc.BurstDetected` | robotics-lab-usi-robomaster/src/robomaster_sim/src/protocol.cpp:54-68 | the reason, for every register: a difference within one register width is never lost |
| `Protocol.DecodeOfEncode` | robotics-lab-usi-robomaster/src/robomaster_sim/src/protocol.cpp:108-161 | decoding an encoded message gives back set, id, sequence number, attributes, endpoints and payload for payloads of every size; the announced length is right exactly up to 1010 bytes |
| `Protocol.FrameResidue` | robotics-lab-usi-robomaster/src/robomaster_sim/src/protocol.cpp:128-129 | the CRC-16 over any whole encoded frame is zero |
| `Frames.FrameLayout` | robotics-lab-usi-robomaster/src/robomaster_sim/src/protocol.cpp:108-131 | where every field of an encoded frame is, and how its numbers are spread over bytes |
| `Frames.TruncatedExactly` | robotics-lab-usi-robomaster/src/robomaster_sim/src/protocol.cpp:136-152 | of an encoded frame, any number of received bytes is accepted exactly if they are four and as many as announced |
| `Frames.WholeFramesOnly` | robotics-lab-usi-robomaster/src/robomaster_sim/src/protocol.cpp:136-152 | so up to 1010 bytes of payload exactly the whole frames are accepted |
| `Frames.AttributeBits` | robotics-lab-usi-robomaster/src/robomaster_sim/include/protocol.hpp:19-20 | bit 7 of the attributes is the acknowledge, bits 5 and 6 ask for one |
| `Frames.AttributesDecoded` | robotics-lab-usi-robomaster/src/robomaster_sim/include/protocol.hpp:51-57 | what a receiver reads off the attributes of an encoded message, for all 8-bit values of the two fields |
| `Protocol.FrameBurstLeavesResidue` | robotics-lab-usi-robomaster/src/robomaster_sim/src/protocol.cpp:128-129 | a frame hit by a burst of up to sixteen bits has a nonzero CRC-16 |
| `Protocol.HeaderCorruptionRejected` | robotics-lab-usi-robomaster/src/robomaster_sim/src/protocol.cpp:144-147 | changing one of the first four bytes of an accepted frame gets it rejected |
| `Protocol.AcceptanceIgnoresBody` | robotics-lab-usi-robomaster/src/robomaster_sim/src/protocol.cpp:133-161 | no other corruption is noticed: the CRC-16 is not compared |
| `Protocol.CipherTwice` | robotics-lab-usi-robomaster/src/robomaster_sim/src/protocol.cpp:70-78 | the cipher is its own inverse |
| `Protocol.KeyStream` | robotics-lab-usi-robomaster/src/robomaster_sim/src/protocol.cpp:70-78 | the first bytes of its key stream |
| `Server.KeyFromInjective` | robotics-lab-usi-robomaster/src/robomaster_sim/include/utils.hpp:386 | two commands share a key only if set and id agree |
| `Server.ResponseAttributes` | robotics-lab-usi-robomaster/src/robomaster_sim/include/protocol.hpp:36-57 | a response acknowledges exactly when asked to, and otherwise asks for one itself |
| `Server.AnswerCorrect` | robotics-lab-usi-robomaster/src/robomaster_sim/src/server.cpp:24-38 | exactly the accepted requests of registered commands with a valid answer get a reply; it decodes with the same set, id and sequence number, swapped endpoints and the answer as payload, and its CRC-16 is right |
| `Server.TraceCorrect` | robotics-lab-usi-robomaster/src/robomaster_sim/src/server.cpp:40-67 | over any run of datagrams, each met with the callbacks of its time, the frames sent are the replies to exactly the valid datagrams, in order |
| `Topic.NoDrift` | robotics-lab-usi-robomaster/src/robomaster_sim/src/topic.cpp:6-24 | after steps of any sizes that sum up to T a started topic has sent exactly floor(T * f) + 1 frames, and its deadline is at most a period ahead |
| `Topic.RunOnTime` | robotics-lab-usi-robomaster/src/robomaster_sim/src/topic.cpp:6-16 | the deadline is always the number of frames times the period minus the time, so no error accumulates |
| `Topic.ZeroFrequencySendsOne` | robotics-lab-usi-robomaster/src/robomaster_sim/src/topic.cpp:11-15 | a topic of 0 Hz sends a single frame, whatever its steps |
| `Commands.RunKeeps` | robotics-lab-usi-robomaster/src/robomaster_sim/src/command.cpp:113-204 | every operation keeps that a connected client was heard of within 3 seconds and that no topic is overdue |
| `Commands.ReachableKeeps` | robotics-lab-usi-robomaster/src/robomaster_sim/src/command.cpp:35-42 | so it holds in every state reachable from construction |
| `Commands.DroppedExactlyWhenOverdue` | robotics-lab-usi-robomaster/src/robomaster_sim/src/command.cpp:180-186 | a step drops the client exactly if it is connected and overdue; then all publishers and events are gone, and otherwise none is |
| `Commands.SilentClientDropped` | robotics-lab-usi-robomaster/src/robomaster_sim/src/command.cpp:166-187 | more than three seconds without heartbeat or registration end the connection, whatever other operations come in between: at some point nothing is left of the client, and it stays unconnected |
| `Commands.SilentClientBound` | robotics-lab-usi-robomaster/src/robomaster_sim/src/command.cpp:149-187 | after its last heartbeat a client gets at most floor((3 + dt) * f) + 1 frames of a topic, over all operations without heartbeat, registration and subscription under the same key |
| `Commands.UnconnectedKeepsTopic` | robotics-lab-usi-robomaster/src/robomaster_sim/src/command.cpp:182 | while no client is connected a topic goes on as if there were no watchdog, over all operations that leave it alone |
| `Commands.NeverConnectedKeepsPublishing` | robotics-lab-usi-robomaster/src/robomaster_sim/src/command.cpp:149-187 | from construction on, a subscription without registration gets floor(T * f) + 1 frames in the time T, for every T |
| `Commands.FirstFrequencyStays` | robotics-lab-usi-robomaster/src/robomaster_sim/src/command.cpp:149-164 | as long as a key stays subscribed, its topic keeps the frequency of its first subscription and goes on counting |
| `Subscriptions.ConnectedExactly` | robotics-lab-usi-robomaster/src/robomaster_sim/src/command.cpp:113-187 | a connected client stays connected, throughout any operations, exactly if it is never reset and no more than 3 seconds of steps pass without a heartbeat or registration, counted on the operations |
| `Subscriptions.RegisteredStays` | robotics-lab-usi-robomaster/src/robomaster_sim/src/command.cpp:113-187 | so from construction on, for a client that registers at any point of a run |
| `Subscriptions.HeardKeepsTopic` | robotics-lab-usi-robomaster/src/robomaster_sim/src/command.cpp:125-187 | the topic of such a client stays and sends what it would send by itself, over all operations that leave it alone |
| `Subscriptions.SubscriberServed` | robotics-lab-usi-robomaster/src/robomaster_sim/src/command.cpp:149-187 | a subscription of such a client to a known subject is served floor(T * f) + 1 frames in the time T, at the frequency first asked for |
| `Subscriptions.HeardKeepsEvents` | robotics-lab-usi-robomaster/src/robomaster_sim/src/command.cpp:113-193 | it has exactly the events that its registrations and requests have brought, unless it disables the SDK |
| `Subscriptions.TopicsAskedFor` | robotics-lab-usi-robomaster/src/robomaster_sim/src/command.cpp:149-164 | every topic of a reachable state was asked for, at its frequency and for a known subject, and not ended since |
| `Subscriptions.EventsAskedFor` | robotics-lab-usi-robomaster/src/robomaster_sim/src/command.cpp:113-147 | every event of a reachable state was brought by a registration or a request, and not ended since |
| `Subscriptions.EndedSendsNothing` | robotics-lab-usi-robomaster/src/robomaster_sim/src/command.cpp:161-164 | after a subscription has ended no frame is sent under its key until it is asked for again |
| `WriterProof.RunInvariant` | frank/src/usi_angry_turtle/usi_angry_turtle/writer_node.py:119-528 | for every sequence of callbacks: the queue is some copies of the last waypoint followed by the rest of the path; the waypoints sent walk along the path with repetitions only; each was sent with the pen of an uninterrupted run; and repetitions made or queued equal those requested |
| `WriterProof.EmptyQueueMeansAllSent` | frank/src/usi_angry_turtle/usi_angry_turtle/writer_node.py:303-345 | once the queue is empty every waypoint has been sent with its pen |
| `WriterProof.OnKeepsInvariant` | frank/src/usi_angry_turtle/usi_angry_turtle/writer_node.py:119-528 | each single callback keeps this invariant |
| `WriterProof.CancelKeepsInvariant` | frank/src/usi_angry_turtle/usi_angry_turtle/writer_node.py:218-238 | a confirmed cancellation queues the last waypoint once more |
| `WriterProof.UsiDrawsByDefault` | frank/src/usi_angry_turtle/usi_angry_turtle/writer_node.py:107-116 | the path of the three letters meets the condition on the pen |
| `WriterProof.UsiWaypoints` | frank/src/usi_angry_turtle/usi_angry_turtle/writer_node.py:403-458 | the ten waypoints of the three letters, with their pens |
| `WriterProof.ReturnsToReportedPose` | frank/src/usi_angry_turtle/usi_angry_turtle/writer_node.py:119-123 | in every run each returning goal is a pose that was reported for the writing turtle |
| `WriterReturns.ReturnsToWriting` | frank/src/usi_angry_turtle/usi_angry_turtle/writer_node.py:303-317 | over every sequence of callbacks: each returning goal is the pose reported last before the last waypoint ahead of it was sent, told from the events |
| `WriterReturns.ReturnSentExactly` | frank/src/usi_angry_turtle/usi_angry_turtle/writer_node.py:507-528 | a returning goal is sent exactly when a respawn is confirmed and there is such a pose |
| `WriterProgress.SightingExactly` | frank/src/usi_angry_turtle/usi_angry_turtle/writer_node.py:152-194 | a sighting of turtle2 interrupts exactly while writing and closer than 2 to the pose reported last, and kills exactly while angry and closer than 0.5 |
| `WriterProgress.InterruptionUndone` | frank/src/usi_angry_turtle/usi_angry_turtle/writer_node.py:125-528 | an interruption that goes by the book is possible whenever a goal is under way and undoes itself: same queue, same waypoint, sent again after one undrawn chasing goal and a return to where it was sent from |
| `WriterProgress.RunBalanced` | frank/src/usi_angry_turtle/usi_angry_turtle/writer_node.py:347-528 | over every possible run each goal is answered or waits for it, each accepted goal has a result or waits for it, each confirmed kill leads to a respawn, a goal in progress waits for its result, the timer runs only after a confirmed cancellation, and there is a goal to cancel only after one was accepted |
| `WriterProgress.RequestsBalanced` | frank/src/usi_angry_turtle/usi_angry_turtle/writer_node.py:152-216 | over every possible run each cancellation and each kill that the sightings ask for is confirmed once or waits for that |
| `WriterProof.PenUpExactly` | frank/src/usi_angry_turtle/usi_angry_turtle/writer_node.py:158-235 | the pen is off whenever the node is not writing, throughout a run, exactly if every cancellation in it is confirmed while the pen is off |
| `WriterProof.ChasesUndrawn` | frank/src/usi_angry_turtle/usi_angry_turtle/writer_node.py:240-291 | then every chasing goal is sent with the pen off |
| `WriterProgress.PromptIsTimely` | frank/src/usi_angry_turtle/usi_angry_turtle/writer_node.py:158-178 | this is so if no goal succeeds between a sighting and the confirmation of its cancellation |
| `WriterProof.LateCancelCanDraw` | frank/src/usi_angry_turtle/usi_angry_turtle/writer_node.py:218-291 | any possible run in which a confirmation finds the pen on can go on with a chasing goal that is sent with the pen on |
| `WriterProof.LateCancelDrawsChase` | frank/src/usi_angry_turtle/usi_angry_turtle/writer_node.py:107-291 | and this happens on the path of the three letters, with every pen at the start |
| `WriterProof.CycleExactly` | frank/src/usi_angry_turtle/usi_angry_turtle/writer_node.py:125-394 | a callback leaves the cycle writing, angry, returning exactly if it is a late confirmation of a cancellation |
| `WriterProof.LateCancelLeavesCycle` | frank/src/usi_angry_turtle/usi_angry_turtle/writer_node.py:218-235 | and such runs exist: a second confirmation that arrives during the return |
| `Vision.ScanExact` | robotics-lab-usi-robomaster/src/robomaster_sim/coppeliaSim_plugin/coppeliasim_robot.cpp:391-419 | for every image, class and root modulo 256: an entry exists exactly if a pixel of an enabled class shows the object, and it is the tight bounding rectangle of these pixels |
| `Vision.TightUnique` | robotics-lab-usi-robomaster/src/robomaster_sim/coppeliaSim_plugin/coppeliasim_robot.cpp:370-380 | there is only one tight rectangle |
| `Vision.CoordinatesFit` | robotics-lab-usi-robomaster/src/robomaster_sim/coppeliaSim_plugin/coppeliasim_robot.cpp:371-373 | up to 65536 rows and columns the 16-bit coordinates are the real ones |
| `Vision.HandleDigits` | robotics-lab-usi-robomaster/src/robomaster_sim/coppeliaSim_plugin/coppeliasim_robot.cpp:403 | the handle of a pixel is the number whose digits to the base 256 are its bytes, lowest first |
| `Vision.EnabledBits` | robotics-lab-usi-robomaster/src/robomaster_sim/coppeliaSim_plugin/coppeliasim_robot.cpp:396-397 | a class is enabled by its own bit of the mask and no other |
| `Vision.BoxEdges` | robotics-lab-usi-robomaster/src/robomaster_sim/coppeliaSim_plugin/coppeliasim_robot.cpp:382-387 | a box exceeds its outermost pixels by half a pixel on every side |
| `ServoUnits.AngleRoundTrip` | robotics-lab-usi-robomaster/src/robomaster_sim/include/utils.hpp:687-690 | encoding an arm angle and decoding it errs by at most pi / 2048, and no other integer does better |
| `ServoUnits.ValueRoundTrip` | robotics-lab-usi-robomaster/src/robomaster_ros/robomaster_ros/robomaster_ros/modules/servo.py:55-58 | every integer is the encoding of the angle it is decoded to |
| `ServoUnits.SafeAnglesFit` | robotics-lab-usi-robomaster/src/robomaster_sim/include/utils.hpp:658-690 | over the safe polytope the encoded value of the left motor stays within 739 and 1565, and that of the right one within 483 and 1024 |
| `ServoUnits.ReportedAngles` | robotics-lab-usi-robomaster/src/robomaster_ros/robomaster_ros/robomaster_ros/modules/servo.py:188-196 | in every reachable state of the arm the decoded two-byte field is within pi / 2048 of the motor angle |
| `ServoUnits.SpeedRoundTrip` | robotics-lab-usi-robomaster/src/robomaster_sim/include/utils.hpp:683-685 | encoding and decoding a speed errs by at most pi / 10240 |
| `ServoUnits.ServoAngleRoundTrip` | robotics-lab-usi-robomaster/src/robomaster_sim/include/utils.hpp:692-700 | `servo_angle` and `angle_to_servo` are inverse to each other |
| `ImageFlip.PublishThenCallback` | robotics-lab-usi-robomaster/src/simExtROS2/src/sim_ros2_interface.cpp:851-875 | publishing an image and receiving it back is the identity for every width and height |
| `ImageFlip.FlipTwice` | robotics-lab-usi-robomaster/src/simExtROS2/src/sim_ros2_interface.cpp:869-875 | flipping the rows twice changes nothing |
| `ImageFlip.FlipRowsFlips` | robotics-lab-usi-robomaster/src/simExtROS2/src/sim_ros2_interface.cpp:869-875 | row i of the result is row height - 1 - i of the image |
| `BaseMotion.MoveAction.DoStep` | robotics-lab-usi-robomaster/src/robomaster_sim/src/robot/action.cpp:3-37 | the method on the objects does to the action and the chassis what the function of one step says |
| `BaseMotion.Chassis.UpdateOdometry` | robotics-lab-usi-robomaster/src/robomaster_sim/src/robot/chassis.cpp:44-51 | body twist, odometry twist and pose from the wheel speeds, in place |
| `BaseMotion.Chassis.UpdateAttitude` | robotics-lab-usi-robomaster/src/robomaster_sim/src/robot/chassis.cpp:53-63 | yaw integrates the IMU rate and becomes the odometry heading |
| `BaseMotion.Chassis.SetTargetVelocity` | robotics-lab-usi-robomaster/src/robomaster_sim/src/robot/chassis.cpp:34-37 | the wheels are asked for the speeds of the twist |
| `BaseMotion.MobileBase.SubmitMove` | robotics-lab-usi-robomaster/src/robomaster_sim/src/robot/robot.cpp:294-303 | a move is rejected while another one is active, and started otherwise |
| `BaseMotion.MobileBase.DoStep` | robotics-lab-usi-robomaster/src/robomaster_sim/src/dummy_robot.cpp:17-49 | plant, readings, action, removal of a finished action, and wheel control, in this order |
| `ArmRobot.Servo.WillPassLimits` | robotics-lab-usi-robomaster/src/robomaster_sim/include/robot/servo.hpp:61-72 | exactly when the wanted speed passes a limit, with the speed that ends at it |
| `ArmRobot.Servo.DesiredSpeed` | robotics-lab-usi-robomaster/src/robomaster_sim/include/robot/servo.hpp:31-43 | the limited and clamped speed, zero for a disabled servo |
| `ArmRobot.Servo.Control` | robotics-lab-usi-robomaster/src/robomaster_sim/src/robot/robot.cpp:76-99 | the body of the control loop for one servo |
| `ArmRobot.Servo.ForwardTargetAngle` | robotics-lab-usi-robomaster/src/robomaster_sim/src/dummy_robot.cpp:82-88 | proportional speed towards the angle, and the forced next update |
| `ArmRobot.ArmRobot.LimitMotors` | robotics-lab-usi-robomaster/src/robomaster_sim/src/robot/arm.cpp:80-89 | the limits of each motor from the position of the other one, and safe desired angles |
| `ArmRobot.ArmRobot.UpdateControl` | robotics-lab-usi-robomaster/src/robomaster_sim/src/robot/arm.cpp:65-74 | the desired angles of one controller step from the recorded position, made safe |
| `ArmRobot.ArmRobot.MoveServos` | robotics-lab-usi-robomaster/src/robomaster_sim/src/dummy_robot.cpp:21-32 | integration, projection and reported speeds |
| `ArmRobot.ArmRobot.DoStep` | robotics-lab-usi-robomaster/src/robomaster_sim/src/dummy_robot.cpp:17-49 | the arm part of one step of the robot: servos, projection, position, action, limits and control, in this order |
| `ArmRobot.ArmRobot.Sense` | robotics-lab-usi-robomaster/src/robomaster_sim/src/dummy_robot.cpp:21-32 | moves the servos and updates the position of the tip |
| `ArmRobot.ArmRobot.SubmitMove` | robotics-lab-usi-robomaster/src/robomaster_sim/src/robot/robot.cpp:305-319 | a move of the arm is rejected while another one is active, and started otherwise |
| `ArmRobot.MoveArmAction.DoStep` | robotics-lab-usi-robomaster/src/robomaster_sim/src/robot/action.cpp:48-73 | fixes the goal in its first step, steers, measures the distance and ends below the tolerance |
| `Gimbal.FixedAngles` | robotics-lab-usi-robomaster/src/robomaster_sim/include/robot/gimbal.hpp:138-163 | the loop over yaw and pitch computes each target by its own rule |
| `ActionRobot.Action.DoStep` | robotics-lab-usi-robomaster/src/robomaster_sim/src/robot/action.cpp:48-141 | the `do_step` of the five kinds of action as far as state and time go |
| `ActionRobot.Action.Publish` | robotics-lab-usi-robomaster/src/robomaster_sim/include/action.hpp:21-28 | pushes when done or due, and moves the deadline by a period |
| `ActionRobot.Action.DoStepCb` | robotics-lab-usi-robomaster/src/robomaster_sim/include/robot/action.hpp:27-30 | a step, then the callback |
| `ActionRobot.ActionRobot.Submit` | robotics-lab-usi-robomaster/src/robomaster_sim/src/robot/robot.cpp:294-362 | the five overloads: availability, refusal of an active name, start |
| `ActionRobot.ActionRobot.DoStep` | robotics-lab-usi-robomaster/src/robomaster_sim/src/robot/robot.cpp:173-183 | every active action has one turn, in the order of names; finished ones are erased and their state recorded |
| `CrcTables.Crc8Calc` | robotics-lab-usi-robomaster/src/robomaster_sim/src/protocol.cpp:54-60 | the loop computes the CRC-8 of the first `length` bytes |
| `CrcTables.Crc16Calc` | robotics-lab-usi-robomaster/src/robomaster_sim/src/protocol.cpp:62-68 | the loop computes the CRC-16 of the first `length` bytes |
| `Protocol.EncodeMsg` | robotics-lab-usi-robomaster/src/robomaster_sim/src/protocol.cpp:108-131 | the frame written in place is the specified byte sequence, for every payload |
| `Protocol.DecodeRequest` | robotics-lab-usi-robomaster/src/robomaster_sim/src/protocol.cpp:133-161 | accepts exactly on length, magic byte, header CRC-8 and announced length, and returns the header fields |
| `Protocol.WriteUint16` | robotics-lab-usi-robomaster/src/robomaster_sim/src/protocol.cpp:129 | two little-endian bytes in place, all others unchanged |
| `Protocol.Encrypt` | robotics-lab-usi-robomaster/src/robomaster_sim/src/protocol.cpp:70-78 | the loop computes the key-stream cipher |
| `Server.Server.RegisterMessage` | robotics-lab-usi-robomaster/src/robomaster_sim/include/server.hpp:46-59 | a callback is stored under the key of its own command |
| `Server.Server.AnswerRequest` | robotics-lab-usi-robomaster/src/robomaster_sim/src/server.cpp:24-38 | the method computes the specified answer |
| `Server.Server.HasReceivedBytes` | robotics-lab-usi-robomaster/src/robomaster_sim/src/server.cpp:40-50 | a nonempty answer is appended to what is sent |
| `Topic.Topic.DoStep` | robotics-lab-usi-robomaster/src/robomaster_sim/src/topic.cpp:6-16 | the catch-up loop ends and has sent one frame for every period that was due |
| `Commands.Commands.CreatePublisher` | robotics-lab-usi-robomaster/src/robomaster_sim/src/command.cpp:149-159 | unknown subjects are ignored, an existing topic is only started again |
| `Commands.Commands.Unconnect` | robotics-lab-usi-robomaster/src/robomaster_sim/src/command.cpp:195-204 | clears streaming, events, publishers and the connection |
| `Commands.Commands.AddSubscriberNode` | robotics-lab-usi-robomaster/src/robomaster_sim/src/command.cpp:113-123 | connects, starts the enabled events and the watchdog |
| `Commands.Commands.GotHeartbeat` | robotics-lab-usi-robomaster/src/robomaster_sim/src/command.cpp:125-128 | records the time of the heartbeat |
| `Commands.Commands.SetEnableSdk` | robotics-lab-usi-robomaster/src/robomaster_sim/src/command.cpp:135-147 | disabling clears events and publishers, enabling changes nothing |
| `Commands.Commands.StopPublisher` | robotics-lab-usi-robomaster/src/robomaster_sim/src/command.cpp:161-164 | erases the publisher |
| `Commands.Commands.DoStep` | robotics-lab-usi-robomaster/src/robomaster_sim/src/command.cpp:166-187 | steps every topic, then the watchdog |
| `WriterNode.WriterNode.SendNextGoal` | frank/src/usi_angry_turtle/usi_angry_turtle/writer_node.py:303-345 | pops and remembers the waypoint, records the position, sets the pen, sends the goal |
| `WriterNode.WriterNode.Turtle2PoseCallback` | frank/src/usi_angry_turtle/usi_angry_turtle/writer_node.py:125-194 | starts the chase or the kill by state and distance |
| `WriterNode.WriterNode.CancelDoneCallback` | frank/src/usi_angry_turtle/usi_angry_turtle/writer_node.py:218-238 | queues the last waypoint again if the cancellation succeeded, and becomes angry in any case |
| `WriterNode.WriterNode.CancelChasingDoneCallback` | frank/src/usi_angry_turtle/usi_angry_turtle/writer_node.py:196-208 | kills and returns |
| `WriterNode.WriterNode.ResultCallback` | frank/src/usi_angry_turtle/usi_angry_turtle/writer_node.py:365-394 | goes on writing after a writing or returning goal has succeeded |
| `WriterNode.WriterNode.GoalResponseCallback` | frank/src/usi_angry_turtle/usi_angry_turtle/writer_node.py:347-363 | accepted goals get a handle and a pending result |
| `WriterNode.WriterNode.ChaseTurtle2` | frank/src/usi_angry_turtle/usi_angry_turtle/writer_node.py:240-291 | sends a chasing goal only while angry and idle |
| `WriterNode.WriterNode.SpawnDoneCallback` | frank/src/usi_angry_turtle/usi_angry_turtle/writer_node.py:507-528 | sends the robot back to where it was writing |
| `WriterNode.WriterNode.KillDoneCallback` | frank/src/usi_angry_turtle/usi_angry_turtle/writer_node.py:481-490 | a confirmed kill asks for a respawn |
| `Vision.DetectRects` | robotics-lab-usi-robomaster/src/robomaster_sim/coppeliaSim_plugin/coppeliasim_robot.cpp:395-419 | the nested pixel loops compute the scan, for every width and height |
| `Vision.DetectBoundingBoxes` | robotics-lab-usi-robomaster/src/robomaster_sim/coppeliaSim_plugin/coppeliasim_robot.cpp:420-428 | one entry for every rectangle, class by class; it has a box unless the size in 16 bits is zero |
| `ServoUnits.RMServo.Update` | robotics-lab-usi-robomaster/src/robomaster_ros/robomaster_ros/robomaster_ros/modules/servo.py:189-194 | invalid data leaves the last value |
| `ImageFlip.FlipFrame` | robotics-lab-usi-robomaster/src/simExtROS2/src/sim_ros2_interface.cpp:869-875 | the loops of the publisher flip the rows |
| `ImageFlip.FlipMessage` | robotics-lab-usi-robomaster/src/simExtROS2/src/sim_ros2_interface.cpp:168-174 | so do the loops of the callback, in the other direction |
| `ImageFlip.Callback` | robotics-lab-usi-robomaster/src/simExtROS2/src/sim_ros2_interface.cpp:150-174 | big-endian messages are refused |

## Left out

- Rounding, overflow and NaN of floats: reals are used instead. Distances of the writer are compared by their squares, and `SpeedFactor` takes the infinite quotient at distance zero as the float division would.
- Integer widths of image sizes and buffer offsets in `ImageFlip`. In `Vision`, a size that is zero in 16 bits gives no box, where the source divides by it and gets infinite floats.
- Sockets, threads, discovery, video and file transfer: a frame that is sent is appended to a sequence. The shared cipher of the discovery message is modelled, its payload is not.
- The acknowledge constructor of `ResponseT` from two endpoints, used by pushes, and the payload formats of the messages.
- Protocol.DecodeRequest: requires the eleven header bytes in memory; the source reads them out of its fixed receive buffer whatever the number of bytes received.
- The host is little-endian where the source copies integers byte by byte.
- Vision.DetectRects: entries of the map are replaced, not updated through an iterator; class numbers are taken to be below 32, as the source shifts by them.
- The scan with OpenCV, the simulator's API and its physics: unseen libraries. `DummyRobot` is the only plant.
- The wheel angles, the attitude angles other than yaw, and the other servos of a robot with an arm: no property here depends on them.
- `Servo::mode.current` is never assigned by the modelled robots, so `get_desired_angle` and `set_desired_angle` are taken in their angle branch.
- Convergence of arm and gimbal actions: the result of their goal test enters `Actions` as an input of each step.
- ActionRobot.Action.DoStep: takes the goal test of base, arm, gimbal and servo actions as an input; for the base and the arm `MoveReport` says what it is.
- `Arm::position` and the two durations of an arm action are not initialised by the source; they are arbitrary before the first step.
- The percentage, the sequence number and the positions in progress messages; the percentage of a sound can exceed 100 at its end.
- ActionRobot.ActionRobot.Submit: a servo index of 3 is excluded, because the source reads past the end of its array there.
- ActionsProof.ServoActionEnds: states the step number for steps of equal size only.
- ActionsProof.SoundActionEnds: likewise, the number of steps depends on their size.
- Events of hits and vision beyond their being present or not, and the order in which a map of topics is stepped within one step.
- WriterNode.WriterNode.Turtle2PoseCallback: does not model the estimate of turtle2's speed and direction, which only changes where a chasing goal points.
- WriterNode.WriterNode.ChaseTurtle2: does not model that point, nor that reading the speed fails and ends the node if turtle2 has been seen only once; the runs of the node are among those of the model.
- The services and the action server of the writer are taken to be available, and setting the pen takes effect at once.
- `controller_node.py`, `move2goal_node.py`, `h264_parser.py`, the other ROS modules, LED effects and launch files: plumbing around libraries that are not part of this model.
