# Sorted list, median filters and sensor-event store of the ICM20948 / MPU9250 drivers

This project models three pieces of logic from the TM4C ICM20948 driver and
proves properties about them:

- **The index-tagged sorted linked list** `LinkedList` (module `SortedList`).
  Nodes are (value, slot tag) pairs.
  - `addS` keeps the nodes in non-increasing order.
  - `DeleteWhereIndex` unlinks a node by its tag.
  - `at` reads by position.
  - `popFront` and `addQ` give queue-like use.
  - The element counter `siz` is a separate 32-bit field with wrap-around, because `addQ` never updates it.
- **The two sliding-window median filters of `ICM20948`**:
  - `_SetAcceleration` (module `AccelMedian`): a window of 23 built on the list. It evicts by arrival slot and reads the middle node.
  - `_SetGyroscope` (module `GyroMedian`): a ring of three 3-axis samples with a per-axis neighbour scan.

  For each filter, the model proves that its output is the median of the last
  samples, against an independent reference median: the middle of an
  insertion sort, in module `Order`.
- **The sensor-event callback and the state store** of both drivers:
  - The chip-to-generic table `convert_to_generic_ids` and its inverse `idd_sensortype_conversion` (module `SensorIds`).
  - `build_sensor_event_data` as a pure step `Dispatch(store, event)` over a record. `Poll` runs it over the events one poll delivers.
  - The `_initialized` gate on the configuration setters, the getters, `ReadSensorData`'s scaling and the constructor (modules `Icm20948` and `Mpu9250`).

Modelling choices:
- Floats are reals, since the filters only compare samples and the callback only copies them.
- Integers the source keeps in fixed widths are bounded types (module `BoundedInts`).
- The vendor driver is not part of this model. The events a poll delivers, the poll's return code, the outcome of the vendor calls in `InitSW` and the gravity constant `GRAVITY_CONST` (defined in headers that are not part of this model) are parameters.

Where the code and its comments disagree, the model follows the code:
- `sortLogic` orders the list descending, although its comment says ascending.
- The default ranges are 2 (accelerometer) and 250 (gyroscope), although the comments beside them say 4 g and 2000 dps.

## Model

| member | source | states |
|---|---|---|
| `SortedList.InsertPos` | libs/linkedlist.hpp:56-62 | the traversal of `addS` stops at the first node whose value is at most the new one (the `sortLogic` test), and every node before it is strictly larger |
| `SortedList.AddS` | libs/linkedlist.hpp:80-123 | `addS` adds exactly the node (arg, ind) to the contents, bumps the counter by one with 32-bit wrap-around, keeps a counter in step with the nodes, and keeps a non-increasing list non-increasing |
| `SortedList.AddSPlacement` | libs/linkedlist.hpp:86-122 | on a sorted list the new node lands after every strictly larger value and ahead of every value less than or equal to it, so it goes in front of equal values |
| `SortedList.InsertKeepsDescending` | libs/linkedlist.hpp:96-122 | splicing the new node in at the stop position adds exactly that node and preserves the non-increasing order |
| `SortedList.AddAllSDescending` | libs/linkedlist.hpp:80-123 | after any sequence of `addS` calls on a sorted, counted list, the list is non-increasing, the counter equals the node count, and the contents are the old contents plus every added node |
| `SortedList.DeletePos` | libs/linkedlist.hpp:172-180 | the deletion traversal stops at the first node tagged `k`, or at the tail without looking at the tail's tag |
| `SortedList.DeleteWhereIndex` | libs/linkedlist.hpp:170-203 | on two or more nodes, removes the first node tagged `k` (or the tail if none is tagged `k`), keeps the other nodes in their order, decrements the counter with wrap-around, and keeps the list sorted |
| `SortedList.Walk` | libs/linkedlist.hpp:161-167 | the `at` traversal from step `i` stops at position `index - i`, or at the tail when the list runs out first |
| `SortedList.At` | libs/linkedlist.hpp:159-168 | `at(i)` on a non-empty list returns the value at position min(i, length - 1) |
| `SortedList.PopFront` | libs/linkedlist.hpp:134-152 | on an empty list, returns -1.0 and changes nothing; otherwise returns the head's value, drops the head and decrements the counter |
| `SortedList.AddQ` | libs/linkedlist.hpp:65-77 | appends the node at the tail and leaves the counter unchanged, so a counted list stops being counted |
| `SortedList.AddQCounted` | libs/linkedlist.hpp:65-77 | the queue insertion with the counter bump `addS` has appends the node and keeps the counter in step |
| `SortedList.EmptyIffSizeZero` | libs/linkedlist.hpp:128-131 | when the counter is in step with the nodes, `empty()` (`SortedList.Empty`, a null head) holds exactly when `Size()` (`SortedList.Size`, which returns the counter at lines 205-208) is 0 |
| `SortedList.PopFrontReturnsLargest` | libs/linkedlist.hpp:134-152 | on a sorted list, `popFront` returns a value at least as large as every value in the list |
| `SortedList.AddQThenPopFront` | libs/linkedlist.hpp:65-77 | on a non-empty list, `addQ` then `popFront` gives the same value and list as `popFront` then `addQ` (queue order) |
| `SortedList.AddQPopFrontWrapsSize` | libs/linkedlist.hpp:65-77 | `addQ` then `popFront` on a new list empties it, yet `Size()` wraps to 4294967295 |
| `SortedList.AddQCountedPopFrontRestores` | libs/linkedlist.hpp:65-77 | with the counter bumped, `addQ` then `popFront` on a new list returns the value and restores the new list exactly |
| `BoundedInts.Inc32` | libs/linkedlist.hpp:85 | `siz++` on a 32-bit counter adds one, and wraps from 2^32 - 1 to 0 |
| `BoundedInts.Dec32` | libs/linkedlist.hpp:151 | `siz--` on a 32-bit counter subtracts one, and wraps from 0 to 2^32 - 1 |
| `BoundedInts.ToInt8` | icm20948/icm20948_dmp.cpp:656-658 | storing an `int` in an `int8_t` keeps a value in -128 .. 127 and otherwise yields the value congruent to it modulo 256 in that range |
| `AccelMedian.Push` | icm20948/icm20948_dmp.cpp:779-797 | the statics move as `AccelMedian.Step` says; the output is left unchanged unless the buffer then holds 23 nodes, and then (with the counter in step) it is the value at sorted position 11, which on a sorted buffer has eleven values at least as large before it and eleven at most as large after it |
| `AccelMedian.Step` | icm20948/icm20948_dmp.cpp:787-796 | the slot counter advances by one modulo 23; the contents become those left by the eviction plus the sample tagged with the old slot, so below 23 nodes exactly the old contents plus that node; the counter is bumped with wrap-around and a sorted buffer stays sorted |
| `AccelMedian.Evict` | icm20948/icm20948_dmp.cpp:787-788 | a buffer whose counter is not 23 is kept as it is; at 23 the first node tagged with the current slot is removed (or the tail if none is), leaving 22 nodes and the rest in order, and a counted, sorted buffer stays counted and sorted |
| `AccelMedian.TrackedSize` | icm20948/icm20948_dmp.cpp:782-796 | while the filter is in step with the history, the buffer never holds more than 23 nodes, its node count, its counter and the size of the window of the last min(n, 23) samples agree, and that window's values are those samples |
| `AccelMedian.SlotAdvances` | icm20948/icm20948_dmp.cpp:796 | advancing the slot modulo 23 from n mod 23 gives (n + 1) mod 23 |
| `AccelMedian.WindowSlides` | icm20948/icm20948_dmp.cpp:787-789 | once full, the window drops its oldest node (the one tagged with the current slot, a tag no other node carries) and appends the new sample |
| `AccelMedian.EvictedIsOldest` | icm20948/icm20948_dmp.cpp:787-788 | on a full window, `DeleteWhereIndex(counter)` finds the node tagged with the current slot, which holds the oldest sample |
| `AccelMedian.PushEvictsOldest` | icm20948/icm20948_dmp.cpp:787-788 | on a full window, the eviction removes exactly the oldest sample, not the smallest or the largest |
| `AccelMedian.EvictTracks` | icm20948/icm20948_dmp.cpp:787-788 | after the eviction step the buffer is sorted, counted, holds fewer than 23 nodes, and with the new sample holds exactly the next window |
| `AccelMedian.InsertTracks` | icm20948/icm20948_dmp.cpp:789 | inserting the sample into a buffer that holds the rest of the next window gives a filter in step with the longer history |
| `AccelMedian.PushTracks` | icm20948/icm20948_dmp.cpp:782-796 | one call keeps the filter in step with the history: the buffer holds the last min(n, 23) samples tagged with their slots, sorted, with the counter at n mod 23 |
| `AccelMedian.TrackedMedian` | icm20948/icm20948_dmp.cpp:791-793 | with 23 or more samples, the middle node (position 11) holds the median of the last 23 samples |
| `AccelMedian.PushOutput` | icm20948/icm20948_dmp.cpp:790-793 | the output is left as it was until 23 samples have arrived, and is the median of the last 23 samples from then on |
| `AccelMedian.Run` | icm20948/icm20948_dmp.cpp:779-797 | after any history of n samples, the filter is in step with it; the output is the initial one while n < 23, and the median of exactly the last 23 samples afterwards |
| `Order.MedianOfThree` | icm20948/icm20948_dmp.cpp:817-820 | of three values, one that is at least one ring neighbour and at most the other is their median |
| `GyroMedian.ScanFinds` | icm20948/icm20948_dmp.cpp:816-824 | whichever slot the scan starts from, one of the next three ring positions passes the neighbour test, so the scan never runs out |
| `GyroMedian.ScanReturnsPassing` | icm20948/icm20948_dmp.cpp:816-824 | a scan with a passing position ahead of it returns the sample at such a position |
| `GyroMedian.ScanIsMedian` | icm20948/icm20948_dmp.cpp:815-824 | the scan (`GyroMedian.Scan`: the first ring position from the current slot on whose sample lies between its two ring neighbours, the test `GyroMedian.Between` of lines 817-820) returns the median of the three samples, whatever the slot and the previous output |
| `GyroMedian.ScanAxis` | icm20948/icm20948_dmp.cpp:816-824 | the early-exit loop over one axis returns what `GyroMedian.Scan` defines |
| `GyroMedian.ScanAll` | icm20948/icm20948_dmp.cpp:815-824 | the loop over the three axes sets each axis to that axis's scan |
| `GyroMedian.ScansAreMedians` | icm20948/icm20948_dmp.cpp:815-824 | per-axis scan results are the per-axis medians |
| `GyroMedian.SetGyroscope` | icm20948/icm20948_dmp.cpp:805-827 | one call stores the sample in ring slot `counter`, sets every axis of the output to the median of that axis's three buffered values, and advances the counter modulo 3 |
| `GyroMedian.RowsStep` | icm20948/icm20948_dmp.cpp:811 | each sample overwrites exactly the slot n mod 3 of the ring |
| `GyroMedian.RowsWhileFilling` | icm20948/icm20948_dmp.cpp:808-811 | with fewer than three samples, the written slots hold the samples and the others still hold the static array's zeros |
| `GyroMedian.RowsWhenFull` | icm20948/icm20948_dmp.cpp:808-811 | with three or more samples, the ring holds exactly the last three samples, each in its arrival slot |
| `GyroMedian.FullRingHoldsLastThree` | icm20948/icm20948_dmp.cpp:808-811 | with three or more samples, each axis of the ring is a permutation of that axis's last three samples |
| `GyroMedian.FullRingMedian` | icm20948/icm20948_dmp.cpp:805-827 | with three or more samples, the median over the ring equals the median of the last three samples |
| `GyroMedian.Feed` | icm20948/icm20948_dmp.cpp:805-827 | after any history, the ring holds what the history wrote and the counter is n mod 3; from the first call on, the output is the per-axis median of the ring, and of the last three samples once three have arrived |
| `SensorIds.Ordinal` | mpu9250/dmp_mpu9250.cpp:63-84 | every chip sensor indexes the 20-entry conversion table within bounds |
| `SensorIds.ToGeneric` | icm20948/icm20948_dmp.cpp:86-107 | the table maps every chip sensor to one of the named generic tags |
| `SensorIds.ToChip` | mpu9250/dmp_mpu9250.cpp:230-256 | `idd_sensortype_conversion` returns the end marker `INV_ICM20948_SENSOR_MAX` exactly for the tags it does not list |
| `SensorIds.ChipRoundTrip` | mpu9250/dmp_mpu9250.cpp:63-84 | mapping chip sensor i through the table and then back through `idd_sensortype_conversion` gives i |
| `SensorIds.GenericRoundTrip` | mpu9250/dmp_mpu9250.cpp:234-253 | each of the 20 listed generic tags converts to a chip sensor that the table maps back to it |
| `SensorIds.ToChipInjective` | mpu9250/dmp_mpu9250.cpp:230-256 | distinct listed tags get distinct chip sensors |
| `SensorIds.ToGenericInjective` | mpu9250/dmp_mpu9250.cpp:63-84 | distinct chip sensors get distinct generic tags |
| `Icm20948.Writes` | icm20948/icm20948_dmp.cpp:171-270 | no tag's case writes `_initialized`, `_acc`, `_gyro` or the configuration |
| `Icm20948.Dispatch` | icm20948/icm20948_dmp.cpp:171-270 | MAGNETOMETER writes exactly `_mag`, GRAVITY exactly `_gv`, RAW_ACCELEROMETER exactly `_accRaw`, ROTATION_VECTOR `_quat9DOF` and its accuracy, GAME_ROTATION_VECTOR `_quat6DOF` and its accuracy (zero); every other field keeps its value |
| `Icm20948.SilentTags` | icm20948/icm20948_dmp.cpp:183-267 | gyroscope, accelerometer, linear-acceleration, geomagnetic, uncalibrated, activity, step, tilt, pick-up, SMD, B2S, orientation and raw-gyroscope events leave the whole store unchanged |
| `Icm20948.DispatchIdempotent` | icm20948/icm20948_dmp.cpp:171-270 | delivering the same event twice stores what delivering it once does |
| `Icm20948.DispatchCommutes` | icm20948/icm20948_dmp.cpp:171-270 | events whose tags write disjoint field groups can be delivered in either order |
| `Icm20948.WritesAll` | icm20948/icm20948_dmp.cpp:171-270 | no event sequence writes `_initialized`, `_acc`, `_gyro` or the configuration |
| `Icm20948.Poll` | icm20948/icm20948_dmp.cpp:171-270 | running the callback over a poll's events changes only the fields of the delivered tags |
| `Icm20948.ReadSensorData` | icm20948/icm20948_dmp.cpp:654-666 | returns the poll's code as stored in the `int8_t` `retVal`: unchanged when it lies in -128 .. 127, and congruent to it modulo 256 always; multiplies `_acc` per axis by the gravity constant, and changes nothing else the events do not write |
| `Icm20948.SessionKeepsAccAndGyro` | icm20948/icm20948_dmp.cpp:654-666 | across any number of reads, a zero `_acc` stays zero, and `_gyro` and the configuration never change |
| `Icm20948.ReadsCompound` | icm20948/icm20948_dmp.cpp:660-663 | the scaling is applied on every read: two reads scale `_acc` by the square of the gravity constant |
| `Icm20948.GettersReturnDispatched` | icm20948/icm20948_dmp.cpp:752-865 | the getters return exactly what the callback stored for their tag, and an event of any other tag leaves each getter's answer unchanged |
| `Icm20948.FreshDevice` | icm20948/icm20948_dmp.cpp:872-882 | after the constructor (`Icm20948.New`) every getter reads zero and the configuration setters are open |
| `Icm20948.GetOrientationQuatAsWritten` | icm20948/icm20948_dmp.cpp:730-744 | as written, both branches return the 6-DOF quaternion |
| `Icm20948.GetOrientationQuat` | icm20948/icm20948_dmp.cpp:730-744 | corrected: a 9-DOF request returns `_quat9DOF` and a 6-DOF request `_quat6DOF`, with success |
| `Icm20948.GetOrientationQuatAsWrittenMisses` | icm20948/icm20948_dmp.cpp:736-740 | after a rotation-vector event (1, 0, 0, 0) on a fresh device, the 9-DOF request returns the zero quaternion as written, and (1, 0, 0, 0) once corrected |
| `Icm20948.SetAccelerationFsr` | icm20948/icm20948_dmp.cpp:321-330 | succeeds exactly when not initialized and then stores the range, changing nothing else; otherwise returns not-allowed and changes nothing |
| `Icm20948.SetGyroscopeFsr` | icm20948/icm20948_dmp.cpp:331-340 | succeeds exactly when not initialized and then stores the range, changing nothing else; otherwise returns not-allowed and changes nothing |
| `Icm20948.SetMountingMatrixAsWritten` | icm20948/icm20948_dmp.cpp:355-364 | as written, never changes the device; before initialization it copies the configured matrix out into the caller's array and succeeds |
| `Icm20948.SetMountingMatrix` | icm20948/icm20948_dmp.cpp:355-364 | corrected: before initialization, the argument becomes the configured matrix and nothing else changes; after it, not-allowed and no change |
| `Icm20948.SetMountingMatrixAsWrittenIgnoresArgument` | icm20948/icm20948_dmp.cpp:361 | as written, setting a permutation matrix before initialization reports success while the configured matrix stays the identity |
| `Icm20948.InitSw` | icm20948/icm20948_dmp.cpp:371-592 | fails with an error and no change if the WHOAMI check, the initialization or the DMP load fails; otherwise sets `_initialized`, changes nothing else and succeeds |
| `Icm20948.ConfigGate` | icm20948/icm20948_dmp.cpp:321-364 | after a successful `InitSW`, all three setters return not-allowed and change nothing, and reading data never reopens the gate; before it, the range setters take effect |
| `Icm20948.SetAcceleration` | icm20948/icm20948_dmp.cpp:779-797 | `_SetAcceleration` feeds only `acc[0]` to the window filter, sets `_acc[0]` to the filter's output, and changes nothing else |
| `Icm20948.SetAccelerationMedian` | icm20948/icm20948_dmp.cpp:779-797 | on a filter in step with the x-axis history, `_acc[0]` keeps its value until 23 samples have arrived and is then the median of the last 23 `acc[0]` samples |
| `Icm20948.SetAccelerationReadsOnlyX` | icm20948/icm20948_dmp.cpp:779-797 | two samples that agree on `acc[0]` have the same effect |
| `Icm20948.SetGyroscope` | icm20948/icm20948_dmp.cpp:805-827 | `_SetGyroscope` sets `_gyro`, axis by axis, to the median of the ring after the write, and changes no other field |
| `Mpu9250.Writes` | mpu9250/dmp_mpu9250.cpp:144-228 | each tag's case writes at most one store field |
| `Mpu9250.Dispatch` | mpu9250/dmp_mpu9250.cpp:144-228 | GYROSCOPE writes exactly `_gyro`; ACCELEROMETER and LINEAR_ACCELERATION exactly `_acc`; GRAVITY exactly `_gv`; MAGNETOMETER exactly `_mag`; GAME_ROTATION_VECTOR exactly `_quat` |
| `Mpu9250.SilentTags` | mpu9250/dmp_mpu9250.cpp:156-225 | rotation-vector, geomagnetic, event-flag, step, orientation, raw and uncalibrated events leave every store field unchanged |
| `Mpu9250.DispatchIdempotent` | mpu9250/dmp_mpu9250.cpp:144-228 | delivering the same event twice stores what delivering it once does |
| `Mpu9250.LaterEventWins` | mpu9250/dmp_mpu9250.cpp:168-199 | of two events that write the same field, the later one decides the store |
| `Mpu9250.Poll` | mpu9250/dmp_mpu9250.cpp:144-228 | running the callback over a poll's events changes only the fields of the delivered tags |
| `Mpu9250.ReadSensorDataAsWritten` | mpu9250/dmp_mpu9250.cpp:536-543 | as written, reports `MPU_ERROR` whatever the poll returns, and stores what the events deliver |
| `Mpu9250.ReadSensorData` | mpu9250/dmp_mpu9250.cpp:536-543 | corrected: returns the poll's code and stores what the events deliver |
| `Mpu9250.ReadSensorDataAsWrittenReportsError` | mpu9250/dmp_mpu9250.cpp:538-542 | for a poll that succeeds, the as-written version reports an error and the corrected one success, with the same store |
| `Mpu9250.Acceleration` | mpu9250/dmp_mpu9250.cpp:579-587 | returns `_acc` multiplied per axis by the gravity constant, with success |
| `Mpu9250.GettersReturnDispatched` | mpu9250/dmp_mpu9250.cpp:579-620 | the getters return exactly what the callback stored (the acceleration scaled), and an event of any other tag leaves each getter's answer unchanged |

## Left out

- Hardware and vendor plumbing is not modelled, because it is I/O and foreign calls with no logic visible here: `InitHW`, `Enabled`, `IsDataReady`, `EnableSensor`, `DisableSensor`, `Reset`, `GetID`, `interface_is_SPI`, `switch_I2C_to_revA`, and the vendor poll `inv_icm20948_poll_sensor`. The events a poll delivers and its return code are parameters.
- Icm20948.InitSw: power cycling, the I2C address retry, the vendor initialization and the sensor enables are reduced to three outcomes (WHOAMI, initialization, DMP load). Enable failures are only printed on the debug port, so they are not modelled.
- `SetMagnetometerBias` is not modelled: it is a float-to-Q16 cast followed by a vendor call.
- Trigonometry and other floating-point numerics are not modelled: `GetOrientationRPY`, `dmp_GetEuler`, `dmp_GetYawPitchRoll`, `RPY` and `dmp_GetGravity`.
- Floats are reals, so NaN, infinities and rounding are not modelled. In particular, the scaling by `GRAVITY_CONST` is one exact real multiplication per axis, and the constant's value is a parameter.
- The accuracy sources `inv_icm20948_get_accel_accuracy`, `icm20948_get_grv_accuracy` and the accuracy flags they fill are not modelled: they only reach the local event, never the store.
- The callback's timestamp and the local event it fills are not modelled, because neither reaches the store.
- The raw-accelerometer case copies `_accRaw` through the event's union. It is modelled as a copy of the first three payload words.
- `volatile` fields and interrupt-time concurrency are not modelled: every operation is one atomic step.
- The `MPU9250` constructor is not modelled: its `memset`s clear only 3 bytes of each array, which is byte-level initialisation with no real-valued meaning.
- The main loop in `main.cpp` and the declarations in `icm20948/icm20948.h` are not modelled. The header is out of step with the implementation.
- There is no velocity or displacement integrator in the modelled files, so none is modelled.
- SortedList.DeleteWhereIndex: requires at least two nodes. On an empty or one-node list the class dereferences a null pointer, which has no defined result to model.
- SortedList.At: requires a non-empty list, because the class dereferences a null head otherwise.
- The list's heap nodes, `prev` links and the destructor, which pops every node unless `refExists` is set, are not modelled: the list is the sequence of its values and tags, and nothing is freed.
- Icm20948.ReadSensorData: the narrowing of the poll's `int` code to the `int8_t` `retVal` keeps the code when it fits and otherwise wraps it modulo 256. That is the two's-complement conversion C++20 prescribes and earlier standards leave to the implementation.

## Findings

| source | as written | input that shows it | evidently intended | confidence | as-written member | corrected member |
|---|---|---|---|---|---|---|
| icm20948/icm20948_dmp.cpp:736-740 | the 9-DOF branch of `GetOrientationQuat` copies `_quat6DOF` | a rotation-vector event (1, 0, 0, 0) on a fresh device, then a 9-DOF request: returns (0, 0, 0, 0) | the 9-DOF branch returns `_quat9DOF`, which the callback fills | high, not executed | `Icm20948.GetOrientationQuatAsWrittenMisses` | `Icm20948.GetOrientationQuat` |
| icm20948/icm20948_dmp.cpp:361 | `SetMountingMatrix` copies the configured matrix into the caller's array | a permutation matrix before `InitSW`: returns success, and the configured matrix stays the identity | the argument becomes `cfg_mounting_matrix`, like the range setters store theirs | medium, not executed | `Icm20948.SetMountingMatrixAsWrittenIgnoresArgument` | `Icm20948.SetMountingMatrix` |
| mpu9250/dmp_mpu9250.cpp:538-542 | `ReadSensorData` drops the poll's return code and returns `retVal`, still `MPU_ERROR` | any poll that succeeds: reports `MPU_ERROR` | return the poll's code, as the ICM20948 version does | high, not executed | `Mpu9250.ReadSensorDataAsWrittenReportsError` | `Mpu9250.ReadSensorData` |
| libs/linkedlist.hpp:65-77 | `addQ` never increments `siz`, while `popFront` decrements it | `addQ` then `popFront` on a new list: the list is empty and `Size()` is 4294967295 | `addQ` bumps `siz` like `addS` does | medium, not executed | `SortedList.AddQPopFrontWrapsSize` | `SortedList.AddQCountedPopFrontRestores` |
