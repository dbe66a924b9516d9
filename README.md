# CircuitPlayground device: bring-up, lazy activation and log flush

This project models the coordination core of the CircuitPlayground board
support class (`CircuitPlayground.cpp`) in Dafny and proves what it does:

- **Lazy activation.** `onListenerRegisteredEvent` runs each time a bus
  listener is registered, and switches on the registered key.
  - A registration for the composite A+B button moves buttons A and B to
    simple events and the composite button to all events. This switch is
    never undone.
  - A registration for the accelerometer, gesture, thermometer or light
    sensor key asks that sensor for one sample.
  - Every other key is ignored.
- **Log flush.** `cplay_dmesg_flush` writes the queued log bytes to the
  serial port's `putc` in buffer order, then resets the write cursor. It does
  nothing when no bytes are queued or when no device instance exists yet.
- **Bring-up.** The constructor runs a fixed sequence of hardware steps. The
  model records it as a trace of actions.

The project has three modules:

- `Platform` (`platform.dfy`): bytes, the button event configurations, and the
  table of case-label ids with its key classification.
- `Device` (`device.dfy`): the handler's effect on values (`Dispatch`, with
  `Run` over a history of registrations), the bring-up trace, and the class
  `CircuitPlayground`.
  - Its constructor builds the trace with the component loop.
  - Its method `OnListenerRegisteredEvent` updates the button configurations
    and the per-sensor sample counters in place.
- `Dmesg` (`dmesg.dfy`): the log store (a byte array and its cursor) and the
  flush loop. The flush appends to the serial sink.

Hardware and library calls are not modelled inside. The model passes them in
as parameters or records them as trace entries:

- The component registry is a parameter `occupied` (slot i is non-null).
- The two sensor readings used for the seed are the parameters `temperature`
  and `light`.
- The composite button's initial configuration, which its own constructor
  sets, is the parameter `abInitial`. No value is assumed for it.
- The device handle the flush reads is the `instance` argument of `Flush`.
  It is null before construction.

The numeric values of the bus ids are defined in headers outside this model.
`DeviceIds` is therefore a table whose only required property is that the
five case labels are pairwise distinct. A C++ switch demands that.

Notes on the code:

- The log store is a flat buffer `buffer[0 .. ptr)`.
- The switch has no `default` arm, so a key that matches no case leaves the
  switch without doing anything.
- The constructor ignores the result of each component's `init()`, so a
  failing `init()` does not stop bring-up.

## Model

| member | source | states |
|---|---|---|
| `Platform.Classify` | model/CircuitPlayground.cpp:119-152 | each switch arm is selected exactly when the key equals one of its labels (accelerometer and gesture share one arm), and every other key selects no arm |
| `Device.CircuitPlayground.OnListenerRegisteredEvent` | model/CircuitPlayground.cpp:117-153 | the exact new state per key: the composite key sets A and B to SIMPLE_EVENTS and AB to ALL_EVENTS and touches no sensor; a sensor key adds one sample request to its own sensor and changes nothing else; any other key changes nothing; buttonC, the status and the bring-up trace never change |
| `Device.Dispatch` | model/CircuitPlayground.cpp:119-152 | the effect of one registration on values: buttonC never changes, A or B once in SIMPLE_EVENTS and AB once in ALL_EVENTS stay so, and the total of sample requests grows by exactly one for a sensor key and by none for any other key |
| `Device.RunButtonModes` | model/CircuitPlayground.cpp:121-132 | after any history of registrations, A and B are SIMPLE_EVENTS if the composite key occurs in it and keep their earlier configuration otherwise; AB is ALL_EVENTS once the composite key has occurred; no later key reverts the switch; buttonC never changes |
| `Device.ButtonsIndependentUntilComposite` | model/CircuitPlayground.cpp:51-54 | from the configuration the constructor sets (A, B and C in ALL_EVENTS), A and B stay in ALL_EVENTS exactly as long as the composite key has never been registered, and AB reports all events after it has |
| `Device.CompositeExclusive` | model/CircuitPlayground.cpp:121-132 | from the constructor's configuration, the composite button does not report all events while A or B still does exactly when the composite key has been registered or the composite button started in SIMPLE_EVENTS |
| `Device.RunSampleCounts` | model/CircuitPlayground.cpp:134-151 | after any history, the accelerometer has been sampled once per accelerometer or gesture registration, the thermometer once per thermometer registration, the light sensor once per light-sensor registration, and no sensor otherwise |
| `Device.CircuitPlayground.constructor` | model/CircuitPlayground.cpp:46-108 | A, B and C start in ALL_EVENTS, AB keeps the composite button's own initial value, no sample has been requested, the status is 0, the serial output is empty (log output during bring-up is not modelled), and the actions performed are exactly the bring-up trace |
| `Device.InitsUpTo` | model/CircuitPlayground.cpp:80-84 | the init() calls the component loop makes for the first n slots: at most n of them (that each slot gets at most one is stated by `Device.InitsUpToOrdered`) |
| `Device.InitsUpToOrdered` | model/CircuitPlayground.cpp:80-84 | the component loop calls init() only on non-null slots, in strictly ascending slot order (so at most once per slot) |
| `Device.InitsUpToComplete` | model/CircuitPlayground.cpp:80-84 | the component loop calls init() on a slot if and only if the slot is non-null and inside the registry |
| `Device.BringUpOrder` | model/CircuitPlayground.cpp:71-84 | the flush hook is installed first; scheduler initialisation precedes timer calibration, which precedes the registration listener, which precedes every component init(); the inits form one contiguous block, one per non-null slot, in ascending order |
| `Device.BringUpEpilogue` | model/CircuitPlayground.cpp:92-107 | the only seed is thermometer reading × light reading; there are exactly two neopixel sends, both of a 30-byte all-zero frame, with one 1 ms wait between them; the last two steps set the flash SPI to 4000000 Hz and mode 0 |
| `Device.Serial.Putc` | model/CircuitPlayground.cpp:173 | the serial sink appends exactly the byte written |
| `Dmesg.Flush` | model/CircuitPlayground.cpp:165-179 | with N > 0 bytes queued and a device present, the serial output gains exactly buffer[0], …, buffer[N-1] in index order and the cursor becomes 0; with nothing queued or no device, neither the cursor nor the output changes; the buffer itself is never modified |
| `Dmesg.FlushTwice` | model/CircuitPlayground.cpp:170-175 | a second flush straight after a flush emits nothing: two flushes emit exactly what one does, and leave the cursor at 0 and the store valid for a further flush |

## Left out

- Device.BringUpEpilogue: the seed is the mathematical product of the two readings. The C++ `int` multiplication and the conversion to `seedRandom`'s parameter are not modelled, because the parameter's width is not part of this model.
- The numeric values of the bus ids (`DEVICE_ID_*`) are defined in headers that are not part of this model. Only their distinctness is used. Keys are unbounded integers, not the 16-bit event value.
- The member initialisers (timer, bus, pin table, buttons, I2C, SPI, accelerometer, thermometer and light-sensor construction) are not trace entries. Their effect on the modelled state is kept: A, B and C start in ALL_EVENTS, and AB starts in its constructor's own configuration.
- The thermometer's calibration constants and the coordinate space are floating-point or driver tuning, and are not modelled. The light-sensor tuning calls are trace entries only.
- What each component's `init()`, the sensors' `updateSample()`, `serial.putc` and the neopixel/SPI drivers do internally is not part of this model. The model records each call as a trace entry, a counter or the sink's output.
- Listener registrations made during bring-up are not fed to the handler. This covers the one in the constructor and any made inside a component's `init()`. The bus that would deliver them is not part of this model.
- Device.CompositeExclusive: the rule that the composite button never reports all events while A or B does holds only if the composite button starts in SIMPLE_EVENTS or the composite key has been registered. The composite button's initial configuration is set by its own constructor, which is not part of this model, so the model leaves it free.
- Log output during bring-up is not modelled. The device handle is set on line 67 and the flush hook is installed on line 71, both before the component loop, so a flush during bring-up could write to the serial port. The constructor's contract says the serial output is empty only because init() and the library calls have no effect in this model.
- The global `cplay_device_instance` is not modelled as a variable. Its value is the `instance` argument of `Dmesg.Flush`, and the assignment on line 67 is not a trace entry.
- `idleCallback` (lines 160-163) only calls the library's `codal_dmesg_flush`, which is not part of this model. The model has `Dmesg.Flush` for the hook it installs.
- The flush is modelled with serial debug logging compiled in and a non-empty log buffer. The build without it compiles the flush to an empty function.
- The pin table in `RhubarbIO.cpp` is static configuration data with no logic, and is not modelled.
- Concurrency and timing: the code is single-threaded and cooperative. `target_wait(1)` is a trace entry only.
