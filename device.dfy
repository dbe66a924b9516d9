/** The CircuitPlayground device object: its bring-up sequence (the
    constructor), recorded as a trace of hardware actions, and its
    lazy-activation handler for "a listener was registered for key K"
    meta-events, which switches button event granularity and starts sensors. */
module Device {
  import opened Platform

  // ---------------------------------------------------------------------
  // Listener-registered dispatch, as a function on values
  // ---------------------------------------------------------------------

  /** The part of the device that the listener-registered handler touches:
      the event configuration of the four buttons and, per lazily sampled
      sensor, how many updateSample() requests have been issued. */
  datatype ControlState = ControlState(
    buttonA: EventConfig,
    buttonB: EventConfig,
    buttonC: EventConfig,
    buttonAB: EventConfig,
    accelerometerSamples: nat,
    thermometerSamples: nat,
    lightSamples: nat)

  /** The effect of one listener registration for `key` (the switch arms).
      One registration issues at most one sample request, and only for a
      sensor key; no registration reverts the button-mode switch or touches
      buttonC. */
  function Dispatch(ids: DeviceIds, s: ControlState, key: int): (r: ControlState)
    ensures r.buttonC == s.buttonC
    ensures s.buttonA == SimpleEvents ==> r.buttonA == SimpleEvents
    ensures s.buttonB == SimpleEvents ==> r.buttonB == SimpleEvents
    ensures s.buttonAB == AllEvents ==> r.buttonAB == AllEvents
    ensures r.accelerometerSamples + r.thermometerSamples + r.lightSamples ==
      s.accelerometerSamples + s.thermometerSamples + s.lightSamples +
      (if key in {ids.accelerometer, ids.gesture, ids.thermometer, ids.lightSensor} then 1 else 0)
  {
    match Classify(ids, key)
    case CompositeButtonKey =>
      s.(buttonA := SimpleEvents, buttonB := SimpleEvents, buttonAB := AllEvents)
    case AccelerometerKey => s.(accelerometerSamples := s.accelerometerSamples + 1)
    case ThermometerKey => s.(thermometerSamples := s.thermometerSamples + 1)
    case LightSensorKey => s.(lightSamples := s.lightSamples + 1)
    case Unrecognised => s
  }

  /** The state after the handler has seen the registrations `keys`, in order. */
  function Run(ids: DeviceIds, s: ControlState, keys: seq<int>): (r: ControlState)
    decreases |keys|
  {
    if keys == [] then s
    else Dispatch(ids, Run(ids, s, keys[..|keys| - 1]), keys[|keys| - 1])
  }

  /** The button-mode switch over any history of registrations: buttons A and
      B stay as they were until the composite key is registered and report
      simple events from then on, the composite button reports all events
      from then on, no registration ever reverts the switch, and buttonC is
      never touched. */
  lemma {:induction false} RunButtonModes(ids: DeviceIds, s: ControlState, keys: seq<int>)
    ensures Run(ids, s, keys).buttonA == (if ids.buttonAB in keys then SimpleEvents else s.buttonA)
    ensures Run(ids, s, keys).buttonB == (if ids.buttonAB in keys then SimpleEvents else s.buttonB)
    ensures Run(ids, s, keys).buttonAB == (if ids.buttonAB in keys then AllEvents else s.buttonAB)
    ensures Run(ids, s, keys).buttonC == s.buttonC
    decreases |keys|
  {
    if keys != [] {
      var init, last := keys[..|keys| - 1], keys[|keys| - 1];
      assert keys == init + [last];
      RunButtonModes(ids, s, init);
    }
  }

  /** Every registration for a sensor key issues exactly one sample request to
      its own sensor and none to the others: after any history, each sensor
      has been asked once per registration of one of its keys. */
  lemma {:induction false} RunSampleCounts(ids: DeviceIds, s: ControlState, keys: seq<int>)
    ensures Run(ids, s, keys).accelerometerSamples ==
      s.accelerometerSamples + multiset(keys)[ids.accelerometer] + multiset(keys)[ids.gesture]
    ensures Run(ids, s, keys).thermometerSamples ==
      s.thermometerSamples + multiset(keys)[ids.thermometer]
    ensures Run(ids, s, keys).lightSamples ==
      s.lightSamples + multiset(keys)[ids.lightSensor]
    decreases |keys|
  {
    if keys != [] {
      var init, last := keys[..|keys| - 1], keys[|keys| - 1];
      assert keys == init + [last];
      assert multiset(keys) == multiset(init) + multiset{last};
      assert ids.Distinct();
      var labels := [ids.buttonAB, ids.accelerometer, ids.gesture, ids.thermometer, ids.lightSensor];
      assert labels[1] != labels[2] && labels[1] != labels[3] && labels[1] != labels[4];
      assert labels[2] != labels[3] && labels[2] != labels[4] && labels[3] != labels[4];
      RunSampleCounts(ids, s, init);
    }
  }

  /** From the configuration the constructor sets up (buttons A and B in
      ALL_EVENTS, no samples requested), A and B report all events exactly as
      long as nobody has registered for the composite key. */
  lemma ButtonsIndependentUntilComposite(ids: DeviceIds, abInitial: EventConfig, keys: seq<int>)
    ensures var r := Run(ids, ControlState(AllEvents, AllEvents, AllEvents, abInitial, 0, 0, 0), keys);
      (r.buttonA == AllEvents <==> ids.buttonAB !in keys) &&
      (r.buttonB == AllEvents <==> ids.buttonAB !in keys) &&
      (ids.buttonAB in keys ==> r.buttonAB == AllEvents) &&
      r.buttonC == AllEvents
  {
    RunButtonModes(ids, ControlState(AllEvents, AllEvents, AllEvents, abInitial, 0, 0, 0), keys);
  }

  /** The composite button never reports all events while button A or B
      still does. From the configuration the constructor sets up this holds
      after a history exactly when the composite key has been registered or
      the composite button's own initial configuration is SIMPLE_EVENTS. */
  lemma CompositeExclusive(ids: DeviceIds, abInitial: EventConfig, keys: seq<int>)
    ensures var r := Run(ids, ControlState(AllEvents, AllEvents, AllEvents, abInitial, 0, 0, 0), keys);
      !(r.buttonAB == AllEvents && (r.buttonA == AllEvents || r.buttonB == AllEvents)) <==>
      (ids.buttonAB in keys || abInitial == SimpleEvents)
  {
    RunButtonModes(ids, ControlState(AllEvents, AllEvents, AllEvents, abInitial, 0, 0, 0), keys);
  }

  // ---------------------------------------------------------------------
  // Bring-up, as a trace of hardware actions
  // ---------------------------------------------------------------------

  /** One externally visible step of bring-up. The hardware and library calls
      are not modelled inside; each becomes an entry of the trace. */
  datatype Action =
    | SetDmesgFlushFn                   // codal_dmesg_set_flush_fn(cplay_dmesg_flush)
    | SchedulerInit                     // scheduler_init(messageBus)
    | CalibrateTimer                    // system_timer_calibrate_cycles()
    | ListenForRegistrations            // messageBus.listen(MESSAGE_BUS_LISTENER, EVT_ANY, ...)
    | InitComponent(slot: nat)          // CodalComponent::components[slot]->init()
    | SeedRandom(seed: int)             // seedRandom(...)
    | SetLightSensitivity(value: int)   // lightSensor.setSensitivity(...)
    | SetLightPeriod(period: int)       // lightSensor.setPeriod(...)
    | NeopixelSend(data: seq<byte>)     // neopixel_send_buffer(io.neopixel, ...)
    | Wait(ms: int)                     // target_wait(...)
    | SetSpiFrequency(hz: int)          // flashSPI.setFrequency(...)
    | SetSpiMode(mode: int)             // flashSPI.setMode(...)

  /** The 30-byte frame that switches every neopixel off. */
  function NeopixelOff(): (r: seq<byte>) {
    seq(30, _ => 0)
  }

  /** The steps before the component loop. */
  function Prelude(): (r: seq<Action>) {
    [SetDmesgFlushFn, SchedulerInit, CalibrateTimer, ListenForRegistrations]
  }

  /** The init() calls the component loop makes for slots 0 .. n-1, where
      `occupied[i]` says whether component slot i is non-null. */
  function InitsUpTo(occupied: seq<bool>, n: nat): (r: seq<Action>)
    requires n <= |occupied|
    ensures |r| <= n
  {
    if n == 0 then []
    else InitsUpTo(occupied, n - 1) + (if occupied[n - 1] then [InitComponent(n - 1)] else [])
  }

  /** The steps after the component loop, given the two sensor readings. */
  function Epilogue(temperature: int, light: int): (r: seq<Action>) {
    [SeedRandom(temperature * light),
     SetLightSensitivity(912), SetLightPeriod(50),
     NeopixelSend(NeopixelOff()), Wait(1), NeopixelSend(NeopixelOff()),
     SetSpiFrequency(4000000), SetSpiMode(0)]
  }

  /** The whole bring-up trace of the constructor. */
  function BringUpTrace(occupied: seq<bool>, temperature: int, light: int): (r: seq<Action>) {
    Prelude() + InitsUpTo(occupied, |occupied|) + Epilogue(temperature, light)
  }

  /** The component loop calls init() on occupied slots only, each slot below
      n at most once, in strictly ascending slot order. */
  lemma {:induction false} InitsUpToOrdered(occupied: seq<bool>, n: nat)
    requires n <= |occupied|
    ensures forall p | 0 <= p < |InitsUpTo(occupied, n)| ::
      InitsUpTo(occupied, n)[p].InitComponent? &&
      InitsUpTo(occupied, n)[p].slot < n &&
      occupied[InitsUpTo(occupied, n)[p].slot]
    ensures forall p, q | 0 <= p < q < |InitsUpTo(occupied, n)| ::
      InitsUpTo(occupied, n)[p].slot < InitsUpTo(occupied, n)[q].slot
  {
    if n > 0 {
      InitsUpToOrdered(occupied, n - 1);
    }
  }

  /** The component loop calls init() on every occupied slot below n and on
      no other slot. */
  lemma {:induction false} InitsUpToComplete(occupied: seq<bool>, n: nat)
    requires n <= |occupied|
    ensures forall k: nat :: InitComponent(k) in InitsUpTo(occupied, n) <==> k < n && occupied[k]
  {
    if n > 0 {
      InitsUpToComplete(occupied, n - 1);
      InitsUpToOrdered(occupied, n - 1);
    }
  }

  /** Bring-up order: the flush hook, scheduler initialisation, timer
      calibration and the registration listener come first, in that order;
      then one init() per non-null component slot in ascending slot order,
      skipping null slots; nothing else runs in between. */
  lemma BringUpOrder(occupied: seq<bool>, temperature: int, light: int)
    ensures var t := BringUpTrace(occupied, temperature, light);
      |t| >= 12 &&
      t[0] == SetDmesgFlushFn && t[1] == SchedulerInit &&
      t[2] == CalibrateTimer && t[3] == ListenForRegistrations &&
      (forall p | 0 <= p < |t| :: t[p].InitComponent? <==> 4 <= p < |t| - 8) &&
      (forall p, q | 4 <= p < q < |t| - 8 :: t[p].slot < t[q].slot) &&
      (forall k: nat :: InitComponent(k) in t <==> k < |occupied| && occupied[k])
  {
    var inits := InitsUpTo(occupied, |occupied|);
    var t := BringUpTrace(occupied, temperature, light);
    InitsUpToOrdered(occupied, |occupied|);
    InitsUpToComplete(occupied, |occupied|);
    assert t == Prelude() + inits + Epilogue(temperature, light);
    forall p | 0 <= p < |t|
      ensures t[p].InitComponent? <==> 4 <= p < |t| - 8
    {
      if 4 <= p < |t| - 8 {
        assert t[p] == inits[p - 4];
      }
    }
    forall p, q | 4 <= p < q < |t| - 8
      ensures t[p].slot < t[q].slot
    {
      assert t[p] == inits[p - 4] && t[q] == inits[q - 4];
    }
    forall k: nat
      ensures InitComponent(k) in t <==> InitComponent(k) in inits
    {
      if InitComponent(k) in t {
        var p :| 0 <= p < |t| && t[p] == InitComponent(k);
        assert t[p] == inits[p - 4];
      }
    }
  }

  /** The end of bring-up: the random seed is the product of the thermometer
      and light readings; the neopixels receive exactly two all-zero 30-byte
      frames with a 1 ms wait between them; the flash SPI is then set to
      4 MHz and mode 0, as the last two steps. */
  lemma BringUpEpilogue(occupied: seq<bool>, temperature: int, light: int)
    ensures var t := BringUpTrace(occupied, temperature, light);
      |t| >= 12 &&
      t[|t| - 8] == SeedRandom(temperature * light) &&
      (forall p | 0 <= p < |t| :: t[p].SeedRandom? <==> p == |t| - 8) &&
      (forall p | 0 <= p < |t| :: t[p].NeopixelSend? <==> p == |t| - 5 || p == |t| - 3) &&
      t[|t| - 5] == NeopixelSend(NeopixelOff()) && t[|t| - 3] == NeopixelSend(NeopixelOff()) &&
      t[|t| - 4] == Wait(1) &&
      |NeopixelOff()| == 30 && (forall i | 0 <= i < 30 :: NeopixelOff()[i] == 0) &&
      t[|t| - 2] == SetSpiFrequency(4000000) && t[|t| - 1] == SetSpiMode(0)
  {
    var inits := InitsUpTo(occupied, |occupied|);
    var t := BringUpTrace(occupied, temperature, light);
    InitsUpToOrdered(occupied, |occupied|);
    assert t == Prelude() + inits + Epilogue(temperature, light);
    forall p | 0 <= p < |t|
      ensures (t[p].SeedRandom? <==> p == |t| - 8) &&
              (t[p].NeopixelSend? <==> p == |t| - 5 || p == |t| - 3)
    {
      if 4 <= p < |t| - 8 {
        assert t[p] == inits[p - 4];
      }
    }
  }

  // ---------------------------------------------------------------------
  // The device object
  // ---------------------------------------------------------------------

  /** The serial port's putc sink: every byte written, in order. */
  class Serial {
    var output: seq<byte>

    constructor ()
      ensures output == []
    {
      output := [];
    }

    method Putc(c: byte)
      modifies this
      ensures output == old(output) + [c]
    {
      output := output + [c];
    }
  }

  class CircuitPlayground {
    const ids: DeviceIds
    const serial: Serial
    var status: int
    var buttonA: EventConfig
    var buttonB: EventConfig
    var buttonC: EventConfig
    var buttonAB: EventConfig
    var accelerometerSamples: nat
    var thermometerSamples: nat
    var lightSamples: nat
    /** The hardware actions performed so far, oldest first. */
    var trace: seq<Action>

    /** The configuration and sample counts, as one value. */
    function State(): (s: ControlState)
      reads this
    {
      ControlState(buttonA, buttonB, buttonC, buttonAB,
                   accelerometerSamples, thermometerSamples, lightSamples)
    }

    /** Bring-up. `occupied` is the component registry (slot i non-null),
        `temperature` and `light` are what the thermometer and light sensor
        report when read during bring-up, and `abInitial` is the composite
        button's own initial configuration, which its constructor sets. */
    constructor (ids: DeviceIds, abInitial: EventConfig, occupied: seq<bool>,
                 temperature: int, light: int)
      ensures this.ids == ids && fresh(serial) && serial.output == []
      ensures status == 0
      ensures State() == ControlState(AllEvents, AllEvents, AllEvents, abInitial, 0, 0, 0)
      ensures trace == BringUpTrace(occupied, temperature, light)
    {
      this.ids := ids;
      serial := new Serial();
      buttonA, buttonB, buttonC, buttonAB := AllEvents, AllEvents, AllEvents, abInitial;
      accelerometerSamples, thermometerSamples, lightSamples := 0, 0, 0;
      status := 0;
      trace := [];
      new;
      trace := trace + [SetDmesgFlushFn];
      trace := trace + [SchedulerInit];
      trace := trace + [CalibrateTimer];
      trace := trace + [ListenForRegistrations];
      var i := 0;
      while i < |occupied|
        invariant 0 <= i <= |occupied|
        invariant trace == Prelude() + InitsUpTo(occupied, i)
        invariant State() == ControlState(AllEvents, AllEvents, AllEvents, abInitial, 0, 0, 0)
        invariant status == 0 && serial.output == []
      {
        if occupied[i] {
          trace := trace + [InitComponent(i)];
        }
        i := i + 1;
      }
      trace := trace + [SeedRandom(temperature * light)];
      trace := trace + [SetLightSensitivity(912), SetLightPeriod(50)];
      var neopixelOff := NeopixelOff();
      trace := trace + [NeopixelSend(neopixelOff)];
      trace := trace + [Wait(1)];
      trace := trace + [NeopixelSend(neopixelOff)];
      trace := trace + [SetSpiFrequency(4000000), SetSpiMode(0)];
    }

    /** The handler for "a listener was registered for key `key`". */
    method OnListenerRegisteredEvent(key: int)
      modifies this
      ensures State() == Dispatch(ids, old(State()), key)
      ensures key == ids.buttonAB ==>
        State() == old(State()).(buttonA := SimpleEvents, buttonB := SimpleEvents, buttonAB := AllEvents)
      ensures key == ids.accelerometer || key == ids.gesture ==>
        State() == old(State()).(accelerometerSamples := old(accelerometerSamples) + 1)
      ensures key == ids.thermometer ==>
        State() == old(State()).(thermometerSamples := old(thermometerSamples) + 1)
      ensures key == ids.lightSensor ==>
        State() == old(State()).(lightSamples := old(lightSamples) + 1)
      ensures key !in {ids.buttonAB, ids.accelerometer, ids.gesture, ids.thermometer, ids.lightSensor} ==>
        State() == old(State())
      ensures status == old(status) && trace == old(trace)
    {
      match Classify(ids, key)
      case CompositeButtonKey =>
        buttonA := SimpleEvents;
        buttonB := SimpleEvents;
        buttonAB := AllEvents;
      case AccelerometerKey =>
        accelerometerSamples := accelerometerSamples + 1;
      case ThermometerKey =>
        thermometerSamples := thermometerSamples + 1;
      case LightSensorKey =>
        lightSamples := lightSamples + 1;
      case Unrecognised =>
    }
  }
}
