/** Identifiers and small value types shared by the CircuitPlayground model:
    bytes, the button event-reporting modes, and the table of bus keys that
    the listener-registered handler switches on. */
module Platform {

  /** An 8-bit unsigned value (a `uint8_t` or a `char` of the log buffer). */
  newtype byte = x: int | 0 <= x < 256

  /** A button's event configuration: DEVICE_BUTTON_SIMPLE_EVENTS reports only
      coarse events, DEVICE_BUTTON_ALL_EVENTS the full event set (clicks,
      long clicks, holds). */
  datatype EventConfig = SimpleEvents | AllEvents

  /** The bus ids that appear as case labels in onListenerRegisteredEvent.
      Their numeric values come from headers that are not part of this model,
      so they are a parameter; the only fact used is that the labels of one
      switch are pairwise distinct, which C++ demands of a switch. */
  datatype IdTable = IdTable(
    buttonAB: int,
    accelerometer: int,
    gesture: int,
    thermometer: int,
    lightSensor: int)
  {
    predicate Distinct() {
      var ids := [buttonAB, accelerometer, gesture, thermometer, lightSensor];
      forall i, j | 0 <= i < j < |ids| :: ids[i] != ids[j]
    }
  }

  type DeviceIds = t: IdTable | t.Distinct() witness IdTable(0, 1, 2, 3, 4)

  /** What a listener registration for a given key asks of the handler:
      one arm per group of case labels, and Unrecognised for every key the
      switch does not name. */
  datatype KeyClass =
    | CompositeButtonKey
    | AccelerometerKey
    | ThermometerKey
    | LightSensorKey
    | Unrecognised

  /** The case analysis of the switch: which arm a registration key selects.
      Each arm is chosen exactly when the key equals one of its labels. */
  function Classify(ids: DeviceIds, key: int): (c: KeyClass)
    ensures c == CompositeButtonKey <==> key == ids.buttonAB
    ensures c == AccelerometerKey <==> key == ids.accelerometer || key == ids.gesture
    ensures c == ThermometerKey <==> key == ids.thermometer
    ensures c == LightSensorKey <==> key == ids.lightSensor
    ensures c == Unrecognised <==>
      key !in {ids.buttonAB, ids.accelerometer, ids.gesture, ids.thermometer, ids.lightSensor}
  {
    assert ids.Distinct();
    var labels := [ids.buttonAB, ids.accelerometer, ids.gesture, ids.thermometer, ids.lightSensor];
    assert labels[0] != labels[1] && labels[0] != labels[2] && labels[0] != labels[3] && labels[0] != labels[4];
    assert labels[1] != labels[3] && labels[1] != labels[4] && labels[2] != labels[3];
    assert labels[2] != labels[4] && labels[3] != labels[4];
    if key == ids.buttonAB then CompositeButtonKey
    else if key == ids.accelerometer || key == ids.gesture then AccelerometerKey
    else if key == ids.thermometer then ThermometerKey
    else if key == ids.lightSensor then LightSensorKey
    else Unrecognised
  }
}
