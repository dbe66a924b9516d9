/** The debug-log store and its flush hook: the bytes queued in the log
    buffer are drained, in order, to the device's serial putc sink, and the
    write cursor is reset. */
module Dmesg {
  import opened Platform
  import opened Device

  /** The process-wide log store: a fixed buffer and the write cursor `ptr`,
      the number of bytes queued in buffer[0 .. ptr). */
  class LogStore {
    const buffer: array<byte>
    var ptr: nat

    /** The cursor never runs past the buffer. */
    ghost predicate Valid()
      reads this
    {
      ptr <= buffer.Length
    }

    constructor (size: nat)
      ensures Valid() && fresh(buffer) && buffer.Length == size && ptr == 0
    {
      buffer := new byte[size];
      ptr := 0;
    }
  }

  /** The flush hook. `instance` is the process-wide device handle, null
      until the device has been constructed. When bytes are queued and the
      device exists, every queued byte goes to its serial port in buffer
      order and the cursor returns to 0; otherwise nothing happens. */
  method Flush(store: LogStore, instance: CircuitPlayground?)
    requires store.Valid()
    modifies store, if instance == null then {} else {instance.serial}
    ensures store.Valid() && store.buffer[..] == old(store.buffer[..])
    ensures old(store.ptr) > 0 && instance != null ==>
      instance.serial.output == old(instance.serial.output) + old(store.buffer[..store.ptr]) &&
      store.ptr == 0
    ensures old(store.ptr) == 0 || instance == null ==>
      store.ptr == old(store.ptr) &&
      (instance != null ==> instance.serial.output == old(instance.serial.output))
  {
    if store.ptr > 0 && instance != null {
      var i: nat := 0;
      while i < store.ptr
        invariant i <= store.ptr == old(store.ptr)
        invariant instance.serial.output == old(instance.serial.output) + store.buffer[..i]
      {
        instance.serial.Putc(store.buffer[i]);
        i := i + 1;
      }
      store.ptr := 0;
    }
  }

  /** Flushing a second time straight after a flush emits nothing more: the
      two flushes together emit exactly what the first one did. */
  method FlushTwice(store: LogStore, instance: CircuitPlayground)
    requires store.Valid()
    modifies store, instance.serial
    ensures store.Valid() && store.ptr == 0 && store.buffer[..] == old(store.buffer[..])
    ensures instance.serial.output == old(instance.serial.output) + old(store.buffer[..store.ptr])
  {
    Flush(store, instance);
    ghost var afterFirst := instance.serial.output;
    Flush(store, instance);
    assert instance.serial.output == afterFirst;
  }
}
