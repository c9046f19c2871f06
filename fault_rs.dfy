/**
 * The Rust fault record shared by the real-time consumers: whether a fault
 * is active, its code, a data word and a running count of faults ever set.
 */
module FaultRs {
  import opened Common

  datatype FaultCode = NoFault | Overrun | LatencyExceeded | ProducerOverrun | HardwareFault

  /** The `repr(u8)` discriminant. */
  function CodeToU8(c: FaultCode): (v: u8)
    ensures v <= 4
    ensures v == 0 <==> c == NoFault
  {
    match c
    case NoFault => 0
    case Overrun => 1
    case LatencyExceeded => 2
    case ProducerOverrun => 3
    case HardwareFault => 4
  }

  /** FaultCode::from_u8: the five discriminants map to their variants, anything else to None. */
  function CodeFromU8(v: u8): (c: FaultCode)
    ensures v > 4 ==> c == NoFault
  {
    if v == 1 then Overrun
    else if v == 2 then LatencyExceeded
    else if v == 3 then ProducerOverrun
    else if v == 4 then HardwareFault
    else NoFault
  }

  /** from_u8 inverts the discriminant, and is total: every byte decodes to some code. */
  lemma CodeRoundTrip(c: FaultCode, v: u8)
    ensures CodeFromU8(CodeToU8(c)) == c
    ensures v <= 4 ==> CodeToU8(CodeFromU8(v)) == v
    ensures CodeFromU8(v) == NoFault <==> v == 0 || v > 4
  {
  }

  datatype FaultSnapshot = FaultSnapshot(active: bool, code: FaultCode, data: u32, count: u32)

  class FaultState {
    var active: bool
    var code: u8
    var data: u32
    var count: u32

    /** FaultState::new: inactive, code None, data and count zero. */
    constructor ()
      ensures !active && code == 0 && data == 0 && count == 0
    {
      active, code, data, count := false, 0, 0, 0;
    }

    /** set: store the code and data, add one to the (wrapping) count, then raise the flag. */
    method Set(c: FaultCode, d: u32)
      modifies this
      ensures code == CodeToU8(c) && data == d && active
      ensures count == WrapAdd(old(count), 1)
    {
      code := CodeToU8(c);
      data := d;
      count := WrapAdd(count, 1);
      active := true;
    }

    /** clear: lower the flag only; code, data and count are kept. */
    method Clear()
      modifies this
      ensures !active
      ensures code == old(code) && data == old(data) && count == old(count)
    {
      active := false;
    }

    function Code(): (c: FaultCode)
      reads this
    {
      CodeFromU8(code)
    }

    /** snapshot: the four fields read together, the code decoded. */
    method Snapshot() returns (s: FaultSnapshot)
      ensures s.active == active && s.code == CodeFromU8(code) && s.data == data && s.count == count
    {
      s := FaultSnapshot(active, CodeFromU8(code), data, count);
    }
  }

  /** Test scenario: set, clear, set again — the fault reads back and the count survives the clear. */
  method FaultBasic() returns (before: FaultSnapshot, afterSet: FaultSnapshot, afterClear: FaultSnapshot)
    ensures !before.active && before.code == NoFault && before.count == 0
    ensures afterSet == FaultSnapshot(true, LatencyExceeded, 42, 1)
    ensures !afterClear.active && afterClear.count == 1 && afterClear.code == LatencyExceeded
  {
    var f := new FaultState();
    before := f.Snapshot();
    f.Set(LatencyExceeded, 42);
    afterSet := f.Snapshot();
    f.Clear();
    afterClear := f.Snapshot();
  }

  /** Test scenario: three sets separated by clears give a count of 3. */
  method CountAccumulates() returns (count: u32)
    ensures count == 3
  {
    var f := new FaultState();
    f.Set(Overrun, 1);
    f.Clear();
    f.Set(LatencyExceeded, 2);
    f.Clear();
    f.Set(Overrun, 3);
    count := f.count;
  }
}
