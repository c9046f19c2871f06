/**
 * The C fault record (`fault_state_t`): an active flag, a code byte, a
 * data word and a 32-bit count of faults ever set. Unlike the Rust record,
 * clearing a fault also resets its code and data; the count survives both.
 */
module FaultC {
  import opened Common
  import opened FaultRs

  class FaultState {
    var active: bool
    var code: u8
    var data: u32
    var count: u32

    /** fault_init: every field zero (inactive, FAULT_NONE). */
    constructor Init()
      ensures !active && code == CodeToU8(NoFault) && data == 0 && count == 0
    {
      active, code, data, count := false, CodeToU8(NoFault), 0, 0;
    }

    /** fault_set: store code and data, add one to the wrapping count, raise the flag last. */
    method Set(c: FaultCode, d: u32)
      modifies this
      ensures active && code == CodeToU8(c) && data == d
      ensures count == WrapAdd(old(count), 1)
    {
      code := CodeToU8(c);
      data := d;
      count := WrapAdd(count, 1);
      active := true;
    }

    /** fault_clear: lower the flag and reset code and data; the count is kept. */
    method Clear()
      modifies this
      ensures !active && code == CodeToU8(NoFault) && data == 0
      ensures count == old(count)
    {
      active := false;
      code := CodeToU8(NoFault);
      data := 0;
    }

    /** fault_is_active */
    predicate IsActive()
      reads this
    {
      active
    }

    /** fault_get_code */
    function GetCode(): (c: FaultCode)
      reads this
    {
      CodeFromU8(code)
    }
  }

  /** fault_code_str: the enumerator's name for the five codes, "UNKNOWN" for any other value. */
  function CodeStr(code: int): (s: string)
    ensures s == "UNKNOWN" <==> !(0 <= code <= 4)
    ensures 0 <= code <= 4 ==> s == CodeName(CodeFromU8(code))
  {
    match code
    case 0 => "NONE"
    case 1 => "OVERRUN"
    case 2 => "LATENCY_EXCEEDED"
    case 3 => "PRODUCER_OVERRUN"
    case 4 => "HARDWARE"
    case _ => "UNKNOWN"
  }

  /** The enumerator name of each fault code without its `FAULT_` prefix. */
  function CodeName(c: FaultCode): string
  {
    match c
    case NoFault => "NONE"
    case Overrun => "OVERRUN"
    case LatencyExceeded => "LATENCY_EXCEEDED"
    case ProducerOverrun => "PRODUCER_OVERRUN"
    case HardwareFault => "HARDWARE"
  }

  /** Distinct codes have distinct names, and none of them is "UNKNOWN". */
  lemma CodeStrInjective(a: int, b: int)
    requires 0 <= a <= 4 && 0 <= b <= 4 && a != b
    ensures CodeStr(a) != CodeStr(b) && CodeStr(a) != "UNKNOWN"
  {
    assert CodeStr(a)[0] != CodeStr(b)[0] || |CodeStr(a)| != |CodeStr(b)|;
  }

  /** Test scenario: set then clear — the fault reads back while active, and clear restores FAULT_NONE. */
  method SetThenClear() returns (activeAfterSet: bool, codeAfterSet: FaultCode, dataAfterSet: u32,
                                 activeAfterClear: bool, codeAfterClear: FaultCode)
    ensures activeAfterSet && codeAfterSet == Overrun && dataAfterSet == 42
    ensures !activeAfterClear && codeAfterClear == NoFault
  {
    var f := new FaultState.Init();
    f.Set(Overrun, 42);
    activeAfterSet, codeAfterSet, dataAfterSet := f.IsActive(), f.GetCode(), f.data;
    f.Clear();
    activeAfterClear, codeAfterClear := f.IsActive(), f.GetCode();
  }

  /** Test scenario: three sets count 3; a clear keeps the count, and the next set makes it 4. */
  method CountSurvivesClear() returns (afterThree: u32, afterClear: u32, afterNext: u32)
    ensures afterThree == 3 && afterClear == 3 && afterNext == 4
  {
    var f := new FaultState.Init();
    f.Set(ProducerOverrun, 1);
    f.Set(ProducerOverrun, 2);
    f.Set(ProducerOverrun, 3);
    afterThree := f.count;
    f.Clear();
    afterClear := f.count;
    f.Set(Overrun, 100);
    afterNext := f.count;
  }
}
