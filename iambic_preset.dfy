/**
 * The iambic preset table: ten named slots of keyer settings and the index
 * of the active one. Each slot stores the raw enumerator values of the
 * iambic mode, memory mode and squeeze mode, a speed and the memory window
 * in percent. Names are C strings of at most 31 characters; a name is
 * modelled by its characters before the terminating NUL.
 */
module IambicPreset {
  import opened Common

  const PresetCount: nat := 10
  const NameMax: nat := 32

  const ModeA: u8 := 0
  const ModeB: u8 := 1
  const MemoryDotAndDah: u8 := 3
  const LatchOff: u8 := 0
  const LatchOn: u8 := 1

  datatype Preset = Preset(name: string, wpm: u32, iambicMode: u8, memoryMode: u8, squeezeMode: u8,
                           memStart: u8, memEnd: u8)

  /** The zero-initialised slot of the statically allocated table, before init. */
  const ZeroPreset := Preset("", 0, 0, 0, 0, 0, 0)

  /** The built-in names: four named slots, the other six empty. */
  function DefaultName(i: nat): (s: string)
    requires i < PresetCount
    ensures |s| < NameMax
    ensures i >= 4 <==> s == ""
  {
    if i == 0 then "Default" else if i == 1 then "Contest" else if i == 2 then "Slow"
    else if i == 3 then "QRS" else ""
  }

  /** The built-in speeds: 25, 35, 15, 10, then 25 for the empty slots. */
  function DefaultWpm(i: nat): (w: u32)
    requires i < PresetCount
    ensures 10 <= w <= 35
    ensures i >= 4 ==> w == 25
  {
    if i == 0 then 25 else if i == 1 then 35 else if i == 2 then 15 else if i == 3 then 10 else 25
  }

  /** What iambic_preset_init loads into slot i: Mode B, both memories, live squeeze, window 0..100 %. */
  function InitialPreset(i: nat): (p: Preset)
    requires i < PresetCount
    ensures p.name == DefaultName(i) && p.wpm == DefaultWpm(i)
    ensures p.iambicMode == ModeB && p.memoryMode == MemoryDotAndDah && p.squeezeMode == LatchOff
    ensures p.memStart == 0 && p.memEnd == 100
  {
    Preset(DefaultName(i), DefaultWpm(i), ModeB, MemoryDotAndDah, LatchOff, 0, 100)
  }

  /** What iambic_preset_reset loads into slot i: the same name and speed, but latched squeeze and window 60..99 %. */
  function ResetPreset(i: nat): (p: Preset)
    requires i < PresetCount
    ensures p.name == DefaultName(i) && p.wpm == DefaultWpm(i)
    ensures p.iambicMode == ModeB && p.memoryMode == MemoryDotAndDah && p.squeezeMode == LatchOn
    ensures p.memStart == 60 && p.memEnd == 99
  {
    Preset(DefaultName(i), DefaultWpm(i), ModeB, MemoryDotAndDah, LatchOn, 60, 99)
  }

  /** Resetting a slot does not restore what init loaded: squeeze mode and window differ. */
  lemma ResetDiffersFromInit(i: nat)
    requires i < PresetCount
    ensures ResetPreset(i) != InitialPreset(i)
    ensures ResetPreset(i) == InitialPreset(i).(squeezeMode := LatchOn, memStart := 60, memEnd := 99)
  {
  }

  /** strncpy into a 32-byte name followed by a terminator at index 31: the first 31 characters. */
  function TruncateName(s: string): (t: string)
    ensures |t| < NameMax
    ensures t <= s
    ensures |s| < NameMax ==> t == s
    ensures |s| >= NameMax ==> |t| == NameMax - 1
  {
    if |s| < NameMax then s else s[..NameMax - 1]
  }

  /** Truncating twice is truncating once. */
  lemma TruncateIdempotent(s: string)
    ensures TruncateName(TruncateName(s)) == TruncateName(s)
  {
  }

  /** iambic_preset_set_wpm: speeds outside 5..100 are ignored. */
  function WithWpm(p: Preset, wpm: u32): (q: Preset)
    ensures 5 <= wpm <= 100 ==> q == p.(wpm := wpm)
    ensures !(5 <= wpm <= 100) ==> q == p
  {
    if 5 <= wpm <= 100 then p.(wpm := wpm) else p
  }

  /** iambic_preset_set_mem_start: percentages above 100 are ignored. */
  function WithMemStart(p: Preset, pct: u8): (q: Preset)
    ensures pct <= 100 ==> q == p.(memStart := pct)
    ensures pct > 100 ==> q == p
  {
    if pct <= 100 then p.(memStart := pct) else p
  }

  /** iambic_preset_set_mem_end: percentages above 100 are ignored. */
  function WithMemEnd(p: Preset, pct: u8): (q: Preset)
    ensures pct <= 100 ==> q == p.(memEnd := pct)
    ensures pct > 100 ==> q == p
  {
    if pct <= 100 then p.(memEnd := pct) else p
  }

  /** A slot is well formed when its name fits the 32-byte field and both window bounds are percentages (at most 100); the speed is not constrained here. */
  predicate WellFormed(p: Preset)
  {
    |p.name| < NameMax && p.memStart <= 100 && p.memEnd <= 100
  }

  /** The guarded setters keep a slot well formed. */
  lemma SettersKeepWellFormed(p: Preset, wpm: u32, pct: u8)
    requires WellFormed(p)
    ensures WellFormed(WithWpm(p, wpm)) && WellFormed(WithMemStart(p, pct)) && WellFormed(WithMemEnd(p, pct))
    ensures WithWpm(p, wpm).wpm == p.wpm || 5 <= WithWpm(p, wpm).wpm <= 100
  {
  }

  /** The slot iambic_preset_active answers: the active one, or slot 0 when the index is out of range. */
  function ActiveOf(presets: seq<Preset>, index: u32): (p: Preset)
    requires |presets| == PresetCount
    ensures index < PresetCount ==> p == presets[index]
    ensures index >= PresetCount ==> p == presets[0]
  {
    if index < PresetCount then presets[index] else presets[0]
  }

  /** iambic_preset_get / iambic_preset_get_mut: the slot, or nothing (NULL) past the end. */
  function GetOf(presets: seq<Preset>, index: u32): (r: Option<Preset>)
    requires |presets| == PresetCount
    ensures r.Some? <==> index < PresetCount
    ensures r.Some? ==> r.value == presets[index]
  {
    if index < PresetCount then Some(presets[index]) else None
  }

  /** The active slot is always one get would return for some index. */
  lemma ActiveIsGettable(presets: seq<Preset>, index: u32)
    requires |presets| == PresetCount
    ensures exists j: u32 :: GetOf(presets, j) == Some(ActiveOf(presets, index))
  {
    var j: u32 := if index < PresetCount then index else 0;
    assert GetOf(presets, j) == Some(ActiveOf(presets, index));
  }

  class PresetSystem {
    var presets: seq<Preset>
    var activeIndex: u32

    ghost predicate Valid()
      reads this
    {
      |presets| == PresetCount && forall i :: 0 <= i < |presets| ==> WellFormed(presets[i])
    }

    /** The zero-initialised global table, as it is before init runs. */
    constructor ()
      ensures Valid() && presets == seq(PresetCount, _ => ZeroPreset) && activeIndex == 0
    {
      presets := seq(PresetCount, _ => ZeroPreset);
      activeIndex := 0;
    }

    /** iambic_preset_init: every slot gets its built-in name, speed and modes; slot 0 becomes active. */
    method Init()
      requires Valid()
      modifies this
      ensures Valid() && activeIndex == 0
      ensures forall i :: 0 <= i < PresetCount ==> presets[i] == InitialPreset(i)
    {
      var i := 0;
      while i < PresetCount
        invariant 0 <= i <= PresetCount && Valid()
        invariant forall j :: 0 <= j < i ==> presets[j] == InitialPreset(j)
      {
        presets := presets[i := InitialPreset(i)];
        i := i + 1;
      }
      activeIndex := 0;
    }

    /** iambic_preset_active */
    function Active(): (p: Preset)
      requires Valid()
      reads this
      ensures p == ActiveOf(presets, activeIndex)
      ensures WellFormed(p)
    {
      if activeIndex < PresetCount then presets[activeIndex] else presets[0]
    }

    /** iambic_preset_get */
    function Get(index: u32): (r: Option<Preset>)
      requires Valid()
      reads this
      ensures r == GetOf(presets, index)
    {
      if index >= PresetCount then None else Some(presets[index])
    }

    /** iambic_preset_activate: an index past the table is refused and the active index is kept. */
    method Activate(index: u32) returns (ok: bool)
      modifies this
      ensures ok <==> index < PresetCount
      ensures activeIndex == if ok then index else old(activeIndex)
      ensures presets == old(presets)
    {
      if index >= PresetCount {
        return false;
      }
      activeIndex := index;
      return true;
    }

    /** iambic_preset_active_index */
    function ActiveIndex(): u32
      reads this
    {
      activeIndex
    }

    /**
     * iambic_preset_copy: both indices must be in range; copying a slot
     * onto itself succeeds and changes nothing; otherwise every field of
     * the source slot, its name included, is copied to the destination.
     */
    method Copy(src: u32, dst: u32) returns (ok: bool)
      requires Valid()
      modifies this
      ensures Valid() && activeIndex == old(activeIndex)
      ensures ok <==> src < PresetCount && dst < PresetCount
      ensures ok ==> presets == old(presets)[dst := old(presets)[src]]
      ensures !ok ==> presets == old(presets)
    {
      if src >= PresetCount || dst >= PresetCount {
        return false;
      }
      if src == dst {
        return true;
      }
      var s := presets[src];
      presets := presets[dst := s];
      return true;
    }

    /** iambic_preset_reset: load the reset defaults into one slot. */
    method Reset(index: u32) returns (ok: bool)
      requires Valid()
      modifies this
      ensures Valid() && activeIndex == old(activeIndex)
      ensures ok <==> index < PresetCount
      ensures ok ==> presets == old(presets)[index := ResetPreset(index)]
      ensures !ok ==> presets == old(presets)
    {
      if index >= PresetCount {
        return false;
      }
      presets := presets[index := ResetPreset(index)];
      return true;
    }

    /** iambic_preset_set_name: refused for a bad index or a NULL name; otherwise the name is truncated to 31 characters. */
    method SetName(index: u32, name: Option<string>) returns (ok: bool)
      requires Valid()
      modifies this
      ensures Valid() && activeIndex == old(activeIndex)
      ensures ok <==> index < PresetCount && name.Some?
      ensures ok ==> presets == old(presets)[index := old(presets)[index].(name := TruncateName(name.value))]
      ensures !ok ==> presets == old(presets)
    {
      if index >= PresetCount || name.None? {
        return false;
      }
      presets := presets[index := presets[index].(name := TruncateName(name.value))];
      return true;
    }

    /** The guarded per-field setters of iambic_preset.h, on the slot get_mut returns. */
    method SetWpm(index: u32, wpm: u32)
      requires Valid() && index < PresetCount
      modifies this
      ensures Valid() && activeIndex == old(activeIndex)
      ensures presets == old(presets)[index := WithWpm(old(presets)[index], wpm)]
    {
      presets := presets[index := WithWpm(presets[index], wpm)];
    }

    method SetMemWindow(index: u32, start: u8, end: u8)
      requires Valid() && index < PresetCount
      modifies this
      ensures Valid() && activeIndex == old(activeIndex)
      ensures presets == old(presets)[index := WithMemEnd(WithMemStart(old(presets)[index], start), end)]
    {
      presets := presets[index := WithMemEnd(WithMemStart(presets[index], start), end)];
    }
  }

  /**
   * Test scenario: after init, slot 0 ("Default", 25 WPM) is active;
   * activating 10 fails and keeps slot 0; activating 1 selects "Contest" at 35 WPM.
   */
  method ActivateScenario() returns (first: Preset, badOk: bool, afterBad: u32, contest: Preset)
    ensures first.name == "Default" && first.wpm == 25
    ensures !badOk && afterBad == 0
    ensures contest.name == "Contest" && contest.wpm == 35
  {
    var s := new PresetSystem();
    s.Init();
    first := s.Active();
    badOk := s.Activate(10);
    afterBad := s.ActiveIndex();
    var _ := s.Activate(1);
    contest := s.Active();
  }

  /** Test scenario: copying slot 1 onto slot 5 makes them equal, name included; an out-of-range copy fails. */
  method CopyScenario() returns (src: Option<Preset>, dst: Option<Preset>, badOk: bool)
    ensures src.Some? && dst == src && dst.value.name == "Contest"
    ensures !badOk
  {
    var s := new PresetSystem();
    s.Init();
    var _ := s.Copy(1, 5);
    src, dst := s.Get(1), s.Get(5);
    badOk := s.Copy(0, 10);
  }
}
