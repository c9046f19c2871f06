/**
 * The console's command history (Rust firmware): four lines of at most 64
 * bytes in a ring, recalled newest first; the up arrow stops at the
 * oldest entry, the down arrow steps back to the line being typed.
 */
module HistoryRs {
  import opened Common

  /** HISTORY_SIZE */
  const Size: nat := 4
  /** LINE_SIZE */
  const LineSize: nat := 64

  predicate Cont(b: u8) { 0x80 <= b <= 0xBF }

  /**
   * The length of the well-formed UTF-8 sequence at the start of b
   * (Unicode Table 3-7: no overlong forms, no surrogates, nothing above
   * U+10FFFF), or 0 when there is none.
   */
  function SeqLen(b: seq<u8>): (n: nat)
    requires b != []
    ensures n <= 4 && n <= |b|
  {
    var b0 := b[0];
    if b0 < 0x80 then 1
    else if 0xC2 <= b0 <= 0xDF then
      if |b| >= 2 && Cont(b[1]) then 2 else 0
    else if 0xE0 <= b0 <= 0xEF then
      var lo := if b0 == 0xE0 then 0xA0 else 0x80;
      var hi := if b0 == 0xED then 0x9F else 0xBF;
      if |b| >= 3 && lo <= b[1] <= hi && Cont(b[2]) then 3 else 0
    else if 0xF0 <= b0 <= 0xF4 then
      var lo := if b0 == 0xF0 then 0x90 else 0x80;
      var hi := if b0 == 0xF4 then 0x8F else 0xBF;
      if |b| >= 4 && lo <= b[1] <= hi && Cont(b[2]) && Cont(b[3]) then 4 else 0
    else 0
  }

  /** What `core::str::from_utf8` accepts: well-formed sequences back to back. */
  function Utf8(b: seq<u8>): bool
    decreases |b|
  {
    b == [] || (SeqLen(b) > 0 && Utf8(b[SeqLen(b)..]))
  }

  predicate Ascii(b: seq<u8>) { forall i | 0 <= i < |b| :: b[i] < 0x80 }

  /** Every prefix of an ASCII line is well-formed. */
  lemma {:induction false} AsciiUtf8(b: seq<u8>)
    requires Ascii(b)
    ensures Utf8(b)
    decreases |b|
  {
    if b != [] {
      AsciiUtf8(b[1..]);
    }
  }

  /** What push keeps of a line: its first 64 bytes. */
  function Clip(line: seq<u8>): (r: seq<u8>)
    ensures |r| <= LineSize && r <= line
    ensures |line| <= LineSize ==> r == line
  {
    if |line| <= LineSize then line else line[..LineSize]
  }

  /** The history as the user sees it: the stored lines, newest first, and the navigation position (0: newest). */
  datatype RH = RH(lines: seq<seq<u8>>, nav: Option<nat>)

  ghost predicate WellFormed(h: RH)
  {
    |h.lines| <= Size && (h.nav.Some? ==> h.nav.value < |h.lines|)
  }

  /** History::new */
  const Empty := RH([], None)

  /**
   * History::push: every line, empty or repeated, becomes the newest
   * entry, cut to 64 bytes; the oldest is dropped when four are stored;
   * navigation restarts.
   */
  function AfterPush(h: RH, line: seq<u8>): (r: RH)
    requires WellFormed(h)
    ensures WellFormed(r) && r.nav.None?
    ensures |r.lines| == (if |h.lines| < Size then |h.lines| + 1 else Size)
    ensures r.lines[0] == Clip(line) && r.lines[1..] == h.lines[..|r.lines| - 1]
  {
    var all := [Clip(line)] + h.lines;
    RH(if |all| > Size then all[..Size] else all, None)
  }

  /** History::get_at: the entry at a navigation position, if it is there and still well-formed text. */
  function At(h: RH, pos: nat): (r: Option<seq<u8>>)
    ensures r.Some? <==> pos < |h.lines| && Utf8(h.lines[pos])
    ensures r.Some? ==> r.value == h.lines[pos]
  {
    if pos >= |h.lines| then None
    else if Utf8(h.lines[pos]) then Some(h.lines[pos]) else None
  }

  /**
   * History::get_prev: the newest entry first, then older ones, staying
   * on the oldest; None only on an empty history (or an entry that is not
   * well-formed text).
   */
  function AfterPrev(h: RH): (r: (RH, Option<seq<u8>>))
    requires WellFormed(h)
    ensures WellFormed(r.0) && r.0.lines == h.lines
    ensures h.lines == [] ==> r == (h, None)
    ensures h.lines != [] ==> r.0.nav.Some? && r.1 == At(h, r.0.nav.value)
    ensures h.lines != [] && h.nav.None? ==> r.0.nav == Some(0)
    ensures h.nav.Some? ==> r.0.nav == Some(if h.nav.value + 1 < |h.lines| then h.nav.value + 1 else h.nav.value)
  {
    if |h.lines| == 0 then (h, None)
    else
      var pos := match h.nav
        case None => 0
        case Some(p) => if p + 1 < |h.lines| then p + 1 else p;
      (RH(h.lines, Some(pos)), At(h, pos))
  }

  /** History::get_next: the next newer entry; from the newest, back to the line being typed (None). */
  function AfterNext(h: RH): (r: (RH, Option<seq<u8>>))
    requires WellFormed(h)
    ensures WellFormed(r.0) && r.0.lines == h.lines
    ensures h.nav.None? ==> r == (h, None)
    ensures h.nav == Some(0) ==> r == (RH(h.lines, None), None)
    ensures h.nav.Some? && h.nav.value > 0 ==> r == (RH(h.lines, Some(h.nav.value - 1)), At(h, h.nav.value - 1))
  {
    match h.nav
    case None => (h, None)
    case Some(p) =>
      if p == 0 then (RH(h.lines, None), None)
      else (RH(h.lines, Some(p - 1)), At(h, p - 1))
  }

  /** History::reset_nav */
  function AfterResetNav(h: RH): (r: RH)
    ensures r.lines == h.lines && r.nav.None?
  {
    RH(h.lines, None)
  }

  /** The results of k up-arrow presses in a row. */
  function Prevs(h: RH, k: nat): seq<Option<seq<u8>>>
    requires WellFormed(h)
    decreases k
  {
    if k == 0 then [] else [AfterPrev(h).1] + Prevs(AfterPrev(h).0, k - 1)
  }

  /**
   * From the line being typed, up-arrow presses return the entries newest
   * to oldest and then the oldest again and again.
   */
  lemma {:induction false} PrevsFromPosition(h: RH, start: nat, k: nat)
    requires WellFormed(h) && h.nav == Some(start)
    ensures |Prevs(h, k)| == k
    ensures forall i | 0 <= i < k :: Prevs(h, k)[i] == At(h, if start + i + 1 < |h.lines| then start + i + 1 else |h.lines| - 1)
    decreases k
  {
    if k > 0 {
      var next := if start + 1 < |h.lines| then start + 1 else start;
      PrevsFromPosition(AfterPrev(h).0, next, k - 1);
      forall i | 0 <= i < k
        ensures Prevs(h, k)[i] == At(h, if start + i + 1 < |h.lines| then start + i + 1 else |h.lines| - 1)
      {
        if i > 0 {
          assert Prevs(h, k)[i] == Prevs(AfterPrev(h).0, k - 1)[i - 1];
        }
      }
    }
  }

  /** Up-arrow presses from the line being typed walk newest to oldest and stay on the oldest. */
  lemma PrevsWalkBack(h: RH, k: nat)
    requires WellFormed(h) && h.nav.None? && h.lines != []
    ensures |Prevs(h, k)| == k
    ensures forall i | 0 <= i < k :: Prevs(h, k)[i] == At(h, if i < |h.lines| then i else |h.lines| - 1)
  {
    if k > 0 {
      PrevsFromPosition(AfterPrev(h).0, 0, k - 1);
      forall i | 0 <= i < k
        ensures Prevs(h, k)[i] == At(h, if i < |h.lines| then i else |h.lines| - 1)
      {
        if i > 0 {
          assert Prevs(h, k)[i] == Prevs(AfterPrev(h).0, k - 1)[i - 1];
        }
      }
    }
  }

  /** A line of at most 64 bytes comes back from the history exactly as it was pushed. */
  lemma ShortLineRecalled(h: RH, line: seq<u8>)
    requires WellFormed(h) && Utf8(line) && |line| <= LineSize
    ensures AfterPrev(AfterPush(h, line)).1 == Some(line)
  {
  }

  /** Any ASCII line comes back as its first 64 bytes. */
  lemma AsciiLineRecalled(h: RH, line: seq<u8>)
    requires WellFormed(h) && Ascii(line)
    ensures AfterPrev(AfterPush(h, line)).1 == Some(Clip(line))
  {
    AsciiUtf8(Clip(line));
  }

  /**
   * A 65-byte line whose 64-byte cut splits a two-byte character ("a" and
   * 32 times U+00E9) is stored but never recalled: get_prev moves onto it
   * and returns None.
   */
  lemma SplitCharacterNotRecalled()
    ensures var line := [0x61 as u8] + seq(64, i => if i % 2 == 0 then 0xC3 as u8 else 0xA9 as u8);
      Utf8(line) && AfterPrev(AfterPush(Empty, line)) == (RH([Clip(line)], Some(0)), None)
  {
    var line := [0x61 as u8] + seq(64, i => if i % 2 == 0 then 0xC3 as u8 else 0xA9 as u8);
    PairsUtf8(line[1..]);
    assert line[SeqLen(line)..] == line[1..];
    var cut := Clip(line);
    assert cut == line[..64];
    assert forall i | 0 <= i < |cut[1..]| :: cut[1..][i] == if i % 2 == 0 then 0xC3 else 0xA9;
    PairsCutNotUtf8(cut[1..]);
    assert SeqLen(cut) == 1;
    assert !Utf8(cut);
    assert AfterPush(Empty, line) == RH([cut], None);
  }

  /** Back-to-back copies of C3 A9 are well-formed. */
  lemma {:induction false} PairsUtf8(b: seq<u8>)
    requires |b| % 2 == 0 && forall i | 0 <= i < |b| :: b[i] == if i % 2 == 0 then 0xC3 else 0xA9
    ensures Utf8(b)
    decreases |b|
  {
    if b != [] {
      PairsUtf8(b[2..]);
    }
  }

  /** Copies of C3 A9 ending with a lone C3 are not. */
  lemma {:induction false} PairsCutNotUtf8(b: seq<u8>)
    requires |b| % 2 == 1 && forall i | 0 <= i < |b| :: b[i] == if i % 2 == 0 then 0xC3 else 0xA9
    ensures !Utf8(b)
    decreases |b|
  {
    if |b| > 1 {
      PairsCutNotUtf8(b[2..]);
    }
  }

  /** The newest-first view of a ring whose next free slot is `write`. */
  function Lines(ring: seq<seq<u8>>, write: nat, count: nat): (r: seq<seq<u8>>)
    requires |ring| == Size && write < Size && count <= Size
    ensures |r| == count
  {
    seq(count, k requires 0 <= k < count => ring[(write + Size - 1 - k) % Size])
  }

  /** Writing the next slot puts the line in front of the view. */
  lemma LinesAfterWrite(ring: seq<seq<u8>>, write: nat, count: nat, line: seq<u8>)
    requires |ring| == Size && write < Size && count <= Size
    ensures var c := if count < Size then count + 1 else Size;
      var all := [line] + Lines(ring, write, count);
      Lines(ring[write := line], (write + 1) % Size, c) == if |all| > Size then all[..Size] else all
  {
    var c := if count < Size then count + 1 else Size;
    var all := [line] + Lines(ring, write, count);
    var after := Lines(ring[write := line], (write + 1) % Size, c);
    forall k | 0 <= k < c
      ensures after[k] == all[k]
    {
      if k > 0 {
        assert ((write + 1) % Size + Size - 1 - k) % Size == (write + Size - 1 - (k - 1)) % Size;
      }
    }
  }

  /** History: the entries, each with its length, in a ring of four. */
  class History {
    const entries: array<seq<u8>>
    var writeIdx: nat
    var count: nat
    var navPos: Option<nat>

    ghost predicate Valid()
      reads this
    {
      entries.Length == Size && writeIdx < Size && count <= Size &&
      (navPos.Some? ==> navPos.value < count)
    }

    /** The history as the user sees it. */
    ghost function Model(): RH
      reads this, entries
      requires Valid()
    {
      RH(Lines(entries[..], writeIdx, count), navPos)
    }

    /** History::new */
    constructor ()
      ensures Valid() && Model() == Empty && fresh(entries)
    {
      entries := new seq<u8>[Size](_ => []);
      writeIdx, count, navPos := 0, 0, None;
    }

    /** History::push */
    method Push(line: seq<u8>)
      requires Valid()
      modifies this, entries
      ensures Valid() && Model() == AfterPush(old(Model()), line)
    {
      var len := if |line| < LineSize then |line| else LineSize;
      ghost var before, w, c := entries[..], writeIdx, count;
      ghost var h := Model();
      assert h.lines == Lines(before, w, c);
      var clip := line[..len];
      assert clip == Clip(line);
      LinesAfterWrite(before, w, c, clip);
      entries[writeIdx] := clip;
      writeIdx := (writeIdx + 1) % Size;
      count := if count + 1 < Size then count + 1 else Size;
      navPos := None;
      assert entries[..] == before[w := clip];
      assert Model() == RH(Lines(before[w := clip], (w + 1) % Size, if c < Size then c + 1 else Size), None);
    }

    /** History::get_at */
    method GetAt(pos: nat) returns (r: Option<seq<u8>>)
      requires Valid()
      ensures r == At(Model(), pos)
    {
      if pos >= count {
        return None;
      }
      var idx := (writeIdx + Size - 1 - pos) % Size;
      var bytes := entries[idx];
      r := if Utf8(bytes) then Some(bytes) else None;
    }

    /** History::get_prev */
    method GetPrev() returns (r: Option<seq<u8>>)
      requires Valid()
      modifies this
      ensures Valid() && (Model(), r) == AfterPrev(old(Model()))
    {
      if count == 0 {
        return None;
      }
      var pos := match navPos
        case None => 0
        case Some(p) => if p + 1 < count then p + 1 else p;
      navPos := Some(pos);
      r := GetAt(pos);
    }

    /** History::get_next */
    method GetNext() returns (r: Option<seq<u8>>)
      requires Valid()
      modifies this
      ensures Valid() && (Model(), r) == AfterNext(old(Model()))
    {
      match navPos
      case None =>
        return None;
      case Some(p) =>
        if p == 0 {
          navPos := None;
          return None;
        }
        navPos := Some(p - 1);
        r := GetAt(p - 1);
    }

    /** History::reset_nav */
    method ResetNav()
      requires Valid()
      modifies this
      ensures Valid() && Model() == AfterResetNav(old(Model()))
    {
      navPos := None;
    }
  }
}
