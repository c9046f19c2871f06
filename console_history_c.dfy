/**
 * The console's command history (C firmware): a ring of the last ten
 * command lines, recalled newest first with the up arrow and walked back
 * with the down arrow.
 */
module ConsoleHistory {
  import opened Common

  /** CONSOLE_HISTORY_SIZE */
  const Size: nat := 10
  /** CONSOLE_LINE_MAX: a stored line keeps at most 255 characters and its terminator. */
  const LineMax: nat := 256

  /** What strncpy into a line slot keeps. */
  function Trunc(line: string): (r: string)
    ensures |r| < LineMax && r <= line
    ensures |line| < LineMax ==> r == line
  {
    if |line| < LineMax then line else line[..LineMax - 1]
  }

  /**
   * The history as the user sees it: the stored lines, newest first, and
   * how many of them the current navigation has returned (0: not
   * navigating).
   */
  datatype H = H(lines: seq<string>, navCount: nat)

  ghost predicate WellFormed(h: H)
  {
    |h.lines| <= Size && h.navCount <= |h.lines|
  }

  /** console_history_init */
  const Cleared := H([], 0)

  /**
   * console_history_push: a missing or empty line, or one equal to the
   * newest entry, changes nothing; otherwise the line (cut to 255
   * characters) becomes the newest entry, the oldest is dropped when ten
   * are stored, and navigation restarts.
   */
  function AfterPush(h: H, line: Option<string>): (r: H)
    requires WellFormed(h)
    ensures WellFormed(r)
    ensures line.None? || line.value == [] || (h.lines != [] && h.lines[0] == line.value) ==> r == h
    ensures line.Some? && line.value != [] && (h.lines == [] || h.lines[0] != line.value) ==>
      r.navCount == 0 && |r.lines| == (if |h.lines| < Size then |h.lines| + 1 else Size) &&
      r.lines[0] == Trunc(line.value) && r.lines[1..] == h.lines[..|r.lines| - 1]
  {
    if line.None? || line.value == [] || (h.lines != [] && h.lines[0] == line.value) then h
    else
      var all := [Trunc(line.value)] + h.lines;
      H(if |all| > Size then all[..Size] else all, 0)
  }

  /**
   * console_history_prev: the next older entry, None on an empty history
   * and once every entry has been returned.
   */
  function AfterPrev(h: H): (r: (H, Option<string>))
    requires WellFormed(h)
    ensures WellFormed(r.0) && r.0.lines == h.lines
    ensures r.1.Some? <==> h.navCount < |h.lines|
    ensures r.1.Some? ==> r.1.value == h.lines[h.navCount] && r.0.navCount == h.navCount + 1
    ensures r.1.None? ==> r.0 == h
  {
    if |h.lines| == 0 || h.navCount >= |h.lines| then (h, None)
    else (H(h.lines, h.navCount + 1), Some(h.lines[h.navCount]))
  }

  /**
   * console_history_next: the next newer entry; None when not navigating,
   * and None, ending the navigation, when stepping past the newest.
   */
  function AfterNext(h: H): (r: (H, Option<string>))
    requires WellFormed(h)
    ensures WellFormed(r.0) && r.0.lines == h.lines
    ensures r.1.Some? <==> h.navCount >= 2
    ensures h.navCount > 0 ==> r.0.navCount == h.navCount - 1
    ensures r.1.Some? ==> r.1.value == h.lines[h.navCount - 2]
    ensures h.navCount == 0 ==> r.0 == h
  {
    if h.navCount == 0 || |h.lines| == 0 then (h, None)
    else if h.navCount == 1 then (H(h.lines, 0), None)
    else (H(h.lines, h.navCount - 1), Some(h.lines[h.navCount - 2]))
  }

  /** console_history_reset_nav */
  function AfterResetNav(h: H): (r: H)
    ensures r.lines == h.lines && r.navCount == 0
  {
    H(h.lines, 0)
  }

  /** The results of k up-arrow presses in a row. */
  function Prevs(h: H, k: nat): seq<Option<string>>
    requires WellFormed(h)
    decreases k
  {
    if k == 0 then [] else [AfterPrev(h).1] + Prevs(AfterPrev(h).0, k - 1)
  }

  /**
   * Up-arrow presses return the entries from the navigation point on,
   * newest to oldest, then None for every further press.
   */
  lemma {:induction false} PrevsWalkBack(h: H, k: nat)
    requires WellFormed(h)
    decreases k
    ensures |Prevs(h, k)| == k
    ensures forall i | 0 <= i < k :: Prevs(h, k)[i] == if h.navCount + i < |h.lines| then Some(h.lines[h.navCount + i]) else None
  {
    if k > 0 {
      PrevsWalkBack(AfterPrev(h).0, k - 1);
      forall i | 0 <= i < k
        ensures Prevs(h, k)[i] == if h.navCount + i < |h.lines| then Some(h.lines[h.navCount + i]) else None
      {
        if i > 0 {
          assert Prevs(h, k)[i] == Prevs(AfterPrev(h).0, k - 1)[i - 1];
        }
      }
    }
  }

  /** A down-arrow press after an up-arrow press shows again what was shown before it. */
  lemma NextUndoesPrev(h: H)
    requires WellFormed(h) && 2 <= h.navCount + 1 <= |h.lines|
    ensures AfterNext(AfterPrev(h).0) == (h, Some(h.lines[h.navCount - 1]))
  {
  }

  /** Pushing the same line twice in a row stores it once. */
  lemma DuplicateSkipped(h: H, line: string)
    requires WellFormed(h) && line != [] && |line| < LineMax
    ensures AfterPush(AfterPush(h, Some(line)), Some(line)) == AfterPush(h, Some(line))
  {
  }

  /** The ring slot of the entry k places older than the newest, the next free slot being `write`. */
  function Slot(write: nat, k: nat): (i: nat)
    requires write < Size && k < Size
    ensures i < Size
    ensures i == if k < write then write - 1 - k else write + Size - 1 - k
  {
    (write + Size - 1 - k) % Size
  }

  /** Stepping the navigation slot back by one with wrap-around reaches the next older entry, and forward the next newer. */
  lemma SlotSteps(write: nat, k: nat)
    requires write < Size && k + 1 < Size
    ensures (Slot(write, k) + Size - 1) % Size == Slot(write, k + 1)
    ensures (Slot(write, k + 1) + 1) % Size == Slot(write, k)
  {
  }

  /** A newest-first view of the ring whose next free slot is `write`. */
  function Lines(ring: seq<string>, write: nat, count: nat): (r: seq<string>)
    requires |ring| == Size && write < Size && count <= Size
    ensures |r| == count
    ensures forall k | 0 <= k < count :: r[k] == ring[Slot(write, k)]
  {
    seq(count, k requires 0 <= k < count => ring[Slot(write, k)])
  }

  /** Writing the next slot puts the line in front of the view. */
  lemma LinesAfterWrite(ring: seq<string>, write: nat, count: nat, line: string)
    requires |ring| == Size && write < Size && count <= Size
    ensures var c := if count < Size then count + 1 else Size;
      var all := [line] + Lines(ring, write, count);
      Lines(ring[write := line], (write + 1) % Size, c) == if |all| > Size then all[..Size] else all
  {
    var c := if count < Size then count + 1 else Size;
    var all := [line] + Lines(ring, write, count);
    var after := Lines(ring[write := line], (write + 1) % Size, c);
    forall k | 0 <= k < c
      ensures after[k] == all[k]
    {
      if k > 0 {
        assert Slot((write + 1) % Size, k) == Slot(write, k - 1);
      }
    }
  }

  /** A line that is new at the front is written into the next free slot, which becomes the newest entry. */
  lemma PushWrites(h: H, cells: seq<string>, write: nat, count: nat, line: string)
    requires |cells| == Size && write < Size && count <= Size && h.lines == Lines(cells, write, count) && WellFormed(h)
    requires line != [] && (h.lines == [] || h.lines[0] != line)
    ensures AfterPush(h, Some(line)) ==
      H(Lines(cells[write := Trunc(line)], (write + 1) % Size, if count < Size then count + 1 else Size), 0)
  {
    LinesAfterWrite(cells, write, count, Trunc(line));
  }

  /** The command history's statics, updated in place. */
  class History {
    const ring: array<string>
    var count: nat
    var write: nat
    var nav: nat
    var navigating: bool
    var navCount: nat

    ghost predicate Valid()
      reads this
    {
      ring.Length == Size && count <= Size && write < Size && nav < Size && navCount <= count &&
      (navigating <==> navCount > 0) &&
      (navigating ==> nav == Slot(write, navCount - 1))
    }

    /** The history as the user sees it. */
    ghost function Model(): H
      reads this, ring
      requires Valid()
    {
      H(Lines(ring[..], write, count), navCount)
    }

    /** console_history_init on the zeroed statics. */
    constructor ()
      ensures Valid() && Model() == Cleared && fresh(ring)
    {
      ring := new string[Size](_ => "");
      count, write, nav, navigating, navCount := 0, 0, 0, false, 0;
    }

    /** console_history_init */
    method Init()
      requires Valid()
      modifies this, ring
      ensures Valid() && Model() == Cleared
    {
      count, write, nav, navigating, navCount := 0, 0, 0, false, 0;
      forall i | 0 <= i < ring.Length {
        ring[i] := "";
      }
    }

    /** console_history_push */
    method Push(line: Option<string>)
      requires Valid()
      modifies this, ring
      ensures Valid() && Model() == AfterPush(old(Model()), line)
    {
      ghost var h := Model();
      if line.None? || line.value == [] {
        return;
      }
      if count > 0 {
        var last := (write + Size - 1) % Size;
        assert last == Slot(write, 0) && h.lines[0] == ring[last];
        if ring[last] == line.value {
          return;
        }
      }
      ghost var cells, w0, c0 := ring[..], write, count;
      PushWrites(h, cells, w0, c0, line.value);
      Store(Trunc(line.value));
      navigating := false;
      navCount := 0;
      assert Model() == H(Lines(cells[w0 := Trunc(line.value)], (w0 + 1) % Size, count), 0);
    }

    /** The strncpy into the next free slot, then the write index and the count advance. */
    method Store(line: string)
      requires ring.Length == Size && count <= Size && write < Size
      modifies this, ring
      ensures ring[..] == old(ring[..])[old(write) := line]
      ensures write == (old(write) + 1) % Size && count == (if old(count) < Size then old(count) + 1 else Size)
      ensures nav == old(nav) && navigating == old(navigating) && navCount == old(navCount)
    {
      ring[write] := line;
      write := (write + 1) % Size;
      if count < Size {
        count := count + 1;
      }
    }

    /** console_history_prev */
    method Prev() returns (line: Option<string>)
      requires Valid()
      modifies this
      ensures Valid() && (Model(), line) == AfterPrev(old(Model()))
    {
      ghost var h := Model();
      line := None;
      if count > 0 {
        if !navigating {
          nav := write;
          navigating := true;
          navCount := 0;
        }
        if navCount < count {
          line := StepBack();
        }
      }
      assert Model().lines == h.lines;
    }

    /** The navigation slot steps back to the next older entry, which is returned. */
    method StepBack() returns (line: Option<string>)
      requires ring.Length == Size && count <= Size && write < Size && nav < Size && navCount < count
      requires navCount > 0 ==> nav == Slot(write, navCount - 1)
      requires navCount == 0 ==> nav == write
      modifies this
      ensures count == old(count) && write == old(write)
      ensures navigating == old(navigating) && navCount == old(navCount) + 1 && nav == Slot(write, old(navCount))
      ensures line == Some(ring[Slot(write, old(navCount))])
    {
      if navCount > 0 {
        SlotSteps(write, navCount - 1);
      }
      nav := (nav + Size - 1) % Size;
      navCount := navCount + 1;
      return Some(ring[nav]);
    }

    /** console_history_next */
    method Next() returns (line: Option<string>)
      requires Valid()
      modifies this
      ensures Valid() && (Model(), line) == AfterNext(old(Model()))
    {
      if !navigating || count == 0 || navCount == 0 {
        return None;
      }
      if navCount > 1 {
        SlotSteps(write, navCount - 2);
      }
      nav := (nav + 1) % Size;
      navCount := navCount - 1;
      if navCount == 0 {
        navigating := false;
        return None;
      }
      return Some(ring[nav]);
    }

    /** console_history_reset_nav */
    method ResetNav()
      requires Valid()
      modifies this
      ensures Valid() && Model() == AfterResetNav(old(Model()))
    {
      navigating := false;
      navCount := 0;
    }
  }

  /**
   * Five pushes then six presses of the up arrow: with room for ten
   * entries all five come back, newest first, and only then None.
   */
  lemma FivePushesAllKept()
    ensures var h := AfterPush(AfterPush(AfterPush(AfterPush(AfterPush(Cleared, Some("old1")), Some("old2")), Some("old3")), Some("old4")), Some("new"));
      Prevs(h, 6) == [Some("new"), Some("old4"), Some("old3"), Some("old2"), Some("old1"), None]
  {
    PushNew(Cleared, "old1");
    var h1 := H(["old1"], 0);
    PushNew(h1, "old2");
    var h2 := H(["old2", "old1"], 0);
    PushNew(h2, "old3");
    var h3 := H(["old3", "old2", "old1"], 0);
    PushNew(h3, "old4");
    var h4 := H(["old4", "old3", "old2", "old1"], 0);
    PushNew(h4, "new");
    PrevsOfFive();
  }

  /** Six up-arrow presses on five entries: each entry newest first, then None. */
  lemma PrevsOfFive()
    ensures Prevs(H(["new", "old4", "old3", "old2", "old1"], 0), 6) == [Some("new"), Some("old4"), Some("old3"), Some("old2"), Some("old1"), None]
  {
    var h := H(["new", "old4", "old3", "old2", "old1"], 0);
    var want := [Some("new"), Some("old4"), Some("old3"), Some("old2"), Some("old1"), None];
    PrevsWalkBack(h, 6);
    forall i | 0 <= i < 6
      ensures Prevs(h, 6)[i] == want[i]
    {
    }
  }

  /** A new line at the front of a history that is not full: it is kept whole and navigation restarts. */
  lemma PushNew(h: H, w: string)
    requires WellFormed(h) && w != [] && |w| < LineMax && |h.lines| < Size && (h.lines == [] || h.lines[0] != w)
    ensures AfterPush(h, Some(w)) == H([w] + h.lines, 0)
  {
  }
}
