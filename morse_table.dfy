/**
 * The unified ITU Morse table: a bit-packed encoder for letters, digits and
 * six punctuation marks (bit 0 is the first element, a 1 bit is a dah), a
 * string table of 57 pattern/character pairs searched in order for decoding
 * and reverse lookup, and the seven prosign tags.
 */
module MorseTable {
  import opened Common

  /** morse_char_t: element bits, first element in bit 0, and the element count. */
  datatype Packed = Packed(bits: u8, length: u8)

  /** Bit k of a code byte. */
  predicate BitSet(bits: u8, k: nat)
    requires k < 8
  {
    ((bits as bv8) >> k) & 1 == 1
  }

  /** A string of Morse elements: dots and dashes only. */
  predicate IsElements(p: string)
  {
    forall k | 0 <= k < |p| :: p[k] == '.' || p[k] == '-'
  }

  /** The element string a packed code sends: element k is a dah exactly when bit k is set. */
  function Elements(c: Packed): (s: string)
    ensures |s| == c.length && IsElements(s)
  {
    seq(c.length, k requires 0 <= k < c.length => if k < 8 && BitSet(c.bits, k) then '-' else '.')
  }

  const Letters: seq<Packed> := [
    Packed(0x02, 2), Packed(0x01, 4), Packed(0x05, 4), Packed(0x01, 3), Packed(0x00, 1),
    Packed(0x04, 4), Packed(0x03, 3), Packed(0x00, 4), Packed(0x00, 2), Packed(0x0E, 4),
    Packed(0x05, 3), Packed(0x02, 4), Packed(0x03, 2), Packed(0x01, 2), Packed(0x07, 3),
    Packed(0x06, 4), Packed(0x0B, 4), Packed(0x02, 3), Packed(0x00, 3), Packed(0x01, 1),
    Packed(0x04, 3), Packed(0x08, 4), Packed(0x06, 3), Packed(0x09, 4), Packed(0x0D, 4),
    Packed(0x03, 4)]

  const Digits: seq<Packed> := [
    Packed(0x1F, 5), Packed(0x1E, 5), Packed(0x1C, 5), Packed(0x18, 5), Packed(0x10, 5),
    Packed(0x00, 5), Packed(0x01, 5), Packed(0x03, 5), Packed(0x07, 5), Packed(0x0F, 5)]

  /** toupper in the C locale: only 'a'-'z' change. */
  function Upper(c: char): (u: char)
    ensures 'a' <= c <= 'z' ==> u as int == c as int - 32 && 'A' <= u <= 'Z'
    ensures !('a' <= c <= 'z') ==> u == c
  {
    if 'a' <= c <= 'z' then (c as int - 32) as char else c
  }

  /** morse_lookup: NULL (None) for every character without a packed code. */
  function Lookup(c: char): (r: Option<Packed>)
    ensures r.Some? <==> 'A' <= Upper(c) <= 'Z' || '0' <= c <= '9' || c in ".,?/=-"
    ensures '0' <= c <= '9' ==> r.Some? && r.value.length == 5
    ensures r.Some? ==> 1 <= r.value.length <= 6
  {
    var upper := Upper(c);
    if 'A' <= upper <= 'Z' then Some(Letters[upper as int - 'A' as int])
    else if '0' <= c <= '9' then Some(Digits[c as int - '0' as int])
    else if c == '.' then Some(Packed(0x2A, 6))
    else if c == ',' then Some(Packed(0x33, 6))
    else if c == '?' then Some(Packed(0x0C, 6))
    else if c == '/' then Some(Packed(0x09, 5))
    else if c == '=' then Some(Packed(0x11, 5))
    else if c == '-' then Some(Packed(0x21, 6))
    else None
  }

  /** Letters are looked up without regard to case. */
  lemma LookupIgnoresCase(c: char)
    requires 'a' <= c <= 'z'
    ensures Lookup(c) == Lookup((c as int - 32) as char)
  {
  }

  datatype Entry = Entry(pattern: string, character: char)

  // MORSE_TABLE in search order, written as its four groups.
  const LetterEntries: seq<Entry> := [
    Entry(".-", 'A'), Entry("-...", 'B'), Entry("-.-.", 'C'), Entry("-..", 'D'),
    Entry(".", 'E'), Entry("..-.", 'F'), Entry("--.", 'G'), Entry("....", 'H'),
    Entry("..", 'I'), Entry(".---", 'J'), Entry("-.-", 'K'), Entry(".-..", 'L'),
    Entry("--", 'M'), Entry("-.", 'N'), Entry("---", 'O'), Entry(".--.", 'P'),
    Entry("--.-", 'Q'), Entry(".-.", 'R'), Entry("...", 'S'), Entry("-", 'T'),
    Entry("..-", 'U'), Entry("...-", 'V'), Entry(".--", 'W'), Entry("-..-", 'X'),
    Entry("-.--", 'Y'), Entry("--..", 'Z')]

  const DigitEntries: seq<Entry> := [
    Entry("-----", '0'), Entry(".----", '1'), Entry("..---", '2'), Entry("...--", '3'),
    Entry("....-", '4'), Entry(".....", '5'), Entry("-....", '6'), Entry("--...", '7'),
    Entry("---..", '8'), Entry("----.", '9')]

  const PunctEntries: seq<Entry> := [
    Entry(".-.-.-", '.'), Entry("--..--", ','), Entry("..--..", '?'), Entry(".----.", '\''),
    Entry("-.-.--", '!'), Entry("-..-.", '/'), Entry("-.--.", '('), Entry("-.--.-", ')'),
    Entry(".-...", '&'), Entry("---...", ':'), Entry("-.-.-.", ';'), Entry("-...-", '='),
    Entry(".-.-.", '+'), Entry("-....-", '-'), Entry("..--.-", '_'), Entry(".-..-.", '"'),
    Entry("...-..-", '$'), Entry(".--.-.", '@')]

  const SignEntries: seq<Entry> := [
    Entry("...-.-", '*'), Entry("-.-.-", '<'), Entry("........", '#')]


  const Table: seq<Entry> := LetterEntries + DigitEntries + PunctEntries + SignEntries

  /** Entry i of the table is entry i of its group. */
  lemma TableAt(i: nat)
    requires i < |Table|
    ensures |Table| == 57
    ensures i < 26 ==> Table[i] == LetterEntries[i]
    ensures 26 <= i < 36 ==> Table[i] == DigitEntries[i - 26]
    ensures 36 <= i < 54 ==> Table[i] == PunctEntries[i - 36]
    ensures 54 <= i ==> Table[i] == SignEntries[i - 54]
  {
  }

  lemma LetterFacts(i: nat)
    requires i < |LetterEntries|
    ensures LetterEntries[i].character as int == 'A' as int + i
    ensures 1 <= |LetterEntries[i].pattern| <= 4 && IsElements(LetterEntries[i].pattern)
  {
  }

  lemma DigitFacts(i: nat)
    requires i < |DigitEntries|
    ensures DigitEntries[i].character as int == '0' as int + i
    ensures |DigitEntries[i].pattern| == 5 && IsElements(DigitEntries[i].pattern)
  {
  }

  /** Punctuation and prosign characters: no letter, digit or NUL; patterns of 5 to 8 elements. */
  predicate OtherEntry(e: Entry)
  {
    !('A' <= e.character <= 'Z') && !('a' <= e.character <= 'z') && !('0' <= e.character <= '9') &&
    e.character != '\0' && 5 <= |e.pattern| <= 8 && IsElements(e.pattern)
  }

  lemma PunctFacts(i: nat)
    requires i < |PunctEntries|
    ensures OtherEntry(PunctEntries[i]) && |PunctEntries[i].pattern| <= 7
  {
  }

  lemma SignFacts(i: nat)
    requires i < |SignEntries|
    ensures OtherEntry(SignEntries[i])
  {
  }

  lemma LettersDistinct(i: nat, j: nat)
    requires i < j < |LetterEntries|
    ensures LetterEntries[i].pattern != LetterEntries[j].pattern
  {
  }

  lemma DigitsDistinct(i: nat, j: nat)
    requires i < j < |DigitEntries|
    ensures DigitEntries[i].pattern != DigitEntries[j].pattern
  {
  }

  lemma PunctDistinct(i: nat, j: nat)
    requires i < j < |PunctEntries|
    ensures PunctEntries[i].pattern != PunctEntries[j].pattern
    ensures PunctEntries[i].character != PunctEntries[j].character
  {
  }

  lemma SignsDistinct(i: nat, j: nat)
    requires i < j < |SignEntries|
    ensures SignEntries[i].pattern != SignEntries[j].pattern
    ensures SignEntries[i].character != SignEntries[j].character
  {
  }

  lemma DigitsNotPunct(i: nat, j: nat)
    requires i < |DigitEntries| && j < |PunctEntries|
    ensures DigitEntries[i].pattern != PunctEntries[j].pattern
  {
  }

  lemma DigitsNotSigns(i: nat, j: nat)
    requires i < |DigitEntries| && j < |SignEntries|
    ensures DigitEntries[i].pattern != SignEntries[j].pattern
  {
  }

  lemma PunctNotSigns(i: nat, j: nat)
    requires i < |PunctEntries| && j < |SignEntries|
    ensures PunctEntries[i].pattern != SignEntries[j].pattern
    ensures PunctEntries[i].character != SignEntries[j].character
  {
  }

  /** Every table pattern is a non-empty element string and no table character is NUL or lower-case. */
  lemma TableShape(i: nat)
    requires i < |Table|
    ensures Table[i].pattern != [] && IsElements(Table[i].pattern)
    ensures Table[i].character != '\0' && !('a' <= Table[i].character <= 'z')
  {
    TableAt(i);
    if i < 26 {
      LetterFacts(i);
    } else if i < 36 {
      DigitFacts(i - 26);
    } else if i < 54 {
      PunctFacts(i - 36);
    } else {
      SignFacts(i - 54);
    }
  }

  /** Two entries share neither their pattern nor their character. */
  predicate Apart(a: Entry, b: Entry)
  {
    a.pattern != b.pattern && a.character != b.character
  }

  lemma LettersApart(i: nat, j: nat)
    requires i < j < 26
    ensures Apart(Table[i], Table[j])
  {
    TableAt(i);
    TableAt(j);
    LettersDistinct(i, j);
    LetterFacts(i);
    LetterFacts(j);
  }

  lemma LetterApartFromRest(i: nat, j: nat)
    requires i < 26 <= j < |Table|
    ensures Apart(Table[i], Table[j])
  {
    TableAt(i);
    TableAt(j);
    LetterFacts(i);
    if j < 36 { DigitFacts(j - 26); } else if j < 54 { PunctFacts(j - 36); } else { SignFacts(j - 54); }
  }

  lemma DigitsApart(i: nat, j: nat)
    requires 26 <= i < j < 36
    ensures Apart(Table[i], Table[j])
  {
    TableAt(i);
    TableAt(j);
    DigitsDistinct(i - 26, j - 26);
    DigitFacts(i - 26);
    DigitFacts(j - 26);
  }

  lemma DigitApartFromRest(i: nat, j: nat)
    requires 26 <= i < 36 <= j < |Table|
    ensures Apart(Table[i], Table[j])
  {
    TableAt(i);
    TableAt(j);
    DigitFacts(i - 26);
    if j < 54 {
      PunctFacts(j - 36);
      DigitsNotPunct(i - 26, j - 36);
    } else {
      SignFacts(j - 54);
      DigitsNotSigns(i - 26, j - 54);
    }
  }

  lemma PunctApart(i: nat, j: nat)
    requires 36 <= i < j < |Table|
    ensures Apart(Table[i], Table[j])
  {
    TableAt(i);
    TableAt(j);
    if j < 54 {
      var a, b := PunctEntries[i - 36], PunctEntries[j - 36];
      PunctDistinct(i - 36, j - 36);
      assert Apart(a, b);
    } else if i < 54 {
      var a, b := PunctEntries[i - 36], SignEntries[j - 54];
      PunctNotSigns(i - 36, j - 54);
      assert Apart(a, b);
    } else {
      var a, b := SignEntries[i - 54], SignEntries[j - 54];
      SignsDistinct(i - 54, j - 54);
      assert Apart(a, b);
    }
  }

  /** No pattern and no character appears twice in the table. */
  lemma TableDistinct(i: nat, j: nat)
    requires i < j < |Table|
    ensures Apart(Table[i], Table[j])
  {
    TableAt(i);
    if j < 26 {
      LettersApart(i, j);
    } else if i < 26 {
      LetterApartFromRest(i, j);
    } else if j < 36 {
      DigitsApart(i, j);
    } else if i < 36 {
      DigitApartFromRest(i, j);
    } else {
      PunctApart(i, j);
    }
  }

  /** A table without repeated patterns or characters. */
  ghost predicate Unique(t: seq<Entry>)
  {
    forall i, j | 0 <= i < j < |t| :: Apart(t[i], t[j])
  }

  lemma TableUnique()
    ensures Unique(Table)
  {
    forall i, j | 0 <= i < j < |Table|
      ensures Apart(Table[i], Table[j])
    {
      TableDistinct(i, j);
    }
  }

  /** morse_table_count */
  function Count(): (n: nat)
    ensures n == 57
  {
    TableAt(0);
    |Table|
  }

  /** The first index at or after `from` whose pattern is `p`. */
  function FindPattern(t: seq<Entry>, p: string, from: nat): (r: Option<nat>)
    ensures r.Some? ==> from <= r.value < |t| && t[r.value].pattern == p
    ensures r.Some? ==> forall k | from <= k < r.value :: t[k].pattern != p
    ensures r.None? ==> forall k | from <= k < |t| :: t[k].pattern != p
    decreases |t| - from
  {
    if from >= |t| then None
    else if t[from].pattern == p then Some(from)
    else FindPattern(t, p, from + 1)
  }

  /** The first index at or after `from` whose character is `c`. */
  function FindChar(t: seq<Entry>, c: char, from: nat): (r: Option<nat>)
    ensures r.Some? ==> from <= r.value < |t| && t[r.value].character == c
    ensures r.Some? ==> forall k | from <= k < r.value :: t[k].character != c
    ensures r.None? ==> forall k | from <= k < |t| :: t[k].character != c
    decreases |t| - from
  {
    if from >= |t| then None
    else if t[from].character == c then Some(from)
    else FindChar(t, c, from + 1)
  }

  /** In a table without repeats the search for an entry's pattern finds that entry. */
  lemma FindPatternAt(t: seq<Entry>, i: nat)
    requires Unique(t) && i < |t|
    ensures FindPattern(t, t[i].pattern, 0) == Some(i)
  {
  }

  /** In a table without repeats the search for an entry's character finds that entry. */
  lemma FindCharAt(t: seq<Entry>, i: nat)
    requires Unique(t) && i < |t|
    ensures FindChar(t, t[i].character, 0) == Some(i)
  {
  }

  /**
   * morse_table_lookup, specified: the character of the first entry with
   * this pattern; '\0' for a missing or empty pattern or one not in the table.
   */
  function Decode(pattern: Option<string>): (c: char)
    ensures c != '\0' <==> pattern.Some? && exists k | 0 <= k < |Table| :: Table[k].pattern == pattern.value
  {
    if pattern.None? || pattern.value == [] then
      assert forall k | 0 <= k < |Table| :: Table[k].pattern != [] by {
        forall k | 0 <= k < |Table| { TableShape(k); }
      }
      '\0'
    else match FindPattern(Table, pattern.value, 0)
      case Some(i) => TableShape(i); Table[i].character
      case None => '\0'
  }

  /**
   * morse_table_reverse, specified: the pattern of the first entry whose
   * character is the upper-cased argument; None when there is none.
   */
  function Encode(c: char): (r: Option<string>)
    ensures r.None? <==> forall k | 0 <= k < |Table| :: Table[k].character != Upper(c)
  {
    match FindChar(Table, Upper(c), 0)
    case Some(i) => Some(Table[i].pattern)
    case None => None
  }

  /** morse_table_lookup as the C loop runs it. */
  method TableLookup(pattern: Option<string>) returns (c: char)
    ensures c == Decode(pattern)
  {
    if pattern.None? || pattern.value == [] {
      return '\0';
    }
    var p := pattern.value;
    var i := 0;
    while i < |Table|
      invariant 0 <= i <= |Table| && FindPattern(Table, p, 0) == FindPattern(Table, p, i)
    {
      if Table[i].pattern == p {
        return Table[i].character;
      }
      i := i + 1;
    }
    return '\0';
  }

  /** morse_table_reverse as the C loop runs it. */
  method TableReverse(c: char) returns (pattern: Option<string>)
    ensures pattern == Encode(c)
  {
    var u := c;
    if 'a' <= u <= 'z' {
      u := (u as int - 'a' as int + 'A' as int) as char;
    }
    assert u == Upper(c);
    var i := 0;
    while i < |Table|
      invariant 0 <= i <= |Table| && FindChar(Table, u, 0) == FindChar(Table, u, i)
    {
      if Table[i].character == u {
        return Some(Table[i].pattern);
      }
      i := i + 1;
    }
    return None;
  }

  /** Reverse lookup of entry i's character gives entry i's pattern. */
  lemma EncodeAt(i: nat)
    requires i < |Table|
    ensures Encode(Table[i].character) == Some(Table[i].pattern)
  {
    TableShape(i);
    TableUnique();
    FindCharAt(Table, i);
  }

  /** Whatever reverse lookup returns is a non-empty element string. */
  lemma EncodeShape(c: char)
    ensures Encode(c).Some? ==> Encode(c).value != [] && IsElements(Encode(c).value)
  {
    if Encode(c).Some? {
      TableShape(FindChar(Table, Upper(c), 0).value);
    }
  }

  /** Looking up the pattern of entry i gives the character of entry i. */
  lemma DecodeAt(i: nat)
    requires i < |Table|
    ensures Decode(Some(Table[i].pattern)) == Table[i].character
  {
    TableShape(i);
    TableUnique();
    FindPatternAt(Table, i);
  }

  /** Reverse lookup then lookup gives back every table character; lower-case letters come back upper-cased. */
  lemma DecodeEncode(c: char)
    requires Encode(c).Some?
    ensures Decode(Encode(c)) == Upper(c)
  {
    var i := FindChar(Table, Upper(c), 0).value;
    TableShape(i);
    TableUnique();
    FindPatternAt(Table, i);
  }

  /** Lookup then reverse lookup gives back the pattern of every table entry. */
  lemma EncodeDecode(i: nat)
    requires i < |Table|
    ensures Encode(Decode(Some(Table[i].pattern))) == Some(Table[i].pattern)
  {
    TableShape(i);
    TableUnique();
    FindPatternAt(Table, i);
    FindCharAt(Table, i);
  }

  /** For the letters the packed encoder and the string table send the same elements. */
  lemma PackedMatchesLetters(n: nat)
    requires n < 26
    ensures Elements(Letters[n]) == LetterEntries[n].pattern
  {
    if n < 9 {
      PackedMatchesLettersAtoI(n);
    } else if n < 18 {
      PackedMatchesLettersJtoR(n);
    } else {
      PackedMatchesLettersStoZ(n);
    }
  }

  lemma PackedMatchesLettersAtoI(n: nat)
    requires n < 9
    ensures Elements(Letters[n]) == LetterEntries[n].pattern
  {
  }

  lemma PackedMatchesLettersJtoR(n: nat)
    requires 9 <= n < 18
    ensures Elements(Letters[n]) == LetterEntries[n].pattern
  {
  }

  lemma PackedMatchesLettersStoZ(n: nat)
    requires 18 <= n < 26
    ensures Elements(Letters[n]) == LetterEntries[n].pattern
  {
  }

  /** For the digits the packed encoder and the string table send the same elements. */
  lemma PackedMatchesDigits(n: nat)
    requires n < 10
    ensures Elements(Digits[n]) == DigitEntries[n].pattern
  {
  }

  /** Every character the packed encoder knows reverse-looks-up to the same element string. */
  lemma LookupMatchesEncode(c: char)
    requires Lookup(c).Some?
    ensures Encode(c).Some? && Elements(Lookup(c).value) == Encode(c).value
  {
    var u := Upper(c);
    TableUnique();
    if 'A' <= u <= 'Z' {
      LetterMatchesEncode(c);
    } else if '0' <= c <= '9' {
      DigitMatchesEncode(c);
    } else {
      PunctMatchesEncode(c);
    }
  }

  lemma PunctMatchesEncode(c: char)
    requires c in ".,?/=-" && Unique(Table)
    ensures Encode(c).Some? && Lookup(c).Some? && Elements(Lookup(c).value) == Encode(c).value
  {
    var i := if c == '.' then 36 else if c == ',' then 37 else if c == '?' then 38
      else if c == '/' then 41 else if c == '=' then 47 else 49;
    TableAt(i);
    FindCharAt(Table, i);
    PackedMatchesPunct();
  }

  /** For the six punctuation marks with a packed code, the packed code and the string table agree. */
  lemma PackedMatchesPunct()
    ensures Elements(Packed(0x2A, 6)) == PunctEntries[0].pattern
    ensures Elements(Packed(0x33, 6)) == PunctEntries[1].pattern
    ensures Elements(Packed(0x0C, 6)) == PunctEntries[2].pattern
    ensures Elements(Packed(0x09, 5)) == PunctEntries[5].pattern
    ensures Elements(Packed(0x11, 5)) == PunctEntries[11].pattern
    ensures Elements(Packed(0x21, 6)) == PunctEntries[13].pattern
  {
    PackedMatchesPunctSix();
    PackedMatchesPunctFive();
  }

  lemma PackedMatchesPunctSix()
    ensures Elements(Packed(0x2A, 6)) == ".-.-.-" && Elements(Packed(0x33, 6)) == "--..--"
    ensures Elements(Packed(0x0C, 6)) == "..--.." && Elements(Packed(0x21, 6)) == "-....-"
  {
  }

  lemma PackedMatchesPunctFive()
    ensures Elements(Packed(0x09, 5)) == "-..-." && Elements(Packed(0x11, 5)) == "-...-"
  {
  }

  lemma LetterMatchesEncode(c: char)
    requires 'A' <= Upper(c) <= 'Z' && Unique(Table)
    ensures Encode(c).Some? && Lookup(c) == Some(Letters[Upper(c) as int - 'A' as int])
    ensures Elements(Lookup(c).value) == Encode(c).value
  {
    var n := Upper(c) as int - 'A' as int;
    TableAt(n);
    LetterFacts(n);
    FindCharAt(Table, n);
    PackedMatchesLetters(n);
  }

  lemma DigitMatchesEncode(c: char)
    requires '0' <= c <= '9' && Unique(Table)
    ensures Encode(c).Some? && Lookup(c) == Some(Digits[c as int - '0' as int])
    ensures Elements(Lookup(c).value) == Encode(c).value
  {
    var n := c as int - '0' as int;
    TableAt(26 + n);
    DigitFacts(n);
    FindCharAt(Table, 26 + n);
    PackedMatchesDigits(n);
  }

  datatype Prosign = Prosign(tag: string, pattern: string)

  const Prosigns: seq<Prosign> := [
    Prosign("<SK>", "...-.-"), Prosign("<AR>", ".-.-."), Prosign("<BT>", "-...-"),
    Prosign("<KN>", "-.--."), Prosign("<AS>", ".-..."), Prosign("<SN>", "...-."),
    Prosign("<KA>", "-.-.-")]

  /** Every tag is four characters opening with '<'. */
  lemma TagShape(i: nat)
    requires i < |Prosigns|
    ensures |Prosigns[i].tag| == 4 && Prosigns[i].tag[0] == '<'
  {
  }

  /** Every prosign pattern is a non-empty element string. */
  lemma ProsignShape(i: nat)
    requires i < |Prosigns|
    ensures Prosigns[i].pattern != [] && IsElements(Prosigns[i].pattern)
  {
  }

  /** Tags and patterns are all different. */
  lemma ProsignsDistinct(i: nat, j: nat)
    requires i < j < |Prosigns|
    ensures Prosigns[i].tag != Prosigns[j].tag && Prosigns[i].pattern != Prosigns[j].pattern
  {
  }

  /** The first prosign at or after `from` whose tag starts the text. */
  function FindTag(text: string, from: nat): (r: Option<nat>)
    ensures r.Some? ==> from <= r.value < |Prosigns| && Prosigns[r.value].tag <= text
    ensures r.Some? ==> forall k | from <= k < r.value :: !(Prosigns[k].tag <= text)
    ensures r.None? ==> forall k | from <= k < |Prosigns| :: !(Prosigns[k].tag <= text)
    decreases |Prosigns| - from
  {
    if from >= |Prosigns| then None
    else if Prosigns[from].tag <= text then Some(from)
    else FindTag(text, from + 1)
  }

  /** The first prosign at or after `from` with pattern `p`. */
  function FindSign(p: string, from: nat): (r: Option<nat>)
    ensures r.Some? ==> from <= r.value < |Prosigns| && Prosigns[r.value].pattern == p
    ensures r.Some? ==> forall k | from <= k < r.value :: Prosigns[k].pattern != p
    ensures r.None? ==> forall k | from <= k < |Prosigns| :: Prosigns[k].pattern != p
    decreases |Prosigns| - from
  {
    if from >= |Prosigns| then None
    else if Prosigns[from].pattern == p then Some(from)
    else FindSign(p, from + 1)
  }

  /**
   * morse_match_prosign, specified: the length and pattern of the first tag
   * the text starts with; 0 and no pattern when no tag starts it.
   */
  function MatchTag(text: Option<string>): (r: (nat, Option<string>))
    ensures r.0 > 0 <==> r.1.Some?
    ensures r.0 == 0 <==> text.None? || forall k | 0 <= k < |Prosigns| :: !(Prosigns[k].tag <= text.value)
  {
    if text.None? || text.value == [] || text.value[0] != '<' then
      assert forall k | 0 <= k < |Prosigns| :: Prosigns[k].tag[0] == '<' && |Prosigns[k].tag| == 4;
      (0, None)
    else match FindTag(text.value, 0)
      case Some(i) => (|Prosigns[i].tag|, Some(Prosigns[i].pattern))
      case None => (0, None)
  }

  /** A matched prosign yields a non-empty element string. */
  lemma MatchTagShape(text: Option<string>)
    ensures MatchTag(text).1.Some? ==> MatchTag(text).1.value != [] && IsElements(MatchTag(text).1.value)
  {
    if MatchTag(text).1.Some? {
      ProsignShape(FindTag(text.value, 0).value);
    }
  }

  /** morse_get_prosign_tag, specified: the tag of the first prosign with this pattern. */
  function TagOf(pattern: Option<string>): (r: Option<string>)
    ensures r.Some? <==> pattern.Some? && exists k | 0 <= k < |Prosigns| :: Prosigns[k].pattern == pattern.value
  {
    if pattern.None? then None
    else match FindSign(pattern.value, 0)
      case Some(i) => Some(Prosigns[i].tag)
      case None => None
  }

  /** morse_match_prosign as the C loop runs it. */
  method MatchProsign(text: Option<string>) returns (len: nat, pattern: Option<string>)
    ensures (len, pattern) == MatchTag(text)
  {
    if text.None? || text.value == [] || text.value[0] != '<' {
      return 0, None;
    }
    var i := 0;
    while i < |Prosigns|
      invariant 0 <= i <= |Prosigns| && FindTag(text.value, 0) == FindTag(text.value, i)
    {
      var tag := Prosigns[i].tag;
      if tag <= text.value {
        return |tag|, Some(Prosigns[i].pattern);
      }
      i := i + 1;
    }
    return 0, None;
  }

  /** morse_get_prosign_tag as the C loop runs it. */
  method ProsignTag(pattern: Option<string>) returns (tag: Option<string>)
    ensures tag == TagOf(pattern)
  {
    if pattern.None? {
      return None;
    }
    var i := 0;
    while i < |Prosigns|
      invariant 0 <= i <= |Prosigns| && FindSign(pattern.value, 0) == FindSign(pattern.value, i)
    {
      if Prosigns[i].pattern == pattern.value {
        return Some(Prosigns[i].tag);
      }
      i := i + 1;
    }
    return None;
  }

  /** A text opening with a tag matches that tag, and the tag's pattern leads back to the tag. */
  lemma ProsignRoundTrip(k: nat, rest: string)
    requires k < |Prosigns|
    ensures MatchTag(Some(Prosigns[k].tag + rest)) == (|Prosigns[k].tag|, Some(Prosigns[k].pattern))
    ensures TagOf(Some(Prosigns[k].pattern)) == Some(Prosigns[k].tag)
  {
    var text := Prosigns[k].tag + rest;
    assert Prosigns[k].tag <= text;
    var j := FindTag(text, 0).value;
    if j < k {
      TagShape(j);
      TagShape(k);
      assert Prosigns[j].tag == text[..4] == Prosigns[k].tag;
      ProsignsDistinct(j, k);
    }
    var m := FindSign(Prosigns[k].pattern, 0).value;
    if m < k {
      ProsignsDistinct(m, k);
    }
  }
}
