/**
 * The console's line tokenizer: a command word and up to three argument
 * words, split on C-locale whitespace, from a copy of the line cut to 255
 * characters.
 */
module ConsoleParser {
  import opened Common

  /** CONSOLE_LINE_MAX */
  const LineMax: nat := 256
  /** CONSOLE_MAX_ARGS */
  const MaxArgs: nat := 3

  /** isspace in the C locale. */
  predicate IsSpace(c: char)
  {
    c == ' ' || c == '\t' || c == '\n' || c == 11 as char || c == 12 as char || c == '\r'
  }

  /** A C string: no NUL inside. */
  predicate NoNul(s: string) { forall i | 0 <= i < |s| :: s[i] != '\0' }

  predicate AllSpace(s: string) { forall i | 0 <= i < |s| :: IsSpace(s[i]) }

  /** A word: at least one character and no whitespace. */
  predicate IsWord(s: string) { s != [] && forall i | 0 <= i < |s| :: !IsSpace(s[i]) }

  /** The number of whitespace characters s starts with. */
  function Skip(s: string): (n: nat)
    ensures n <= |s|
  {
    if s != [] && IsSpace(s[0]) then 1 + Skip(s[1..]) else 0
  }

  /** The number of non-whitespace characters s starts with. */
  function WordLen(s: string): (n: nat)
    ensures n <= |s|
  {
    if s != [] && !IsSpace(s[0]) then 1 + WordLen(s[1..]) else 0
  }

  /** The words of s, in order: the reference the parser is measured against. */
  function Tokens(s: string): seq<string>
    decreases |s|
  {
    var j := Skip(s);
    if j == |s| then []
    else
      var t := s[j..];
      var k := WordLen(t);
      [t[..k]] + Tokens(t[k..])
  }

  /** Skip stops at the first character that is not whitespace. */
  lemma {:induction false} SkipStops(s: string)
    ensures AllSpace(s[..Skip(s)]) && (Skip(s) < |s| ==> !IsSpace(s[Skip(s)]))
    decreases |s|
  {
    if s != [] && IsSpace(s[0]) {
      SkipStops(s[1..]);
      assert s[..Skip(s)] == [s[0]] + s[1..][..Skip(s[1..])];
    }
  }

  /** WordLen stops at the first whitespace character. */
  lemma {:induction false} WordLenStops(s: string)
    ensures (forall i | 0 <= i < WordLen(s) :: !IsSpace(s[i])) && (WordLen(s) < |s| ==> IsSpace(s[WordLen(s)]))
    decreases |s|
  {
    if s != [] && !IsSpace(s[0]) {
      WordLenStops(s[1..]);
      assert forall i | 1 <= i < WordLen(s) :: s[i] == s[1..][i - 1];
    }
  }

  /** Every token is a word. */
  lemma {:induction false} TokensAreWords(s: string)
    ensures forall i | 0 <= i < |Tokens(s)| :: IsWord(Tokens(s)[i])
    decreases |s|
  {
    var j := Skip(s);
    if j < |s| {
      var t := s[j..];
      var k := WordLen(t);
      SkipStops(s);
      WordLenStops(t);
      TokensAreWords(t[k..]);
      assert k > 0;
      assert IsWord(t[..k]);
    }
  }

  /** A leading whitespace character does not change the words. */
  lemma TokensAfterSpace(s: string)
    requires s != [] && IsSpace(s[0])
    ensures Tokens(s) == Tokens(s[1..])
  {
    assert s[Skip(s)..] == s[1..][Skip(s[1..])..];
  }

  /** A word at the front of s, ended by whitespace or the end of s, is the first token. */
  lemma TokensAtWord(s: string, k: nat)
    requires 0 < k <= |s| && IsWord(s[..k]) && (k < |s| ==> IsSpace(s[k]))
    ensures Tokens(s) == [s[..k]] + Tokens(s[k..])
  {
    assert s[0] == s[..k][0];
    assert Skip(s) == 0;
    assert s[Skip(s)..] == s;
    forall i | 0 <= i < k
      ensures !IsSpace(s[i])
    {
      assert s[i] == s[..k][i];
    }
    WordLenAt(s, k);
  }

  lemma {:induction false} WordLenAt(s: string, k: nat)
    requires k <= |s| && (forall i | 0 <= i < k :: !IsSpace(s[i])) && (k < |s| ==> IsSpace(s[k]))
    ensures WordLen(s) == k
    decreases k
  {
    if k > 0 {
      WordLenAt(s[1..], k - 1);
    }
  }

  /** Whitespace in front of s does not change its words. */
  lemma {:induction false} TokensAfterGap(gap: string, s: string)
    requires AllSpace(gap)
    ensures Tokens(gap + s) == Tokens(s)
    decreases |gap|
  {
    if gap != [] {
      assert IsSpace((gap + s)[0]);
      TokensAfterSpace(gap + s);
      assert (gap + s)[1..] == gap[1..] + s;
      assert AllSpace(gap[1..]) by {
        forall i | 0 <= i < |gap[1..]| ensures IsSpace(gap[1..][i]) {
          assert gap[1..][i] == gap[i + 1];
        }
      }
      TokensAfterGap(gap[1..], s);
    } else {
      assert gap + s == s;
    }
  }

  /**
   * Words separated by runs of whitespace, with whitespace (possibly none)
   * before the first and after the last.
   */
  function Spaced(words: seq<string>, gaps: seq<string>): string
    requires |gaps| == |words| + 1
  {
    if words == [] then gaps[0]
    else gaps[0] + words[0] + Spaced(words[1..], gaps[1..])
  }

  /** Inner gaps are non-empty; all gaps are whitespace. */
  ghost predicate GoodGaps(words: seq<string>, gaps: seq<string>)
  {
    |gaps| == |words| + 1 && (forall i | 0 <= i < |gaps| :: AllSpace(gaps[i])) &&
    forall i | 0 < i < |words| :: gaps[i] != []
  }

  /**
   * Leading, trailing and repeated whitespace is skipped: tokenizing words
   * laid out with any such gaps gives back exactly the words.
   */
  lemma {:induction false} TokensOfSpaced(words: seq<string>, gaps: seq<string>)
    requires GoodGaps(words, gaps) && forall i | 0 <= i < |words| :: IsWord(words[i])
    ensures Tokens(Spaced(words, gaps)) == words
    decreases |words|
  {
    if words == [] {
      assert AllSpace(gaps[0]);
      TokensAfterGap(gaps[0], []);
      assert gaps[0] + [] == gaps[0];
      assert Tokens([]) == [];
    } else {
      var w := words[0];
      var rest := Spaced(words[1..], gaps[1..]);
      GoodGapsTail(words, gaps);
      TokensOfSpaced(words[1..], gaps[1..]);
      assert Spaced(words, gaps) == gaps[0] + (w + rest);
      assert rest != [] ==> IsSpace(rest[0]) by {
        if rest != [] {
          RestStartsWithSpace(words, gaps);
        }
      }
      TokensOfGapWordRest(gaps[0], w, rest);
    }
  }

  /** A gap, a word, then nothing or whitespace: the word is the first token. */
  lemma TokensOfGapWordRest(gap: string, w: string, rest: string)
    requires AllSpace(gap) && IsWord(w) && (rest != [] ==> IsSpace(rest[0]))
    ensures Tokens(gap + (w + rest)) == [w] + Tokens(rest)
  {
    TokensAfterGap(gap, w + rest);
    assert (w + rest)[..|w|] == w && (w + rest)[|w|..] == rest;
    TokensAtWord(w + rest, |w|);
  }

  lemma GoodGapsTail(words: seq<string>, gaps: seq<string>)
    requires GoodGaps(words, gaps) && words != [] && forall i | 0 <= i < |words| :: IsWord(words[i])
    ensures GoodGaps(words[1..], gaps[1..]) && forall i | 0 <= i < |words[1..]| :: IsWord(words[1..][i])
  {
    assert forall i | 0 <= i < |gaps[1..]| :: gaps[1..][i] == gaps[i + 1];
    assert forall i | 0 <= i < |words[1..]| :: words[1..][i] == words[i + 1];
  }

  /** What follows the first word of a spaced line, if anything, starts with whitespace. */
  lemma RestStartsWithSpace(words: seq<string>, gaps: seq<string>)
    requires GoodGaps(words, gaps) && words != []
    requires Spaced(words[1..], gaps[1..]) != []
    ensures IsSpace(Spaced(words[1..], gaps[1..])[0])
  {
    var rest := Spaced(words[1..], gaps[1..]);
    assert AllSpace(gaps[1]);
    if |words| > 1 {
      assert gaps[1] != [];
      assert rest == gaps[1] + (words[1..][0] + Spaced(words[2..], gaps[2..]));
    } else {
      assert rest == gaps[1];
    }
  }

  /** The argument slots holding the first three words of `words`, the others None. */
  function Slots(words: seq<string>): (r: seq<Option<string>>)
    ensures |r| == MaxArgs
    ensures forall i | 0 <= i < MaxArgs :: r[i] == if i < |words| then Some(words[i]) else None
  {
    seq(MaxArgs, i requires 0 <= i < MaxArgs => if i < |words| then Some(words[i]) else None)
  }

  lemma SlotsSnoc(words: seq<string>, w: string)
    requires |words| < MaxArgs
    ensures Slots(words + [w]) == Slots(words)[|words| := Some(w)]
  {
  }

  /** Only the first three words reach the slots. */
  lemma SlotsPrefix(words: seq<string>, all: seq<string>)
    requires words <= all && (|words| == MaxArgs || words == all)
    ensures Slots(words) == Slots(all)
  {
  }

  /** console_parsed_cmd_t: the command, the argument count and three argument slots (None for NULL). */
  datatype Cmd = Cmd(command: string, argc: nat, args: seq<Option<string>>)

  /** The output before any token is found. */
  const NoCommand := Cmd("", 0, [None, None, None])

  /** The copy strncpy makes into the parse buffer. */
  function Trunc(line: string): (r: string)
    ensures |r| < LineMax && r <= line
    ensures |line| < LineMax ==> r == line
  {
    if |line| < LineMax then line else line[..LineMax - 1]
  }

  /**
   * console_parse_line: command "" and no arguments for a missing, empty
   * or blank line; otherwise the first word is the command and the next
   * words, at most three, fill the argument slots in order, the unused
   * slots staying None.
   */
  function Parse(line: Option<string>): (r: Cmd)
    ensures |r.args| == MaxArgs && r.argc <= MaxArgs
    ensures forall i | 0 <= i < MaxArgs :: r.args[i].Some? <==> i < r.argc
    ensures line.None? || line.value == [] ==> r == NoCommand
    ensures line.Some? ==> (r.command == [] <==> Tokens(Trunc(line.value)) == [])
    ensures line.Some? && Tokens(Trunc(line.value)) != [] ==>
      var toks := Tokens(Trunc(line.value));
      r.command == toks[0] && r.argc == (if |toks| - 1 < MaxArgs then |toks| - 1 else MaxArgs) &&
      forall i | 0 <= i < r.argc :: r.args[i] == Some(toks[i + 1])
  {
    if line.None? || line.value == [] then NoCommand
    else
      var toks := Tokens(Trunc(line.value));
      TokensAreWords(Trunc(line.value));
      if toks == [] then NoCommand
      else
        var n := if |toks| - 1 < MaxArgs then |toks| - 1 else MaxArgs;
        Cmd(toks[0], n, Slots(toks[1..]))
  }

  /** A line of words separated by whitespace parses to its first word and up to three more. */
  lemma ParseSpaced(words: seq<string>, gaps: seq<string>)
    requires GoodGaps(words, gaps) && words != [] && forall i | 0 <= i < |words| :: IsWord(words[i])
    requires |Spaced(words, gaps)| < LineMax
    ensures var r := Parse(Some(Spaced(words, gaps)));
      r.command == words[0] && r.argc == (if |words| - 1 < MaxArgs then |words| - 1 else MaxArgs) &&
      forall i | 0 <= i < r.argc :: r.args[i] == Some(words[i + 1])
  {
    TokensOfSpaced(words, gaps);
  }

  /** Skip whitespace from p. */
  method SkipSpace(buf: string, p0: nat) returns (p: nat)
    requires p0 <= |buf|
    ensures p == p0 + Skip(buf[p0..]) && Tokens(buf[p..]) == Tokens(buf[p0..])
  {
    p := p0;
    while p < |buf| && IsSpace(buf[p])
      invariant p0 <= p <= |buf|
      invariant Skip(buf[p0..]) == (p - p0) + Skip(buf[p..]) && Tokens(buf[p..]) == Tokens(buf[p0..])
      decreases |buf| - p
    {
      assert buf[p..][1..] == buf[p + 1..];
      TokensAfterSpace(buf[p..]);
      p := p + 1;
    }
  }

  /** Find the end of the word at p. */
  method WordEnd(buf: string, p0: nat) returns (p: nat)
    requires p0 < |buf| && !IsSpace(buf[p0])
    ensures p0 < p <= |buf| && Tokens(buf[p0..]) == [buf[p0..p]] + Tokens(buf[p..])
    ensures p < |buf| ==> IsSpace(buf[p]) && Tokens(buf[p + 1..]) == Tokens(buf[p..])
  {
    p := ScanWord(buf, p0);
    TokensAtWordEnd(buf, p0, p);
  }

  /** The loop that walks over the characters of a word. */
  method ScanWord(buf: string, p0: nat) returns (p: nat)
    requires p0 < |buf| && !IsSpace(buf[p0])
    ensures p0 < p <= |buf| && (forall i | p0 <= i < p :: !IsSpace(buf[i])) && (p < |buf| ==> IsSpace(buf[p]))
  {
    p := p0;
    while p < |buf| && !IsSpace(buf[p])
      invariant p0 <= p <= |buf| && forall i | p0 <= i < p :: !IsSpace(buf[i])
      decreases |buf| - p
    {
      p := p + 1;
    }
  }

  /** The characters p0..p of buf form a word ended by whitespace or the end of buf. */
  lemma TokensAtWordEnd(buf: string, p0: nat, p: nat)
    requires p0 < p <= |buf| && (forall i | p0 <= i < p :: !IsSpace(buf[i])) && (p < |buf| ==> IsSpace(buf[p]))
    ensures Tokens(buf[p0..]) == [buf[p0..p]] + Tokens(buf[p..])
    ensures p < |buf| ==> Tokens(buf[p + 1..]) == Tokens(buf[p..])
  {
    var s, k := buf[p0..], p - p0;
    assert s[..k] == buf[p0..p] && s[k..] == buf[p..];
    assert IsWord(s[..k]) by {
      forall i | 0 <= i < k
        ensures !IsSpace(s[..k][i])
      {
        assert s[..k][i] == buf[p0 + i];
      }
    }
    TokensAtWord(s, k);
    if p < |buf| {
      assert buf[p..][1..] == buf[p + 1..];
      TokensAfterSpace(buf[p..]);
    }
  }

  /**
   * One token of the parse buffer from p: skip whitespace, stop at the end
   * of the string, else take the word and step over the separator the
   * parser overwrites with NUL.
   */
  method NextToken(buf: string, p0: nat) returns (tok: Option<string>, p: nat)
    requires p0 <= |buf|
    ensures p <= |buf|
    ensures tok.None? <==> Tokens(buf[p0..]) == []
    ensures tok.Some? ==> [tok.value] + Tokens(buf[p..]) == Tokens(buf[p0..])
  {
    var start := SkipSpace(buf, p0);
    if start == |buf| {
      NoTokensAtEnd(buf, p0, start);
      return None, start;
    }
    SkipReachesWord(buf, p0, start);
    var end := WordEnd(buf, start);
    tok := Some(buf[start..end]);
    p := if end < |buf| then end + 1 else end;
    TokenThenRest(buf, p0, start, end, p);
  }

  /** Nothing but whitespace from p0 on: no tokens. */
  lemma NoTokensAtEnd(buf: string, p0: nat, p: nat)
    requires p0 <= p == |buf| && Tokens(buf[p..]) == Tokens(buf[p0..])
    ensures Tokens(buf[p0..]) == []
  {
    assert buf[p..] == [];
  }

  /** Skipping the whitespace at p0 stops on a word character when it stops inside buf. */
  lemma SkipReachesWord(buf: string, p0: nat, p: nat)
    requires p0 <= |buf| && p == p0 + Skip(buf[p0..]) && p < |buf|
    ensures !IsSpace(buf[p])
  {
    SkipStops(buf[p0..]);
    assert buf[p0..][Skip(buf[p0..])] == buf[p];
  }

  /** The word at start, then the tokens after its separator, are the tokens from p0. */
  lemma TokenThenRest(buf: string, p0: nat, start: nat, end: nat, p: nat)
    requires p0 <= start < end <= |buf| && Tokens(buf[start..]) == Tokens(buf[p0..])
    requires Tokens(buf[start..]) == [buf[start..end]] + Tokens(buf[end..])
    requires end < |buf| ==> Tokens(buf[end + 1..]) == Tokens(buf[end..])
    requires p == if end < |buf| then end + 1 else end
    ensures [buf[start..end]] + Tokens(buf[p..]) == Tokens(buf[p0..])
  {
  }

  /** The argument loop of console_parse_line: up to three more tokens from p, the other slots None. */
  method ParseArgs(buf: string, p0: nat) returns (argc: nat, args: seq<Option<string>>)
    requires p0 <= |buf|
    ensures var rest := Tokens(buf[p0..]);
      argc == (if |rest| < MaxArgs then |rest| else MaxArgs) && args == Slots(rest)
  {
    ghost var rest := Tokens(buf[p0..]);
    args := [None, None, None];
    argc := 0;
    var p := p0;
    ghost var taken: seq<string> := [];
    assert args == Slots(taken);
    while argc < MaxArgs && p < |buf|
      invariant argc == |taken| <= MaxArgs && p <= |buf|
      invariant rest == taken + Tokens(buf[p..]) && args == Slots(taken)
      decreases MaxArgs - argc
    {
      var arg: Option<string>, next: nat := NextToken(buf, p);
      if arg.None? {
        break;
      }
      AppendToken(rest, taken, arg.value, Tokens(buf[p..]), Tokens(buf[next..]));
      SlotsSnoc(taken, arg.value);
      p := next;
      taken := taken + [arg.value];
      args := args[argc := arg];
      argc := argc + 1;
    }
    if argc < MaxArgs && p == |buf| {
      NoTokensAtEnd(buf, p, p);
    }
    ArgsDone(rest, taken, Tokens(buf[p..]));
  }

  /** One more token taken: the tokens taken so far and the tokens left still make up all of them. */
  lemma AppendToken(all: seq<string>, taken: seq<string>, w: string, left: seq<string>, after: seq<string>)
    requires all == taken + left && left == [w] + after
    ensures all == (taken + [w]) + after
  {
  }

  /** The loop stops with three tokens taken or none left: the slots hold the first three of all tokens. */
  lemma ArgsDone(all: seq<string>, taken: seq<string>, left: seq<string>)
    requires all == taken + left && |taken| <= MaxArgs && (|taken| == MaxArgs || left == [])
    ensures |taken| == (if |all| < MaxArgs then |all| else MaxArgs) && Slots(taken) == Slots(all)
  {
    assert taken <= all;
    SlotsPrefix(taken, all);
  }

  /** console_parse_line, as the C loops run it on the parse buffer. */
  method ParseLine(line: Option<string>) returns (out: Cmd)
    requires line.Some? ==> NoNul(line.value)
    ensures out == Parse(line)
  {
    out := Cmd("", 0, [None, None, None]);
    if line.None? || line.value == [] {
      return;
    }
    var buf := Trunc(line.value);
    assert buf[0..] == buf;
    var command: Option<string>, p: nat := NextToken(buf, 0);
    if command.None? {
      return;
    }
    var argc, args := ParseArgs(buf, p);
    out := Cmd(command.value, argc, args);
  }
}
