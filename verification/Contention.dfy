/** The contention text sent to the claim system: free of newlines and at most 255 bytes long. */
module Contention {
  import opened Prelude

  const MAX_BYTES := 255
  const MAX_TRIMMED_BYTES := 252
  const ELLIPSIS := "..."

  /** Bytes of one character in UTF-8. */
  function Width(c: char): nat {
    if c as int < 0x80 then 1 else if c as int < 0x800 then 2 else if c as int < 0x10000 then 3 else 4
  }

  /** The bytes themselves, as section 3 of RFC 3629 lays them out. */
  function Utf8(c: char): seq<int> {
    var n := c as int;
    if n <= 0x7F then [n]
    else if n <= 0x7FF then [0xC0 + n / 0x40, 0x80 + n % 0x40]
    else if n <= 0xFFFF then [0xE0 + n / 0x1000, 0x80 + n / 0x40 % 0x40, 0x80 + n % 0x40]
    else [0xF0 + n / 0x40000, 0x80 + n / 0x1000 % 0x40, 0x80 + n / 0x40 % 0x40, 0x80 + n % 0x40]
  }

  /** The width is the number of those bytes, which the first of them tells. */
  lemma {:induction false} WidthIsUtf8(c: char)
    ensures var bytes := Utf8(c);
            && Width(c) == |bytes|
            && |bytes| == (if bytes[0] < 0x80 then 1 else if bytes[0] < 0xE0 then 2 else if bytes[0] < 0xF0 then 3 else 4)
            && forall i :: 0 < i < |bytes| ==> 0x80 <= bytes[i] < 0xC0
  {
    assert c as int <= 0x10FFFF;
  }

  function ByteSize(s: string): nat {
    if s == "" then 0 else Width(s[0]) + ByteSize(s[1..])
  }

  lemma {:induction false} ByteSizeConcat(s: string, t: string)
    ensures ByteSize(s + t) == ByteSize(s) + ByteSize(t)
  {
    if s == "" {
      assert s + t == t;
    } else {
      ByteSizeConcat(s[1..], t);
      assert (s + t)[1..] == s[1..] + t;
    }
  }

  // ---- Newlines ------------------------------------------------------------------------------

  predicate IsNewline(c: char) { c == '\n' || c == '\r' }

  /** The characters matched by `\s`. */
  predicate IsSpace(c: char) { IsNewline(c) || c == ' ' || c == '\t' || c as int == 11 || c as int == 12 }

  /** The number of white-space characters `s` begins with. */
  function SpaceRun(s: string): (n: nat)
    ensures n <= |s|
    ensures forall i :: 0 <= i < n ==> IsSpace(s[i])
    ensures n < |s| ==> !IsSpace(s[n])
  {
    if s == "" || !IsSpace(s[0]) then 0 else 1 + SpaceRun(s[1..])
  }

  /** The number of other characters `s` begins with. */
  function WordRun(s: string): (n: nat)
    ensures n <= |s|
    ensures forall i :: 0 <= i < n ==> !IsSpace(s[i])
    ensures n < |s| ==> IsSpace(s[n])
  {
    if s == "" || IsSpace(s[0]) then 0 else 1 + WordRun(s[1..])
  }

  predicate HasNewline(s: string) { exists c :: c in s && IsNewline(c) }

  // Every match of white space around at least one newline becomes one space: since the match is
  // greedy, that is a maximal white-space run holding a newline.
  function RemoveNewlines(s: string): string {
    if s == "" then ""
    else
      var n := SpaceRun(s);
      if n == 0 then
        var k := WordRun(s);
        s[..k] + RemoveNewlines(s[k..])
      else (if HasNewline(s[..n]) then " " else s[..n]) + RemoveNewlines(s[n..])
  }

  lemma {:induction false} RemovesNewlines(s: string)
    ensures !HasNewline(RemoveNewlines(s))
    decreases |s|
  {
    if s != "" {
      var n := SpaceRun(s);
      if n == 0 {
        RemovesNewlines(s[WordRun(s)..]);
      } else {
        RemovesNewlines(s[n..]);
      }
    }
  }

  /** Text without a newline is left alone. */
  lemma {:induction false} KeepsCleanText(s: string)
    requires !HasNewline(s)
    ensures RemoveNewlines(s) == s
    decreases |s|
  {
    if s != "" {
      var n := SpaceRun(s);
      var k := if n == 0 then WordRun(s) else n;
      assert s == s[..k] + s[k..];
      assert forall c :: c in s[..k] || c in s[k..] ==> c in s;
      KeepsCleanText(s[k..]);
    }
  }

  /** The words of a text: what is left when white space is only a separator. */
  function Words(s: string): seq<string>
    decreases |s|
  {
    if s == "" then []
    else if IsSpace(s[0]) then Words(s[SpaceRun(s)..])
    else [s[..WordRun(s)]] + Words(s[WordRun(s)..])
  }

  lemma {:induction false} RunsOfConcat(s: string, t: string)
    requires s != ""
    ensures (forall c :: c in s ==> IsSpace(c)) ==> SpaceRun(s + t) == |s| + SpaceRun(t)
    ensures (forall c :: c in s ==> !IsSpace(c)) ==> WordRun(s + t) == |s| + WordRun(t)
  {
    assert (s + t)[1..] == s[1..] + t;
    if |s| > 1 {
      RunsOfConcat(s[1..], t);
    } else {
      assert s[1..] + t == t;
    }
  }

  /** Only the spacing between words changes: the words and their order are kept. */
  lemma {:induction false} RemoveNewlinesKeepsWords(s: string)
    ensures Words(RemoveNewlines(s)) == Words(s)
    ensures s != "" ==> RemoveNewlines(s) != "" && (IsSpace(RemoveNewlines(s)[0]) <==> IsSpace(s[0]))
    decreases |s|
  {
    if s != "" {
      var n := SpaceRun(s);
      var k := if n == 0 then WordRun(s) else n;
      var rest := RemoveNewlines(s[k..]);
      RemoveNewlinesKeepsWords(s[k..]);
      var head := if n == 0 then s[..k] else if HasNewline(s[..n]) then " " else s[..n];
      RunsOfConcat(head, rest);
      assert RemoveNewlines(s) == head + rest;
      if n == 0 {
        assert WordRun(rest) == 0;
        assert (head + rest)[..k] == s[..k] && (head + rest)[k..] == rest;
      } else {
        assert SpaceRun(rest) == 0;
        assert (head + rest)[|head|..] == rest;
      }
    }
  }

  /** A word run or a white-space run that ends within `s` is not changed by what follows. */
  lemma {:induction false} RunsWithin(s: string, t: string)
    ensures SpaceRun(s) < |s| ==> SpaceRun(s + t) == SpaceRun(s)
    ensures WordRun(s) < |s| ==> WordRun(s + t) == WordRun(s)
  {
    var n, k := SpaceRun(s), WordRun(s);
    assert n < |s| ==> (s + t)[n] == s[n];
    assert k < |s| ==> (s + t)[k] == s[k];
  }

  /** The length of the first word or white-space run. */
  function FirstRun(s: string): (k: nat)
    requires s != ""
    ensures 0 < k <= |s|
  {
    if SpaceRun(s) == 0 then WordRun(s) else SpaceRun(s)
  }

  lemma {:induction false} OneRun(s: string)
    requires s != "" && FirstRun(s) == |s|
    ensures RemoveNewlines(s) == if SpaceRun(s) == 0 then s else if HasNewline(s) then " " else s
  {
    assert s[..|s|] == s && s[|s|..] == "" && s + "" == s;
  }

  lemma {:induction false} FirstRunAlone(s: string)
    requires s != ""
    ensures RemoveNewlines(s) == RemoveNewlines(s[..FirstRun(s)]) + RemoveNewlines(s[FirstRun(s)..])
  {
    OneRunAlone(s, FirstRun(s));
  }

  /** `s` is empty or ends in a word. */
  predicate WordLast(s: string) { s != "" ==> !IsSpace(s[|s| - 1]) }

  lemma {:induction false} SameFirstRun(s: string, t: string)
    requires s != "" && t != "" && !IsSpace(s[|s| - 1]) && IsSpace(t[0])
    ensures FirstRun(s + t) == FirstRun(s)
  {
    RunsWithin(s, t);
    assert SpaceRun(s) < |s|;
    if SpaceRun(s) == 0 && WordRun(s) == |s| {
      RunsOfConcat(s, t);
    }
  }

  lemma {:induction false} CutConcat(clean: string -> string, s: string, t: string, k: nat)
    requires k <= |s| && clean(s + t) == clean((s + t)[..k]) + clean((s + t)[k..])
    ensures clean(s + t) == clean(s[..k]) + clean(s[k..] + t)
  {
    assert (s + t)[..k] == s[..k] && (s + t)[k..] == s[k..] + t;
  }

  /** The first run of `s` is cleaned alone, whatever follows `s`. */
  lemma {:induction false} FirstRunStays(s: string, t: string)
    requires s != "" && t != "" && WordLast(s) && IsSpace(t[0])
    ensures RemoveNewlines(s + t) == RemoveNewlines(s[..FirstRun(s)]) + RemoveNewlines(s[FirstRun(s)..] + t)
  {
    SameFirstRun(s, t);
    FirstRunAlone(s + t);
    CutConcat(RemoveNewlines, s, t, FirstRun(s));
  }

  lemma {:induction false} OneRunAlone(s: string, k: nat)
    requires s != "" && k == FirstRun(s)
    ensures RemoveNewlines(s[..k]) == if SpaceRun(s) == 0 then s[..k] else if HasNewline(s[..k]) then " " else s[..k]
  {
    assert s[0] == s[..k][0];
    if SpaceRun(s) == 0 {
      assert WordRun(s[..k]) == k && SpaceRun(s[..k]) == 0;
    } else {
      assert SpaceRun(s[..k]) == k;
    }
    OneRun(s[..k]);
  }

  predicate White(c: char) { c in {' ', '\t', '\n', '\r', 11 as char, 12 as char} }

  /** What becomes of a run of white space. */
  function Collapsed(run: string): string { if '\n' in run || '\r' in run then " " else run }

  lemma {:induction false} RestEndsInWord(s: string)
    requires s != "" && WordLast(s)
    ensures WordLast(s[FirstRun(s)..])
  {
  }

  lemma {:induction false} RunCleaned(before: string, run: string, after: string)
    requires WordLast(before) && run != "" && forall c :: c in run ==> IsSpace(c)
    requires after != "" ==> !IsSpace(after[0])
    ensures RemoveNewlines(before + (run + after)) == RemoveNewlines(before) + (Collapsed(run) + RemoveNewlines(after))
    decreases |before|
  {
    RunFirst(run, after);
    var t := run + after;
    if before == "" {
      assert before + t == t;
    } else {
      var head, rest := RemoveNewlines(before[..FirstRun(before)]), before[FirstRun(before)..];
      FirstRunStays(before, t);
      FirstRunAlone(before);
      RestEndsInWord(before);
      RunCleaned(rest, run, after);
      Associative(head, RemoveNewlines(rest), RemoveNewlines(t));
    }
  }

  /** A maximal run of white space becomes exactly one space if it holds a newline and stays as it is if not; what
      comes before and after it is cleaned on its own. */
  lemma {:induction false} RunBecomes(before: string, run: string, after: string)
    requires run != "" && forall c :: c in run ==> White(c)
    requires before != "" ==> !White(before[|before| - 1])
    requires after != "" ==> !White(after[0])
    ensures RemoveNewlines(before + (run + after)) == RemoveNewlines(before) + (Collapsed(run) + RemoveNewlines(after))
  {
    assert forall c :: White(c) <==> IsSpace(c);
    RunCleaned(before, run, after);
  }

  lemma {:induction false} Associative(a: string, b: string, c: string)
    ensures a + (b + c) == (a + b) + c
  {
  }

  lemma {:induction false} RunFirst(run: string, after: string)
    requires run != "" && forall c :: c in run ==> IsSpace(c)
    requires after != "" ==> !IsSpace(after[0])
    ensures RemoveNewlines(run + after) == Collapsed(run) + RemoveNewlines(after)
  {
    var all := run + after;
    RunsOfConcat(run, after);
    assert SpaceRun(after) == 0;
    assert all[..|run|] == run && all[|run|..] == after;
    assert HasNewline(run) <==> '\n' in run || '\r' in run;
  }

  // ---- Truncation ----------------------------------------------------------------------------

  /** `p` is the longest prefix of `s` that fits in `budget` bytes. */
  predicate IsLongestPrefix(p: string, s: string, budget: nat) {
    && p <= s
    && ByteSize(p) <= budget
    && (|p| < |s| ==> ByteSize(s[..|p| + 1]) > budget)
  }

  function LongestPrefix(s: string, budget: nat): string {
    if s == "" || Width(s[0]) > budget then "" else [s[0]] + LongestPrefix(s[1..], budget - Width(s[0]))
  }

  lemma {:induction false} LongestPrefixIs(s: string, budget: nat)
    ensures IsLongestPrefix(LongestPrefix(s, budget), s, budget)
  {
    if s != "" && Width(s[0]) <= budget {
      var rest := LongestPrefix(s[1..], budget - Width(s[0]));
      LongestPrefixIs(s[1..], budget - Width(s[0]));
      assert ([s[0]] + rest)[1..] == rest;
      if |rest| < |s[1..]| {
        assert s[..|rest| + 2][1..] == s[1..][..|rest| + 1];
      }
    } else if s != "" {
      assert s[..1] == [s[0]] && [s[0]][1..] == "";
    }
  }

  lemma {:induction false} ByteSizeOfPrefix(s: string, i: nat, j: nat)
    requires i <= j <= |s|
    ensures ByteSize(s[..i]) + (j - i) <= ByteSize(s[..j])
  {
    assert s[..j] == s[..i] + s[i..j];
    ByteSizeConcat(s[..i], s[i..j]);
    AtLeastOneByteEach(s[i..j]);
  }

  lemma {:induction false} AtLeastOneByteEach(s: string)
    ensures |s| <= ByteSize(s)
  {
    if s != "" {
      AtLeastOneByteEach(s[1..]);
    }
  }

  lemma {:induction false} LongestPrefixIsUnique(p: string, s: string, budget: nat)
    requires IsLongestPrefix(p, s, budget)
    ensures p == LongestPrefix(s, budget)
  {
    var q := LongestPrefix(s, budget);
    LongestPrefixIs(s, budget);
    assert p == s[..|p|] && q == s[..|q|];
    if |p| < |q| {
      ByteSizeOfPrefix(s, |p| + 1, |q|);
    } else if |q| < |p| {
      ByteSizeOfPrefix(s, |q| + 1, |p|);
    }
  }

  function Truncated(description: string): string {
    if ByteSize(description) <= MAX_BYTES then description
    else LongestPrefix(description, MAX_TRIMMED_BYTES) + ELLIPSIS
  }

  /** Pushes characters while fewer than 252 bytes are held and drops the last one if it overshot. */
  method Truncate(description: string) returns (r: string)
    ensures r == Truncated(description)
  {
    if ByteSize(description) <= MAX_BYTES {
      return description;
    }
    var trimmed := "";
    var n := 0;
    while n < |description| && ByteSize(trimmed) < MAX_TRIMMED_BYTES
      invariant 0 <= n <= |description| && trimmed == description[..n]
      invariant n > 0 ==> ByteSize(description[..n - 1]) < MAX_TRIMMED_BYTES
    {
      trimmed := trimmed + [description[n]];
      n := n + 1;
      assert trimmed[..n - 1] == description[..n - 1];
    }
    assert description[..|description|] == description;
    if ByteSize(trimmed) > MAX_TRIMMED_BYTES {
      trimmed := trimmed[..|trimmed| - 1];
      assert trimmed == description[..n - 1];
      assert description[..|trimmed| + 1] == description[..n];
    } else {
      ByteSizeOfPrefix(description, n, n + 1);
    }
    LongestPrefixIsUnique(trimmed, description, MAX_TRIMMED_BYTES);
    r := trimmed + ELLIPSIS;
  }

  // ---- Contention text -----------------------------------------------------------------------

  function Text(description: Option<string>): Option<string> {
    if description.None? then None else Some(Truncated(RemoveNewlines(description.value)))
  }

  /** What the claim system requires of a contention text, and how much of the description it keeps. */
  lemma {:induction false} TextFits(description: string)
    ensures var text := Text(Some(description)).value;
            var cleaned := RemoveNewlines(description);
            && !HasNewline(text)
            && ByteSize(text) <= 255
            && (ByteSize(cleaned) <= 255 ==> text == cleaned)
            && (ByteSize(cleaned) > 255 ==> exists p :: text == p + "..." && IsLongestPrefix(p, cleaned, 252))
  {
    var cleaned := RemoveNewlines(description);
    RemovesNewlines(description);
    if ByteSize(cleaned) > MAX_BYTES {
      var p := LongestPrefix(cleaned, MAX_TRIMMED_BYTES);
      LongestPrefixIs(cleaned, MAX_TRIMMED_BYTES);
      ByteSizeConcat(p, ELLIPSIS);
      assert ByteSize(ELLIPSIS) == 3;
      assert forall c :: c in p ==> c in cleaned;
      assert forall c :: c in ELLIPSIS ==> c == '.';
    }
  }

  /** A text that was already sent is sent unchanged, so an echoed text still compares equal. */
  lemma {:induction false} TextIsStable(description: Option<string>)
    ensures Text(Text(description)) == Text(description)
  {
    if description.Some? {
      TextFits(description.value);
      KeepsCleanText(Text(description).value);
    }
  }
}
