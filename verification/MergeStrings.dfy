/** The strings that mark the source of a merged appeal, and the loop that abbreviates one of them to a
    prefix no other merged appeal shares. */
module MergeStrings {
  import opened Prelude

  // ---- The strings -------------------------------------------------------------------------------

  datatype DateParts = DateParts(year: nat, month: nat, day: nat)

  type Date = d: DateParts | 1 <= d.month <= 12 && 1 <= d.day <= 31 witness DateParts(0, 1, 1)

  /** Orders dates; day by day within a month, month by month within a year. */
  function Ordinal(d: Date): nat { d.year * 372 + (d.month - 1) * 31 + (d.day - 1) }

  /** That order is the order of the calendar. */
  lemma {:induction false} OrdinalOrders(d: Date, e: Date)
    ensures Ordinal(d) < Ordinal(e) <==>
      || d.year < e.year
      || (d.year == e.year && d.month < e.month)
      || (d.year == e.year && d.month == e.month && d.day < e.day)
  {
    if d.year < e.year {
      assert d.year + 1 <= e.year;
    } else if d.year > e.year {
      assert e.year + 1 <= d.year;
    }
  }

  function Digit(n: nat): char
    requires n < 10
  {
    ['0', '1', '2', '3', '4', '5', '6', '7', '8', '9'][n]
  }

  function TwoDigits(n: nat): string
    requires n < 100
  {
    [Digit(n / 10), Digit(n % 10)]
  }

  /** `%m/%d/%y`; empty when there is no date. */
  function DateText(d: Option<Date>): string {
    if d.None? then ""
    else TwoDigits(d.value.month) + "/" + TwoDigits(d.value.day) + "/" + TwoDigits(d.value.year % 100)
  }

  const LEAD := "From appeal merged on "

  function MergeString(decisionDate: Option<Date>, folder: string): string {
    LEAD + DateText(decisionDate) + " (" + folder + ")"
  }

  /** Two digits of a text, read as a number. */
  function Read(text: string, k: nat): int
    requires k + 1 < |text|
  {
    10 * (text[k] as int - '0' as int) + (text[k + 1] as int - '0' as int)
  }

  /** Month, day and the last two digits of the year can be read off the text of a date. */
  lemma {:induction false} DateTextReads(d: Date)
    ensures var text := DateText(Some(d));
            && |text| == 8 && text[2] == text[5] == '/'
            && Read(text, 0) == d.month && Read(text, 3) == d.day && Read(text, 6) == d.year % 100
  {
    TwoDigitsRead(d.month);
    TwoDigitsRead(d.day);
    TwoDigitsRead(d.year % 100);
    var month, day, year := TwoDigits(d.month), TwoDigits(d.day), TwoDigits(d.year % 100);
    assert DateText(Some(d)) == [month[0], month[1], '/', day[0], day[1], '/', year[0], year[1]];
  }

  lemma {:induction false} TwoDigitsRead(n: nat)
    requires n < 100
    ensures Read(TwoDigits(n), 0) == n
  {
    DigitReads(n / 10);
    DigitReads(n % 10);
  }

  lemma {:induction false} DigitReads(n: nat)
    requires n < 10
    ensures Digit(n) as int == '0' as int + n
  {
  }

  /** A dated merge string is the lead, the date and the folder in parentheses. */
  lemma {:induction false} MergeStringIs(d: Date, folder: string)
    ensures MergeString(Some(d), folder) == "From appeal merged on " + DateText(Some(d)) + " (" + folder + ")"
    ensures MergeString(None, folder) == "From appeal merged on  (" + folder + ")"
    ensures Prefix(MergeString(Some(d), folder), MIN_LENGTH) == "From appeal merged on " + DateText(Some(d))
  {
    DateTextReads(d);
    var head := "From appeal merged on " + DateText(Some(d));
    assert MergeString(Some(d), folder) == head + (" (" + folder + ")");
    assert |head| == 30;
  }

  // ---- The abbreviation loop -----------------------------------------------------------------------

  const MIN_LENGTH := 30

  function Prefix(s: string, length: nat): string {
    if length <= |s| then s[..length] else s
  }

  /** How many strings start with `p`. */
  function CountStarting(strs: seq<string>, p: string): nat {
    if strs == [] then 0 else (if p <= strs[0] then 1 else 0) + CountStarting(strs[1..], p)
  }

  lemma {:induction false} NoneStartsIff(strs: seq<string>, p: string)
    ensures CountStarting(strs, p) == 0 <==> forall j :: 0 <= j < |strs| ==> !(p <= strs[j])
  {
    if strs != [] {
      NoneStartsIff(strs[1..], p);
      assert forall j :: 1 <= j < |strs| ==> strs[j] == strs[1..][j - 1];
      assert forall j :: 0 <= j < |strs| - 1 ==> strs[1..][j] == strs[j + 1];
    }
  }

  predicate OnlyStart(strs: seq<string>, p: string, i: nat) {
    i < |strs| && p <= strs[i] && forall j :: 0 <= j < |strs| && p <= strs[j] ==> j == i
  }

  lemma {:induction false} OnlyStartInTail(strs: seq<string>, p: string, i: nat)
    requires strs != [] && !(p <= strs[0])
    ensures OnlyStart(strs, p, i + 1) <==> OnlyStart(strs[1..], p, i)
  {
    assert forall j :: 1 <= j < |strs| ==> strs[j] == strs[1..][j - 1];
    assert forall j :: 0 <= j < |strs| - 1 ==> strs[1..][j] == strs[j + 1];
  }

  /** The count is one exactly when a single string of the list starts with `p`. */
  lemma {:induction false} OneStartsIff(strs: seq<string>, p: string)
    ensures CountStarting(strs, p) == 1 <==> exists i: nat :: OnlyStart(strs, p, i)
  {
    if strs != [] {
      NoneStartsIff(strs[1..], p);
      OneStartsIff(strs[1..], p);
      if p <= strs[0] {
        assert forall j :: 1 <= j < |strs| ==> strs[j] == strs[1..][j - 1];
        assert forall j :: 0 <= j < |strs| - 1 ==> strs[1..][j] == strs[j + 1];
        assert OnlyStart(strs, p, 0) <==> CountStarting(strs[1..], p) == 0;
        assert forall i: nat :: OnlyStart(strs, p, i) ==> i == 0;
      } else {
        if i: nat :| OnlyStart(strs[1..], p, i) {
          OnlyStartInTail(strs, p, i);
        }
        if i: nat :| OnlyStart(strs, p, i) {
          OnlyStartInTail(strs, p, i - 1);
        }
      }
    }
  }

  /** The loop stops at this length. */
  predicate Stops(strs: seq<string>, s: string, length: nat) {
    CountStarting(strs, Prefix(s, length)) == 1 || length == |s|
  }

  predicate StopsFirst(strs: seq<string>, s: string, length: nat) {
    && MIN_LENGTH <= length && Stops(strs, s, length)
    && forall shorter :: MIN_LENGTH <= shorter < length ==> !Stops(strs, s, shorter)
  }

  /** The abbreviated string, or `None` if the loop would never stop. */
  method Abbreviate(strs: seq<string>, s: string) returns (r: Option<string>)
    ensures r.None? <==> forall length :: MIN_LENGTH <= length ==> !Stops(strs, s, length)
    ensures r.Some? ==> exists length :: StopsFirst(strs, s, length) && r.value == Prefix(s, length)
  {
    var length := MIN_LENGTH;
    while !Stops(strs, s, length) && length < |s|
      invariant MIN_LENGTH <= length
      invariant forall shorter :: MIN_LENGTH <= shorter < length ==> !Stops(strs, s, shorter)
    {
      length := length + 1;
    }
    if Stops(strs, s, length) {
      return Some(Prefix(s, length));
    }
    // From here on the prefix stays the whole string, so no later length stops the loop either.
    assert forall longer :: length <= longer ==> Prefix(s, longer) == Prefix(s, length);
    return None;
  }

  /** The loop runs forever exactly when the string is shorter than the starting length and is not the
      start of exactly one merge string. */
  lemma {:induction false} RunsForeverIff(strs: seq<string>, s: string)
    ensures (forall length :: MIN_LENGTH <= length ==> !Stops(strs, s, length))
       <==> |s| < MIN_LENGTH && CountStarting(strs, s) != 1
  {
    if |s| >= MIN_LENGTH {
      assert Stops(strs, s, |s|);
    } else {
      assert forall length :: MIN_LENGTH <= length ==> Prefix(s, length) == s;
      assert Stops(strs, s, MIN_LENGTH) <==> CountStarting(strs, s) == 1;
    }
  }

  /** Where the loop stops when it is at `length`; past the end of the string it never does. */
  function StopFrom(strs: seq<string>, s: string, length: nat): nat
    decreases |s| - length
  {
    if Stops(strs, s, length) || length >= |s| then length else StopFrom(strs, s, length + 1)
  }

  /** It is the first length at which the loop stops. */
  lemma {:induction false} StopsFirstAt(strs: seq<string>, s: string, length: nat, first: nat)
    requires MIN_LENGTH <= length <= first && StopsFirst(strs, s, first)
    ensures StopFrom(strs, s, length) == first
    decreases first - length
  {
    assert |s| <= length ==> Prefix(s, length) == Prefix(s, first) == s;
    if length < first {
      assert !Stops(strs, s, length);
      StopsFirstAt(strs, s, length + 1, first);
    }
  }

  /** Two undated merged appeals under one folder number have equal short strings, and the loop never stops. */
  lemma {:induction false} EqualShortStringsHang()
    ensures var s := MergeString(None, "1");
            forall length :: MIN_LENGTH <= length ==> !Stops([s, s], s, length)
  {
    var s := MergeString(None, "1");
    assert CountStarting([s, s][1..], s) == 1;
    assert CountStarting([s, s], s) == 2;
    RunsForeverIff([s, s], s);
  }

  lemma {:induction false} LongerStartsFewer(strs: seq<string>, p: string, q: string)
    requires p <= q
    ensures CountStarting(strs, q) <= CountStarting(strs, p)
  {
    if strs != [] {
      LongerStartsFewer(strs[1..], p, q);
    }
  }

  lemma {:induction false} MemberCounts(strs: seq<string>, i: nat)
    requires i < |strs|
    ensures CountStarting(strs, strs[i]) >= 1
  {
    if i > 0 {
      MemberCounts(strs[1..], i - 1);
    }
  }

  /** Where the loop stops, the prefix singles out its string exactly when the whole string does; it is
      then the shortest prefix of at least the starting length that does. */
  lemma {:induction false} StopsAtShortestUnique(strs: seq<string>, i: nat, length: nat)
    requires i < |strs| && StopsFirst(strs, strs[i], length)
    ensures CountStarting(strs, Prefix(strs[i], length)) == 1 <==> CountStarting(strs, strs[i]) == 1
    ensures forall shorter :: MIN_LENGTH <= shorter < length ==> CountStarting(strs, Prefix(strs[i], shorter)) != 1
    ensures |strs[i]| >= MIN_LENGTH ==> length <= |strs[i]|
  {
    var s := strs[i];
    assert s[..|s|] == s;
    LongerStartsFewer(strs, Prefix(s, length), s);
    MemberCounts(strs, i);
    assert |s| >= MIN_LENGTH ==> Stops(strs, s, |s|);
    forall shorter | MIN_LENGTH <= shorter < length
      ensures CountStarting(strs, Prefix(s, shorter)) != 1
    {
      assert !Stops(strs, s, shorter);
    }
  }

  // ---- Merge strings of distinct folders -----------------------------------------------------------

  lemma {:induction false} DateTextShape(d: Option<Date>)
    ensures |DateText(d)| == if d.Some? then 8 else 0
    ensures d.Some? ==> DateText(d)[0] != ' '
  {
  }

  /** What follows the lead tells a dated string from an undated one, and where the folder begins. */
  lemma {:induction false} MergeStringShape(d: Option<Date>, folder: string)
    ensures var s, n := MergeString(d, folder), |LEAD| + (if d.Some? then 10 else 2);
            n < |s| && s[n..] == folder + ")" && (s[|LEAD|] == ' ' <==> d.None?)
  {
    DateTextShape(d);
    var head := LEAD + DateText(d) + " (";
    assert MergeString(d, folder) == head + (folder + ")");
    assert head[|LEAD|] == (DateText(d) + " (")[0];
  }

  /** Up to the folder, two merge strings differ or have folders starting at the same place. */
  lemma {:induction false} FolderPlace(d1: Option<Date>, f1: string, d2: Option<Date>, f2: string)
    requires MergeString(d1, f1) <= MergeString(d2, f2)
    ensures d1.Some? <==> d2.Some?
    ensures f1 + ")" <= f2 + ")"
  {
    var s1, s2 := MergeString(d1, f1), MergeString(d2, f2);
    MergeStringShape(d1, f1);
    MergeStringShape(d2, f2);
    assert s1[|LEAD|] == s2[|LEAD|];
    SuffixOfPrefix(s1, s2, |LEAD| + if d1.Some? then 10 else 2);
  }

  lemma {:induction false} SuffixOfPrefix(s: string, t: string, n: nat)
    requires s <= t && n <= |s|
    ensures s[n..] <= t[n..]
  {
  }

  lemma {:induction false} ClosedFoldersDiffer(f1: string, f2: string)
    requires ')' !in f2 && f1 + ")" <= f2 + ")"
    ensures f1 == f2
  {
    assert (f1 + ")")[|f1|] == (f2 + ")")[|f1|];
    assert forall k :: 0 <= k < |f2| ==> f2[k] != ')';
    assert (f1 + ")")[..|f1|] == f1 && (f2 + ")")[..|f1|] == f2;
  }

  lemma {:induction false} CountsOnce(strs: seq<string>, i: nat)
    requires i < |strs| && forall j :: 0 <= j < |strs| && j != i ==> !(strs[i] <= strs[j])
    ensures CountStarting(strs, strs[i]) == 1
  {
    if i == 0 {
      assert forall j :: 0 <= j < |strs| - 1 ==> strs[1..][j] == strs[j + 1];
      NoneStarts(strs[1..], strs[0]);
    } else {
      assert forall j :: 0 <= j < |strs| - 1 ==> strs[1..][j] == strs[j + 1];
      CountsOnce(strs[1..], i - 1);
    }
  }

  lemma {:induction false} NoneStarts(strs: seq<string>, p: string)
    requires forall j :: 0 <= j < |strs| ==> !(p <= strs[j])
    ensures CountStarting(strs, p) == 0
  {
    if strs != [] {
      NoneStarts(strs[1..], p);
    }
  }

  /** With distinct folder numbers free of closing parentheses the loop stops for every merged appeal,
      even for one without a decision date, and at a prefix that only its own string starts with. */
  lemma {:induction false} DistinctFoldersAreFound(dates: seq<Option<Date>>, folders: seq<string>, strs: seq<string>,
                                                   i: nat, length: nat)
    requires |dates| == |folders| == |strs| && i < |strs|
    requires forall j :: 0 <= j < |strs| ==> strs[j] == MergeString(dates[j], folders[j])
    requires forall j :: 0 <= j < |folders| ==> ')' !in folders[j]
    requires forall j, k :: 0 <= j < k < |folders| ==> folders[j] != folders[k]
    ensures exists stop :: StopsFirst(strs, strs[i], stop)
    ensures StopsFirst(strs, strs[i], length) ==> CountStarting(strs, Prefix(strs[i], length)) == 1
  {
    forall j | 0 <= j < |strs| && j != i
      ensures !(strs[i] <= strs[j])
    {
      if strs[i] <= strs[j] {
        FolderPlace(dates[i], folders[i], dates[j], folders[j]);
        ClosedFoldersDiffer(folders[i], folders[j]);
      }
    }
    CountsOnce(strs, i);
    RunsForeverIff(strs, strs[i]);
    var some :| MIN_LENGTH <= some && Stops(strs, strs[i], some);
    var first := FirstStop(strs, strs[i], MIN_LENGTH, some);
    if StopsFirst(strs, strs[i], length) {
      StopsAtShortestUnique(strs, i, length);
    }
  }

  lemma {:induction false} FirstStop(strs: seq<string>, s: string, low: nat, some: nat) returns (first: nat)
    requires MIN_LENGTH <= low <= some && Stops(strs, s, some)
    requires forall shorter :: MIN_LENGTH <= shorter < low ==> !Stops(strs, s, shorter)
    ensures StopsFirst(strs, s, first)
    decreases some - low
  {
    if Stops(strs, s, low) {
      first := low;
    } else {
      first := FirstStop(strs, s, low + 1, some);
    }
  }
}
