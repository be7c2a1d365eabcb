/** The grammar of the kernel's CPU lists without reference to the parser: which texts are accepted, and as what. */
module CpuGrammar {
  import opened Wrappers
  import opened Ordering
  import opened CpuIds

  /** An entry as it is written; numbers may have leading zeros. */
  datatype Word = Number(digits: string) | Dashed(low: string, high: string)

  function LowDigits(w: Word): string { if w.Number? then w.digits else w.low }

  function HighDigits(w: Word): string { if w.Number? then w.digits else w.high }

  predicate WordOk(w: Word) {
    && LowDigits(w) != "" && AllDigits(LowDigits(w)) && HighDigits(w) != "" && AllDigits(HighDigits(w))
    && NumberOf(LowDigits(w)) <= NumberOf(HighDigits(w)) <= MAXIMUM_CPU_ID
    && NumberOf(HighDigits(w)) - NumberOf(LowDigits(w)) < MAXIMUM_CPU_COUNT
  }

  function Low(w: Word): nat
    requires WordOk(w)
  {
    NumberOf(LowDigits(w))
  }

  function High(w: Word): nat
    requires WordOk(w)
  {
    NumberOf(HighDigits(w))
  }

  function Written(w: Word): string {
    if w.Number? then w.digits else w.low + "-" + w.high
  }

  function Joined(words: seq<Word>): string {
    if words == [] then ""
    else if |words| == 1 then Written(words[0])
    else Written(words[0]) + "," + Joined(words[1..])
  }

  predicate WordsOk(words: seq<Word>) {
    forall w :: w in words ==> WordOk(w)
  }

  /** The ids of all entries, in order. */
  function Meant(words: seq<Word>): seq<nat>
    requires WordsOk(words)
  {
    if words == [] then []
    else
      assert words[0] in words && forall w :: w in words[1..] ==> w in words;
      Ids(Low(words[0]), High(words[0])) + Meant(words[1..])
  }

  ghost predicate ListOk(ids: seq<nat>) {
    AllDifferent(ids) && |ids| <= MAXIMUM_CPU_COUNT
  }

  // --- One entry ----------------------------------------------------------------------

  lemma NumberIsRead(digits: string)
    requires digits != "" && AllDigits(digits) && NumberOf(digits) <= MAXIMUM_CPU_ID
    ensures UnsignedValue(digits, MAXIMUM_CPU_ID) == Some(NumberOf(digits))
  {
    hide NumberOf;
  }

  lemma DashedRead(a: string, b: string)
    requires AllDigits(a) && AllDigits(b) && UnsignedValue(a, MAXIMUM_CPU_ID).Some?
    ensures ParseEntry(a + "-" + b) ==
      match UnsignedValue(b, MAXIMUM_CPU_ID)
      case None => None
      case Some(last) =>
        var first := UnsignedValue(a, MAXIMUM_CPU_ID).value;
        if first > last || last - first + 1 > MAXIMUM_CPU_COUNT then None else Some((first, last))
  {
    hide UnsignedValue, Find, AllDigits;
    DigitsAreNot(a, '-');
    DigitsAreNot(b, '-');
    FindSkips(a, '-', "-" + b);
    FindHere("-" + b, '-');
    assert a + "-" + b == a + ("-" + b);
    var e := a + "-" + b;
    assert e[..|a|] == a && e[|a| + 1..] == b;
  }

  lemma EntryRead(w: Word)
    requires WordOk(w)
    ensures ParseEntry(Written(w)) == Some((Low(w), High(w)))
  {
    hide NumberOf, Find, AllDigits, UnsignedValue;
    NumberIsRead(LowDigits(w));
    NumberIsRead(HighDigits(w));
    if w.Number? {
      DigitsAreNot(w.digits, '-');
      assert w.digits[..|w.digits|] == w.digits;
    } else {
      hide ParseEntry;
      DashedRead(w.low, w.high);
    }
  }

  lemma EntryParsed(entry: string) returns (w: Word)
    requires ParseEntry(entry).Some?
    ensures WordOk(w) && Written(w) == entry && ParseEntry(entry) == Some((Low(w), High(w)))
  {
    hide NumberOf, Find, AllDigits;
    var dash := Find(entry, '-');
    if dash == |entry| {
      assert entry[..dash] == entry;
      w := Number(entry);
    } else {
      w := Dashed(entry[..dash], entry[dash + 1..]);
      assert entry == entry[..dash] + "-" + entry[dash + 1..];
    }
  }

  lemma {:induction false} AddRangeExactly(ids: seq<nat>, first: nat, last: nat)
    requires first <= last && ListOk(ids)
    ensures AddRange(ids, first, last) ==
      if ListOk(ids + Ids(first, last)) then Some(ids + Ids(first, last)) else None
    decreases last - first
  {
    var all := ids + Ids(first, last);
    assert all[|ids|] == first;
    if first in ids {
      var i :| 0 <= i < |ids| && ids[i] == first;
      assert all[i] == all[|ids|];
    } else if |ids| < MAXIMUM_CPU_COUNT {
      assert ListOk(ids + [first]);
      if first == last {
        assert Ids(first, last) == [first];
      } else {
        assert all == ids + [first] + Ids(first + 1, last);
        AddRangeExactly(ids + [first], first + 1, last);
      }
    }
  }

  // --- The whole list --------------------------------------------------------------------

  lemma NoComma(w: Word)
    requires WordOk(w)
    ensures forall k :: 0 <= k < |Written(w)| ==> Written(w)[k] != ','
  {
    DigitsAreNot(LowDigits(w), ',');
    DigitsAreNot(HighDigits(w), ',');
  }

  lemma {:induction false} WordsRead(words: seq<Word>, ids: seq<nat>)
    requires words != [] && WordsOk(words) && ListOk(ids) && ListOk(ids + Meant(words))
    ensures ParseEntries(Joined(words), ids) == Some(ids + Meant(words))
    decreases |words|
  {
    hide ParseEntry, Written, Find, AllDifferent, AddRange, WordOk, ParseEntries, Ids;
    var head, rest := words[0], words[1..];
    assert head in words && forall w :: w in rest ==> w in words;
    var text, more := Written(head), ids + Ids(Low(head), High(head));
    LowIsLower(head);
    assert ids + Meant(words) == more + Meant(rest);
    EntryRead(head);
    NoComma(head);
    PrefixAllDifferent(more, Meant(rest));
    AddRangeExactly(ids, Low(head), High(head));
    if |words| == 1 {
      FindSkips(text, ',', "");
      FindNothing(',');
      assert text + "" == text && more + [] == more;
      OneEntry(text, ids, Low(head), High(head), more);
    } else {
      FindSkips(text, ',', "," + Joined(rest));
      FindHere("," + Joined(rest), ',');
      assert text + ("," + Joined(rest)) == text + "," + Joined(rest);
      EntryThenMore(text, Joined(rest), ids, Low(head), High(head), more);
      WordsRead(rest, more);
    }
  }

  lemma LowIsLower(w: Word)
    requires WordOk(w)
    ensures Low(w) <= High(w)
  {
  }

  /** What an accepted text begins with, and what its rest adds. */
  lemma FirstEntry(text: string, ids: seq<nat>)
    requires ParseEntries(text, ids).Some?
    ensures var comma := Find(text, ',');
      && ParseEntry(text[..comma]).Some?
      && var range := ParseEntry(text[..comma]).value;
      && range.0 <= range.1 && AddRange(ids, range.0, range.1).Some?
      && var more := AddRange(ids, range.0, range.1).value;
      && ParseEntries(text, ids) == if comma == |text| then Some(more) else ParseEntries(text[comma + 1..], more)
  {
    hide Find, ParseEntry, AddRange;
  }

  lemma OneMoreWord(w: Word, rest: seq<Word>)
    requires WordOk(w) && WordsOk(rest)
    ensures WordsOk([w] + rest) && Meant([w] + rest) == Ids(Low(w), High(w)) + Meant(rest)
    ensures Joined([w] + rest) == if rest == [] then Written(w) else Written(w) + "," + Joined(rest)
  {
    hide WordOk, Written, Ids;
    assert ([w] + rest)[1..] == rest;
  }

  lemma {:induction false} WordsParsed(text: string, ids: seq<nat>) returns (words: seq<Word>)
    requires ListOk(ids) && ParseEntries(text, ids).Some?
    ensures words != [] && WordsOk(words) && Joined(words) == text
    ensures ParseEntries(text, ids) == Some(ids + Meant(words)) && ListOk(ids + Meant(words))
    decreases |text|
  {
    hide ParseEntries, ParseEntry, Written, Joined, Meant, ListOk, AddRange, WordOk, WordsOk, Ids;
    FirstEntry(text, ids);
    var comma := Find(text, ',');
    var w := EntryParsed(text[..comma]);
    AddRangeExactly(ids, Low(w), High(w));
    var more, rest := ids + Ids(Low(w), High(w)), [];
    if comma < |text| {
      rest := WordsParsed(text[comma + 1..], more);
      assert text == text[..comma] + "," + text[comma + 1..];
    } else {
      NoWords();
      assert text[..comma] == text && more + Meant(rest) == more;
    }
    words := [w] + rest;
    OneMoreWord(w, rest);
    assert ids + Meant(words) == more + Meant(rest);
  }

  lemma NoWords()
    ensures WordsOk([]) && Meant([]) == []
  {
  }

  // --- Space around it ---------------------------------------------------------------------

  predicate Spaces(s: string) {
    forall c :: c in s ==> IsSpace(c)
  }

  predicate Dense(s: string) {
    s == "" || (!IsSpace(s[0]) && !IsSpace(s[|s| - 1]))
  }

  lemma {:induction false} LeftTrimmed(s: string) returns (left: string)
    ensures Spaces(left) && s == left + TrimLeft(s)
    ensures TrimLeft(s) == "" || !IsSpace(TrimLeft(s)[0])
  {
    if s != "" && IsSpace(s[0]) {
      left := LeftTrimmed(s[1..]);
      left := [s[0]] + left;
    } else {
      left := "";
    }
  }

  lemma {:induction false} RightTrimmed(s: string) returns (right: string)
    ensures Spaces(right) && s == TrimRight(s) + right
    ensures TrimRight(s) == "" || (TrimRight(s)[0] == s[0] && !IsSpace(TrimRight(s)[|TrimRight(s)| - 1]))
  {
    if s != "" && IsSpace(s[|s| - 1]) {
      right := RightTrimmed(s[..|s| - 1]);
      right := right + [s[|s| - 1]];
    } else {
      right := "";
    }
  }

  lemma Trimmed(s: string) returns (left: string, right: string)
    ensures Spaces(left) && Spaces(right) && s == left + Trim(s) + right && Dense(Trim(s))
  {
    left := LeftTrimmed(s);
    right := RightTrimmed(TrimLeft(s));
  }

  lemma {:induction false} TrimsLeft(left: string, text: string)
    requires Spaces(left) && text != "" && !IsSpace(text[0])
    ensures TrimLeft(left + text) == text
  {
    if left == "" {
      assert left + text == text;
    } else {
      assert left[0] in left && (left + text)[1..] == left[1..] + text;
      assert forall c :: c in left[1..] ==> c in left;
      TrimsLeft(left[1..], text);
    }
  }

  lemma {:induction false} TrimsRight(text: string, right: string)
    requires Spaces(right) && text != "" && !IsSpace(text[|text| - 1])
    ensures TrimRight(text + right) == text
  {
    if right == "" {
      assert text + right == text;
    } else {
      var front := right[..|right| - 1];
      assert right[|right| - 1] in right && (text + right)[..|text + right| - 1] == text + front;
      assert forall c :: c in front ==> c in right;
      TrimsRight(text, front);
    }
  }

  lemma Trims(left: string, text: string, right: string)
    requires Spaces(left) && Spaces(right) && text != "" && Dense(text)
    ensures Trim(left + text + right) == text
  {
    assert left + text + right == left + (text + right);
    TrimsLeft(left, text + right);
    TrimsRight(text, right);
  }

  lemma WrittenIsDense(w: Word)
    requires WordOk(w)
    ensures Written(w) != "" && Dense(Written(w))
  {
    hide NumberOf;
    var low, high := LowDigits(w), HighDigits(w);
    assert low[0] in low && high[|high| - 1] in high;
  }

  lemma DenseAround(a: string, b: string)
    requires a != "" && b != "" && Dense(a) && Dense(b)
    ensures Dense(a + "," + b)
  {
  }

  lemma {:induction false} JoinedIsDense(words: seq<Word>)
    requires words != [] && WordsOk(words)
    ensures Joined(words) != "" && Dense(Joined(words))
    decreases |words|
  {
    hide WordOk, Written, Dense;
    assert words[0] in words && forall w :: w in words[1..] ==> w in words;
    WrittenIsDense(words[0]);
    if |words| > 1 {
      JoinedIsDense(words[1..]);
      DenseAround(Written(words[0]), Joined(words[1..]));
    }
  }

  // --- What is accepted ------------------------------------------------------------------------

  /** The words of a list with space around it; their ids are different and not too many. */
  ghost predicate IsList(contents: string, left: string, words: seq<Word>, right: string, ids: seq<nat>) {
    && contents == left + Joined(words) + right && Spaces(left) && Spaces(right)
    && words != [] && WordsOk(words) && ids == Meant(words) && ListOk(ids)
  }

  /** A text is accepted exactly when it is such a list, and gives its ids in the order in which they are listed. */
  lemma AcceptsExactly(contents: string, ids: seq<nat>)
    ensures Parse(contents) == Some(ids) <==> exists left, words, right :: IsList(contents, left, words, right, ids)
  {
    hide Trim, ParseEntries, Joined, Meant, WordsOk;
    if Parse(contents) == Some(ids) {
      var left, right := Trimmed(contents);
      assert ListOk([]);
      var words := WordsParsed(Trim(contents), []);
      assert [] + Meant(words) == Meant(words);
      assert IsList(contents, left, words, right, ids);
    }
    forall left, words, right | IsList(contents, left, words, right, ids) ensures Parse(contents) == Some(ids) {
      JoinedIsDense(words);
      Trims(left, Joined(words), right);
      assert ListOk([]) && [] + Meant(words) == Meant(words);
      WordsRead(words, []);
    }
  }

  // --- Printing ------------------------------------------------------------------------------

  datatype Range = One(id: nat) | Span(first: nat, last: nat)

  function First(r: Range): nat { if r.One? then r.id else r.first }

  function Last(r: Range): nat { if r.One? then r.id else r.last }

  function PrintedRange(r: Range): Word {
    if r.One? then Number(Decimal(r.id)) else Dashed(Decimal(r.first), Decimal(r.last))
  }

  function PrintedRanges(ranges: seq<Range>): seq<Word> {
    if ranges == [] then [] else [PrintedRange(ranges[0])] + PrintedRanges(ranges[1..])
  }

  function Print(ranges: seq<Range>): string {
    Joined(PrintedRanges(ranges))
  }

  /** The ids of all ranges, in order. */
  function Flattened(ranges: seq<Range>): seq<nat> {
    if ranges == [] then [] else Ids(First(ranges[0]), Last(ranges[0])) + Flattened(ranges[1..])
  }

  predicate Printable(r: Range) {
    First(r) <= Last(r) <= MAXIMUM_CPU_ID && Last(r) - First(r) < MAXIMUM_CPU_COUNT
  }

  lemma PrintedIsMeant(r: Range)
    requires Printable(r)
    ensures WordOk(PrintedRange(r)) && Low(PrintedRange(r)) == First(r) && High(PrintedRange(r)) == Last(r)
  {
    hide Decimal, NumberOf, AllDigits;
    NumberOfDecimal(First(r));
    NumberOfDecimal(Last(r));
  }

  lemma {:induction false} PrintedAreMeant(ranges: seq<Range>)
    requires forall r :: r in ranges ==> Printable(r)
    ensures WordsOk(PrintedRanges(ranges)) && Meant(PrintedRanges(ranges)) == Flattened(ranges)
  {
    hide Printable, PrintedRange, WordsOk, Meant, Ids;
    if ranges == [] {
      NoWords();
    } else {
      assert ranges[0] in ranges && forall r :: r in ranges[1..] ==> r in ranges;
      PrintedIsMeant(ranges[0]);
      PrintedAreMeant(ranges[1..]);
      OneMoreWord(PrintedRange(ranges[0]), PrintedRanges(ranges[1..]));
    }
  }

  /** Reading back a printed list of disjoint ranges, with the newline the kernel adds, gives its ids in order. */
  lemma ParseUndoesPrint(ranges: seq<Range>)
    requires ranges != [] && forall r :: r in ranges ==> Printable(r)
    requires AllDifferent(Flattened(ranges)) && |Flattened(ranges)| <= MAXIMUM_CPU_COUNT
    ensures Parse(Print(ranges)) == Some(Flattened(ranges))
    ensures Parse(Print(ranges) + "\n") == Some(Flattened(ranges))
  {
    hide Parse, Joined, Meant, WordsOk, Printable, Flattened, AllDifferent;
    var text, words := Print(ranges), PrintedRanges(ranges);
    PrintedAreMeant(ranges);
    assert text == "" + text + "" && text + "\n" == "" + text + "\n";
    assert IsList(text, "", words, "", Flattened(ranges));
    assert IsList(text + "\n", "", words, "\n", Flattened(ranges));
    AcceptsExactly(text, Flattened(ranges));
    AcceptsExactly(text + "\n", Flattened(ranges));
  }
}
