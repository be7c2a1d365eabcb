/** `online_cpu_ids` (daemon/src/daemon.cpp): the kernel's list of CPU ranges, such as "0-3,8,10-11". */
module CpuIds {
  import opened Wrappers
  import opened Ordering

  const MAXIMUM_CPU_COUNT := 256
  const MAXIMUM_CPU_ID := 4095

  // --- Numbers --------------------------------------------------------------

  predicate IsDigit(c: char) {
    '0' <= c <= '9'
  }

  predicate AllDigits(s: string) {
    forall c :: c in s ==> IsDigit(c)
  }

  function NumberOf(s: string): nat
    requires AllDigits(s)
  {
    if s == "" then 0
    else
      assert forall c :: c in s[..|s| - 1] ==> c in s;
      assert s[|s| - 1] in s;
      10 * NumberOf(s[..|s| - 1]) + (s[|s| - 1] as int - '0' as int)
  }

  /** Digits only, in range of a 32-bit unsigned integer, and at most the maximum. */
  function UnsignedValue(s: string, maximum: nat): Option<nat> {
    if s == "" || !AllDigits(s) then None
    else if NumberOf(s) >= 0x1_0000_0000 || NumberOf(s) > maximum then None
    else Some(NumberOf(s))
  }

  function Decimal(n: nat): (r: string)
    ensures r != "" && AllDigits(r)
  {
    var last := ('0' as int + n % 10) as char;
    if n < 10 then [last] else Decimal(n / 10) + [last]
  }

  lemma {:induction false} NumberOfDecimal(n: nat)
    ensures NumberOf(Decimal(n)) == n
  {
    var r := Decimal(n);
    if n < 10 {
      assert r[..0] == "";
    } else {
      NumberOfDecimal(n / 10);
      assert r[..|r| - 1] == Decimal(n / 10);
    }
  }

  // --- Specification --------------------------------------------------------

  /** The first occurrence of `c`, or the length of the text. */
  function Find(s: string, c: char): (i: nat)
    ensures i <= |s|
    ensures i < |s| ==> s[i] == c
    ensures forall k :: 0 <= k < i ==> s[k] != c
  {
    if s == "" || s[0] == c then 0 else 1 + Find(s[1..], c)
  }

  predicate IsSpace(c: char) {
    c == ' ' || c == '\t' || c == '\r' || c == '\n'
  }

  function TrimLeft(s: string): string {
    if s != "" && IsSpace(s[0]) then TrimLeft(s[1..]) else s
  }

  function TrimRight(s: string): string {
    if s != "" && IsSpace(s[|s| - 1]) then TrimRight(s[..|s| - 1]) else s
  }

  function Trim(s: string): string {
    TrimRight(TrimLeft(s))
  }

  /** One id, or two with a dash between them. */
  function ParseEntry(entry: string): Option<(nat, nat)> {
    var dash := Find(entry, '-');
    if entry == "" || (dash < |entry| && Find(entry[dash + 1..], '-') < |entry| - dash - 1) then None
    else
      var first :- UnsignedValue(entry[..dash], MAXIMUM_CPU_ID);
      var last :- if dash == |entry| then Some(first) else UnsignedValue(entry[dash + 1..], MAXIMUM_CPU_ID);
      if first > last || last - first + 1 > MAXIMUM_CPU_COUNT then None else Some((first, last))
  }

  /** The ids from `first` to `last`, unless one has been seen before or there are too many. */
  function AddRange(ids: seq<nat>, first: nat, last: nat): Option<seq<nat>>
    requires first <= last
    decreases last - first
  {
    if first in ids || |ids| >= MAXIMUM_CPU_COUNT then None
    else if first == last then Some(ids + [first])
    else AddRange(ids + [first], first + 1, last)
  }

  function ParseEntries(text: string, ids: seq<nat>): Option<seq<nat>>
    decreases |text|
  {
    var comma := Find(text, ',');
    var range :- ParseEntry(text[..comma]);
    var more :- if range.0 <= range.1 then AddRange(ids, range.0, range.1) else None;
    if comma == |text| then Some(more) else ParseEntries(text[comma + 1..], more)
  }

  function Parse(contents: string): Option<seq<nat>> {
    var text := Trim(contents);
    if text == "" then None else ParseEntries(text, [])
  }

  function Ids(first: nat, last: nat): (r: seq<nat>) {
    if first <= last then seq(last - first + 1, i => first + i) else []
  }

  // --- Whatever is accepted is bounded and without duplicates ----------------

  ghost predicate Acceptable(ids: seq<nat>) {
    |ids| <= MAXIMUM_CPU_COUNT && AllDifferent(ids) && forall id :: id in ids ==> id <= MAXIMUM_CPU_ID
  }

  lemma {:induction false} AddRangeBounds(ids: seq<nat>, first: nat, last: nat)
    requires Acceptable(ids) && first <= last <= MAXIMUM_CPU_ID
    ensures AddRange(ids, first, last).Some? ==>
      Acceptable(AddRange(ids, first, last).value) && AddRange(ids, first, last).value != []
    decreases last - first
  {
    if first !in ids && |ids| < MAXIMUM_CPU_COUNT {
      assert Acceptable(ids + [first]);
      if first < last {
        AddRangeBounds(ids + [first], first + 1, last);
      }
    }
  }

  lemma {:induction false} ParseEntriesBounds(text: string, ids: seq<nat>)
    requires Acceptable(ids)
    ensures ParseEntries(text, ids).Some? ==>
      Acceptable(ParseEntries(text, ids).value) && ParseEntries(text, ids).value != []
    decreases |text|
  {
    hide Acceptable, AddRange, UnsignedValue;
    var comma := Find(text, ',');
    var range := ParseEntry(text[..comma]);
    EntryBounds(text[..comma]);
    if range.Some? {
      AddRangeBounds(ids, range.value.0, range.value.1);
      var more := AddRange(ids, range.value.0, range.value.1);
      if more.Some? && comma < |text| {
        ParseEntriesBounds(text[comma + 1..], more.value);
      }
    }
  }

  lemma EntryBounds(entry: string)
    ensures ParseEntry(entry).Some? ==> ParseEntry(entry).value.0 <= ParseEntry(entry).value.1 <= MAXIMUM_CPU_ID
  {
    hide NumberOf, AllDigits;
  }

  lemma AcceptedIdsAreBounded(contents: string)
    ensures Parse(contents).Some? ==> Parse(contents).value != [] && Acceptable(Parse(contents).value)
  {
    hide ParseEntries, Trim;
    ParseEntriesBounds(Trim(contents), []);
  }

  // --- Steps of the parser ---------------------------------------------------

  lemma {:induction false} FindSkips(prefix: string, c: char, rest: string)
    requires forall k :: 0 <= k < |prefix| ==> prefix[k] != c
    ensures Find(prefix + rest, c) == |prefix| + Find(rest, c)
  {
    if prefix == "" {
      assert prefix + rest == rest;
    } else {
      assert (prefix + rest)[1..] == prefix[1..] + rest;
      FindSkips(prefix[1..], c, rest);
    }
  }

  lemma DigitsAreNot(s: string, c: char)
    requires AllDigits(s) && !IsDigit(c)
    ensures forall k :: 0 <= k < |s| ==> s[k] != c
  {
    forall k | 0 <= k < |s| ensures s[k] != c {
      assert s[k] in s;
    }
  }

  lemma FindHere(s: string, c: char)
    requires s != "" && s[0] == c
    ensures Find(s, c) == 0
  {
  }

  lemma FindNothing(c: char)
    ensures Find("", c) == 0
  {
  }

  lemma {:induction false} PrefixAllDifferent(a: seq<nat>, b: seq<nat>)
    requires AllDifferent(a + b)
    ensures AllDifferent(a)
  {
    forall i, j | 0 <= i < j < |a| ensures a[i] != a[j] {
      assert (a + b)[i] == a[i] && (a + b)[j] == a[j];
    }
  }

  lemma OneEntry(text: string, ids: seq<nat>, first: nat, last: nat, more: seq<nat>)
    requires Find(text, ',') == |text| && ParseEntry(text) == Some((first, last))
    requires first <= last && AddRange(ids, first, last) == Some(more)
    ensures ParseEntries(text, ids) == Some(more)
  {
    hide Find, ParseEntry, AddRange;
    assert text[..|text|] == text;
  }

  lemma EntryThenMore(entry: string, rest: string, ids: seq<nat>, first: nat, last: nat, more: seq<nat>)
    requires Find(entry + "," + rest, ',') == |entry| && ParseEntry(entry) == Some((first, last))
    requires first <= last && AddRange(ids, first, last) == Some(more)
    ensures ParseEntries(entry + "," + rest, ids) == ParseEntries(rest, more)
  {
    hide Find, ParseEntry, AddRange;
    var text := entry + "," + rest;
    assert text[..|entry|] == entry && text[|entry| + 1..] == rest;
  }

  // --- The loops ------------------------------------------------------------

  method OnlineCpuIds(contents: string) returns (r: Option<seq<nat>>)
    ensures r == Parse(contents)
  {
    hide Find, ParseEntry, Trim, AddRange;
    var text := Trim(contents);
    if text == "" {
      return None;
    }
    var result: seq<nat> := [];
    var unique: set<nat> := {};
    var position := 0;
    assert text[0..] == text;
    while position <= |text|
      invariant position <= |text|
      invariant ParseEntries(text, []) == ParseEntries(text[position..], result)
      invariant forall id :: id in unique <==> id in result
    {
      var rest := text[position..];
      var comma := Find(rest, ',');
      var range := ParseEntry(rest[..comma]);
      EntryBounds(rest[..comma]);
      if range.None? {
        return None;
      }
      var added;
      added, result, unique := InsertRange(result, unique, range.value.0, range.value.1);
      if !added {
        return None;
      }
      if comma == |rest| {
        return Some(result);
      }
      assert text[position + comma + 1..] == rest[comma + 1..];
      position := position + comma + 1;
    }
    r := None;
  }

  /** The inner loop: stop at the first id that is there already or one too many. */
  method InsertRange(ids: seq<nat>, seen: set<nat>, first: nat, last: nat)
    returns (added: bool, result: seq<nat>, unique: set<nat>)
    requires first <= last && forall id :: id in seen <==> id in ids
    ensures added <==> AddRange(ids, first, last).Some?
    ensures added ==> AddRange(ids, first, last) == Some(result) && forall id :: id in unique <==> id in result
  {
    result, unique := ids, seen;
    var id := first;
    while true
      invariant first <= id <= last
      invariant AddRange(ids, first, last) == AddRange(result, id, last)
      invariant forall x :: x in unique <==> x in result
      decreases last - id
    {
      if id in unique || |result| >= MAXIMUM_CPU_COUNT {
        added := false;
        return;
      }
      unique := unique + {id};
      result := result + [id];
      if id == last {
        added := true;
        return;
      }
      id := id + 1;
    }
  }
}
