/**
 * The daily leaderboard: three top-5 lists (coins, kills, deaths), each an
 * ascending array of entries pre-filled with empty sentinels, tagged with the
 * YYYYMMDD date it was created on and replaced by a fresh board when that
 * date changes.
 */
module Leaderboard {
  import opened Options
  import opened Text

  // ---------------------------------------------------------------------------
  // Calendar dates and their YYYYMMDD rendering

  type Month = m: nat | 1 <= m <= 12 witness 1
  type Day = d: nat | 1 <= d <= 31 witness 1

  /** A calendar date as the clock reports it (full year, 1-based month, day of month). */
  datatype Date = Date(year: nat, month: Month, day: Day)

  /** A month or day number, with a '0' in front when it has a single digit. */
  function Pad2(n: nat): string
  {
    (if n > 9 then "" else "0") + NatToString(n)
  }

  /** The date stamp: the year, then the month and the day, each padded to two digits. */
  function Yyyymmdd(d: Date): string
  {
    NatToString(d.year) + Pad2(d.month) + Pad2(d.day)
  }

  lemma Pad2Layout(n: nat)
    requires 1 <= n <= 31
    ensures |Pad2(n)| == 2 && AllDigits(Pad2(n)) && ParseNat(Pad2(n)) == n
  {
    ParseNatToString(n);
    if n > 9 {
      NatToStringLength(n);
      assert DigitCount(n / 10) == 1;
      assert Pad2(n) == NatToString(n);
    } else {
      ParseNatLeadingZero(NatToString(n));
    }
  }

  /** For a four-digit year the stamp has eight digits which read back as year, month and day. */
  lemma YyyymmddLayout(d: Date)
    requires 1000 <= d.year <= 9999
    ensures var r := Yyyymmdd(d);
      && |r| == 8 && AllDigits(r)
      && ParseNat(r[..4]) == d.year && ParseNat(r[4..6]) == d.month && ParseNat(r[6..8]) == d.day
  {
    var y, m, dd := NatToString(d.year), Pad2(d.month), Pad2(d.day);
    FourDigits(d.year);
    ParseNatToString(d.year);
    Pad2Layout(d.month);
    Pad2Layout(d.day);
    var r := Yyyymmdd(d);
    assert r == y + m + dd;
    assert r[..4] == y;
    assert r[4..6] == m;
    assert r[6..8] == dd;
  }

  /** Two different days (with four-digit years) never share a stamp, so a new day always resets the board. */
  lemma YyyymmddInjective(d1: Date, d2: Date)
    requires 1000 <= d1.year <= 9999 && 1000 <= d2.year <= 9999
    requires Yyyymmdd(d1) == Yyyymmdd(d2)
    ensures d1 == d2
  {
    YyyymmddLayout(d1);
    YyyymmddLayout(d2);
  }

  // ---------------------------------------------------------------------------
  // Entries and lists

  /** One leaderboard line; the ip is the identity key and is absent on sentinels. */
  datatype Entry = Entry(username: string, ip: Option<string>, number: nat)

  /** The empty entry a fresh board is filled with. */
  const Sentinel: Entry := Entry("", None, 0)

  const ListLength: nat := 5

  /** The three ranked statistics. */
  datatype Stat = Coins | Kills | Deaths

  /** A statistic reported for one player. */
  datatype Statline = Statline(username: string, ip: string, value: nat)

  predicate Sorted(s: seq<Entry>)
  {
    forall a, b :: 0 <= a < b < |s| ==> s[a].number <= s[b].number
  }

  /** The contents of a freshly filled list. */
  function EmptyList(): (r: seq<Entry>)
    ensures |r| == ListLength && Sorted(r)
    ensures forall k :: 0 <= k < |r| ==> r[k].number == 0 && r[k].ip == None
  {
    seq(ListLength, _ => Sentinel)
  }

  // ---------------------------------------------------------------------------
  // The specification of one insertion

  /** The first index at or after `j` whose entry has this ip. */
  function FindIpFrom(s: seq<Entry>, ip: string, j: nat): (r: Option<nat>)
    requires j <= |s|
    ensures r.Some? ==> j <= r.value < |s| && s[r.value].ip == Some(ip)
    ensures r.Some? ==> forall k :: j <= k < r.value ==> s[k].ip != Some(ip)
    ensures r.None? ==> forall k :: j <= k < |s| ==> s[k].ip != Some(ip)
    decreases |s| - j
  {
    if j == |s| then None
    else if s[j].ip == Some(ip) then Some(j)
    else FindIpFrom(s, ip, j + 1)
  }

  /** The first index whose entry has this ip, if any. */
  function FindIp(s: seq<Entry>, ip: string): (r: Option<nat>)
    ensures r.Some? ==> r.value < |s| && s[r.value].ip == Some(ip)
    ensures r.Some? ==> forall k :: 0 <= k < r.value ==> s[k].ip != Some(ip)
    ensures r.None? ==> forall k :: 0 <= k < |s| ==> s[k].ip != Some(ip)
  {
    FindIpFrom(s, ip, 0)
  }

  /** The highest index below `n` whose number is strictly below `value`, searching downwards. */
  function LastBelowUpTo(s: seq<Entry>, value: nat, n: nat): (r: Option<nat>)
    requires n <= |s|
    ensures r.Some? ==> r.value < n && s[r.value].number < value
    ensures r.Some? ==> forall k :: r.value < k < n ==> s[k].number >= value
    ensures r.None? ==> forall k :: 0 <= k < n ==> s[k].number >= value
  {
    if n == 0 then None
    else if value > s[n - 1].number then Some(n - 1)
    else LastBelowUpTo(s, value, n - 1)
  }

  function LastBelow(s: seq<Entry>, value: nat): Option<nat>
  {
    LastBelowUpTo(s, value, |s|)
  }

  /** An existing entry after a new report: the number only rises, the username is overwritten. */
  function Raise(e: Entry, line: Statline): (r: Entry)
    ensures r.ip == e.ip && r.username == line.username
    ensures r.number >= e.number && r.number >= line.value
    ensures r.number == e.number || r.number == line.value
  {
    e.(username := line.username, number := if e.number < line.value then line.value else e.number)
  }

  function Swap(s: seq<Entry>, i: nat): (r: seq<Entry>)
    requires i + 1 < |s|
    ensures |r| == |s|
  {
    s[i := s[i + 1]][i + 1 := s[i]]
  }

  /** One forward pass of adjacent swaps starting at index `i`. */
  function BubbleFrom(s: seq<Entry>, i: nat): (r: seq<Entry>)
    ensures |r| == |s|
    decreases |s| - i
  {
    if i + 1 < |s| then
      if s[i].number > s[i + 1].number then BubbleFrom(Swap(s, i), i + 1) else BubbleFrom(s, i + 1)
    else s
  }

  /** A swap only reorders the entries. */
  lemma SwapPermutes(s: seq<Entry>, i: nat)
    requires i + 1 < |s|
    ensures multiset(Swap(s, i)) == multiset(s)
  {
    var u := s[i := s[i + 1]];
    assert multiset(u) == multiset(s) - multiset{s[i]} + multiset{s[i + 1]};
    assert multiset(u[i + 1 := s[i]]) == multiset(u) - multiset{s[i + 1]} + multiset{s[i]};
  }

  /** The forward pass only reorders the entries. */
  lemma {:induction false} BubblePermutes(s: seq<Entry>, i: nat)
    ensures multiset(BubbleFrom(s, i)) == multiset(s)
    decreases |s| - i
  {
    if i + 1 < |s| {
      if s[i].number > s[i + 1].number {
        SwapPermutes(s, i);
        BubblePermutes(Swap(s, i), i + 1);
      } else {
        BubblePermutes(s, i + 1);
      }
    }
  }

  /** The minimum (index 0) leaves, entries 1..i move down one slot, the new entry lands at i. */
  function Evict(s: seq<Entry>, i: nat, e: Entry): seq<Entry>
    requires i < |s|
  {
    s[1..i + 1] + [e] + s[i + 1..]
  }

  /** What one insertion does to a list. */
  function Inserted(s: seq<Entry>, line: Statline): seq<Entry>
  {
    match FindIp(s, line.ip)
    case Some(i) => BubbleFrom(s[i := Raise(s[i], line)], i)
    case None =>
      match LastBelow(s, line.value)
      case Some(i) => Evict(s, i, Entry(line.username, Some(line.ip), line.value))
      case None => s
  }

  /** A report only reaches the list when it is at least the current minimum. */
  function AddStat(s: seq<Entry>, line: Statline): (r: seq<Entry>)
    requires |s| > 0
    ensures |r| == |s|
    ensures Sorted(s) ==> Sorted(r)
    ensures line.value < s[0].number ==> r == s
  {
    InsertedPreserves(s, line);
    if line.value >= s[0].number then Inserted(s, line) else s
  }

  /** The three lists of a board, as values. */
  datatype Standings = Standings(coins: seq<Entry>, kills: seq<Entry>, deaths: seq<Entry>)
  {
    function Get(stat: Stat): seq<Entry>
    {
      match stat
      case Coins => coins
      case Kills => kills
      case Deaths => deaths
    }

    /** Every list has five entries in ascending order. */
    predicate WellFormed()
    {
      && |coins| == ListLength && |kills| == ListLength && |deaths| == ListLength
      && Sorted(coins) && Sorted(kills) && Sorted(deaths)
    }

    /** One report reaches the list of its statistic and no other. */
    function Add(r: Report): (t: Standings)
      requires WellFormed()
      ensures t.WellFormed()
      ensures t.Get(r.stat) == AddStat(Get(r.stat), r.line)
      ensures r.stat != Coins ==> t.coins == coins
      ensures r.stat != Kills ==> t.kills == kills
      ensures r.stat != Deaths ==> t.deaths == deaths
    {
      match r.stat
      case Coins => this.(coins := AddStat(coins, r.line))
      case Kills => this.(kills := AddStat(kills, r.line))
      case Deaths => this.(deaths := AddStat(deaths, r.line))
    }
  }

  /** A statistic reported to the board. */
  datatype Report = Report(stat: Stat, line: Statline)

  /** The standings of a board created on a new day. */
  function EmptyStandings(): (t: Standings)
    ensures t.WellFormed()
    ensures forall stat: Stat :: t.Get(stat) == EmptyList()
  {
    Standings(EmptyList(), EmptyList(), EmptyList())
  }

  /** A sequence of reports applied in order. */
  function AddAll(t: Standings, rs: seq<Report>): (u: Standings)
    requires t.WellFormed()
    ensures u.WellFormed()
    decreases |rs|
  {
    if rs == [] then t else AddAll(t.Add(rs[0]), rs[1..])
  }

  lemma {:induction false} AddAllSnoc(t: Standings, rs: seq<Report>, r: Report)
    requires t.WellFormed()
    ensures AddAll(t, rs + [r]) == AddAll(t, rs).Add(r)
    decreases |rs|
  {
    if rs == [] {
      assert AddAll(t.Add(r), []) == t.Add(r);
    } else {
      assert (rs + [r])[1..] == rs[1..] + [r];
      AddAllSnoc(t.Add(rs[0]), rs[1..], r);
    }
  }

  /** Reports of other statistics leave a list alone. */
  lemma {:induction false} AddAllOther(t: Standings, rs: seq<Report>, stat: Stat)
    requires t.WellFormed()
    requires forall k :: 0 <= k < |rs| ==> rs[k].stat != stat
    ensures AddAll(t, rs).Get(stat) == t.Get(stat)
    decreases |rs|
  {
    if rs != [] {
      AddAllOther(t.Add(rs[0]), rs[1..], stat);
    }
  }

  // ---------------------------------------------------------------------------
  // Properties of an insertion

  /** Sorted apart from index i, whose entry is at least everything before it. */
  ghost predicate SortedExcept(s: seq<Entry>, i: nat)
  {
    && i < |s|
    && (forall a, b :: 0 <= a < b < |s| && a != i && b != i ==> s[a].number <= s[b].number)
    && (forall a :: 0 <= a < i ==> s[a].number <= s[i].number)
  }

  /** The forward pass restores order after the entry at i has been raised. */
  lemma {:induction false} BubbleSorts(s: seq<Entry>, i: nat)
    requires SortedExcept(s, i)
    ensures Sorted(BubbleFrom(s, i))
    decreases |s| - i
  {
    if i + 1 < |s| {
      if s[i].number > s[i + 1].number {
        var t := Swap(s, i);
        assert SortedExcept(t, i + 1) by {
          forall a, b | 0 <= a < b < |t| && a != i + 1 && b != i + 1
            ensures t[a].number <= t[b].number
          {
            if a == i { assert t[a] == s[i + 1] && t[b] == s[b]; }
          }
        }
        BubbleSorts(t, i + 1);
      } else {
        BubbleSorts(s, i + 1);
      }
    }
  }

  /** On a list already in order the forward pass swaps nothing. */
  lemma {:induction false} BubbleSortedNoop(s: seq<Entry>, i: nat)
    requires Sorted(s)
    ensures BubbleFrom(s, i) == s
    decreases |s| - i
  {
    if i + 1 < |s| { BubbleSortedNoop(s, i + 1); }
  }

  /** Raising one entry of a sorted list leaves it sorted apart from that entry. */
  lemma RaisedSortedExcept(s: seq<Entry>, i: nat, line: Statline)
    requires Sorted(s) && i < |s|
    ensures SortedExcept(s[i := Raise(s[i], line)], i)
  {
  }

  /** An eviction at the last index below the new value keeps the order. */
  lemma EvictSorted(s: seq<Entry>, i: nat, e: Entry)
    requires Sorted(s) && i < |s| && s[i].number < e.number
    requires forall k :: i < k < |s| ==> s[k].number >= e.number
    ensures Sorted(Evict(s, i, e))
  {
    var r := Evict(s, i, e);
    assert forall k :: 0 <= k < i ==> r[k] == s[k + 1];
    assert r[i] == e;
    assert forall k :: i < k < |s| ==> r[k] == s[k];
    forall a, b | 0 <= a < b < |r| ensures r[a].number <= r[b].number {
      if b < i {
        assert r[a] == s[a + 1] && r[b] == s[b + 1];
      } else if b == i {
        assert r[a] == s[a + 1];
      } else if a < i {
        assert r[a] == s[a + 1] && r[b] == s[b];
      } else if a > i {
        assert r[a] == s[a] && r[b] == s[b];
      }
    }
  }

  /** Every insertion keeps the length and the ascending order. */
  lemma InsertedPreserves(s: seq<Entry>, line: Statline)
    ensures |Inserted(s, line)| == |s|
    ensures Sorted(s) ==> Sorted(Inserted(s, line))
  {
    match FindIp(s, line.ip)
    case Some(i) =>
      if Sorted(s) {
        RaisedSortedExcept(s, i, line);
        BubbleSorts(s[i := Raise(s[i], line)], i);
      }
    case None =>
      match LastBelow(s, line.value)
      case Some(i) =>
        if Sorted(s) { EvictSorted(s, i, Entry(line.username, Some(line.ip), line.value)); }
      case None =>
  }

  /**
   * A reported ip already on the list: that entry (and only it) changes, its
   * number rising to the maximum of old and new and its username overwritten.
   */
  lemma InsertedExisting(s: seq<Entry>, line: Statline, i: nat)
    requires FindIp(s, line.ip) == Some(i)
    ensures var r := Inserted(s, line);
      && multiset(r) == multiset(s) - multiset{s[i]} + multiset{Raise(s[i], line)}
      && Raise(s[i], line) in r
  {
    var t := s[i := Raise(s[i], line)];
    BubblePermutes(t, i);
    assert multiset(t) == multiset(s) - multiset{s[i]} + multiset{Raise(s[i], line)};
    assert Raise(s[i], line) in multiset(t);
  }

  /**
   * A new ip with a value above the minimum: the new entry lands at the highest
   * index whose number is below its value, the entries under it move down one
   * slot and the minimum s[0] is evicted.
   */
  lemma InsertedNew(s: seq<Entry>, line: Statline)
    requires Sorted(s) && |s| > 0
    requires FindIp(s, line.ip) == None && line.value > s[0].number
    ensures LastBelow(s, line.value).Some?
    ensures var r := Inserted(s, line);
      var i := LastBelow(s, line.value).value;
      && |r| == |s| && r[i] == Entry(line.username, Some(line.ip), line.value)
      && (forall k :: 0 <= k < i ==> r[k] == s[k + 1] && r[k].number < line.value)
      && (forall k :: i < k < |r| ==> r[k] == s[k] && r[k].number >= line.value)
  {
    assert LastBelow(s, line.value).Some?;
  }

  /** An eviction drops the minimum and adds the new entry. */
  lemma EvictPermutes(s: seq<Entry>, i: nat, e: Entry)
    requires i < |s|
    ensures multiset(Evict(s, i, e)) == multiset(s) - multiset{s[0]} + multiset{e}
  {
    assert s == [s[0]] + s[1..i + 1] + s[i + 1..];
  }

  /** The entries of a new insertion are the old ones without the minimum, plus the new one. */
  lemma InsertedNewEvictsMinimum(s: seq<Entry>, line: Statline)
    requires Sorted(s) && |s| > 0
    requires FindIp(s, line.ip) == None && line.value > s[0].number
    ensures multiset(Inserted(s, line))
      == multiset(s) - multiset{s[0]} + multiset{Entry(line.username, Some(line.ip), line.value)}
  {
    assert LastBelow(s, line.value).Some?;
    EvictPermutes(s, LastBelow(s, line.value).value, Entry(line.username, Some(line.ip), line.value));
  }

  /** A new ip reporting exactly the minimum changes nothing: the comparison is strict. */
  lemma EqualToMinimumNoChange(s: seq<Entry>, line: Statline)
    requires Sorted(s) && |s| > 0
    requires FindIp(s, line.ip) == None && line.value == s[0].number
    ensures AddStat(s, line) == s
  {
    assert LastBelow(s, line.value) == None;
  }

  /** In the found case the list changes exactly when the raised entry differs from the old one. */
  lemma RaisedChanges(s: seq<Entry>, line: Statline, i: nat)
    requires Sorted(s) && FindIp(s, line.ip) == Some(i)
    ensures Inserted(s, line) != s <==> Raise(s[i], line) != s[i]
  {
    var t := s[i := Raise(s[i], line)];
    if Raise(s[i], line) == s[i] {
      assert t == s;
      BubbleSortedNoop(s, i);
    } else if Raise(s[i], line).number == s[i].number {
      assert Sorted(t);
      BubbleSortedNoop(t, i);
      assert t[i] != s[i];
    } else {
      InsertedExisting(s, line, i);
      assert multiset(s)[Raise(s[i], line)] + 1 == multiset(t)[Raise(s[i], line)];
    }
  }

  /** The list changes exactly when a number, a username or a position changes. */
  lemma InsertedChanges(s: seq<Entry>, line: Statline)
    requires Sorted(s)
    ensures Inserted(s, line) != s <==>
      match FindIp(s, line.ip)
      case Some(i) => Raise(s[i], line) != s[i]
      case None => LastBelow(s, line.value).Some?
  {
    match FindIp(s, line.ip)
    case Some(i) =>
      RaisedChanges(s, line, i);
    case None =>
      match LastBelow(s, line.value)
      case Some(i) =>
        var r := Inserted(s, line);
        assert r[i].ip == Some(line.ip);
      case None =>
  }

  // ---------------------------------------------------------------------------
  // The in-place update of one array

  /**
   * The forward pass of adjacent swaps from index j (the `while` loop of the
   * found case); `swapped` says whether any swap happened.
   */
  method BubbleForward(list: array<Entry>, j0: nat) returns (swapped: bool)
    requires j0 < list.Length
    modifies list
    ensures list[..] == BubbleFrom(old(list[..]), j0)
    ensures Sorted(old(list[..])) ==> !swapped
  {
    ghost var t := list[..];
    swapped := false;
    var j := j0;
    while j + 1 < list.Length
      invariant j0 <= j < list.Length
      invariant BubbleFrom(list[..], j) == BubbleFrom(t, j0)
      invariant Sorted(t) ==> !swapped && list[..] == t
    {
      ghost var cur := list[..];
      assert Sorted(t) ==> cur[j].number <= cur[j + 1].number;
      if list[j].number > list[j + 1].number {
        swapped := true;
        list[j], list[j + 1] := list[j + 1], list[j];
        assert list[..] == Swap(cur, j);
        assert BubbleFrom(cur, j) == BubbleFrom(Swap(cur, j), j + 1);
      } else {
        assert BubbleFrom(cur, j) == BubbleFrom(cur, j + 1);
      }
      j := j + 1;
    }
  }

  /** Entries 1..k move down one slot and `e` is written at k (the eviction loop). */
  method ShiftDown(list: array<Entry>, k: nat, e: Entry)
    requires k < list.Length
    modifies list
    ensures list[..] == Evict(old(list[..]), k, e)
  {
    ghost var s := list[..];
    var j := 0;
    while j < k
      invariant 0 <= j <= k
      invariant forall m :: 0 <= m < j ==> list[m] == s[m + 1]
      invariant forall m :: j <= m < list.Length ==> list[m] == s[m]
    {
      list[j] := list[j + 1];
      j := j + 1;
    }
    list[k] := e;
  }

  /**
   * The found case: the entry at index i, which carries the reported ip, takes
   * the larger number and the new username, then moves forward into place.
   */
  method RaiseAt(list: array<Entry>, i: nat, line: Statline) returns (updated: bool)
    requires Sorted(list[..]) && FindIp(list[..], line.ip) == Some(i)
    modifies list
    ensures list[..] == Inserted(old(list[..]), line)
    ensures updated <==> list[..] != old(list[..])
  {
    ghost var s := list[..];
    InsertedChanges(s, line);
    updated := false;
    var e := list[i];
    if e.number < line.value {
      e := e.(number := line.value);
      updated := true;
    }
    if e.username != line.username {
      e := e.(username := line.username);
      updated := true;
    }
    assert e == Raise(s[i], line);
    list[i] := e;
    assert list[..] == s[i := Raise(s[i], line)];
    var swapped := BubbleForward(list, i);
    updated := updated || swapped;
  }

  /**
   * Applies one report to a list in place and says whether anything changed
   * (whether the update callback fires).
   */
  method InsertIntoList(list: array<Entry>, line: Statline) returns (updated: bool)
    requires Sorted(list[..])
    modifies list
    ensures list[..] == Inserted(old(list[..]), line)
    ensures updated <==> list[..] != old(list[..])
  {
    ghost var s := list[..];
    var i := 0;
    while i < list.Length
      invariant 0 <= i <= list.Length
      invariant list[..] == s
      invariant forall k :: 0 <= k < i ==> s[k].ip != Some(line.ip)
    {
      if list[i].ip == Some(line.ip) {
        assert FindIp(s, line.ip) == Some(i);
        updated := RaiseAt(list, i, line);
        return;
      }
      i := i + 1;
    }
    assert FindIp(s, line.ip) == None;
    InsertedChanges(s, line);
    var k := list.Length;
    while k > 0
      invariant 0 <= k <= list.Length
      invariant list[..] == s
      invariant LastBelow(s, line.value) == LastBelowUpTo(s, line.value, k)
    {
      k := k - 1;
      if line.value > list[k].number {
        updated := true;
        ShiftDown(list, k, Entry(line.username, Some(line.ip), line.value));
        return;
      }
    }
    updated := false;
  }

  // ---------------------------------------------------------------------------
  // The board

  class Board {
    const coins: array<Entry>
    const kills: array<Entry>
    const deaths: array<Entry>
    /** The YYYYMMDD stamp of the day the board was created. */
    const date: string

    /** Three distinct arrays of five entries, each in ascending order. */
    ghost predicate Valid()
      reads coins, kills, deaths
    {
      && coins != kills && kills != deaths && coins != deaths
      && coins.Length == ListLength && kills.Length == ListLength && deaths.Length == ListLength
      && Sorted(coins[..]) && Sorted(kills[..]) && Sorted(deaths[..])
    }

    /** The lists' current contents. */
    function Current(): Standings
      reads coins, kills, deaths
    {
      Standings(coins[..], kills[..], deaths[..])
    }

    function List(stat: Stat): array<Entry>
    {
      match stat
      case Coins => coins
      case Kills => kills
      case Deaths => deaths
    }

    /** A board created on `today`, every list filled with sentinels. */
    constructor (today: Date)
      ensures Valid() && date == Yyyymmdd(today)
      ensures coins[..] == EmptyList() && kills[..] == EmptyList() && deaths[..] == EmptyList()
      ensures Current() == EmptyStandings()
      ensures fresh(coins) && fresh(kills) && fresh(deaths)
    {
      coins := new Entry[ListLength](_ => Sentinel);
      kills := new Entry[ListLength](_ => Sentinel);
      deaths := new Entry[ListLength](_ => Sentinel);
      date := Yyyymmdd(today);
    }

    /** The same board on its own day; a brand-new empty board on any other day. */
    method CheckForReset(today: Date) returns (b: Board)
      requires Valid()
      ensures b.Valid()
      ensures Yyyymmdd(today) == date ==> b == this
      ensures Yyyymmdd(today) != date ==>
        && fresh(b) && fresh(b.coins) && fresh(b.kills) && fresh(b.deaths)
        && b.date == Yyyymmdd(today)
        && b.coins[..] == EmptyList() && b.kills[..] == EmptyList() && b.deaths[..] == EmptyList()
        && b.Current() == EmptyStandings()
    {
      if Yyyymmdd(today) != date {
        b := new Board(today);
      } else {
        b := this;
      }
    }

    /**
     * Reports one statistic: below the current minimum it is ignored, otherwise
     * it is inserted; `updated` says whether the update broadcast fires.
     */
    method AddStats(stat: Stat, line: Statline) returns (updated: bool)
      requires Valid()
      modifies List(stat)
      ensures Valid()
      ensures List(stat)[..] == AddStat(old(List(stat)[..]), line)
      ensures Current() == old(Current()).Add(Report(stat, line))
      ensures updated <==> List(stat)[..] != old(List(stat)[..])
    {
      var list := List(stat);
      ghost var s := list[..];
      if line.value >= list[0].number {
        updated := InsertIntoList(list, line);
      } else {
        updated := false;
      }
      assert list[..] == AddStat(s, line);
      assert Sorted(list[..]);
    }
  }
}
