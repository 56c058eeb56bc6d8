/** Putting a complete FEC block in order: the parity packets are dropped and the data packets moved,
    lowest number first, from the pending list to the completed one. */
module VideoStaging {
  import opened SequenceNumbers
  import opened VideoWindow

  function DataOf(s: seq<Entry>): (r: seq<Entry>)
    ensures |r| <= |s|
  {
    if s == [] then []
    else DataOf(s[..|s| - 1]) + if s[|s| - 1].parity then [] else [s[|s| - 1]]
  }

  lemma DataSnoc(s: seq<Entry>, e: Entry)
    ensures DataOf(s + [e]) == DataOf(s) + if e.parity then [] else [e]
  {
    assert (s + [e])[..|s + [e]| - 1] == s;
  }

  lemma {:induction false} DataJoin(a: seq<Entry>, b: seq<Entry>)
    ensures DataOf(a + b) == DataOf(a) + DataOf(b)
    decreases |b|
  {
    if b == [] {
      assert a + b == a;
    } else {
      var b', e := b[..|b| - 1], b[|b| - 1];
      assert a + b == (a + b') + [e];
      DataSnoc(a + b', e);
      DataJoin(a, b');
    }
  }

  /** What DataOf keeps are exactly the entries that are not parity. */
  lemma {:induction false} DataMembers(s: seq<Entry>, e: Entry)
    ensures e in DataOf(s) <==> e in s && !e.parity
  {
    if s != [] {
      DataMembers(s[..|s| - 1], e);
      assert s == s[..|s| - 1] + [s[|s| - 1]];
    }
  }

  lemma {:induction false} DataIdle(s: seq<Entry>)
    requires forall i :: 0 <= i < |s| ==> !s[i].parity
    ensures DataOf(s) == s
  {
    if s != [] {
      DataIdle(s[..|s| - 1]);
      assert s == s[..|s| - 1] + [s[|s| - 1]];
    }
  }

  lemma {:induction false} DataAgain(s: seq<Entry>)
    ensures forall i :: 0 <= i < |DataOf(s)| ==> !DataOf(s)[i].parity
  {
    if s != [] { DataAgain(s[..|s| - 1]); }
  }

  lemma {:induction false} DataShrinks(s: seq<Entry>)
    ensures |DataOf(s)| == |s| ==> DataOf(s) == s
  {
    if s != [] {
      DataShrinks(s[..|s| - 1]);
      assert s == s[..|s| - 1] + [s[|s| - 1]];
    }
  }

  /** All numbers lie in the half circle above low. */
  ghost predicate Spread(low: U16, s: seq<Entry>) {
    forall i :: 0 <= i < |s| ==> OffsetOf(low, s[i]) < 0x8000
  }

  ghost predicate AscendingFrom(low: U16, s: seq<Entry>) {
    forall i, j :: 0 <= i < j < |s| ==> OffsetOf(low, s[i]) < OffsetOf(low, s[j])
  }

  /** Every entry of s lies at place o or later. */
  ghost predicate AllFrom(low: U16, s: seq<Entry>, o: nat) {
    forall i :: 0 <= i < |s| ==> o <= OffsetOf(low, s[i])
  }

  ghost predicate AllBefore(low: U16, s: seq<Entry>, o: nat) {
    forall i :: 0 <= i < |s| ==> OffsetOf(low, s[i]) < o
  }

  lemma ComparesInHalf(low: U16, x: U16, y: U16)
    requires Offset(low, x) < 0x8000 && Offset(low, y) < 0x8000
    ensures IsBefore16(x, y) <==> Offset(low, x) < Offset(low, y)
  {
    BeforeInWindow(low, x, y);
  }

  /** The remaining data after the sought packet has been taken out. */
  lemma TakenOut(s: seq<Entry>, k: nat)
    requires k < |s| && !s[k].parity
    ensures DataOf(DataOf(s[..k]) + s[k + 1..]) == DataOf(s[..k]) + DataOf(s[k + 1..])
    ensures DataOf(s) == DataOf(s[..k]) + [s[k]] + DataOf(s[k + 1..])
  {
    FrontFiltered(s[..k], s[k + 1..]);
    MiddleKept(s[..k], s[k], s[k + 1..]);
    ThreeParts(s, k);
  }

  lemma ThreeParts<T>(s: seq<T>, k: nat)
    requires k < |s|
    ensures s == s[..k] + [s[k]] + s[k + 1..]
  {}

  lemma FrontFiltered(front: seq<Entry>, back: seq<Entry>)
    ensures DataOf(DataOf(front) + back) == DataOf(front) + DataOf(back)
  {
    DataAgain(front); DataIdle(DataOf(front));
    DataJoin(DataOf(front), back);
  }

  lemma MiddleKept(front: seq<Entry>, e: Entry, back: seq<Entry>)
    requires !e.parity
    ensures DataOf(front + [e] + back) == DataOf(front) + [e] + DataOf(back)
  {
    DataSnoc(front, e);
    DataJoin(front + [e], back);
  }

  lemma Recounted(a: seq<Entry>, e: Entry, b: seq<Entry>)
    ensures multiset(a + [e] + b) == multiset(a + b) + multiset{e}
  {
    assert a + [e] + b == a + ([e] + b);
  }

  lemma {:induction false} AscendingIsIdentity(low: U16, s: seq<Entry>, n: nat)
    requires |s| == n && AscendingFrom(low, s) && AllBefore(low, s, n)
    ensures forall i :: 0 <= i < n ==> OffsetOf(low, s[i]) == i
  {
    forall i | 0 <= i < n
      ensures OffsetOf(low, s[i]) == i
    {
      AtLeast(low, s, i);
      AtMost(low, s, i, n);
    }
  }

  lemma {:induction false} AtLeast(low: U16, s: seq<Entry>, i: nat)
    requires AscendingFrom(low, s) && i < |s|
    ensures i <= OffsetOf(low, s[i])
  {
    if i > 0 { AtLeast(low, s, i - 1); }
  }

  lemma {:induction false} AtMost(low: U16, s: seq<Entry>, i: nat, n: nat)
    requires |s| == n && AscendingFrom(low, s) && AllBefore(low, s, n) && i < n
    ensures OffsetOf(low, s[i]) <= i
    decreases n - i
  {
    if i < n - 1 { AtMost(low, s, i + 1, n); }
  }

  // ----- one walk along the list

  /** Of the entries before place j none that is data has the wanted number, and lowest is at or before all
      of those. */
  ghost predicate Walked(was: seq<Entry>, j: nat, low: U16, wanted: U16, lowest: U16) {
    && j <= |was|
    && (forall i :: 0 <= i < j && !was[i].parity ==>
      was[i].packet.seqNum != wanted && Offset(low, lowest) <= OffsetOf(low, was[i]))
    && IsOneOf(was, lowest)
  }

  /** The number is that of the first entry or of a data entry. */
  ghost predicate IsOneOf(was: seq<Entry>, lowest: U16) {
    exists i :: 0 <= i < |was| && (i == 0 || !was[i].parity) && was[i].packet.seqNum == lowest
  }

  lemma WalkBegins(was: seq<Entry>, low: U16, wanted: U16)
    requires was != []
    ensures Walked(was, 0, low, wanted, was[0].packet.seqNum) && AtPlace(was, was, 0, 0)
  {
    assert DataOf(was[..0]) + was[0..] == was;
  }

  /** What is pending once the parity before place j of was is gone; p is the place in it that corresponds to
      place j of was. */
  ghost predicate AtPlace(now: seq<Entry>, was: seq<Entry>, j: nat, p: nat) {
    j <= |was| && p == |DataOf(was[..j])| && |now| - p == |was| - j && now == DataOf(was[..j]) + was[j..]
  }

  lemma PlaceHolds(now: seq<Entry>, was: seq<Entry>, j: nat, p: nat)
    requires AtPlace(now, was, j, p) && j < |was|
    ensures p < |now| && now[p] == was[j]
    ensures now[..p] + now[p + 1..] == DataOf(was[..j]) + was[j + 1..]
  {}

  lemma WalkEnds(now: seq<Entry>, was: seq<Entry>, j: nat, p: nat)
    requires AtPlace(now, was, j, p) && p >= |now|
    ensures j == |was| && now == DataOf(was)
  {
    assert was[..|was|] == was && was[|was|..] == [];
  }

  lemma WalkSkipsParity(now: seq<Entry>, was: seq<Entry>, j: nat, p: nat, low: U16, wanted: U16, lowest: U16)
    requires Walked(was, j, low, wanted, lowest) && AtPlace(now, was, j, p) && j < |was| && was[j].parity
    ensures p < |now| && Walked(was, j + 1, low, wanted, lowest)
    ensures AtPlace(now[..p] + now[p + 1..], was, j + 1, p)
  {
    PlaceHolds(now, was, j, p);
    assert was[..j + 1] == was[..j] + [was[j]];
    DataSnoc(was[..j], was[j]);
  }

  lemma PlacePasses(now: seq<Entry>, was: seq<Entry>, j: nat, p: nat)
    requires AtPlace(now, was, j, p) && j < |was| && !was[j].parity
    ensures AtPlace(now, was, j + 1, p + 1)
  {
    assert was[..j + 1] == was[..j] + [was[j]];
    DataSnoc(was[..j], was[j]);
    assert now == DataOf(was[..j + 1]) + was[j + 1..];
  }

  lemma WalkPasses(now: seq<Entry>, was: seq<Entry>, j: nat, p: nat, low: U16, wanted: U16, lowest: U16)
    requires Walked(was, j, low, wanted, lowest) && AtPlace(now, was, j, p) && j < |was|
    requires !was[j].parity && was[j].packet.seqNum != wanted && Spread(low, was)
    ensures var next := if IsBefore16(was[j].packet.seqNum, lowest) then was[j].packet.seqNum else lowest;
      Walked(was, j + 1, low, wanted, next)
    ensures AtPlace(now, was, j + 1, p + 1)
  {
    PlacePasses(now, was, j, p);
    var i :| 0 <= i < |was| && (i == 0 || !was[i].parity) && was[i].packet.seqNum == lowest;
    ComparesInHalf(low, was[j].packet.seqNum, lowest);
  }

  // ----- the walks together

  /** What the walks keep: everything moved lies before place bound, in ascending order; all data not yet
      moved lies at bound or later, and at the wanted place or later; together they are the data there was. */
  ghost predicate Staging(low: U16, first: seq<Entry>, pending: seq<Entry>, done: seq<Entry>, bound: nat, wanted: nat) {
    && Spread(low, pending) && DistinctNumbers(pending)
    && AllFrom(low, DataOf(pending), bound) && AllFrom(low, DataOf(pending), wanted)
    && AllBefore(low, done, bound) && AscendingFrom(low, done)
    && multiset(DataOf(first)) == multiset(DataOf(pending)) + multiset(done)
  }

  lemma StagingBegins(low: U16, first: seq<Entry>)
    requires Spread(low, first) && DistinctNumbers(first)
    ensures Staging(low, first, first, [], 0, 0)
  {}

  lemma {:induction false} DataDistinct(s: seq<Entry>)
    requires DistinctNumbers(s)
    ensures DistinctNumbers(DataOf(s))
  {
    if s != [] {
      var s', e := s[..|s| - 1], s[|s| - 1];
      DataDistinct(s');
      forall i | 0 <= i < |DataOf(s')|
        ensures DataOf(s')[i].packet.seqNum != e.packet.seqNum
      {
        DataMembers(s', DataOf(s')[i]);
      }
    }
  }

  lemma TakenOutDistinct(s: seq<Entry>, k: nat)
    requires DistinctNumbers(s) && k < |s|
    ensures DistinctNumbers(DataOf(s[..k]) + s[k + 1..])
    ensures forall e :: e in DataOf(s[..k]) + s[k + 1..] ==> e in s && e.packet.seqNum != s[k].packet.seqNum
  {
    DataDistinct(s[..k]);
    forall i | 0 <= i < |DataOf(s[..k])|
      ensures exists l :: 0 <= l < k && s[l] == DataOf(s[..k])[i]
    {
      DataMembers(s[..k], DataOf(s[..k])[i]);
    }
  }

  lemma AllLater(low: U16, s: seq<Entry>, rest: seq<Entry>, e: Entry, wanted: nat)
    requires AllFrom(low, DataOf(s), wanted) && OffsetOf(low, e) == wanted
    requires forall x :: x in rest ==> x in s && x.packet.seqNum != e.packet.seqNum
    ensures AllFrom(low, DataOf(rest), wanted + 1)
  {
    forall i | 0 <= i < |DataOf(rest)|
      ensures wanted + 1 <= OffsetOf(low, DataOf(rest)[i])
    {
      var x := DataOf(rest)[i];
      DataMembers(rest, x);
      DataMembers(s, x);
      var k :| 0 <= k < |DataOf(s)| && DataOf(s)[k] == x;
      DistanceInjective(low, x.packet.seqNum, e.packet.seqNum);
    }
  }

  lemma MembersSpread(low: U16, s: seq<Entry>, t: seq<Entry>)
    requires Spread(low, s) && forall e :: e in t ==> e in s
    ensures Spread(low, t)
  {
    forall i | 0 <= i < |t|
      ensures OffsetOf(low, t[i]) < 0x8000
    {
      assert t[i] in s;
    }
  }

  lemma MovedAscending(low: U16, done: seq<Entry>, e: Entry, bound: nat, wanted: nat)
    requires AllBefore(low, done, bound) && AscendingFrom(low, done) && bound <= OffsetOf(low, e) == wanted
    ensures AllBefore(low, done + [e], wanted + 1) && AscendingFrom(low, done + [e])
  {}

  /** The wanted packet was found at place k and moved. */
  lemma StagingFinds(low: U16, first: seq<Entry>, pending: seq<Entry>, done: seq<Entry>, bound: nat, wanted: nat,
                     k: nat)
    requires Staging(low, first, pending, done, bound, wanted) && k < |pending| && !pending[k].parity
    requires OffsetOf(low, pending[k]) == wanted
    ensures Staging(low, first, DataOf(pending[..k]) + pending[k + 1..], done + [pending[k]], wanted + 1, wanted + 1)
  {
    var e, rest := pending[k], DataOf(pending[..k]) + pending[k + 1..];
    DataMembers(pending, e);
    TakenOut(pending, k);
    TakenOutDistinct(pending, k);
    MembersSpread(low, pending, rest);
    AllLater(low, pending, rest, e, wanted);
    MovedAscending(low, done, e, bound, wanted);
    Recounted(DataOf(pending[..k]), e, DataOf(pending[k + 1..]));
    assert multiset(done + [e]) == multiset(done) + multiset{e};
  }

  /** The wanted number is not there: the search goes on from the lowest number met. */
  lemma StagingMisses(low: U16, first: seq<Entry>, pending: seq<Entry>, done: seq<Entry>, bound: nat, wanted: nat,
                      sought: U16, lowest: U16)
    requires Staging(low, first, pending, done, bound, wanted)
    requires Walked(pending, |pending|, low, sought, lowest)
    ensures Staging(low, first, DataOf(pending), done, bound, Offset(low, lowest))
  {
    DataAgain(pending); DataIdle(DataOf(pending));
    DataDistinct(pending);
    var data := DataOf(pending);
    forall i | 0 <= i < |data|
      ensures data[i] in pending && Offset(low, lowest) <= OffsetOf(low, data[i])
    {
      DataMembers(pending, data[i]);
      var k :| 0 <= k < |pending| && pending[k] == data[i];
    }
    MembersSpread(low, pending, data);
  }

  // ----- why the walks end

  /** A data entry with the sought number is there. */
  ghost predicate Sought(pending: seq<Entry>, sought: U16) {
    exists i :: 0 <= i < |pending| && !pending[i].parity && pending[i].packet.seqNum == sought
  }

  /** A walk that finds nothing and removes nothing finds something the next time. */
  lemma NextWalkFinds(pending: seq<Entry>, low: U16, sought: U16, lowest: U16)
    requires Walked(pending, |pending|, low, sought, lowest) && |DataOf(pending)| == |pending|
    ensures DataOf(pending) == pending && Sought(pending, lowest) && !Sought(pending, sought)
  {
    DataShrinks(pending);
    DataAgain(pending);
  }

  lemma FoundStep(low: U16, first: seq<Entry>, was: seq<Entry>, done: seq<Entry>, bound: nat, wanted: U16, at: nat)
    returns (bound': nat)
    requires Staging(low, first, was, done, bound, Offset(low, wanted)) && at < |was|
    requires !was[at].parity && was[at].packet.seqNum == wanted
    ensures Staging(low, first, DataOf(was[..at]) + was[at + 1..], done + [was[at]], bound',
                    Offset(low, Wrap16(wanted + 1)))
  {
    StagingFinds(low, first, was, done, bound, Offset(low, wanted), at);
    NextOffset(low, wanted);
    bound' := Offset(low, Wrap16(wanted + 1));
  }

  lemma StagingEnds(low: U16, first: seq<Entry>, done: seq<Entry>, bound: nat, wanted: nat)
    requires Staging(low, first, [], done, bound, wanted)
    ensures AscendingFrom(low, done) && multiset(done) == multiset(DataOf(first))
  {}

  // ----- the walks as the source does them

  /** One walk along the pending list. If it finds the wanted packet it takes it out, at is the packet's
      place in the list before; if not, lowest is a number at or before all the data there is. */
  method Walk(pending: seq<Entry>, low: U16, wanted: U16) returns (rest: seq<Entry>, found: bool, lowest: U16, at: nat)
    requires pending != [] && Spread(low, pending)
    ensures found ==> at < |pending| && !pending[at].parity && pending[at].packet.seqNum == wanted
    ensures found ==> rest == DataOf(pending[..at]) + pending[at + 1..]
    ensures !found ==> rest == DataOf(pending) && Walked(pending, |pending|, low, wanted, lowest)
  {
    var p := 0;
    rest, at, lowest := pending, 0, pending[0].packet.seqNum;
    WalkBegins(pending, low, wanted);
    while p < |rest|
      invariant AtPlace(rest, pending, at, p) && Walked(pending, at, low, wanted, lowest)
      decreases |pending| - at
    {
      var e := rest[p];
      PlaceHolds(rest, pending, at, p);
      if e.parity {
        WalkSkipsParity(rest, pending, at, p, low, wanted, lowest);
        rest := rest[..p] + rest[p + 1..];
      } else if e.packet.seqNum == wanted {
        rest := rest[..p] + rest[p + 1..];
        return rest, true, lowest, at;
      } else {
        WalkPasses(rest, pending, at, p, low, wanted, lowest);
        lowest := if IsBefore16(e.packet.seqNum, lowest) then e.packet.seqNum else lowest;
        p := p + 1;
      }
      at := at + 1;
    }
    WalkEnds(rest, pending, at, p);
    found := false;
  }

  /** stageCompleteFecBlock: the data packets of the list, lowest number first. */
  method StageAll(pending: seq<Entry>, low: U16) returns (done: seq<Entry>)
    requires Spread(low, pending) && DistinctNumbers(pending)
    ensures AscendingFrom(low, done) && multiset(done) == multiset(DataOf(pending))
  {
    var rest, wanted: U16 := pending, low;
    ghost var bound: nat := 0;
    done := [];
    StagingBegins(low, pending);
    while |rest| > 0
      invariant Staging(low, pending, rest, done, bound, Offset(low, wanted))
      decreases |rest|, if Sought(rest, wanted) then 0 else 1
    {
      var now, found, lowest, at := Walk(rest, low, wanted);
      if found {
        bound := FoundStep(low, pending, rest, done, bound, wanted, at);
        rest, done, wanted := now, done + [rest[at]], Wrap16(wanted as int + 1);
      } else {
        StagingMisses(low, pending, rest, done, bound, Offset(low, wanted), wanted, lowest);
        if |now| == |rest| { NextWalkFinds(rest, low, wanted, lowest); }
        rest, wanted := now, lowest;
      }
    }
    StagingEnds(low, pending, done, bound, Offset(low, wanted));
  }
}
