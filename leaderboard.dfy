/**
 * The standings table: entries ranked by points (highest first, a missing
 * score read as 0, ties broken by name), numbered 1..n, and narrowed by the
 * search box.
 */
module Leaderboard {
  import opened Wrappers
  import Strings

  datatype Entry = Entry(id: string, name: string, userId: Option<string>, points: Option<int>, submittedAt: Option<string>)

  /** An entry with the rank the table shows for it. */
  datatype Ranked = Ranked(entry: Entry, rank: nat)

  /** `e.points ?? 0` */
  function Points(e: Entry): int {
    e.points.GetOr(0)
  }

  /** The sort comparator is negative: more points first, then the smaller name. */
  predicate Before(a: Entry, b: Entry): (r: bool)
    ensures Points(a) > Points(b) ==> r
    ensures r ==> Points(a) >= Points(b)
    ensures a == b ==> !r
  {
    Strings.LessIrreflexive(a.name);
    Points(a) > Points(b) || (Points(a) == Points(b) && Strings.Less(a.name, b.name))
  }

  lemma BeforeAsymmetric(a: Entry, b: Entry)
    ensures Before(a, b) ==> !Before(b, a)
  {
    Strings.LessAsymmetric(a.name, b.name);
  }

  /** No entry sorts strictly before its predecessor. */
  predicate Sorted(s: seq<Entry>) {
    forall i :: 0 < i < |s| ==> !Before(s[i], s[i - 1])
  }

  /** Inserts `x` in front of the first entry that does not sort strictly before it. */
  function Insert(x: Entry, s: seq<Entry>): (r: seq<Entry>)
    ensures |r| == |s| + 1
    ensures multiset(r) == multiset(s) + multiset{x}
    ensures r[0] == x || (s != [] && r[0] == s[0])
    ensures Sorted(s) ==> Sorted(r)
  {
    if s == [] then [x]
    else if Before(s[0], x) then
      BeforeAsymmetric(s[0], x);
      assert s == [s[0]] + s[1..];
      [s[0]] + Insert(x, s[1..])
    else [x] + s
  }

  /**
   * `[...entries].sort(cmp)`: a stable sort by the comparator on a copy; the
   * input sequence itself is a value and stays as it was.
   */
  function SortEntries(s: seq<Entry>): (r: seq<Entry>)
    ensures |r| == |s|
    ensures multiset(r) == multiset(s)
    ensures Sorted(r)
  {
    if s == [] then []
    else
      assert s == [s[0]] + s[1..];
      Insert(s[0], SortEntries(s[1..]))
  }

  /** `.map((e, i) => ({ ...e, rank: i + 1 }))` */
  function Number(s: seq<Entry>): (r: seq<Ranked>)
    ensures |r| == |s|
    ensures forall i :: 0 <= i < |s| ==> r[i] == Ranked(s[i], i + 1)
  {
    seq(|s|, i requires 0 <= i < |s| => Ranked(s[i], i + 1))
  }

  function EntriesOf(r: seq<Ranked>): (s: seq<Entry>)
    ensures |s| == |r|
    ensures forall i :: 0 <= i < |r| ==> s[i] == r[i].entry
  {
    seq(|r|, i requires 0 <= i < |r| => r[i].entry)
  }

  /**
   * `ranked`: the same entries, ordered by points descending and then by name
   * ascending, with ranks 1..n by position (tied entries still get distinct,
   * consecutive ranks).
   */
  function RankEntries(entries: seq<Entry>): (r: seq<Ranked>)
    ensures |r| == |entries|
    ensures forall i :: 0 <= i < |r| ==> r[i].rank == i + 1
    ensures multiset(EntriesOf(r)) == multiset(entries)
    ensures forall i :: 0 < i < |r| ==> Points(r[i - 1].entry) >= Points(r[i].entry)
    ensures forall i :: 0 < i < |r| && Points(r[i - 1].entry) == Points(r[i].entry) ==>
      !Strings.Less(r[i].entry.name, r[i - 1].entry.name)
  {
    var sorted := SortEntries(entries);
    var r := Number(sorted);
    assert EntriesOf(r) == sorted;
    r
  }

  predicate IncreasingRanks(rs: seq<Ranked>) {
    forall i, j :: 0 <= i < j < |rs| ==> rs[i].rank < rs[j].rank
  }

  /** `r.name.toLowerCase().includes(q.toLowerCase())` */
  predicate Matches(r: Ranked, q: string) {
    Strings.Contains(Strings.Lower(r.entry.name), Strings.Lower(q))
  }

  /** `ranked.filter(...)`: the matching rows, in their order. */
  function Keep(rs: seq<Ranked>, q: string): (out: seq<Ranked>)
    ensures |out| <= |rs|
    ensures forall x :: x in out <==> x in rs && Matches(x, q)
  {
    if rs == [] then []
    else if Matches(rs[0], q) then [rs[0]] + Keep(rs[1..], q)
    else Keep(rs[1..], q)
  }

  /** Filtering keeps the rows in rank order. */
  lemma {:induction false} KeepIncreasing(rs: seq<Ranked>, q: string)
    ensures IncreasingRanks(rs) ==> IncreasingRanks(Keep(rs, q))
  {
    if rs != [] && IncreasingRanks(rs) {
      var tail := rs[1..];
      assert IncreasingRanks(tail) by {
        forall i, j | 0 <= i < j < |tail| ensures tail[i].rank < tail[j].rank {
          assert tail[i] == rs[i + 1] && tail[j] == rs[j + 1];
        }
      }
      KeepIncreasing(tail, q);
      var rest := Keep(tail, q);
      if Matches(rs[0], q) {
        var out := [rs[0]] + rest;
        forall i, j | 0 <= i < j < |out| ensures out[i].rank < out[j].rank {
          assert out[j] == rest[j - 1] && rest[j - 1] in rest;
          var m :| 0 <= m < |tail| && tail[m] == rest[j - 1];
          assert rs[m + 1] == tail[m];
          if i > 0 { assert out[i] == rest[i - 1]; }
        }
      }
    }
  }

  /**
   * `filtered`: a query that trims to nothing keeps the whole list; any other
   * query keeps exactly the rows whose lower-cased name contains the
   * lower-cased, untrimmed query, in ranked order.
   */
  function Filtered(ranked: seq<Ranked>, q: string): (out: seq<Ranked>)
    ensures Strings.AllSpace(q) ==> out == ranked
    ensures !Strings.AllSpace(q) ==> forall x :: x in out <==> x in ranked && Matches(x, q)
    ensures IncreasingRanks(ranked) ==> IncreasingRanks(out)
  {
    Strings.TrimEmptyIffAllSpace(q);
    if Strings.Trim(q) != [] then
      KeepIncreasing(ranked, q);
      Keep(ranked, q)
    else ranked
  }

  /**
   * Searching does not renumber: every row shown for a query carries the rank
   * of its position in the full ranking, and the rows stay in rank order.
   */
  lemma SearchKeepsRanks(entries: seq<Entry>, q: string)
    ensures var ranked := RankEntries(entries);
      var shown := Filtered(ranked, q);
      IncreasingRanks(shown) &&
      forall x :: x in shown ==> 1 <= x.rank <= |ranked| && ranked[x.rank - 1] == x
  {
    var ranked := RankEntries(entries);
    assert IncreasingRanks(ranked);
    var shown := Filtered(ranked, q);
    forall x | x in shown ensures 1 <= x.rank <= |ranked| && ranked[x.rank - 1] == x {
      assert x in ranked;
    }
  }
}
