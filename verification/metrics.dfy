/** `getConnectionMetrics`: the number of agents in the status map and how many
    are in each status. Buckets are kept in the order in which their status was
    first met, as the keys of the `byStatus` object are. The map is read as the
    sequence of its entries' statuses in enumeration order. */
module Metrics {
  import opened Common
  import Connection

  const UnknownStatus := "unknown"

  /** `entry?.status || 'unknown'`: a missing entry, a missing status and an
      empty one all count as unknown. */
  function LabelOf(status: Option<string>): (l: string)
    ensures l != ""
    ensures status.Some? && status.value != "" ==> l == status.value
  {
    if status.Some? && status.value != "" then status.value else UnknownStatus
  }

  datatype Bucket = Bucket(status: string, count: nat)

  function Statuses(bs: seq<Bucket>): (ss: seq<string>)
    ensures |ss| == |bs|
    ensures forall k :: 0 <= k < |bs| ==> ss[k] == bs[k].status
  {
    seq(|bs|, k requires 0 <= k < |bs| => bs[k].status)
  }

  predicate Distinct(ss: seq<string>) {
    forall i, j :: 0 <= i < j < |ss| ==> ss[i] != ss[j]
  }

  /** The count shown for `x`: its bucket's count, or 0 without one. */
  function CountOf(bs: seq<Bucket>, x: string): nat {
    if |bs| == 0 then 0
    else if bs[0].status == x then bs[0].count
    else CountOf(bs[1..], x)
  }

  function Sum(bs: seq<Bucket>): nat {
    if |bs| == 0 then 0 else bs[0].count + Sum(bs[1..])
  }

  predicate Positive(bs: seq<Bucket>) {
    forall k :: 0 <= k < |bs| ==> bs[k].count >= 1
  }

  /** `byStatus[l] = (byStatus[l] || 0) + 1`: one more in `l`'s bucket, opening it
      at the end when `l` is new. */
  function Tally(bs: seq<Bucket>, l: string): (r: seq<Bucket>)
    ensures Statuses(r) == if l in Statuses(bs) then Statuses(bs) else Statuses(bs) + [l]
    ensures Sum(r) == Sum(bs) + 1
  {
    if |bs| == 0 then
      [Bucket(l, 1)]
    else if bs[0].status == l then
      var r := [Bucket(l, bs[0].count + 1)] + bs[1..];
      assert r[1..] == bs[1..];
      assert Statuses(r) == Statuses(bs);
      r
    else
      var t := Tally(bs[1..], l);
      var r := [bs[0]] + t;
      assert r[1..] == t;
      StatusesCons(bs[0], t);
      StatusesCons(bs[0], bs[1..]);
      assert bs == [bs[0]] + bs[1..];
      r
  }

  /** Tallying `l` adds one to the count shown for `l` and to no other. */
  lemma {:induction false} TallyCounts(bs: seq<Bucket>, l: string, x: string)
    ensures CountOf(Tally(bs, l), x) == CountOf(bs, x) + (if x == l then 1 else 0)
  {
    if |bs| > 0 && bs[0].status != l {
      var t := Tally(bs[1..], l);
      assert Tally(bs, l)[1..] == t;
      TallyCounts(bs[1..], l, x);
    }
  }

  /** Tallying never leaves an empty bucket behind. */
  lemma {:induction false} TallyPositive(bs: seq<Bucket>, l: string)
    requires Positive(bs)
    ensures Positive(Tally(bs, l))
  {
    if |bs| > 0 && bs[0].status != l {
      TallyPositive(bs[1..], l);
      assert Tally(bs, l)[1..] == Tally(bs[1..], l);
    }
  }

  lemma StatusesCons(b: Bucket, bs: seq<Bucket>)
    ensures Statuses([b] + bs) == [b.status] + Statuses(bs)
  {
  }

  /** The number of entries whose label is `x`. */
  function Occurrences(entries: seq<Option<string>>, x: string): nat {
    if |entries| == 0 then 0
    else Occurrences(entries[..|entries| - 1], x) + (if LabelOf(entries[|entries| - 1]) == x then 1 else 0)
  }

  /** The labels of the entries, each once, in the order first met. */
  function FirstSeen(entries: seq<Option<string>>): (ls: seq<string>) {
    if |entries| == 0 then []
    else
      var seen := FirstSeen(entries[..|entries| - 1]);
      var l := LabelOf(entries[|entries| - 1]);
      if l in seen then seen else seen + [l]
  }

  /** With one bucket per status, a bucket's count is the count shown for its
      status. */
  lemma {:induction false} CountOfBucket(bs: seq<Bucket>, k: nat)
    requires k < |bs| && Distinct(Statuses(bs))
    ensures CountOf(bs, bs[k].status) == bs[k].count
  {
    if k > 0 {
      assert Statuses(bs)[0] != Statuses(bs)[k];
      assert Distinct(Statuses(bs[1..])) by {
        forall i, j | 0 <= i < j < |bs| - 1
          ensures Statuses(bs[1..])[i] != Statuses(bs[1..])[j]
        {
          assert Statuses(bs)[i + 1] != Statuses(bs)[j + 1];
        }
      }
      CountOfBucket(bs[1..], k - 1);
    }
  }

  /** A status without a bucket shows 0. */
  lemma {:induction false} CountOfAbsent(bs: seq<Bucket>, x: string)
    requires x !in Statuses(bs)
    ensures CountOf(bs, x) == 0
  {
    if |bs| > 0 {
      assert Statuses(bs[1..]) == Statuses(bs)[1..];
      CountOfAbsent(bs[1..], x);
    }
  }

  /** The metrics of the status map: `total` and `byStatus`. */
  method ConnectionMetrics(entries: seq<Option<string>>) returns (total: nat, byStatus: seq<Bucket>)
    ensures total == |entries|
    // every entry is counted exactly once
    ensures Sum(byStatus) == total
    // one bucket per status met, in order of first appearance, none empty
    ensures Distinct(Statuses(byStatus)) && Positive(byStatus)
    ensures forall x :: CountOf(byStatus, x) == Occurrences(entries, x)
    ensures forall x :: x in Statuses(byStatus) <==> Occurrences(entries, x) > 0
    ensures Statuses(byStatus) == FirstSeen(entries)
  {
    total := |entries|;
    byStatus := [];
    var i := 0;
    while i < |entries|
      invariant 0 <= i <= |entries|
      invariant Distinct(Statuses(byStatus)) && Positive(byStatus)
      invariant Sum(byStatus) == i
      invariant forall x :: CountOf(byStatus, x) == Occurrences(entries[..i], x)
      invariant Statuses(byStatus) == FirstSeen(entries[..i])
    {
      TallyStep(byStatus, entries, i);
      assert entries[..i + 1][..i] == entries[..i];
      byStatus := Tally(byStatus, LabelOf(entries[i]));
      i := i + 1;
    }
    assert entries[..i] == entries;
    BucketsAreStatusesMet(byStatus, entries);
  }

  /** One more entry tallied keeps the loop's invariant. */
  lemma TallyStep(bs: seq<Bucket>, entries: seq<Option<string>>, i: nat)
    requires i < |entries|
    requires Distinct(Statuses(bs)) && Positive(bs)
    requires forall x :: CountOf(bs, x) == Occurrences(entries[..i], x)
    ensures var r := Tally(bs, LabelOf(entries[i]));
      && Distinct(Statuses(r)) && Positive(r)
      && forall x :: CountOf(r, x) == Occurrences(entries[..i + 1], x)
  {
    assert entries[..i + 1][..i] == entries[..i];
    forall x
      ensures CountOf(Tally(bs, LabelOf(entries[i])), x) == Occurrences(entries[..i + 1], x)
    {
      TallyCounts(bs, LabelOf(entries[i]), x);
    }
    TallyPositive(bs, LabelOf(entries[i]));
  }

  /** With one non-empty bucket per status showing its count, the buckets are
      exactly the statuses met. */
  lemma BucketsAreStatusesMet(bs: seq<Bucket>, entries: seq<Option<string>>)
    requires Distinct(Statuses(bs)) && Positive(bs)
    requires forall x :: CountOf(bs, x) == Occurrences(entries, x)
    ensures forall x :: x in Statuses(bs) <==> Occurrences(entries, x) > 0
  {
    forall x
      ensures x in Statuses(bs) <==> Occurrences(entries, x) > 0
    {
      if x in Statuses(bs) {
        var k :| 0 <= k < |bs| && Statuses(bs)[k] == x;
        CountOfBucket(bs, k);
      } else {
        CountOfAbsent(bs, x);
      }
    }
  }

  /** The entries of a registry's status map, read in the order `order` lists
      its keys. */
  function RegistryEntries(statuses: map<string, Connection.StatusEntry>, order: seq<string>): (es: seq<Option<string>>)
    requires forall i :: 0 <= i < |order| ==> order[i] in statuses
    ensures |es| == |order|
    ensures forall i :: 0 <= i < |order| ==> es[i] == Some(Connection.StatusName(statuses[order[i]].status))
  {
    seq(|order|, i requires 0 <= i < |order| => Some(Connection.StatusName(statuses[order[i]].status)))
  }

  /** Every entry the relay writes has a status, so its metrics never show an
      unknown bucket. */
  lemma {:induction false} RegistryHasNoUnknown(statuses: map<string, Connection.StatusEntry>, order: seq<string>)
    requires forall i :: 0 <= i < |order| ==> order[i] in statuses
    ensures Occurrences(RegistryEntries(statuses, order), UnknownStatus) == 0
    decreases |order|
  {
    if |order| > 0 {
      var es := RegistryEntries(statuses, order);
      var shorter := order[..|order| - 1];
      assert es[..|es| - 1] == RegistryEntries(statuses, shorter);
      RegistryHasNoUnknown(statuses, shorter);
    }
  }
}
