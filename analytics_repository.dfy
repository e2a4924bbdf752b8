/** The analytics part of the backend repository: per-minute event counters, and the
    report that selects counters by event and sums them per hour or day bucket. */
module EventAnalytics {
  import opened Common
  import opened Repository

  /** An analytics record: the counter of `event` at `timestamp` (seconds). */
  datatype EventItem = EventItem(event: string, timestamp: int, count: int)

  /** The bucket a timestamp falls into: the start of its hour, of its day, or itself. */
  function BucketOf(ts: int, group: Option<string>): (b: int)
    ensures group == Some("hour") ==> b <= ts < b + 3600 && b % 3600 == 0
    ensures group == Some("day") ==> b <= ts < b + 86400 && b % 86400 == 0
    ensures group != Some("hour") && group != Some("day") ==> b == ts
  {
    if group == Some("hour") then ts - ts % 3600
    else if group == Some("day") then ts - ts % (3600 * 24)
    else ts
  }

  /** Bucketing a bucket start changes nothing. */
  lemma BucketIdempotent(ts: int, group: Option<string>)
    ensures BucketOf(BucketOf(ts, group), group) == BucketOf(ts, group)
  {
  }

  /** Adds `c` to the bucket `ts`, appending a new bucket for `event` when none exists. */
  function AddToBuckets(bs: seq<EventItem>, event: string, ts: int, c: int): (r: seq<EventItem>)
    ensures |r| == |bs| || |r| == |bs| + 1
  {
    if bs == [] then [EventItem(event, ts, c)]
    else if bs[0].timestamp == ts then [bs[0].(count := bs[0].count + c)] + bs[1..]
    else [bs[0]] + AddToBuckets(bs[1..], event, ts, c)
  }

  /** The aggregation of `get_event_analytics`, one item at a time. */
  function Aggregated(items: seq<EventItem>, group: Option<string>): seq<EventItem>
  {
    if items == [] then []
    else
      var last := items[|items| - 1];
      AddToBuckets(Aggregated(items[..|items| - 1], group), last.event, BucketOf(last.timestamp, group), last.count)
  }

  /** A bucket that does not exist yet is appended. */
  lemma {:induction false} AddToBucketsNew(bs: seq<EventItem>, event: string, ts: int, c: int)
    requires forall j :: 0 <= j < |bs| ==> bs[j].timestamp != ts
    ensures AddToBuckets(bs, event, ts, c) == bs + [EventItem(event, ts, c)]
  {
    if bs != [] {
      AddToBucketsNew(bs[1..], event, ts, c);
    }
  }

  /** The first bucket with that start has its count raised; nothing else changes. */
  lemma {:induction false} AddToBucketsHit(bs: seq<EventItem>, event: string, ts: int, c: int, k: nat)
    requires k < |bs| && bs[k].timestamp == ts
    requires forall j :: 0 <= j < k ==> bs[j].timestamp != ts
    ensures AddToBuckets(bs, event, ts, c) == bs[k := bs[k].(count := bs[k].count + c)]
  {
    if k > 0 {
      AddToBucketsHit(bs[1..], event, ts, c, k - 1);
    }
  }

  function SumCounts(items: seq<EventItem>): int
  {
    if items == [] then 0 else items[0].count + SumCounts(items[1..])
  }

  lemma {:induction false} AddToBucketsSum(bs: seq<EventItem>, event: string, ts: int, c: int)
    ensures SumCounts(AddToBuckets(bs, event, ts, c)) == SumCounts(bs) + c
  {
    if bs != [] && bs[0].timestamp != ts {
      AddToBucketsSum(bs[1..], event, ts, c);
    } else if bs != [] {
      assert ([bs[0].(count := bs[0].count + c)] + bs[1..])[1..] == bs[1..];
    }
  }

  lemma {:induction false} SumCountsSnoc(items: seq<EventItem>)
    requires items != []
    ensures SumCounts(items) == SumCounts(items[..|items| - 1]) + items[|items| - 1].count
  {
    if |items| > 1 {
      SumCountsSnoc(items[1..]);
      assert items[1..][..|items| - 2] == items[..|items| - 1][1..];
    }
  }

  /** Aggregation preserves the total count. */
  lemma {:induction false} AggregatedTotal(items: seq<EventItem>, group: Option<string>)
    ensures SumCounts(Aggregated(items, group)) == SumCounts(items)
  {
    if items != [] {
      var last := items[|items| - 1];
      AggregatedTotal(items[..|items| - 1], group);
      AddToBucketsSum(Aggregated(items[..|items| - 1], group), last.event, BucketOf(last.timestamp, group), last.count);
      SumCountsSnoc(items);
    }
  }

  ghost predicate DistinctBuckets(bs: seq<EventItem>)
  {
    forall a, b :: 0 <= a < b < |bs| ==> bs[a].timestamp != bs[b].timestamp
  }

  /** Some item falls into bucket `ts`. */
  ghost predicate SomeItemIn(items: seq<EventItem>, group: Option<string>, ts: int)
  {
    exists i :: 0 <= i < |items| && BucketOf(items[i].timestamp, group) == ts
  }

  /** Some output entry is bucket `ts`. */
  ghost predicate Listed(bs: seq<EventItem>, ts: int)
  {
    exists k :: 0 <= k < |bs| && bs[k].timestamp == ts
  }

  /** The first entry of `bs` for bucket `ts`. */
  function FirstAt(bs: seq<EventItem>, ts: int): (k: nat)
    requires Listed(bs, ts)
    ensures k < |bs| && bs[k].timestamp == ts
    ensures forall j :: 0 <= j < k ==> bs[j].timestamp != ts
  {
    if bs[0].timestamp == ts then 0
    else
      assert Listed(bs[1..], ts) by {
        var k :| 0 <= k < |bs| && bs[k].timestamp == ts;
        assert bs[1..][k - 1] == bs[k];
      }
      1 + FirstAt(bs[1..], ts)
  }

  /** No bucket appears twice in the output. */
  lemma {:induction false} AggregatedDistinct(items: seq<EventItem>, group: Option<string>)
    ensures DistinctBuckets(Aggregated(items, group))
  {
    if items != [] {
      var init := items[..|items| - 1];
      var last := items[|items| - 1];
      var prev := Aggregated(init, group);
      var ts := BucketOf(last.timestamp, group);
      AggregatedDistinct(init, group);
      if Listed(prev, ts) {
        var k := FirstAt(prev, ts);
        AddToBucketsHit(prev, last.event, ts, last.count, k);
      } else {
        AddToBucketsNew(prev, last.event, ts, last.count);
      }
    }
  }

  /** Every output entry is the bucket of some item. */
  lemma {:induction false} AggregatedSound(items: seq<EventItem>, group: Option<string>)
    ensures forall k :: 0 <= k < |Aggregated(items, group)| ==>
      SomeItemIn(items, group, Aggregated(items, group)[k].timestamp)
  {
    if items != [] {
      var init := items[..|items| - 1];
      var last := items[|items| - 1];
      var prev := Aggregated(init, group);
      var ts := BucketOf(last.timestamp, group);
      var out := Aggregated(items, group);
      AggregatedSound(init, group);
      if Listed(prev, ts) {
        var k := FirstAt(prev, ts);
        AddToBucketsHit(prev, last.event, ts, last.count, k);
      } else {
        AddToBucketsNew(prev, last.event, ts, last.count);
      }
      forall m | 0 <= m < |out| ensures SomeItemIn(items, group, out[m].timestamp) {
        if m < |prev| {
          assert SomeItemIn(init, group, prev[m].timestamp);
          var i :| 0 <= i < |init| && BucketOf(init[i].timestamp, group) == prev[m].timestamp;
          assert items[i] == init[i];
        } else {
          assert out[m].timestamp == BucketOf(items[|items| - 1].timestamp, group);
        }
      }
    }
  }

  lemma ListedCons(x: EventItem, bs: seq<EventItem>, t: int)
    ensures Listed([x] + bs, t) <==> x.timestamp == t || Listed(bs, t)
  {
    if x.timestamp == t {
      assert ([x] + bs)[0] == x;
    }
    if Listed(bs, t) {
      var k :| 0 <= k < |bs| && bs[k].timestamp == t;
      assert ([x] + bs)[k + 1] == bs[k];
    }
    if Listed([x] + bs, t) && x.timestamp != t {
      var k :| 0 <= k < |bs| + 1 && ([x] + bs)[k].timestamp == t;
      assert bs[k - 1] == ([x] + bs)[k];
    }
  }

  /** After adding to bucket `ts`, the buckets listed are those listed before and `ts`. */
  lemma {:induction false} AddToBucketsListed(bs: seq<EventItem>, event: string, ts: int, c: int, t: int)
    ensures Listed(AddToBuckets(bs, event, ts, c), t) <==> Listed(bs, t) || t == ts
  {
    if bs == [] {
      assert AddToBuckets(bs, event, ts, c)[0].timestamp == ts;
    } else {
      assert bs == [bs[0]] + bs[1..];
      ListedCons(bs[0], bs[1..], t);
      if bs[0].timestamp == ts {
        ListedCons(bs[0].(count := bs[0].count + c), bs[1..], t);
      } else {
        AddToBucketsListed(bs[1..], event, ts, c, t);
        ListedCons(bs[0], AddToBuckets(bs[1..], event, ts, c), t);
      }
    }
  }

  /** Every item's bucket has an output entry. */
  lemma {:induction false} AggregatedComplete(items: seq<EventItem>, group: Option<string>)
    ensures var out := Aggregated(items, group);
      forall i :: 0 <= i < |items| ==> Listed(out, BucketOf(items[i].timestamp, group))
  {
    if items != [] {
      var init := items[..|items| - 1];
      var last := items[|items| - 1];
      var prev := Aggregated(init, group);
      var ts := BucketOf(last.timestamp, group);
      AggregatedComplete(init, group);
      forall i | 0 <= i < |items| ensures Listed(Aggregated(items, group), BucketOf(items[i].timestamp, group)) {
        AddToBucketsListed(prev, last.event, ts, last.count, BucketOf(items[i].timestamp, group));
        if i < |init| {
          assert items[i] == init[i];
        }
      }
    }
  }

  /** Item `i` is the first of `items` to fall into bucket `ts`. */
  ghost predicate FirstInBucket(items: seq<EventItem>, group: Option<string>, i: int, ts: int)
  {
    && 0 <= i < |items| && BucketOf(items[i].timestamp, group) == ts
    && forall j :: 0 <= j < i ==> BucketOf(items[j].timestamp, group) != ts
  }

  lemma FirstInBucketSnoc(init: seq<EventItem>, x: EventItem, group: Option<string>, i: int, ts: int)
    requires FirstInBucket(init, group, i, ts)
    ensures FirstInBucket(init + [x], group, i, ts) && (init + [x])[i] == init[i]
  {
  }

  /** Each entry carries the event of the first item that fell into its bucket. */
  lemma {:induction false} AggregatedEvent(items: seq<EventItem>, group: Option<string>, k: nat)
    requires k < |Aggregated(items, group)|
    ensures var b := Aggregated(items, group)[k];
      exists i :: FirstInBucket(items, group, i, b.timestamp) && items[i].event == b.event
  {
    var init := items[..|items| - 1];
    var last := items[|items| - 1];
    assert items == init + [last];
    var prev := Aggregated(init, group);
    var ts := BucketOf(last.timestamp, group);
    var out := Aggregated(items, group);
    if Listed(prev, ts) {
      var h := FirstAt(prev, ts);
      AddToBucketsHit(prev, last.event, ts, last.count, h);
      AggregatedEvent(init, group, k);
      var i :| FirstInBucket(init, group, i, prev[k].timestamp) && init[i].event == prev[k].event;
      FirstInBucketSnoc(init, last, group, i, prev[k].timestamp);
    } else {
      AddToBucketsNew(prev, last.event, ts, last.count);
      if k < |prev| {
        AggregatedEvent(init, group, k);
        var i :| FirstInBucket(init, group, i, prev[k].timestamp) && init[i].event == prev[k].event;
        FirstInBucketSnoc(init, last, group, i, prev[k].timestamp);
      } else {
        AggregatedComplete(init, group);
        forall j | 0 <= j < |init| ensures BucketOf(items[j].timestamp, group) != ts {
          assert Listed(prev, BucketOf(init[j].timestamp, group));
        }
        assert FirstInBucket(items, group, |init|, ts);
      }
    }
  }

  /** The items that fall into bucket `ts`. */
  function InBucket(group: Option<string>, ts: int): EventItem -> bool
  {
    (it: EventItem) => BucketOf(it.timestamp, group) == ts
  }

  /** No item before the last falls into a bucket the aggregation of those items does
      not list, so the last item is the first in it. */
  lemma NewBucketFirst(items: seq<EventItem>, group: Option<string>)
    requires items != []
    requires !Listed(Aggregated(items[..|items| - 1], group), BucketOf(items[|items| - 1].timestamp, group))
    ensures FirstInBucket(items, group, |items| - 1, BucketOf(items[|items| - 1].timestamp, group))
    ensures forall x :: x in items[..|items| - 1] ==> BucketOf(x.timestamp, group) != BucketOf(items[|items| - 1].timestamp, group)
  {
    var init := items[..|items| - 1];
    var ts := BucketOf(items[|items| - 1].timestamp, group);
    AggregatedComplete(init, group);
    forall j | 0 <= j < |init| ensures BucketOf(items[j].timestamp, group) != ts {
      assert Listed(Aggregated(init, group), BucketOf(init[j].timestamp, group));
    }
  }

  /** Filtering the items with one more appended. */
  lemma FilterSnoc(init: seq<EventItem>, x: EventItem, p: EventItem -> bool)
    ensures Filter(init + [x], p) == Filter(init, p) + (if p(x) then [x] else [])
  {
    FilterAppend(init, [x], p);
    assert Filter([x], p) == (if p(x) then [x] else []) + Filter([x][1..], p);
  }

  lemma SumCountsExtend(s: seq<EventItem>, x: EventItem, b: bool)
    ensures SumCounts(s + (if b then [x] else [])) == SumCounts(s) + (if b then x.count else 0)
  {
    if b {
      SumCountsSnoc(s + [x]);
      assert (s + [x])[..|s|] == s;
    } else {
      assert s + [] == s;
    }
  }

  /** Each entry's count is the sum of the counts of exactly the items in its bucket. */
  lemma {:induction false} AggregatedBucketCount(items: seq<EventItem>, group: Option<string>, k: nat)
    requires k < |Aggregated(items, group)|
    ensures var b := Aggregated(items, group)[k];
      b.count == SumCounts(Filter(items, InBucket(group, b.timestamp)))
  {
    var init := items[..|items| - 1];
    var last := items[|items| - 1];
    assert items == init + [last];
    var prev := Aggregated(init, group);
    var ts := BucketOf(last.timestamp, group);
    var out := Aggregated(items, group);
    var t := out[k].timestamp;
    FilterSnoc(init, last, InBucket(group, t));
    SumCountsExtend(Filter(init, InBucket(group, t)), last, t == ts);
    if Listed(prev, ts) {
      BucketCountHit(items, group, k);
      AggregatedBucketCount(init, group, k);
    } else {
      AddToBucketsNew(prev, last.event, ts, last.count);
      if k < |prev| {
        AggregatedBucketCount(init, group, k);
        assert out[k] == prev[k] && prev[k].timestamp != ts;
      } else {
        NewBucketFirst(items, group);
        FilterNone(init, InBucket(group, ts));
      }
    }
  }

  /** When the last item's bucket was already listed: that entry gains the item's count
      and every other entry is as before. */
  lemma BucketCountHit(items: seq<EventItem>, group: Option<string>, k: nat)
    requires items != [] && k < |Aggregated(items, group)|
    requires Listed(Aggregated(items[..|items| - 1], group), BucketOf(items[|items| - 1].timestamp, group))
    ensures var prev := Aggregated(items[..|items| - 1], group);
      var last := items[|items| - 1];
      var out := Aggregated(items, group);
      k < |prev| && out[k].timestamp == prev[k].timestamp
      && out[k].count == prev[k].count + (if out[k].timestamp == BucketOf(last.timestamp, group) then last.count else 0)
  {
    var init := items[..|items| - 1];
    var last := items[|items| - 1];
    var prev := Aggregated(init, group);
    var ts := BucketOf(last.timestamp, group);
    var h := FirstAt(prev, ts);
    AddToBucketsHit(prev, last.event, ts, last.count, h);
    AggregatedDistinct(init, group);
  }

  /** The entries come in the order in which their buckets were first seen. */
  lemma {:induction false} AggregatedFirstSeenOrder(items: seq<EventItem>, group: Option<string>, k: nat, k': nat)
    requires k < k' < |Aggregated(items, group)|
    ensures var out := Aggregated(items, group);
      exists i, j :: i < j && FirstInBucket(items, group, i, out[k].timestamp) && FirstInBucket(items, group, j, out[k'].timestamp)
  {
    var init := items[..|items| - 1];
    var last := items[|items| - 1];
    assert items == init + [last];
    var prev := Aggregated(init, group);
    var ts := BucketOf(last.timestamp, group);
    var out := Aggregated(items, group);
    if Listed(prev, ts) {
      var h := FirstAt(prev, ts);
      AddToBucketsHit(prev, last.event, ts, last.count, h);
      AggregatedFirstSeenOrder(init, group, k, k');
      var i, j :| i < j && FirstInBucket(init, group, i, prev[k].timestamp) && FirstInBucket(init, group, j, prev[k'].timestamp);
      FirstInBucketSnoc(init, last, group, i, prev[k].timestamp);
      FirstInBucketSnoc(init, last, group, j, prev[k'].timestamp);
      assert out[k].timestamp == prev[k].timestamp && out[k'].timestamp == prev[k'].timestamp;
    } else {
      AddToBucketsNew(prev, last.event, ts, last.count);
      if k' < |prev| {
        AggregatedFirstSeenOrder(init, group, k, k');
        var i, j :| i < j && FirstInBucket(init, group, i, prev[k].timestamp) && FirstInBucket(init, group, j, prev[k'].timestamp);
        FirstInBucketSnoc(init, last, group, i, prev[k].timestamp);
        FirstInBucketSnoc(init, last, group, j, prev[k'].timestamp);
        assert out[k] == prev[k] && out[k'] == prev[k'];
      } else {
        AggregatedEvent(init, group, k);
        var i :| FirstInBucket(init, group, i, prev[k].timestamp) && init[i].event == prev[k].event;
        FirstInBucketSnoc(init, last, group, i, prev[k].timestamp);
        NewBucketFirst(items, group);
        assert out[k] == prev[k] && out[k'].timestamp == ts;
        assert i < |init| && FirstInBucket(items, group, |init|, out[k'].timestamp);
      }
    }
  }

  // ------------------------------------------------------------ the loop

  /** The entries of the dictionary `agg`, in the insertion order `order`. */
  function Entries(order: seq<int>, agg: map<int, EventItem>): (r: seq<EventItem>)
    requires forall j :: 0 <= j < |order| ==> order[j] in agg
    ensures |r| == |order|
  {
    if order == [] then [] else [agg[order[0]]] + Entries(order[1..], agg)
  }

  lemma {:induction false} EntriesFrame(order: seq<int>, agg: map<int, EventItem>, ts: int, b: EventItem)
    requires forall j :: 0 <= j < |order| ==> order[j] in agg
    requires ts !in order
    ensures Entries(order, agg[ts := b]) == Entries(order, agg)
  {
    if order != [] { EntriesFrame(order[1..], agg, ts, b); }
  }

  lemma {:induction false} EntriesAt(order: seq<int>, agg: map<int, EventItem>, m: nat)
    requires forall j :: 0 <= j < |order| ==> order[j] in agg
    requires m < |order|
    ensures |Entries(order, agg)| == |order| && Entries(order, agg)[m] == agg[order[m]]
  {
    if m > 0 { EntriesAt(order[1..], agg, m - 1); }
    else if |order| > 1 { EntriesAt(order[1..], agg, 0); }
  }

  lemma {:induction false} EntriesUpdate(order: seq<int>, agg: map<int, EventItem>, m: nat, b: EventItem)
    requires forall j :: 0 <= j < |order| ==> order[j] in agg
    requires m < |order| && forall j :: 0 <= j < |order| && j != m ==> order[j] != order[m]
    ensures Entries(order, agg[order[m] := b]) == Entries(order, agg)[m := b]
  {
    if m == 0 {
      assert order[0] !in order[1..] by {
        forall j | 0 <= j < |order[1..]| ensures order[1..][j] != order[0] { assert order[j + 1] != order[0]; }
      }
      EntriesFrame(order[1..], agg, order[0], b);
    } else {
      EntriesUpdate(order[1..], agg, m - 1, b);
    }
  }

  lemma {:induction false} EntriesAppend(order: seq<int>, agg: map<int, EventItem>, ts: int, b: EventItem)
    requires forall j :: 0 <= j < |order| ==> order[j] in agg
    requires ts !in order
    ensures Entries(order + [ts], agg[ts := b]) == Entries(order, agg) + [b]
  {
    if order == [] {
      assert [ts][1..] == [];
    } else {
      assert (order + [ts])[1..] == order[1..] + [ts];
      EntriesAppend(order[1..], agg, ts, b);
    }
  }

  /** `order` lists the keys of `agg` once each, and each entry is keyed by its bucket. */
  ghost predicate Tracks(order: seq<int>, agg: map<int, EventItem>)
  {
    && (forall k :: k in order <==> k in agg)
    && (forall j :: 0 <= j < |order| ==> order[j] in agg)
    && (forall k :: k in agg ==> agg[k].timestamp == k)
    && (forall a, b :: 0 <= a < b < |order| ==> order[a] != order[b])
  }

  lemma AggregatedSnoc(items: seq<EventItem>, group: Option<string>, i: nat)
    requires i < |items|
    ensures Aggregated(items[..i + 1], group)
         == AddToBuckets(Aggregated(items[..i], group), items[i].event, BucketOf(items[i].timestamp, group), items[i].count)
  {
    assert items[..i + 1][..i] == items[..i];
  }

  /** A new bucket goes to the end of the insertion order. */
  lemma StepNew(order: seq<int>, agg: map<int, EventItem>, e: string, ts: int, c: int)
    requires Tracks(order, agg) && ts !in agg
    ensures Tracks(order + [ts], agg[ts := EventItem(e, ts, c)])
    ensures Entries(order + [ts], agg[ts := EventItem(e, ts, c)]) == AddToBuckets(Entries(order, agg), e, ts, c)
  {
    var prev := Entries(order, agg);
    forall j | 0 <= j < |prev| ensures prev[j].timestamp != ts {
      EntriesAt(order, agg, j);
      assert order[j] in agg && agg[order[j]].timestamp == order[j];
      assert prev[j] == agg[order[j]];
    }
    AddToBucketsNew(prev, e, ts, c);
    EntriesAppend(order, agg, ts, EventItem(e, ts, c));
  }

  /** An existing bucket keeps its place and has its count raised. */
  lemma StepHit(order: seq<int>, agg: map<int, EventItem>, e: string, ts: int, c: int, m: nat)
    requires Tracks(order, agg)
    requires m < |order| && order[m] == ts
    ensures Tracks(order, agg[ts := agg[ts].(count := agg[ts].count + c)])
    ensures Entries(order, agg[ts := agg[ts].(count := agg[ts].count + c)]) == AddToBuckets(Entries(order, agg), e, ts, c)
  {
    var prev := Entries(order, agg);
    var b := agg[ts].(count := agg[ts].count + c);
    forall j | 0 <= j < m ensures prev[j].timestamp != ts {
      EntriesAt(order, agg, j);
    }
    EntriesAt(order, agg, m);
    AddToBucketsHit(prev, e, ts, c, m);
    EntriesUpdate(order, agg, m, b);
    ReplaceKeepsTracks(order, agg, ts, b);
  }

  lemma ReplaceKeepsTracks(order: seq<int>, agg: map<int, EventItem>, ts: int, b: EventItem)
    requires Tracks(order, agg) && ts in agg && b.timestamp == ts
    ensures Tracks(order, agg[ts := b])
  {
  }

  /** The loop of `get_event_analytics` over the selected items: a dictionary keyed by
      bucket start, listed in insertion order. */
  method Aggregate(items: seq<EventItem>, group: Option<string>) returns (out: seq<EventItem>)
    ensures out == Aggregated(items, group)
  {
    var agg: map<int, EventItem> := map[];
    var order: seq<int> := [];
    for i := 0 to |items|
      invariant Tracks(order, agg)
      invariant Entries(order, agg) == Aggregated(items[..i], group)
    {
      AggregatedSnoc(items, group, i);
      order, agg := CountItem(order, agg, items[i], BucketOf(items[i].timestamp, group));
    }
    assert items[..|items|] == items;
    out := Entries(order, agg);
  }

  /** One pass of the loop: the bucket is created with count 0 when missing, then the
      item's count is added to it. */
  method CountItem(order: seq<int>, agg: map<int, EventItem>, item: EventItem, ts: int)
    returns (order': seq<int>, agg': map<int, EventItem>)
    requires Tracks(order, agg)
    ensures Tracks(order', agg')
    ensures Entries(order', agg') == AddToBuckets(Entries(order, agg), item.event, ts, item.count)
  {
    order', agg' := order, agg;
    if ts !in agg' {
      StepNew(order, agg, item.event, ts, item.count);
      agg' := agg'[ts := EventItem(item.event, ts, 0)];
      order' := order' + [ts];
      agg' := agg'[ts := agg'[ts].(count := agg'[ts].count + item.count)];
      assert agg' == agg[ts := EventItem(item.event, ts, item.count)];
    } else {
      var m :| 0 <= m < |order| && order[m] == ts;
      StepHit(order, agg, item.event, ts, item.count, m);
      agg' := agg'[ts := agg'[ts].(count := agg'[ts].count + item.count)];
    }
  }

  // ---------------------------------------------------------- the report

  /** The records `get_event_analytics` selects from the scan: by event name, else by
      event type as a substring, and from `oldest` on when `oldest` is truthy; with
      neither name nor type there is no scan and `response` is unbound. */
  function SelectEvents(scanned: seq<EventItem>, eventName: Option<string>, eventType: Option<string>,
                        oldest: Option<int>): (r: Option<seq<EventItem>>)
    ensures r.None? <==> !Given(eventName) && !Given(eventType)
    ensures r.Some? ==> forall it :: it in r.value <==>
      && it in scanned
      && (if Given(eventName) then it.event == eventName.value else Contains(it.event, eventType.value))
      && (oldest.Some? && oldest.value != 0 ==> it.timestamp >= oldest.value)
  {
    var since := (it: EventItem) => !(oldest.Some? && oldest.value != 0) || it.timestamp >= oldest.value;
    if Given(eventName) then Some(Filter(scanned, (it: EventItem) => it.event == eventName.value && since(it)))
    else if Given(eventType) then Some(Filter(scanned, (it: EventItem) => Contains(it.event, eventType.value) && since(it)))
    else None
  }

  /** `get_event_analytics` over the items a scan visits. */
  method GetEventAnalytics(scanned: seq<EventItem>, eventName: Option<string>, eventType: Option<string>,
                           oldest: Option<int>, group: Option<string>) returns (r: Outcome<seq<EventItem>>)
    ensures !Given(eventName) && !Given(eventType) ==> r == Unhandled()
    ensures Given(eventName) || Given(eventType) ==>
      r == Ok(Aggregated(SelectEvents(scanned, eventName, eventType, oldest).value, group))
  {
    var selected := SelectEvents(scanned, eventName, eventType, oldest);
    if selected.None? {
      r := Unhandled();
    } else {
      var out := Aggregate(selected.value, group);
      r := Ok(out);
    }
  }

  // --------------------------------------------------------------- log_event

  /** The timestamp `log_event` uses: the given one when truthy, else `now` (seconds)
      floored to the minute. */
  function EffectiveTimestamp(timestamp: Option<int>, now: int): (t: int)
    ensures timestamp.Some? && timestamp.value != 0 ==> t == timestamp.value
    ensures !(timestamp.Some? && timestamp.value != 0) ==> t <= now < t + 60 && t % 60 == 0
  {
    if timestamp.Some? && timestamp.value != 0 then timestamp.value else now - now % 60
  }

  /** The analytics table: a counter per `(event, timestamp)` key. */
  class AnalyticsRepository {
    var counts: map<(string, int), int>

    constructor()
      ensures counts == map[]
    {
      counts := map[];
    }

    /** `log_event`: `ADD #count :inc` creates a missing counter at 0 and adds 1; no
        other counter changes. */
    method LogEvent(event: string, timestamp: Option<int>, now: int)
      modifies this
      ensures var key := (event, EffectiveTimestamp(timestamp, now));
        counts == old(counts)[key := (if key in old(counts) then old(counts)[key] else 0) + 1]
    {
      var key := (event, EffectiveTimestamp(timestamp, now));
      var current := if key in counts then counts[key] else 0;
      counts := counts[key := current + 1];
    }
  }
}
