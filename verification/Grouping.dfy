/** One tick's messages grouped by pattern: the miner's answers, one per message that
    passed the filter, become one observation per cluster, in first-seen order. */
module Grouping {

  /** What the miner answered for a message; no id when it could not be clustered. */
  datatype Mined = Mined(message: string, id: string, template: string, isNew: bool)

  /** A pattern's messages this tick; template, service and novelty are the first message's. */
  datatype Bucket = Bucket(id: string, template: string, isNew: bool, service: string, messages: seq<string>)

  // ---- grouping ---------------------------------------------------------------------------

  /** The service of a new bucket, given its first message and its id. */
  type Attribution = (string, string) -> string

  function Place(bs: seq<Bucket>, id: string): (i: nat)
    ensures i <= |bs| && (i < |bs| ==> bs[i].id == id)
    ensures forall j :: 0 <= j < i ==> bs[j].id != id
  {
    if bs == [] || bs[0].id == id then 0 else 1 + Place(bs[1..], id)
  }

  /** Add a message to its bucket, opening one at the end when it is the first. */
  function Added(bs: seq<Bucket>, m: Mined, service: Attribution): seq<Bucket>
  {
    var i := Place(bs, m.id);
    if i < |bs| then bs[i := bs[i].(messages := bs[i].messages + [m.message])]
    else bs + [Bucket(m.id, m.template, m.isNew, service(m.message, m.id), [m.message])]
  }

  function Grouped(ms: seq<Mined>, service: Attribution): seq<Bucket>
  {
    if ms == [] then [] else Added(Grouped(ms[..|ms| - 1], service), ms[|ms| - 1], service)
  }

  /** The answers that name a cluster. */
  function Clustered(ms: seq<Mined>): seq<Mined>
  {
    if ms == [] then [] else Clustered(ms[..|ms| - 1]) + if ms[|ms| - 1].id != "" then [ms[|ms| - 1]] else []
  }

  // ---- what grouping means ------------------------------------------------------------------

  /** The messages of one id, in order. */
  function MessagesOf(ms: seq<Mined>, id: string): seq<string>
  {
    if ms == [] then []
    else MessagesOf(ms[..|ms| - 1], id) + if ms[|ms| - 1].id == id then [ms[|ms| - 1].message] else []
  }

  /** Where an id is first seen. */
  function FirstOf(ms: seq<Mined>, id: string): (n: nat)
    ensures n <= |ms| && (n < |ms| ==> ms[n].id == id)
  {
    if ms == [] || ms[0].id == id then 0 else 1 + FirstOf(ms[1..], id)
  }

  predicate DistinctIds(bs: seq<Bucket>) { forall i, j :: 0 <= i < j < |bs| ==> bs[i].id != bs[j].id }

  function Total(bs: seq<Bucket>): nat
  {
    if bs == [] then 0 else Total(bs[..|bs| - 1]) + |bs[|bs| - 1].messages|
  }

  lemma {:induction false} TotalOfUpdate(bs: seq<Bucket>, i: nat, b: Bucket)
    requires i < |bs|
    ensures Total(bs[i := b]) == Total(bs) - |bs[i].messages| + |b.messages|
  {
    var r := bs[i := b];
    if i == |bs| - 1 {
      assert r[..|r| - 1] == bs[..|bs| - 1];
    } else {
      TotalOfUpdate(bs[..|bs| - 1], i, b);
      assert r[..|r| - 1] == bs[..|bs| - 1][i := b];
    }
  }

  lemma AddedTotal(bs: seq<Bucket>, m: Mined, service: Attribution)
    ensures Total(Added(bs, m, service)) == Total(bs) + 1
  {
    var i := Place(bs, m.id);
    if i < |bs| {
      TotalOfUpdate(bs, i, bs[i].(messages := bs[i].messages + [m.message]));
    } else {
      assert Added(bs, m, service)[..|bs|] == bs;
    }
  }

  ghost predicate Covers(bs: seq<Bucket>, ms: seq<Mined>)
  {
    && (forall b <- bs :: b.messages == MessagesOf(ms, b.id) && b.messages != [])
    && (forall m {:trigger HasPlace(bs, m.id)} :: m in ms ==> HasPlace(bs, m.id))
  }

  ghost predicate HasPlace(bs: seq<Bucket>, id: string) { Place(bs, id) < |bs| }

  lemma {:induction false} NoMessages(ms: seq<Mined>, id: string)
    requires forall m <- ms :: m.id != id
    ensures MessagesOf(ms, id) == []
  {
    if ms != [] {
      assert ms[|ms| - 1] in ms;
      NoMessages(ms[..|ms| - 1], id);
    }
  }

  lemma MessagesSnoc(front: seq<Mined>, last: Mined, id: string)
    ensures MessagesOf(front + [last], id) == MessagesOf(front, id) + if last.id == id then [last.message] else []
  {
    assert (front + [last])[..|front|] == front;
  }

  lemma AddedCovers(bs: seq<Bucket>, front: seq<Mined>, last: Mined, service: Attribution)
    requires DistinctIds(bs) && Covers(bs, front)
    ensures DistinctIds(Added(bs, last, service)) && Covers(Added(bs, last, service), front + [last])
  {
    var i := Place(bs, last.id);
    var r := Added(bs, last, service);
    if i == |bs| {
      forall m | m in front ensures m.id != last.id { assert HasPlace(bs, m.id); }
      NoMessages(front, last.id);
    }
    forall b | b in r ensures b.messages == MessagesOf(front + [last], b.id) && b.messages != [] {
      MessagesSnoc(front, last, b.id);
      var j :| 0 <= j < |r| && r[j] == b;
      if j != i { assert bs[j] == b && bs[j] in bs; } else if i < |bs| { assert bs[i] in bs; }
    }
    forall m | m in front + [last] ensures HasPlace(r, m.id) {
      assert m in front ==> HasPlace(bs, m.id);
      var j := if m.id == last.id then i else Place(bs, m.id);
      assert j < |r| && r[j].id == m.id;
      PlaceFinds(r, m.id, j);
    }
  }

  lemma {:induction false} PlaceFinds(bs: seq<Bucket>, id: string, j: nat)
    requires j < |bs| && bs[j].id == id
    ensures Place(bs, id) <= j
  {
    if j > 0 && bs[0].id != id { PlaceFinds(bs[1..], id, j - 1); }
  }

  /** Buckets are ordered by where their ids are first seen, and speak for that message. */
  ghost predicate FirstSeen(bs: seq<Bucket>, ms: seq<Mined>, service: Attribution)
  {
    && (forall i, j :: 0 <= i < j < |bs| ==> FirstOf(ms, bs[i].id) < FirstOf(ms, bs[j].id))
    && (forall i {:trigger Speaks(bs[i], ms, service)} :: 0 <= i < |bs| ==> Speaks(bs[i], ms, service))
  }

  ghost predicate Speaks(b: Bucket, ms: seq<Mined>, service: Attribution)
  {
    var n := FirstOf(ms, b.id);
    n < |ms| && b == Bucket(ms[n].id, ms[n].template, ms[n].isNew, service(ms[n].message, ms[n].id), b.messages)
  }

  lemma {:induction false} FirstOfSnoc(front: seq<Mined>, last: Mined, id: string)
    ensures FirstOf(front + [last], id) ==
      if FirstOf(front, id) < |front| || last.id == id then FirstOf(front, id) else |front| + 1
  {
    if front == [] {
      assert front + [last] == [last] && [last][1..] == [];
    } else if front[0].id != id {
      FirstOfSnoc(front[1..], last, id);
      assert (front + [last])[1..] == front[1..] + [last];
    }
  }

  lemma PlaceIsSeen(bs: seq<Bucket>, ms: seq<Mined>, id: string)
    requires Covers(bs, ms)
    ensures Place(bs, id) < |bs| <==> FirstOf(ms, id) < |ms|
  {
    if FirstOf(ms, id) < |ms| {
      assert ms[FirstOf(ms, id)] in ms && HasPlace(bs, ms[FirstOf(ms, id)].id);
    } else {
      NotSeen(ms, id);
      NoMessages(ms, id);
      forall b | b in bs ensures b.id != id { }
    }
  }

  lemma {:induction false} NotSeen(ms: seq<Mined>, id: string)
    requires FirstOf(ms, id) == |ms|
    ensures forall m <- ms :: m.id != id
  {
    if ms != [] {
      assert ms[0].id != id;
      NotSeen(ms[1..], id);
      assert forall m <- ms :: m == ms[0] || m in ms[1..];
    }
  }

  /** The observations partition the clustered messages: ids are distinct, each bucket
      holds exactly its id's messages in order, none is empty, the frequencies add up,
      and the buckets come in first-seen order. */
  ghost predicate Partition(bs: seq<Bucket>, ms: seq<Mined>, service: Attribution)
  {
    DistinctIds(bs) && Covers(bs, ms) && Total(bs) == |ms| && FirstSeen(bs, ms, service)
  }

  lemma AddedPartition(bs: seq<Bucket>, front: seq<Mined>, last: Mined, service: Attribution)
    requires Partition(bs, front, service)
    ensures Partition(Added(bs, last, service), front + [last], service)
  {
    AddedTotal(bs, last, service);
    AddedCovers(bs, front, last, service);
    PlaceIsSeen(bs, front, last.id);
    AddedFirstSeen(bs, front, last, service);
  }

  lemma {:induction false} GroupingPartitions(ms: seq<Mined>, service: Attribution)
    ensures Partition(Grouped(ms, service), ms, service)
  {
    if ms != [] {
      var front, last := ms[..|ms| - 1], ms[|ms| - 1];
      GroupingPartitions(front, service);
      AddedPartition(Grouped(front, service), front, last, service);
      assert ms == front + [last];
    }
  }

  lemma AddedFirstSeen(bs: seq<Bucket>, front: seq<Mined>, last: Mined, service: Attribution)
    requires FirstSeen(bs, front, service) && (Place(bs, last.id) < |bs| <==> FirstOf(front, last.id) < |front|)
    ensures FirstSeen(Added(bs, last, service), front + [last], service)
  {
    var r := Added(bs, last, service);
    forall i | 0 <= i < |bs| ensures FirstOf(front + [last], r[i].id) == FirstOf(front, bs[i].id) < |front|
        && Speaks(r[i], front + [last], service) {
      assert Speaks(bs[i], front, service);
      FirstOfSnoc(front, last, bs[i].id);
    }
    FirstOfSnoc(front, last, last.id);
    if |r| > |bs| { assert Speaks(r[|bs|], front + [last], service); }
  }

  // ---- the brain's Group ------------------------------------------------------------------------

  /** Group: buckets by id, and the order the ids came in. */
  method Group(answers: seq<Mined>, service: Attribution) returns (out: seq<Bucket>)
    ensures out == Grouped(Clustered(answers), service)
  {
    var buckets: map<string, Bucket> := map[];
    var order: seq<string> := [];
    for i := 0 to |answers|
      invariant Holds(buckets, order, Grouped(Clustered(answers[..i]), service))
    {
      assert answers[..i + 1][..i] == answers[..i];
      if answers[i].id != "" {
        buckets, order := Bucketed(buckets, order, Clustered(answers[..i]), answers[i], service);
      } else {
        assert Clustered(answers[..i + 1]) == Clustered(answers[..i]);
      }
    }
    assert answers[..|answers|] == answers;
    out := [];
    ghost var bs := Grouped(Clustered(answers), service);
    for j := 0 to |order|
      invariant out == bs[..j]
    {
      out := out + [buckets[order[j]]];
    }
  }

  /** Add a mined message to the buckets. */
  method Bucketed(buckets: map<string, Bucket>, order: seq<string>, ghost ms: seq<Mined>, m: Mined,
                  service: Attribution)
    returns (buckets': map<string, Bucket>, order': seq<string>)
    requires Holds(buckets, order, Grouped(ms, service))
    ensures Holds(buckets', order', Grouped(ms + [m], service))
  {
    ghost var bs := Grouped(ms, service);
    HoldsPlace(buckets, order, bs, m.id);
    assert (ms + [m])[..|ms|] == ms;
    if m.id in buckets {
      order' := order;
      buckets' := buckets[m.id := buckets[m.id].(messages := buckets[m.id].messages + [m.message])];
    } else {
      order' := order + [m.id];
      buckets' := buckets[m.id := Bucket(m.id, m.template, m.isNew, service(m.message, m.id), [m.message])];
    }
    HoldsAdded(buckets, order, bs, m, service);
  }

  function Entry(buckets: map<string, Bucket>, m: Mined, service: Attribution): Bucket
  {
    if m.id in buckets then buckets[m.id].(messages := buckets[m.id].messages + [m.message])
    else Bucket(m.id, m.template, m.isNew, service(m.message, m.id), [m.message])
  }

  lemma HoldsAdded(buckets: map<string, Bucket>, order: seq<string>, bs: seq<Bucket>, m: Mined, service: Attribution)
    requires Holds(buckets, order, bs)
    ensures Holds(buckets[m.id := Entry(buckets, m, service)],
                  if m.id in buckets then order else order + [m.id], Added(bs, m, service))
  {
    HoldsPlace(buckets, order, bs, m.id);
    if m.id in buckets {
      assert order[Place(bs, m.id)] == m.id;
      HoldsReplaced(buckets, order, bs, Place(bs, m.id), Entry(buckets, m, service));
    } else {
      HoldsOpened(buckets, order, bs, Entry(buckets, m, service));
    }
  }

  lemma HoldsReplaced(buckets: map<string, Bucket>, order: seq<string>, bs: seq<Bucket>, i: nat, b: Bucket)
    requires Holds(buckets, order, bs) && i < |bs| && bs[i].id == b.id
    ensures Holds(buckets[b.id := b], order, bs[i := b])
  {
    var r := bs[i := b];
    forall id | id in buckets[b.id := b] ensures Place(r, id) < |r| {
      PlaceFinds(r, id, if id == b.id then i else Place(bs, id));
    }
  }

  lemma HoldsOpened(buckets: map<string, Bucket>, order: seq<string>, bs: seq<Bucket>, b: Bucket)
    requires Holds(buckets, order, bs) && b.id !in buckets
    ensures Holds(buckets[b.id := b], order + [b.id], bs + [b])
  {
    forall j | 0 <= j < |bs| ensures bs[j].id != b.id { assert order[j] == bs[j].id; }
    var r := bs + [b];
    forall id | id in buckets[b.id := b] ensures Place(r, id) < |r| {
      PlaceFinds(r, id, if id == b.id then |bs| else Place(bs, id));
    }
  }

  /** The map and the order of ids hold the buckets. */
  ghost predicate Holds(buckets: map<string, Bucket>, order: seq<string>, bs: seq<Bucket>)
  {
    && |order| == |bs| && DistinctIds(bs)
    && (forall j :: 0 <= j < |bs| ==> order[j] == bs[j].id && order[j] in buckets && buckets[order[j]] == bs[j])
    && (forall id <- buckets :: Place(bs, id) < |bs|)
  }

  lemma HoldsPlace(buckets: map<string, Bucket>, order: seq<string>, bs: seq<Bucket>, id: string)
    requires Holds(buckets, order, bs)
    ensures id in buckets <==> Place(bs, id) < |bs|
  {
    if Place(bs, id) < |bs| { assert order[Place(bs, id)] == id; }
  }
}
