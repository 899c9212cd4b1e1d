// The processor node registry as values: what registering, clearing, enabling
// and subscribing do, and the order records are visited in. A handle is the
// index of its record in the fixed record array.
module Registry {
  import opened Common
  import opened Node

  datatype Entry = Entry(node: Node, priority: nat, enabled: bool, subs: seq<Subscriber>)

  // `entries` are the records in use, by handle; `order` is the linked list.
  datatype Registry = Registry(limit: nat, entries: seq<Entry>, order: seq<nat>)

  const NO_HANDLE: nat := 0xFFFF_FFFF

  // ---- operations ----

  // Where a new record goes: before the first record of lower priority.
  function Place(es: seq<Entry>, order: seq<nat>, pri: nat, h: nat): seq<nat>
    requires forall i :: 0 <= i < |order| ==> order[i] < |es|
  {
    if order == [] then [h]
    else if pri > es[order[0]].priority then [h] + order
    else [order[0]] + Place(es, order[1..], pri, h)
  }

  predicate InRange(r: Registry) {
    forall i :: 0 <= i < |r.order| ==> r.order[i] < |r.entries|
  }

  // Registration, with the handle it hands out.
  function Register(r: Registry, n: Node, pri: nat): (Registry, nat)
    requires InRange(r)
  {
    var h := |r.entries|;
    if h == r.limit then (r, NO_HANDLE)
    else
      (Registry(r.limit, r.entries + [Entry(n, pri, true, [])], Place(r.entries, r.order, pri, h)), h)
  }

  function Clear(r: Registry): Registry {
    Registry(r.limit, [], [])
  }

  function SetEnabled(r: Registry, h: nat, on: bool): Registry
    requires h < |r.entries|
  {
    r.(entries := r.entries[h := r.entries[h].(enabled := on)])
  }

  function Subscribe(r: Registry, h: nat, s: Subscriber): Registry
    requires h < |r.entries|
  {
    r.(entries := r.entries[h := r.entries[h].(subs := r.entries[h].subs + [s])])
  }

  // A link to the i-th record of the list, if there is one.
  function LinkTo(order: seq<nat>, i: nat): Option<nat> {
    if i < |order| then Some(order[i]) else None
  }

  function Head(r: Registry): Option<nat> {
    if r.order == [] then None else Some(r.order[0])
  }

  // The link of slot `h`: the record after it, if any. An unused record is
  // all zero, so its link is NULL.
  function Next(order: seq<nat>, h: nat): Option<nat> {
    if |order| < 2 then None
    else if order[0] == h then Some(order[1])
    else Next(order[1..], h)
  }

  // ---- the order promised ----

  // Higher priority first; within a priority, first registered first.
  predicate Before(es: seq<Entry>, a: nat, b: nat)
    requires a < |es| && b < |es|
  {
    es[a].priority > es[b].priority || (es[a].priority == es[b].priority && a < b)
  }

  predicate Sorted(es: seq<Entry>, order: seq<nat>) {
    && (forall i :: 0 <= i < |order| ==> order[i] < |es|)
    && (forall i, j :: 0 <= i < j < |order| ==> Before(es, order[i], order[j]))
  }

  predicate Ok(r: Registry) {
    && |r.entries| <= r.limit
    && Sorted(r.entries, r.order)
    && forall h :: 0 <= h < |r.entries| ==> h in r.order
  }

  lemma {:induction false} PlaceHolds(es: seq<Entry>, order: seq<nat>, pri: nat, h: nat, x: nat)
    requires forall i :: 0 <= i < |order| ==> order[i] < |es|
    ensures x in Place(es, order, pri, h) <==> x in order || x == h
  {
    if order != [] && pri <= es[order[0]].priority {
      PlaceHolds(es, order[1..], pri, h, x);
      assert order == [order[0]] + order[1..];
    }
  }

  // The insertion point is after every record of at least the new priority.
  lemma {:induction false} PlaceAt(es: seq<Entry>, order: seq<nat>, pri: nat, h: nat, i: nat)
    requires i <= |order|
    requires forall j :: 0 <= j < |order| ==> order[j] < |es|
    requires forall j :: 0 <= j < i ==> pri <= es[order[j]].priority
    requires i < |order| ==> pri > es[order[i]].priority
    ensures Place(es, order, pri, h) == order[..i] + [h] + order[i..]
  {
    if i > 0 {
      PlaceAt(es, order[1..], pri, h, i - 1);
      assert order[..i] == [order[0]] + order[1..][..i - 1];
    }
  }

  lemma {:induction false} PlaceIsSorted(es: seq<Entry>, order: seq<nat>, e: Entry)
    requires Sorted(es, order)
    ensures Sorted(es + [e], Place(es, order, e.priority, |es|))
  {
    var h, fs := |es|, es + [e];
    if order != [] {
      if e.priority <= es[order[0]].priority {
        var rest := Place(es, order[1..], e.priority, h);
        PlaceIsSorted(es, order[1..], e);
        forall j | 0 <= j < |rest|
          ensures Before(fs, order[0], rest[j])
        {
          PlaceHolds(es, order[1..], e.priority, h, rest[j]);
          if rest[j] != h {
            assert rest[j] in order[1..];
            assert forall i :: 0 < i < |order| ==> Before(es, order[0], order[i]);
          }
        }
        SortedCons(fs, order[0], rest);
      } else {
        forall j | 0 <= j < |order|
          ensures Before(fs, h, order[j])
        {
          assert j > 0 ==> Before(es, order[0], order[j]);
        }
        SortedGrows(es, order, e);
        SortedCons(fs, h, order);
      }
    }
  }

  lemma SortedCons(es: seq<Entry>, h: nat, rest: seq<nat>)
    requires h < |es| && Sorted(es, rest)
    requires forall j :: 0 <= j < |rest| ==> Before(es, h, rest[j])
    ensures Sorted(es, [h] + rest)
  {
  }

  lemma SortedGrows(es: seq<Entry>, order: seq<nat>, e: Entry)
    requires Sorted(es, order)
    ensures Sorted(es + [e], order)
  {
  }

  // Every operation keeps the list sorted and complete; a registration past
  // the limit changes nothing.
  lemma RegisterKeepsOk(r: Registry, n: Node, pri: nat)
    requires Ok(r)
    ensures InRange(r)
    ensures var (t, h) := Register(r, n, pri);
      && Ok(t)
      && if |r.entries| < r.limit
         then h == |r.entries| && t.entries == r.entries + [Entry(n, pri, true, [])]
         else h == NO_HANDLE && t == r
  {
    PlaceIsSorted(r.entries, r.order, Entry(n, pri, true, []));
    forall x | 0 <= x <= |r.entries|
      ensures x in Place(r.entries, r.order, pri, |r.entries|)
    {
      PlaceHolds(r.entries, r.order, pri, |r.entries|, x);
    }
  }

  // Every record but the h-th is the same, and so are limit and list.
  ghost predicate OthersSame(r: Registry, t: Registry, h: nat) {
    && t.limit == r.limit && t.order == r.order && |t.entries| == |r.entries|
    && forall g :: 0 <= g < |r.entries| && g != h ==> t.entries[g] == r.entries[g]
  }

  // A subscription goes to the end of one record's list and nowhere else.
  lemma SubscribeAppends(r: Registry, h: nat, s: Subscriber)
    requires h < |r.entries|
    ensures var t := Subscribe(r, h, s);
      && OthersSame(r, t, h)
      && t.entries[h].subs == r.entries[h].subs + [s]
      && t.entries[h].node == r.entries[h].node
      && t.entries[h].priority == r.entries[h].priority
      && t.entries[h].enabled == r.entries[h].enabled
  {
  }

  lemma SetEnabledSetsTheFlag(r: Registry, h: nat, on: bool)
    requires h < |r.entries|
    ensures var t := SetEnabled(r, h, on);
      && OthersSame(r, t, h)
      && t.entries[h].enabled == on
      && t.entries[h].subs == r.entries[h].subs
      && t.entries[h].node == r.entries[h].node
      && t.entries[h].priority == r.entries[h].priority
  {
  }

  lemma ClearForgetsAll(r: Registry)
    ensures Clear(r).entries == [] && Clear(r).order == [] && Clear(r).limit == r.limit
  {
  }

  lemma UpdatesKeepOk(r: Registry, h: nat, on: bool, s: Subscriber)
    requires Ok(r) && h < |r.entries|
    ensures Ok(SetEnabled(r, h, on)) && Ok(Subscribe(r, h, s)) && Ok(Clear(r))
  {
  }

  // The order is the only one possible: a record's position is the number of
  // records that come before it.
  lemma PositionIsRank(r: Registry, i: nat)
    requires Ok(r) && i < |r.order|
    ensures i == |set g | 0 <= g < |r.entries| && Before(r.entries, g, r.order[i])|
    ensures |r.order| == |r.entries|
  {
    var h := r.order[i];
    var ahead := set g | 0 <= g < |r.entries| && Before(r.entries, g, h);
    assert forall k :: i < k < |r.order| ==> Before(r.entries, h, r.order[k]);
    forall g
      ensures g in ahead <==> g in Elements(r.order[..i])
    {
      ElementsAre(r.order[..i], g);
      if g in ahead {
        assert g in r.order;
        var j :| 0 <= j < |r.order| && r.order[j] == g;
        assert j < i;
        assert r.order[..i][j] == g;
      }
    }
    assert ahead == Elements(r.order[..i]);
    DistinctElements(r.order[..i]);
    ListHoldsEachHandle(r);
  }

  lemma ListHoldsEachHandle(r: Registry)
    requires Ok(r)
    ensures |r.order| == |r.entries|
    ensures forall i, j :: 0 <= i < j < |r.order| ==> r.order[i] != r.order[j]
  {
    forall g: nat
      ensures g in Elements(r.order) <==> g in UpTo(|r.entries|)
    {
      ElementsAre(r.order, g);
      assert g < |r.entries| ==> g in r.order;
    }
    DistinctElements(r.order);
    assert Elements(r.order) == UpTo(|r.entries|);
  }

  function Elements(s: seq<nat>): set<nat> {
    if s == [] then {} else Elements(s[..|s| - 1]) + {s[|s| - 1]}
  }

  lemma {:induction false} ElementsAre(s: seq<nat>, x: nat)
    ensures x in Elements(s) <==> x in s
  {
    if s != [] {
      ElementsAre(s[..|s| - 1], x);
      assert s == s[..|s| - 1] + [s[|s| - 1]];
    }
  }

  lemma {:induction false} DistinctElements(s: seq<nat>)
    requires forall i, j :: 0 <= i < j < |s| ==> s[i] != s[j]
    ensures |Elements(s)| == |s|
  {
    if s != [] {
      var n := |s| - 1;
      DistinctElements(s[..n]);
      ElementsAre(s[..n], s[n]);
    }
  }

  function UpTo(n: nat): (s: set<nat>)
    ensures forall g: nat :: g in s <==> g < n
    ensures |s| == n
  {
    if n == 0 then {}
    else
      var s := UpTo(n - 1);
      assert n - 1 !in s;
      s + {n - 1}
  }

  // ---- the links ----

  lemma {:induction false} NextAt(order: seq<nat>, i: nat)
    requires i < |order|
    requires forall a, b :: 0 <= a < b < |order| ==> order[a] != order[b]
    ensures Next(order, order[i]) == if i + 1 < |order| then Some(order[i + 1]) else None
  {
    if i > 0 {
      NextAt(order[1..], i - 1);
    }
  }

  lemma {:induction false} NextOfStranger(order: seq<nat>, h: nat)
    requires h !in order
    ensures Next(order, h) == None
  {
    if |order| >= 2 {
      NextOfStranger(order[1..], h);
    }
  }

  // Following a link moves to the very next record in the order.
  predicate Follows(es: seq<Entry>, h: nat, m: Option<nat>)
    requires h < |es|
  {
    match m
    case None => forall g :: 0 <= g < |es| && g != h ==> Before(es, g, h)
    case Some(x) =>
      && x < |es| && Before(es, h, x)
      && forall g :: 0 <= g < |es| && Before(es, h, g) ==> g == x || Before(es, x, g)
  }

  lemma NextFollows(r: Registry, h: nat)
    requires Ok(r) && h < |r.entries|
    ensures Follows(r.entries, h, Next(r.order, h))
  {
    ListHoldsEachHandle(r);
    assert h in r.order;
    var i :| 0 <= i < |r.order| && r.order[i] == h;
    NextAt(r.order, i);
    if i + 1 < |r.order| {
      var x := r.order[i + 1];
      forall g | 0 <= g < |r.entries| && Before(r.entries, h, g)
        ensures g == x || Before(r.entries, x, g)
      {
        assert g in r.order;
        var j :| 0 <= j < |r.order| && r.order[j] == g;
        assert j != i;
      }
    } else {
      forall g | 0 <= g < |r.entries| && g != h
        ensures Before(r.entries, g, h)
      {
        assert g in r.order;
      }
    }
  }
}
