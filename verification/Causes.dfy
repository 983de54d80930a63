// The cause list of an emergency record: how ttp/session_safety.py folds one request after another
// into the stored list.
module Causes {
  import opened Wrappers
  import opened Evidence

  /**
   * A stored cause as read back: a dictionary whose reason may be missing, and the diagnostic it
   * decodes to unless Diagnostic.from_dict refuses it.
   */
  datatype Item = Item(reason: Option<Reason>, decoded: Option<Diagnostic>)

  function AsDict(d: Diagnostic): Item { Item(Some(d.reason), Some(d)) }

  predicate Mentions(items: seq<Item>, reason: Option<Reason>) { exists x | x in items :: x.reason == reason }

  function Without(items: seq<Item>, reason: Option<Reason>): seq<Item> {
    if items == [] then []
    else
      var last := items[|items| - 1];
      Without(items[..|items| - 1], reason) + if last.reason == reason then [] else [last]
  }

  /** One request: drop the previous item of the same reason and append the new one. */
  function Upsert(items: seq<Item>, item: Item): seq<Item> { Without(items, item.reason) + [item] }

  function Stored(requests: seq<Item>): seq<Item> {
    if requests == [] then [] else Upsert(Stored(requests[..|requests| - 1]), requests[|requests| - 1])
  }

  /** Reference: keep the last request of every reason, in request order. */
  function LastOfEachReason(requests: seq<Item>): seq<Item> {
    if requests == [] then []
    else if Mentions(requests[1..], requests[0].reason)
    then LastOfEachReason(requests[1..])
    else [requests[0]] + LastOfEachReason(requests[1..])
  }

  ghost predicate DistinctReasons(items: seq<Item>) {
    forall i, j | 0 <= i < j < |items| :: items[i].reason != items[j].reason
  }

  ghost predicate SameReasons(a: seq<Item>, b: seq<Item>) {
    forall reason :: Mentions(a, reason) <==> Mentions(b, reason)
  }

  lemma {:induction false} WithoutMembers(items: seq<Item>, reason: Option<Reason>)
    ensures forall x :: x in Without(items, reason) <==> x in items && x.reason != reason
    ensures |Without(items, reason)| <= |items|
    ensures Mentions(items, reason) ==> |Without(items, reason)| < |items|
    ensures DistinctReasons(items) ==> DistinctReasons(Without(items, reason))
  {
    if items != [] {
      var init, last := items[..|items| - 1], items[|items| - 1];
      WithoutMembers(init, reason);
      assert forall x :: x in items <==> x in init || x == last;
      if DistinctReasons(items) {
        assert forall x | x in init :: x.reason != last.reason;
      }
    }
  }

  /** A request adds at most one entry, none when the reason is known, and forgets no reason. */
  lemma UpsertKeeps(items: seq<Item>, item: Item)
    requires DistinctReasons(items)
    ensures DistinctReasons(Upsert(items, item))
    ensures |Upsert(items, item)| <= |items| + 1
    ensures Mentions(items, item.reason) ==> |Upsert(items, item)| <= |items|
    ensures forall reason | Mentions(items, reason) :: Mentions(Upsert(items, item), reason)
    ensures item in Upsert(items, item)
  {
    WithoutMembers(items, item.reason);
    forall reason | Mentions(items, reason) ensures Mentions(Upsert(items, item), reason) {
      var x :| x in items && x.reason == reason;
      assert (if x.reason == item.reason then item else x) in Upsert(items, item);
    }
  }

  lemma {:induction false} WithoutConcat(a: seq<Item>, b: seq<Item>, reason: Option<Reason>)
    ensures Without(a + b, reason) == Without(a, reason) + Without(b, reason)
  {
    if b == [] {
      assert a + b == a;
    } else {
      assert (a + b)[..|a + b| - 1] == a + b[..|b| - 1];
      WithoutConcat(a, b[..|b| - 1], reason);
    }
  }

  lemma {:induction false} LastOfEachReasonSnoc(requests: seq<Item>, item: Item)
    ensures LastOfEachReason(requests + [item]) == Upsert(LastOfEachReason(requests), item)
  {
    if requests == [] {
      assert requests + [item] == [item];
      assert [item][1..] == [];
    } else {
      var first, rest := requests[0], requests[1..];
      assert (requests + [item])[1..] == rest + [item];
      LastOfEachReasonSnoc(rest, item);
      assert Mentions(rest + [item], first.reason) <==>
             Mentions(rest, first.reason) || item.reason == first.reason;
      WithoutConcat([first], LastOfEachReason(rest), item.reason);
      assert Without([first], item.reason) == if first.reason == item.reason then [] else [first] by {
        assert [first][..0] == [];
      }
    }
  }

  /** Over any sequence of requests the stored list is the last cause of every reason, in request order. */
  lemma {:induction false} StoredIsLastOfEachReason(requests: seq<Item>)
    ensures Stored(requests) == LastOfEachReason(requests)
    ensures DistinctReasons(Stored(requests))
    ensures SameReasons(Stored(requests), requests)
  {
    if requests != [] {
      var init, item := requests[..|requests| - 1], requests[|requests| - 1];
      assert requests == init + [item];
      StoredIsLastOfEachReason(init);
      LastOfEachReasonSnoc(init, item);
      UpsertKeeps(Stored(init), item);
      forall reason ensures Mentions(Stored(requests), reason) <==> Mentions(requests, reason) {
        WithoutMembers(Stored(init), item.reason);
        assert Mentions(Stored(init), reason) <==> Mentions(init, reason);
        MentionsSnoc(init, item, reason);
        MentionsSnoc(Without(Stored(init), item.reason), item, reason);
      }
    }
  }

  lemma MentionsSnoc(items: seq<Item>, item: Item, reason: Option<Reason>)
    ensures Mentions(items + [item], reason) <==> Mentions(items, reason) || item.reason == reason
  {
    assert item in items + [item];
    assert forall x :: x in items + [item] <==> x in items || x == item;
  }
}
