/** Recently seen webhook deliveries: a set and a queue that together hold the last accepted ids. */
module Deliveries {
  import opened Seqs

  // The last `size` elements.
  function Last<T>(s: seq<T>, size: int): seq<T> {
    if size <= 0 then [] else if |s| <= size then s else s[|s| - size..]
  }

  lemma LastMembers<T>(s: seq<T>, size: int, x: T)
    ensures x in Last(s, size) <==> exists k :: 0 <= k < |s| && |s| - k <= size && s[k] == x
  {
    var window := Last(s, size);
    var start := |s| - |window|;
    assert forall n :: 0 <= n < |window| ==> window[n] == s[start + n];
    if k :| 0 <= k < |s| && |s| - k <= size && s[k] == x {
      assert window[k - start] == x;
    }
  }

  // Appending to the window and dropping its oldest element beyond `size`.
  lemma LastNext<T>(s: seq<T>, size: int, x: T)
    ensures var window := Last(s, size) + [x];
            Last(s + [x], size) == if |window| > size then window[1..] else window
  {
  }

  class RecentDeliveries {
    const maxSize: int
    var seen: set<string>
    var order: seq<string>
    ghost var accepted: seq<string>  // every id ever accepted, oldest first

    ghost predicate Valid()
      reads this
    {
      && order == Last(accepted, maxSize)
      && seen == (set id | id in order)
      && NoRepeats(order)
    }

    constructor (maxSize: int)
      ensures Valid() && this.maxSize == maxSize && accepted == []
    {
      this.maxSize := maxSize;
      seen := {};
      order := [];
      accepted := [];
    }

    // Accepts an id exactly when it is not among the last `maxSize` accepted ones.
    method Register(id: string) returns (isNew: bool)
      requires Valid()
      modifies this
      ensures Valid()
      ensures isNew <==> id !in Last(old(accepted), maxSize)
      ensures accepted == if isNew then old(accepted) + [id] else old(accepted)
    {
      if id in seen {
        return false;
      }
      LastNext(accepted, maxSize, id);
      seen := seen + {id};
      order := order + [id];
      assert NoRepeats(order);
      assert seen == set id | id in order;
      if |order| > maxSize {
        ghost var window := order;
        var oldest := order[0];
        order := order[1..];
        seen := seen - {oldest};
        assert forall x :: x in window <==> x == oldest || x in order;
        assert oldest !in order;
      }
      accepted := accepted + [id];
      return true;
    }
  }

  // ----- any sequence of deliveries -----

  // The ids that are accepted when `ids` are registered in turn.
  function Accepted(ids: seq<string>, maxSize: int): seq<string> {
    if ids == [] then []
    else
      var before, id := Accepted(ids[..|ids| - 1], maxSize), ids[|ids| - 1];
      if id in Last(before, maxSize) then before else before + [id]
  }

  lemma AcceptedNone(maxSize: int)
    ensures Accepted([], maxSize) == []
  {
  }

  lemma AcceptedNext(ids: seq<string>, maxSize: int, i: nat)
    requires i < |ids|
    ensures var before := Accepted(ids[..i], maxSize);
            Accepted(ids[..i + 1], maxSize) == if ids[i] in Last(before, maxSize) then before else before + [ids[i]]
  {
    assert ids[..i + 1][..i] == ids[..i];
  }

  method RegisterAll(ids: seq<string>, maxSize: int) returns (deliveries: RecentDeliveries, news: seq<bool>)
    ensures deliveries.Valid() && deliveries.accepted == Accepted(ids, maxSize) && deliveries.maxSize == maxSize
    ensures |news| == |ids|
    ensures forall i :: 0 <= i < |ids| ==> (news[i] <==> ids[i] !in Last(Accepted(ids[..i], maxSize), maxSize))
  {
    hide Last, Accepted;
    deliveries := new RecentDeliveries(maxSize);
    news := [];
    assert Accepted(ids[..0], maxSize) == [] by { AcceptedNone(maxSize); }
    for i := 0 to |ids|
      invariant fresh(deliveries) && deliveries.Valid() && deliveries.maxSize == maxSize
      invariant deliveries.accepted == Accepted(ids[..i], maxSize)
      invariant |news| == i
      invariant forall j :: 0 <= j < i ==> (news[j] <==> ids[j] !in Last(Accepted(ids[..j], maxSize), maxSize))
    {
      AcceptedNext(ids, maxSize, i);
      var isNew := deliveries.Register(ids[i]);
      news := news + [isNew];
    }
    assert ids[..|ids|] == ids;
  }

  // Two acceptances of one id have at least `maxSize` acceptances between them, all of other ids and
  // no two of the same id within any `maxSize` in a row.
  lemma {:induction false} AcceptancesFarApart(ids: seq<string>, maxSize: int, i: nat, j: nat)
    requires i < j < |Accepted(ids, maxSize)| && Accepted(ids, maxSize)[i] == Accepted(ids, maxSize)[j]
    ensures j - i - 1 >= maxSize
  {
    var before, id := Accepted(ids[..|ids| - 1], maxSize), ids[|ids| - 1];
    var all := Accepted(ids, maxSize);
    if j < |before| {
      assert before[i] == all[i] && before[j] == all[j];
      AcceptancesFarApart(ids[..|ids| - 1], maxSize, i, j);
    } else {
      assert id !in Last(before, maxSize);
      assert all[i] == before[i] == id;
      LastMembers(before, maxSize, id);
    }
  }

  // A redelivery is turned away exactly when fewer than `maxSize` other ids were accepted since the
  // id was last accepted.
  lemma RedeliveryExactly(ids: seq<string>, maxSize: int, id: string)
    ensures id in Last(Accepted(ids, maxSize), maxSize)
       <==> exists k :: 0 <= k < |Accepted(ids, maxSize)| && Accepted(ids, maxSize)[k] == id
                     && |Accepted(ids, maxSize)| - k <= maxSize
  {
    LastMembers(Accepted(ids, maxSize), maxSize, id);
  }
}
