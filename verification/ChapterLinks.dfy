/** The volume links of finalised chapters: when they are consistent, and the global chapter order. */
module ChapterLinks {
  import opened Wrappers
  import opened Ordering

  datatype Link = Link(number: int, volumeId: string, volumeOrder: int, volumeTitle: string)

  datatype LinkError = InconsistentLinks

  function NumberKey(l: Link): Key { [[l.number]] }

  // ----- what the links must meet -----

  predicate NumbersDistinct(ls: seq<Link>) { forall i, j | 0 <= i < j < |ls| :: ls[i].number != ls[j].number }

  /** A volume id and its order and title determine each other. */
  predicate Agree(a: Link, b: Link) {
    && (a.volumeId == b.volumeId ==> a.volumeOrder == b.volumeOrder && a.volumeTitle == b.volumeTitle)
    && (a.volumeOrder == b.volumeOrder ==> a.volumeId == b.volumeId && a.volumeTitle == b.volumeTitle)
  }

  predicate AllAgree(ls: seq<Link>) { forall a, b | a in ls && b in ls :: Agree(a, b) }

  /** The volume order never falls with the chapter number. */
  predicate NeverFalls(ls: seq<Link>) { forall a, b | a in ls && b in ls && a.number < b.number :: a.volumeOrder <= b.volumeOrder }

  predicate OrdersPositive(ls: seq<Link>) { forall a | a in ls :: a.volumeOrder >= 1 }

  predicate Consistent(ls: seq<Link>) { NumbersDistinct(ls) && AllAgree(ls) && NeverFalls(ls) && OrdersPositive(ls) }

  // ----- the dictionaries of the first pass -----

  predicate DetailsOf(details: map<string, (int, string)>, ls: seq<Link>) {
    && (forall l | l in ls :: l.volumeId in details && details[l.volumeId] == (l.volumeOrder, l.volumeTitle))
    && (forall id | id in details :: exists l | l in ls :: l.volumeId == id)
  }

  predicate OrdersOf(orders: map<int, (string, string)>, ls: seq<Link>) {
    && (forall l | l in ls :: l.volumeOrder in orders && orders[l.volumeOrder] == (l.volumeId, l.volumeTitle))
    && (forall o | o in orders :: exists l | l in ls :: l.volumeOrder == o)
  }

  lemma DetailsAgree(details: map<string, (int, string)>, orders: map<int, (string, string)>, ls: seq<Link>)
    requires DetailsOf(details, ls) && OrdersOf(orders, ls)
    ensures AllAgree(ls)
  {
    forall a, b | a in ls && b in ls
      ensures Agree(a, b)
    {
    }
  }

  method LinksAgree(ls: seq<Link>) returns (ok: bool)
    ensures ok <==> AllAgree(ls)
  {
    var details: map<string, (int, string)> := map[];
    var orders: map<int, (string, string)> := map[];
    for i := 0 to |ls|
      invariant DetailsOf(details, ls[..i]) && OrdersOf(orders, ls[..i])
    {
      var l := ls[i];
      assert l in ls;
      if l.volumeId in details && details[l.volumeId] != (l.volumeOrder, l.volumeTitle) {
        var other :| other in ls[..i] && other.volumeId == l.volumeId;
        assert !Agree(other, l);
        return false;
      }
      if l.volumeOrder in orders && orders[l.volumeOrder] != (l.volumeId, l.volumeTitle) {
        var other :| other in ls[..i] && other.volumeOrder == l.volumeOrder;
        assert !Agree(other, l);
        return false;
      }
      assert ls[..i + 1] == ls[..i] + [l];
      DetailsGrow(details, ls[..i], l);
      OrdersGrow(orders, ls[..i], l);
      details := details[l.volumeId := (l.volumeOrder, l.volumeTitle)];
      orders := orders[l.volumeOrder := (l.volumeId, l.volumeTitle)];
    }
    assert ls[..|ls|] == ls;
    DetailsAgree(details, orders, ls);
    ok := true;
  }

  lemma DetailsGrow(details: map<string, (int, string)>, ls: seq<Link>, l: Link)
    requires DetailsOf(details, ls)
    requires l.volumeId in details ==> details[l.volumeId] == (l.volumeOrder, l.volumeTitle)
    ensures DetailsOf(details[l.volumeId := (l.volumeOrder, l.volumeTitle)], ls + [l])
  {
    assert l in ls + [l];
    assert forall x | x in ls :: x in ls + [l];
  }

  lemma OrdersGrow(orders: map<int, (string, string)>, ls: seq<Link>, l: Link)
    requires OrdersOf(orders, ls)
    requires l.volumeOrder in orders ==> orders[l.volumeOrder] == (l.volumeId, l.volumeTitle)
    ensures OrdersOf(orders[l.volumeOrder := (l.volumeId, l.volumeTitle)], ls + [l])
  {
    assert l in ls + [l];
    assert forall x | x in ls :: x in ls + [l];
  }

  // ----- the runs of the second pass -----

  predicate Ascending(ls: seq<Link>) { forall i, j | 0 <= i < j < |ls| :: ls[i].number < ls[j].number }

  /** The links up to here rise to the current volume. */
  predicate RunsTo(ls: seq<Link>, n: nat, current: Option<string>, order: int)
    requires n <= |ls|
  {
    && (current.None? <==> n == 0)
    && (n == 0 ==> order == 0)
    && (n > 0 ==> current == Some(ls[n - 1].volumeId) && order == ls[n - 1].volumeOrder)
    && (forall i | 0 <= i < n :: 1 <= ls[i].volumeOrder <= order)
    && (forall i, j | 0 <= i < j < n :: ls[i].volumeOrder <= ls[j].volumeOrder)
  }

  predicate Rising(ls: seq<Link>) { forall i, j | 0 <= i < j < |ls| :: ls[i].volumeOrder <= ls[j].volumeOrder }

  lemma AscendingNeverFalls(ls: seq<Link>)
    requires Ascending(ls)
    ensures NeverFalls(ls) <==> Rising(ls)
  {
    if NeverFalls(ls) {
      forall i, j | 0 <= i < j < |ls|
        ensures ls[i].volumeOrder <= ls[j].volumeOrder
      {
        assert ls[i] in ls && ls[j] in ls;
      }
    }
  }

  lemma RunContinues(ls: seq<Link>, n: nat, current: Option<string>, order: int)
    requires n < |ls| && AllAgree(ls) && RunsTo(ls, n, current, order) && current == Some(ls[n].volumeId)
    ensures RunsTo(ls, n + 1, current, order)
  {
    assert Agree(ls[n - 1], ls[n]);
  }

  lemma RunStarts(ls: seq<Link>, n: nat, current: Option<string>, order: int)
    requires n < |ls| && RunsTo(ls, n, current, order) && ls[n].volumeOrder > order
    ensures RunsTo(ls, n + 1, Some(ls[n].volumeId), ls[n].volumeOrder)
  {
  }

  lemma SeenIsNotAbove(ls: seq<Link>, n: nat, current: Option<string>, order: int)
    requires n < |ls| && AllAgree(ls) && RunsTo(ls, n, current, order)
    requires exists i | 0 <= i < n :: ls[i].volumeId == ls[n].volumeId
    ensures ls[n].volumeOrder <= order
  {
    var i :| 0 <= i < n && ls[i].volumeId == ls[n].volumeId;
    assert ls[i] in ls && ls[n] in ls;
    assert Agree(ls[i], ls[n]);
  }

  /** A volume that comes back, or one not above the current, breaks the order. */
  lemma RunBreaks(ls: seq<Link>, n: nat, current: Option<string>, order: int)
    requires n < |ls| && AllAgree(ls) && RunsTo(ls, n, current, order) && current != Some(ls[n].volumeId)
    requires ls[n].volumeOrder <= order || exists i | 0 <= i < n :: ls[i].volumeId == ls[n].volumeId
    ensures !(Rising(ls) && OrdersPositive(ls))
  {
    assert ls[n] in ls;
    if n > 0 {
      assert ls[n - 1] in ls && Agree(ls[n - 1], ls[n]);
      if exists i | 0 <= i < n :: ls[i].volumeId == ls[n].volumeId {
        SeenIsNotAbove(ls, n, current, order);
      }
    }
  }

  lemma RunsDone(ls: seq<Link>, current: Option<string>, order: int)
    requires RunsTo(ls, |ls|, current, order)
    ensures Rising(ls) && OrdersPositive(ls)
  {
  }

  method RunsRise(ls: seq<Link>) returns (ok: bool)
    requires Ascending(ls) && AllAgree(ls)
    ensures ok <==> NeverFalls(ls) && OrdersPositive(ls)
  {
    AscendingNeverFalls(ls);
    hide NeverFalls, AllAgree, Rising, OrdersPositive;
    var seen: set<string> := {};
    var current: Option<string> := None;
    var order := 0;
    for n := 0 to |ls|
      invariant RunsTo(ls, n, current, order)
      invariant forall id :: id in seen <==> exists i | 0 <= i < n :: ls[i].volumeId == id
    {
      var l := ls[n];
      if current != Some(l.volumeId) {
        if l.volumeId in seen || l.volumeOrder <= order {
          RunBreaks(ls, n, current, order);
          return false;
        }
        RunStarts(ls, n, current, order);
        seen := seen + {l.volumeId};
        current := Some(l.volumeId);
        order := l.volumeOrder;
      } else {
        RunContinues(ls, n, current, order);
      }
    }
    RunsDone(ls, current, order);
    ok := true;
  }

  // ----- the whole check -----

  lemma NumbersOnce(ls: seq<Link>)
    requires NumbersDistinct(ls)
    ensures Ascending(SortBy(ls, NumberKey)) && forall l :: l in SortBy(ls, NumberKey) <==> l in ls
  {
    hide SortBy, Less;
    KeysOnce(ls);
    SortDistinctIsStrict(ls, NumberKey);
    var ys := SortBy(ls, NumberKey);
    forall i, j | 0 <= i < j < |ys|
      ensures ys[i].number < ys[j].number
    {
      NumberLess(ys[i], ys[j]);
    }
  }

  lemma NumberLess(a: Link, b: Link)
    requires Less(NumberKey(a), NumberKey(b))
    ensures a.number < b.number
  {
    SingleLess(a.number, b.number);
  }

  lemma {:induction false} KeysOnce(ls: seq<Link>)
    requires NumbersDistinct(ls)
    ensures Distinct(ls)
    ensures forall x, y | x in ls && y in ls && NumberKey(x) == NumberKey(y) :: x == y
  {
    hide NumberKey;
    if ls != [] {
      var n := |ls| - 1;
      KeysOnce(ls[..n]);
      assert ls == ls[..n] + [ls[n]];
      assert ls[n] !in ls[..n];
    }
    forall x, y | x in ls && y in ls && NumberKey(x) == NumberKey(y)
      ensures x == y
    {
      SameNumber(x, y);
    }
  }

  lemma SameNumber(x: Link, y: Link)
    requires NumberKey(x) == NumberKey(y)
    ensures x.number == y.number
  {
    assert NumberKey(x)[0][0] == NumberKey(y)[0][0];
  }

  lemma SameMembers(xs: seq<Link>, ys: seq<Link>)
    requires forall l :: l in xs <==> l in ys
    ensures AllAgree(xs) <==> AllAgree(ys)
    ensures NeverFalls(xs) <==> NeverFalls(ys)
    ensures OrdersPositive(xs) <==> OrdersPositive(ys)
  {
    hide Agree;
  }

  /** Accepts exactly the consistent links, and returns them in chapter order. */
  method ValidateAndSort(ls: seq<Link>) returns (r: Result<seq<Link>, LinkError>)
    ensures r.Success? <==> Consistent(ls)
    ensures r.Success? ==> r.value == SortBy(ls, NumberKey) && Ascending(r.value)
  {
    hide AllAgree, NeverFalls, OrdersPositive, SortBy, NumbersDistinct, Ascending;
    if !NumbersDistinct(ls) {
      return Failure(InconsistentLinks);
    }
    var agree := LinksAgree(ls);
    if !agree {
      return Failure(InconsistentLinks);
    }
    var ordered := SortBy(ls, NumberKey);
    NumbersOnce(ls);
    SameMembers(ls, ordered);
    var rise := RunsRise(ordered);
    if !rise {
      return Failure(InconsistentLinks);
    }
    r := Success(ordered);
  }
}
