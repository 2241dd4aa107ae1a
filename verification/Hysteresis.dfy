/** The monthly hysteresis on the orthogonalisation order, iterated with its outputs fed back. */
module Hysteresis {
  import opened Outcomes

  /** A ranking of strategies. */
  type Order = seq<nat>

  datatype Status = Stable | PendingSwitch | Unrecognised

  datatype Previous = NoHistory | InForce(order: Order)

  datatype Result = Result(order: Order, status: Status)

  function Evaluate(prev: Previous, proposal: Order, last: Status): Outcome<Result> {
    if last == Unrecognised then Raised(ValueError)
    else if proposal == [] then Raised(ValueError)
    else if prev.NoHistory? then Ok(Result(proposal, Stable))
    else if prev.order == proposal then Ok(Result(proposal, Stable))
    else if last == Stable then Ok(Result(prev.order, PendingSwitch))
    else Ok(Result(proposal, Stable))
  }

  /** A month fails only on an unknown status or an empty proposal. */
  lemma EvaluateRaisesIff(prev: Previous, proposal: Order, last: Status)
    ensures Evaluate(prev, proposal, last).Raised? <==> last == Unrecognised || proposal == []
    ensures Evaluate(prev, proposal, last).Ok? ==> Evaluate(prev, proposal, last).value.status != Unrecognised
  {
  }

  ghost predicate Proposals(ps: seq<Order>) {
    forall i :: 0 <= i < |ps| ==> ps[i] != []
  }

  /** What is in force after month i, starting without history. */
  function Month(ps: seq<Order>, i: nat): (r: Result)
    requires Proposals(ps) && i < |ps|
    ensures r.status != Unrecognised
  {
    if i == 0 then Evaluate(NoHistory, ps[0], Stable).value
    else Evaluate(InForce(Month(ps, i - 1).order), ps[i], Month(ps, i - 1).status).value
  }

  function Effective(ps: seq<Order>, i: nat): Order
    requires Proposals(ps) && i < |ps|
  {
    Month(ps, i).order
  }

  /** The months one after the other, each fed what the last one returned, as long as none fails. */
  function Run(ps: seq<Order>): Outcome<Result>
    requires ps != []
  {
    var n := |ps| - 1;
    if n == 0 then Evaluate(NoHistory, ps[0], Stable)
    else
      match Run(ps[..n])
      case Raised(f) => Raised(f)
      case Ok(last) => Evaluate(InForce(last.order), ps[n], last.status)
  }

  // ---------------------------------------------------------------- main results

  /** A run of months fails exactly when some proposal is empty: a status that was returned and fed back never makes the
      next month fail. Otherwise it ends with what is in force after its last month. */
  lemma {:induction false} RunFailsIff(ps: seq<Order>)
    requires ps != []
    ensures Run(ps).Raised? <==> exists i :: 0 <= i < |ps| && ps[i] == []
    ensures Proposals(ps) ==> Run(ps) == Ok(Month(ps, |ps| - 1))
  {
    var n := |ps| - 1;
    EvaluateRaisesIff(NoHistory, ps[0], Stable);
    if n > 0 {
      RunFailsIff(ps[..n]);
      assert (exists i :: 0 <= i < n && ps[..n][i] == []) ==> exists i :: 0 <= i < |ps| && ps[i] == [];
      if Proposals(ps[..n]) {
        MonthOfPrefix(ps, n, n - 1);
        EvaluateRaisesIff(InForce(Run(ps[..n]).value.order), ps[n], Run(ps[..n]).value.status);
      } else {
        assert exists i :: 0 <= i < n && ps[..n][i] == [];
      }
    }
  }

  /** A month depends on the proposals up to it. */
  lemma {:induction false} MonthOfPrefix(ps: seq<Order>, n: nat, i: nat)
    requires i < n <= |ps| && Proposals(ps[..n])
    ensures Proposals(ps) ==> Month(ps[..n], i) == Month(ps, i)
  {
    if i > 0 {
      MonthOfPrefix(ps, n, i - 1);
    }
  }

  /** A switch is pending exactly when the month's proposal is not the order in force. */
  lemma PendingIff(ps: seq<Order>, i: nat)
    requires Proposals(ps) && i < |ps|
    ensures Month(ps, i).status == PendingSwitch <==> ps[i] != Effective(ps, i)
  {
  }

  /** Without the status: the order in force changes exactly when this month's and last month's proposals both differ
      from it, and then it becomes this month's proposal. */
  lemma EffectiveIs(ps: seq<Order>, i: nat)
    requires Proposals(ps) && 1 <= i < |ps|
    ensures var e := Effective(ps, i - 1);
      Effective(ps, i) == if ps[i] != e && ps[i - 1] != e then ps[i] else e
  {
    PendingIff(ps, i - 1);
  }

  /** Successive changes are at least two months apart, and none happens in the second month. */
  lemma ChangesSpaced(ps: seq<Order>, i: nat, k: nat)
    requires Proposals(ps) && 1 <= i < k < |ps|
    requires Effective(ps, i) != Effective(ps, i - 1) && Effective(ps, k) != Effective(ps, k - 1)
    ensures k - i >= 2 && i >= 2
  {
    EffectiveIs(ps, i);
    EffectiveIs(ps, k);
  }

  /** A deviation of a single month never takes effect. */
  lemma SingleDeviationIgnored(ps: seq<Order>, i: nat)
    requires Proposals(ps) && 1 <= i && i + 1 < |ps|
    requires ps[i - 1] == Effective(ps, i - 1) && ps[i + 1] == Effective(ps, i - 1)
    ensures Effective(ps, i) == Effective(ps, i - 1) && Effective(ps, i + 1) == Effective(ps, i - 1)
  {
    EffectiveIs(ps, i);
    EffectiveIs(ps, i + 1);
  }

  /** The order in force was proposed in some month up to now. */
  lemma {:induction false} EffectiveWasProposed(ps: seq<Order>, i: nat)
    requires Proposals(ps) && i < |ps|
    ensures exists k :: 0 <= k <= i && ps[k] == Effective(ps, i)
  {
    if i == 0 {
      assert ps[0] == Effective(ps, 0);
    } else {
      EffectiveWasProposed(ps, i - 1);
      var k :| 0 <= k <= i - 1 && ps[k] == Effective(ps, i - 1);
      EffectiveIs(ps, i);
      assert Effective(ps, i) == ps[i] || Effective(ps, i) == ps[k];
    }
  }

  /** A proposal that stays the same from month m on is in force from month m + 1 on. */
  lemma {:induction false} Converges(ps: seq<Order>, m: nat, i: nat)
    requires Proposals(ps) && m < i < |ps|
    requires forall k :: m <= k < |ps| ==> ps[k] == ps[m]
    ensures Effective(ps, i) == ps[m]
  {
    EffectiveIs(ps, i);
    if i > m + 1 {
      Converges(ps, m, i - 1);
    }
  }

  /** The order has been proposed in both of the last two months. */
  ghost predicate HeldTwoMonths(ps: seq<Order>, i: nat)
    requires i < |ps|
  {
    i >= 1 && ps[i - 1] == ps[i]
  }

  ghost predicate SwitchesAt(ps: seq<Order>, i: nat)
    requires Proposals(ps) && i < |ps|
  {
    i >= 1 && Effective(ps, i) != Effective(ps, i - 1)
  }

  /** A month whose proposal both differs from the order in force and from the month before, while a switch is
      pending. */
  ghost predicate ThirdOrder(ps: seq<Order>, i: nat)
    requires Proposals(ps) && i < |ps|
  {
    i >= 1 && Month(ps, i - 1).status == PendingSwitch && ps[i] != Effective(ps, i - 1) && ps[i] != ps[i - 1]
  }

  /** The stated rule, that an order takes effect only after it was proposed two months running, is kept by a run of
      months exactly when no third order comes up while a switch is pending. */
  lemma TwoMonthRuleIff(ps: seq<Order>)
    requires Proposals(ps)
    ensures (forall i: nat :: i < |ps| && SwitchesAt(ps, i) ==> HeldTwoMonths(ps, i))
       <==> forall i: nat :: i < |ps| ==> !ThirdOrder(ps, i)
  {
    forall i: nat | i < |ps|
      ensures SwitchesAt(ps, i) && !HeldTwoMonths(ps, i) <==> ThirdOrder(ps, i)
    {
      if i >= 1 {
        EffectiveIs(ps, i);
        PendingIff(ps, i - 1);
      }
    }
  }

  /** Three different proposals in a row put the third in force after a single month. */
  lemma ThirdOrderTakesEffectAtOnce()
    ensures var ps := [[1, 2], [2, 1], [2, 1, 3]];
      Proposals(ps) && SwitchesAt(ps, 2) && !HeldTwoMonths(ps, 2) && Effective(ps, 2) == [2, 1, 3]
  {
    var ps: seq<Order> := [[1, 2], [2, 1], [2, 1, 3]];
    EffectiveIs(ps, 1);
    EffectiveIs(ps, 2);
    assert ps[0] != ps[1] by { assert ps[0][0] != ps[1][0]; }
    assert ps[0] != ps[2];
    assert ps[1] != ps[2];
    assert Effective(ps, 0) == ps[0];
  }
}
