/**
 * Cashing out (`cashOutParlay`): the owner of an active parlay takes a
 * payout now, valued from the legs' current tallies, and the parlay closes.
 */
module CashOut {
  import opened Wrappers
  import opened Text
  import opened Valuation
  import opened Store
  import opened Settlement

  /**
   * The legs as cash-out sees them: each with the number of active tallies
   * of its prop, whenever they were created (no window, unlike settlement).
   */
  function CashOutStates(t: Tables, legs: seq<Leg>): (states: seq<LegState>)
    requires Resolvable(t.options, t.props, legs)
    ensures |states| == |legs| && LockedOddsValid(states)
    ensures forall i :: 0 <= i < |legs| ==>
      states[i] == LegState(legs[i].odds, legs[i].isOver, t.options[legs[i].option].line,
                            ActiveTallyCount(t.tallies, t.options[legs[i].option].prop))
  {
    seq(|legs|, i requires 0 <= i < |legs| =>
      LegState(legs[i].odds, legs[i].isOver, t.options[legs[i].option].line,
               ActiveTallyCount(t.tallies, t.options[legs[i].option].prop)))
  }

  /** The reason a cash-out is refused, checked in the source's order. */
  function CashOutError(t: Tables, user: Option<UserId>, pid: ParlayId): (e: Option<string>)
    ensures e.None? <==> user.Some? && pid in t.parlays && t.parlays[pid].owner == user.value && t.parlays[pid].active
    ensures user.None? ==> e == Some("User not authenticated")
    ensures user.Some? && e.Some? ==> e == Some("Parlay not found or already cashed out")
  {
    if user.None? then Some("User not authenticated")
    else if !(pid in t.parlays && t.parlays[pid].owner == user.value && t.parlays[pid].active) then
      Some("Parlay not found or already cashed out")
    else None
  }

  /** The amount credited for cashing out `pid` now. */
  function CashOutValue(t: Tables, pid: ParlayId): (amount: int)
    requires Consistent(t) && pid in t.parlays
    ensures t.parlays[pid].coins <= amount
  {
    ActiveLegsResolvable(t, pid);
    CashOutAmount(t.parlays[pid].coins, CashOutStates(t, ActiveLegsOf(t.legs, pid)))
  }

  /** The store after crediting `amount` to `user` and closing `pid`. */
  function Closed(t: Tables, user: UserId, pid: ParlayId, amount: int): Tables
    requires pid in t.parlays
  {
    t.(balances := Credit(t.balances, user, amount), parlays := t.parlays[pid := t.parlays[pid].(active := false)])
  }

  /** Crediting a balance and closing a parlay keep the store consistent. */
  lemma ClosedConsistent(t: Tables, user: UserId, pid: ParlayId, amount: int)
    requires Consistent(t) && pid in t.parlays
    ensures Consistent(Closed(t, user, pid, amount))
  {
  }

  /** The toast text: the amount credited, written between a fixed prefix and suffix, reads back as that amount. */
  function CashOutMessage(amount: int): (m: string)
    ensures |m| > 34 && m[..28] == "Successfully cashed out for " && m[|m| - 6..] == " coins"
    ensures ParseInt(m[28..|m| - 6]) == Some(amount)
  {
    var m := "Successfully cashed out for " + Show(amount) + " coins";
    assert m[28..|m| - 6] == Show(amount);
    m
  }

  datatype CashedOut = CashedOut(amount: int, message: string)

  /** What `cashOutParlay` returns, and the store it leaves. */
  datatype Outcome = Outcome(result: Result<CashedOut>, tables: Tables)

  /**
   * `cashOutParlay`: refused without a user or an active parlay of theirs,
   * otherwise the value is credited (a balance row created if absent) and
   * the parlay deactivated.
   */
  function CashOut(t: Tables, user: Option<UserId>, pid: ParlayId): (o: Outcome)
    requires Consistent(t)
    ensures o.result.Err? <==> CashOutError(t, user, pid).Some?
    ensures o.result.Err? ==> o.result.message == CashOutError(t, user, pid).value && o.tables == t
    ensures o.result.Ok? ==>
      user.Some? && pid in t.parlays && t.parlays[pid].coins <= o.result.value.amount &&
      o.tables.parlays == t.parlays[pid := t.parlays[pid].(active := false)] &&
      o.tables.balances == Credit(t.balances, user.value, o.result.value.amount) &&
      o.result.value.amount == CashOutValue(t, pid) &&
      o.result.value.message == CashOutMessage(o.result.value.amount)
    ensures o.tables.users == t.users && o.tables.props == t.props && o.tables.options == t.options &&
      o.tables.tallies == t.tallies && o.tables.legs == t.legs
  {
    match CashOutError(t, user, pid)
    case Some(e) => Outcome(Err(e), t)
    case None =>
      var amount := CashOutValue(t, pid);
      Outcome(Ok(CashedOut(amount, CashOutMessage(amount))), Closed(t, user.value, pid, amount))
  }

  /** The valuation part of the transaction, reading the store without writing it. */
  method ValueNow(db: Database, pid: ParlayId) returns (amount: int)
    requires db.Valid() && pid in db.parlays
    ensures amount == CashOutValue(db.Snapshot(), pid)
  {
    var legs := ActiveLegsOf(db.legs, pid);
    ActiveLegsResolvable(db.Snapshot(), pid);
    var states := CashOutStates(db.Snapshot(), legs);
    var totalProbability := TotalProbability(states);
    var originalOdds := TotalOdds(states);
    amount := CashOutFrom(db.parlays[pid].coins, originalOdds, totalProbability);
  }

  /** The action itself: the checks, then the valuation, the credit and the deactivation. */
  method CashOutParlay(db: Database, user: Option<UserId>, pid: ParlayId) returns (r: Result<CashedOut>)
    requires db.Valid()
    modifies db
    ensures db.Valid()
    ensures CashOut(old(db.Snapshot()), user, pid) == Outcome(r, db.Snapshot())
  {
    if user.None? {
      return Err("User not authenticated");
    }
    if !(pid in db.parlays && db.parlays[pid].owner == user.value && db.parlays[pid].active) {
      return Err("Parlay not found or already cashed out");
    }
    ghost var t := db.Snapshot();
    var amount := ValueNow(db, pid);
    var parlay := db.parlays[pid];
    db.balances := Credit(db.balances, user.value, amount);
    db.parlays := db.parlays[pid := parlay.(active := false)];
    assert db.Snapshot() == Closed(t, user.value, pid, amount);
    ClosedConsistent(t, user.value, pid, amount);
    r := Ok(CashedOut(amount, CashOutMessage(amount)));
  }

  /** A parlay is cashed out at most once: right after a cash-out the same request is refused. */
  lemma CashOutOnce(t: Tables, user: Option<UserId>, pid: ParlayId)
    requires Consistent(t) && CashOut(t, user, pid).result.Ok?
    ensures CashOut(t, user, pid).tables.parlays[pid] == t.parlays[pid].(active := false)
    ensures CashOutError(CashOut(t, user, pid).tables, user, pid) == Some("Parlay not found or already cashed out")
  {
  }

  /**
   * Cashing out pays at least the stake and never more than the parlay would
   * pay if it went on to win, since both use the same locked-in odds.
   */
  lemma CashOutBetweenStakeAndPayout(t: Tables, pid: ParlayId)
    requires Consistent(t) && pid in t.parlays
    ensures Resolvable(t.options, t.props, ActiveLegsOf(t.legs, pid))
    ensures t.parlays[pid].coins <= CashOutValue(t, pid) <= Payout(t, pid)
  {
    ActiveLegsResolvable(t, pid);
    var p := t.parlays[pid];
    var legs := ActiveLegsOf(t.legs, pid);
    var live := CashOutStates(t, legs);
    var settled := SettledStates(t, p, legs);
    DecimalOfOddsOnly(live, settled);
    assert SettlementPayout(p.coins, live) == SettlementPayout(p.coins, settled);
  }

  /** Only the owner's balance and the cashed-out parlay change; every other parlay and balance is kept. */
  lemma CashOutTouchesOnlyOwner(t: Tables, user: UserId, pid: ParlayId, other: ParlayId, someone: UserId)
    requires Consistent(t) && CashOutError(t, Some(user), pid).None?
    ensures var u := CashOut(t, Some(user), pid).tables;
      u.parlays.Keys == t.parlays.Keys &&
      (other != pid && other in t.parlays ==> u.parlays[other] == t.parlays[other]) &&
      (someone != user && someone in t.balances ==> u.balances[someone] == t.balances[someone]) &&
      u.balances[user] == (if user in t.balances then t.balances[user] else 0) + CashOutValue(t, pid)
  {
  }
}
