/**
 * The settlement resolver (`resolveParlays`): every active parlay of the
 * current user whose legs have all expired is decided, paid if it won, and
 * deactivated whether it won or lost.
 */
module Settlement {
  import opened Wrappers
  import opened Numeric
  import opened Text
  import opened Valuation
  import opened Store

  /** Every leg points at an existing option of an existing prop, with nonzero odds. */
  predicate Resolvable(options: map<OptionId, PropOption>, props: map<PropId, Prop>, legs: seq<Leg>)
  {
    forall i :: 0 <= i < |legs| ==>
      legs[i].option in options && options[legs[i].option].prop in props && legs[i].odds != 0
  }

  lemma ActiveLegsResolvable(t: Tables, pid: ParlayId)
    requires Consistent(t)
    ensures Resolvable(t.options, t.props, ActiveLegsOf(t.legs, pid))
  {
  }

  function PropOfLeg(options: map<OptionId, PropOption>, props: map<PropId, Prop>, l: Leg): Prop
    requires l.option in options && options[l.option].prop in props
  {
    props[options[l.option].prop]
  }

  /** `parlay_props.every(leg => currentTime > leg's prop end)`. */
  predicate AllExpired(options: map<OptionId, PropOption>, props: map<PropId, Prop>, legs: seq<Leg>, now: Time)
    requires Resolvable(options, props, legs)
  {
    legs == [] || (now > PropOfLeg(options, props, legs[0]).end && AllExpired(options, props, legs[1..], now))
  }

  lemma {:induction false} AllExpiredMeansEach(options: map<OptionId, PropOption>, props: map<PropId, Prop>, legs: seq<Leg>, now: Time)
    requires Resolvable(options, props, legs)
    ensures AllExpired(options, props, legs, now) <==> forall i :: 0 <= i < |legs| ==> now > PropOfLeg(options, props, legs[i]).end
  {
    if legs != [] {
      AllExpiredMeansEach(options, props, legs[1..], now);
      assert forall i :: 1 <= i < |legs| ==> legs[1..][i - 1] == legs[i];
    }
  }

  /**
   * `allPropsExpired`: the current time is strictly after the end of every
   * active leg's prop. A leg without its option or prop, or with zero odds,
   * cannot exist in a consistent store; such a parlay counts as not expired,
   * which keeps settlement total without a consistency precondition.
   */
  predicate Expired(t: Tables, pid: ParlayId, now: Time)
  {
    var legs := ActiveLegsOf(t.legs, pid);
    Resolvable(t.options, t.props, legs) && AllExpired(t.options, t.props, legs, now)
  }

  /** In a consistent store, expiry is exactly the source's condition on every active leg. */
  lemma ExpiredMeans(t: Tables, pid: ParlayId, now: Time)
    requires Consistent(t)
    ensures var legs := ActiveLegsOf(t.legs, pid);
      Resolvable(t.options, t.props, legs) &&
      (Expired(t, pid, now) <==> forall i :: 0 <= i < |legs| ==> now > PropOfLeg(t.options, t.props, legs[i]).end)
  {
    ActiveLegsResolvable(t, pid);
    AllExpiredMeansEach(t.options, t.props, ActiveLegsOf(t.legs, pid), now);
  }

  /** Tallies counted for a leg: active ones of its prop created between the parlay's creation and the prop's end. */
  function LegCount(t: Tables, p: Parlay, l: Leg): nat
    requires l.option in t.options && t.options[l.option].prop in t.props
  {
    WindowTallyCount(t.tallies, t.options[l.option].prop, p.created, PropOfLeg(t.options, t.props, l).end)
  }

  predicate LegWins(t: Tables, p: Parlay, l: Leg)
    requires l.option in t.options && t.options[l.option].prop in t.props
  {
    SettledLegWins(LegCount(t, p, l), t.options[l.option].line, l.isOver)
  }

  /** Every leg in `legs` wins. */
  predicate AllWin(t: Tables, p: Parlay, legs: seq<Leg>)
    requires Resolvable(t.options, t.props, legs)
  {
    legs == [] || (LegWins(t, p, legs[0]) && AllWin(t, p, legs[1..]))
  }

  lemma {:induction false} AllWinMeansEach(t: Tables, p: Parlay, legs: seq<Leg>)
    requires Resolvable(t.options, t.props, legs)
    ensures AllWin(t, p, legs) <==> forall i :: 0 <= i < |legs| ==> LegWins(t, p, legs[i])
  {
    if legs != [] {
      AllWinMeansEach(t, p, legs[1..]);
      assert forall i :: 1 <= i < |legs| ==> legs[1..][i - 1] == legs[i];
    }
  }

  /** A parlay wins when every active leg wins; with no active legs it wins vacuously. */
  predicate Wins(t: Tables, pid: ParlayId)
    requires pid in t.parlays && Resolvable(t.options, t.props, ActiveLegsOf(t.legs, pid))
  {
    AllWin(t, t.parlays[pid], ActiveLegsOf(t.legs, pid))
  }

  /** The legs as valuation sees them at settlement (only the odds enter the payout). */
  function SettledStates(t: Tables, p: Parlay, legs: seq<Leg>): (states: seq<LegState>)
    requires Resolvable(t.options, t.props, legs)
    ensures |states| == |legs| && LockedOddsValid(states)
    ensures forall i :: 0 <= i < |legs| ==> states[i].odds == legs[i].odds
  {
    seq(|legs|, i requires 0 <= i < |legs| =>
      LegState(legs[i].odds, legs[i].isOver, t.options[legs[i].option].line, LegCount(t, p, legs[i])))
  }

  /** `Math.round(parlay.coins * totalOdds)` for a winning parlay. */
  function Payout(t: Tables, pid: ParlayId): (payout: int)
    requires pid in t.parlays && Resolvable(t.options, t.props, ActiveLegsOf(t.legs, pid))
    ensures t.parlays[pid].coins >= 0 ==> payout >= t.parlays[pid].coins
    ensures ActiveLegsOf(t.legs, pid) == [] ==> payout == t.parlays[pid].coins
  {
    var p := t.parlays[pid];
    SettlementPayout(p.coins, SettledStates(t, p, ActiveLegsOf(t.legs, pid)))
  }

  datatype Step = Step(tables: Tables, won: bool, payout: int)

  /** One iteration of the loop, on the store as the previous iterations left it. */
  function SettleOne(t: Tables, user: UserId, now: Time, pid: ParlayId): (s: Step)
    requires pid in t.parlays
    ensures s.tables.parlays.Keys == t.parlays.Keys
    ensures !s.won ==> s.payout == 0
  {
    var p := t.parlays[pid];
    if !Expired(t, pid, now) then Step(t, false, 0)
    else if Wins(t, pid) then
      var payout := Payout(t, pid);
      Step(t.(balances := Credit(t.balances, user, payout), parlays := t.parlays[pid := p.(active := false)]), true, payout)
    else
      Step(t.(parlays := t.parlays[pid := p.(active := false)]), false, 0)
  }

  datatype Settled = Settled(tables: Tables, resolved: nat, total: int)

  /** The ids `findMany` returns: exactly the user's active parlays, each once, in some order. */
  ghost predicate Listed(t: Tables, user: UserId, order: seq<ParlayId>)
  {
    Distinct(order) &&
    forall pid :: pid in order <==> pid in t.parlays && t.parlays[pid].owner == user && t.parlays[pid].active
  }

  /**
   * The resolver's loop over `order`: the store after it, the number of won
   * parlays and the sum of their payouts. Only balances and parlays change,
   * and no parlay is added or removed.
   */
  function Settle(t: Tables, user: UserId, now: Time, order: seq<ParlayId>): (s: Settled)
    requires forall i :: 0 <= i < |order| ==> order[i] in t.parlays
    ensures s.tables == t.(balances := s.tables.balances, parlays := s.tables.parlays)
    ensures s.tables.parlays.Keys == t.parlays.Keys
  {
    if order == [] then Settled(t, 0, 0)
    else
      var prior := Settle(t, user, now, order[..|order| - 1]);
      var step := SettleOne(prior.tables, user, now, order[|order| - 1]);
      Settled(step.tables, prior.resolved + (if step.won then 1 else 0), prior.total + step.payout)
  }

  datatype Resolution = Resolution(resolvedCount: nat, totalPayout: int, message: string)

  /** The summary message: a count and a total when something was settled, a fixed text otherwise. */
  function ResolutionMessage(resolved: nat, total: int): (m: string)
    ensures m == "No parlays to resolve" <==> resolved == 0
    ensures resolved > 0 ==> |m| > 9 && m[..9] == "Resolved " && EndsWith(m, " coins")
  {
    if resolved > 0 then
      var m := "Resolved " + Show(resolved) + " parlay(s) with total payout of " + Show(total) + " coins";
      assert m[0] == 'R';
      assert m[|m| - 6..] == " coins";
      m
    else "No parlays to resolve"
  }

  /** `parlayWon`: the leg loop, stopping at the first losing leg. */
  method DecideLegs(db: Database, p: Parlay, legs: seq<Leg>) returns (won: bool)
    requires Resolvable(db.options, db.props, legs)
    ensures won == AllWin(db.Snapshot(), p, legs)
  {
    ghost var t := db.Snapshot();
    won := true;
    var j := 0;
    while j < |legs|
      invariant 0 <= j <= |legs|
      invariant AllWin(t, p, legs) == AllWin(t, p, legs[j..])
    {
      assert legs[j..][1..] == legs[j + 1..];
      var option := db.options[legs[j].option];
      var prop := db.props[option.prop];
      var tallyCount := WindowTallyCount(db.tallies, option.prop, p.created, prop.end);
      var legWon := false;
      if tallyCount as real == option.line {
        legWon := false;
      } else if legs[j].isOver {
        legWon := tallyCount as real > option.line;
      } else {
        legWon := (tallyCount as real) < option.line;
      }
      assert legWon == LegWins(t, p, legs[j]);
      if !legWon {
        won := false;
        break;
      }
      j := j + 1;
    }
  }

  /** `Settle` over one more id is one more `SettleOne` step. */
  lemma SettleExtend(t: Tables, user: UserId, now: Time, order: seq<ParlayId>, i: nat)
    requires i < |order| && forall k :: 0 <= k < |order| ==> order[k] in t.parlays
    ensures var prior := Settle(t, user, now, order[..i]);
      var step := SettleOne(prior.tables, user, now, order[i]);
      Settle(t, user, now, order[..i + 1]) == Settled(step.tables, prior.resolved + (if step.won then 1 else 0), prior.total + step.payout)
  {
    assert order[..i + 1][..i] == order[..i];
  }

  /** One pass of the loop body: skip, or decide, pay and deactivate one parlay. */
  method SettleParlay(db: Database, user: UserId, now: Time, pid: ParlayId) returns (won: bool, payout: int)
    requires db.Valid() && pid in db.parlays
    modifies db
    ensures db.Valid()
    ensures SettleOne(old(db.Snapshot()), user, now, pid) == Step(db.Snapshot(), won, payout)
  {
    ghost var t := db.Snapshot();
    var parlay := db.parlays[pid];
    var legs := ActiveLegsOf(db.legs, pid);
    ActiveLegsResolvable(t, pid);
    if !AllExpired(db.options, db.props, legs, now) {
      assert SettleOne(t, user, now, pid) == Step(t, false, 0);
      return false, 0;
    }
    won := DecideLegs(db, parlay, legs);
    payout := 0;
    if won {
      var states := SettledStates(db.Snapshot(), parlay, legs);
      var totalOdds := TotalOdds(states);
      payout := RoundedReturn(parlay.coins, totalOdds);
      assert payout == SettlementPayout(parlay.coins, states);
      assert payout == Payout(t, pid);
      db.balances := Credit(db.balances, user, payout);
      db.parlays := db.parlays[pid := parlay.(active := false)];
      assert db.Snapshot() == t.(balances := Credit(t.balances, user, payout), parlays := t.parlays[pid := parlay.(active := false)]);
    } else {
      db.parlays := db.parlays[pid := parlay.(active := false)];
      assert db.Snapshot() == t.(parlays := t.parlays[pid := parlay.(active := false)]);
    }
  }

  /** The resolver's loop over the listed parlays, with its two counters. */
  method SettleListed(db: Database, user: UserId, now: Time, order: seq<ParlayId>) returns (resolvedCount: nat, totalPayout: int)
    requires db.Valid() && forall k :: 0 <= k < |order| ==> order[k] in db.parlays
    modifies db
    ensures db.Valid()
    ensures Settle(old(db.Snapshot()), user, now, order) == Settled(db.Snapshot(), resolvedCount, totalPayout)
  {
    ghost var start := db.Snapshot();
    resolvedCount, totalPayout := 0, 0;
    var i := 0;
    while i < |order|
      invariant 0 <= i <= |order|
      invariant db.Valid() && db.parlays.Keys == start.parlays.Keys
      invariant Settle(start, user, now, order[..i]) == Settled(db.Snapshot(), resolvedCount, totalPayout)
    {
      SettleExtend(start, user, now, order, i);
      var won, payout := SettleParlay(db, user, now, order[i]);
      if won {
        totalPayout := totalPayout + payout;
        resolvedCount := resolvedCount + 1;
      }
      i := i + 1;
    }
    assert order[..i] == order;
  }

  /**
   * `resolveParlays`: without a user nothing changes; otherwise the store ends
   * as `Settle` describes for the listed parlays, and the counters are its
   * won count and payout sum.
   */
  method ResolveParlays(db: Database, user: Option<UserId>, now: Time, order: seq<ParlayId>) returns (r: Result<Resolution>)
    requires db.Valid()
    requires user.Some? ==> Listed(db.Snapshot(), user.value, order)
    modifies db
    ensures db.Valid()
    ensures user.None? ==> r == Err("User not authenticated") && db.Snapshot() == old(db.Snapshot())
    ensures user.Some? ==>
      var s := Settle(old(db.Snapshot()), user.value, now, order);
      db.Snapshot() == s.tables && r == Ok(Resolution(s.resolved, s.total, ResolutionMessage(s.resolved, s.total)))
  {
    if user.None? {
      return Err("User not authenticated");
    }
    var resolvedCount, totalPayout := SettleListed(db, user.value, now, order);
    r := Ok(Resolution(resolvedCount, totalPayout, ResolutionMessage(resolvedCount, totalPayout)));
  }

  /** One step deactivates exactly the expired parlay and leaves every other parlay as it was. */
  lemma SettleOneParlays(t: Tables, user: UserId, now: Time, pid: ParlayId)
    requires pid in t.parlays
    ensures var s := SettleOne(t, user, now, pid);
      s.tables == t.(balances := s.tables.balances, parlays := s.tables.parlays) &&
      s.tables.parlays == (if Expired(t, pid, now) then t.parlays[pid := t.parlays[pid].(active := false)] else t.parlays)
    ensures var s := SettleOne(t, user, now, pid);
      s.tables.balances == (if s.won then Credit(t.balances, user, s.payout) else t.balances)
  {
  }

  /**
   * After the loop, a listed parlay is inactive exactly when it had expired,
   * and every other parlay is unchanged.
   */
  lemma {:induction false} SettleOutcome(t: Tables, user: UserId, now: Time, order: seq<ParlayId>, pid: ParlayId)
    requires Distinct(order) && forall k :: 0 <= k < |order| ==> order[k] in t.parlays
    requires pid in t.parlays
    ensures Settle(t, user, now, order).tables.parlays[pid]
      == if pid in order && Expired(t, pid, now) then t.parlays[pid].(active := false) else t.parlays[pid]
  {
    if order != [] {
      var rest := order[..|order| - 1];
      var last := order[|order| - 1];
      assert Distinct(rest);
      SettleOutcome(t, user, now, rest, pid);
      var prior := Settle(t, user, now, rest);
      SettleOneParlays(prior.tables, user, now, last);
      if pid == last {
        assert pid !in rest;
        SettleOutcome(t, user, now, rest, last);
      }
      assert pid in order <==> pid in rest || pid == last;
    }
  }

  /** A run in which no listed parlay has expired changes nothing and reports nothing. */
  lemma {:induction false} SettleNoneExpired(t: Tables, user: UserId, now: Time, order: seq<ParlayId>)
    requires forall k :: 0 <= k < |order| ==> order[k] in t.parlays
    requires forall k :: 0 <= k < |order| ==> !Expired(t, order[k], now)
    ensures Settle(t, user, now, order) == Settled(t, 0, 0)
  {
    if order != [] {
      SettleNoneExpired(t, user, now, order[..|order| - 1]);
    }
  }

  /**
   * The balance effect of the loop: nothing when no parlay won, otherwise the
   * user's balance credited with the total payout (a row created if absent).
   */
  lemma {:induction false} SettleBalances(t: Tables, user: UserId, now: Time, order: seq<ParlayId>)
    requires forall k :: 0 <= k < |order| ==> order[k] in t.parlays
    ensures var s := Settle(t, user, now, order);
      s.tables.balances == (if s.resolved == 0 then t.balances else Credit(t.balances, user, s.total))
    ensures var s := Settle(t, user, now, order); s.resolved == 0 ==> s.total == 0
  {
    if order != [] {
      var rest := order[..|order| - 1];
      var last := order[|order| - 1];
      SettleBalances(t, user, now, rest);
      var prior := Settle(t, user, now, rest);
      var step := SettleOne(prior.tables, user, now, last);
      SettleOneParlays(prior.tables, user, now, last);
      var s := Settle(t, user, now, order);
      assert s == Settled(step.tables, prior.resolved + (if step.won then 1 else 0), prior.total + step.payout);
      BalanceStep(t.balances, user, prior.resolved, prior.total, prior.tables.balances,
                  step.won, step.payout, s.tables.balances, s.resolved, s.total);
    }
  }

  /** One loop pass keeps the balance equal to the start credited with the running total. */
  lemma BalanceStep(start: map<UserId, int>, user: UserId, resolved: nat, total: int, before: map<UserId, int>,
                    won: bool, payout: int, after: map<UserId, int>, resolvedAfter: nat, totalAfter: int)
    requires before == (if resolved == 0 then start else Credit(start, user, total))
    requires resolved == 0 ==> total == 0
    requires after == (if won then Credit(before, user, payout) else before)
    requires !won ==> payout == 0
    requires resolvedAfter == resolved + (if won then 1 else 0) && totalAfter == total + payout
    ensures after == (if resolvedAfter == 0 then start else Credit(start, user, totalAfter))
    ensures resolvedAfter == 0 ==> totalAfter == 0
  {
    if won && resolved != 0 {
      CreditTwice(start, user, total, payout);
    }
  }

  /**
   * Idempotence: right after a run, a second run at the same time over the
   * user's then-active parlays resolves nothing, pays nothing and writes nothing.
   */
  lemma ResolveIsIdempotent(t: Tables, user: UserId, now: Time, order: seq<ParlayId>, again: seq<ParlayId>)
    requires Listed(t, user, order)
    requires Listed(Settle(t, user, now, order).tables, user, again)
    ensures var first := Settle(t, user, now, order).tables;
      Settle(first, user, now, again) == Settled(first, 0, 0)
  {
    var first := Settle(t, user, now, order).tables;
    forall k | 0 <= k < |again|
      ensures again[k] in first.parlays && !Expired(first, again[k], now)
    {
      var pid := again[k];
      assert pid in again;
      SettleOutcome(t, user, now, order, pid);
    }
    SettleNoneExpired(first, user, now, again);
  }

  /** A parlay without active legs is expired and won at once, and pays back exactly its stake. */
  lemma NoLegsPaysStake(t: Tables, user: UserId, now: Time, pid: ParlayId)
    requires pid in t.parlays && ActiveLegsOf(t.legs, pid) == []
    ensures SettleOne(t, user, now, pid).won
    ensures SettleOne(t, user, now, pid).payout == t.parlays[pid].coins
  {
  }
}
