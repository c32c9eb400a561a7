/**
 * Tally-driven repricing (`addTally`, `deleteTally`): a tally is inserted or
 * soft-deleted, the prop's expected value is blended with the count projected
 * from the elapsed fraction of the prop's lifetime, and every active option of
 * the prop is repriced from that blended value. The stored `ev` is never
 * written.
 */
module Repricing {
  import opened Wrappers
  import opened Numeric
  import opened Odds
  import opened Store

  /**
   * `min(1, max(0, elapsed / duration))`. A zero duration makes the quotient
   * +-Infinity or NaN in JavaScript; NaN (nothing elapsed) passes through both
   * bounds and then fails `timeProgress > 0`, so it behaves as 0.
   */
  function TimeProgress(created: Time, end: Time, now: Time): (tp: real)
    ensures 0.0 <= tp <= 1.0
    ensures created < end && now <= created ==> tp == 0.0
    ensures created < end && now >= end ==> tp == 1.0
    ensures created < end && created < now < end ==>
              0.0 < tp < 1.0 && tp == (now - created) as real / (end - created) as real
  {
    var duration := end - created;
    var elapsed := now - created;
    if duration == 0 then (if elapsed > 0 then 1.0 else 0.0)
    else if duration > 0 then
      DivCompare(elapsed as real, duration as real, 0.0);
      DivCompare(elapsed as real, duration as real, 1.0);
      Clamp(elapsed as real / duration as real, 0.0, 1.0)
    else
      Clamp(elapsed as real / duration as real, 0.0, 1.0)
  }

  /**
   * `ev * (1 - tp * 0.7) + (count / tp) * (tp * 0.7)`: the stored value
   * weighted against the projected final count `count / tp`.
   */
  function Blend(ev: real, count: nat, tp: real): (r: real)
    requires 0.0 < tp <= 1.0
    ensures r == ev * (1.0 - tp * 0.7) + count as real * 0.7
    ensures tp == 1.0 ==> r == ev * 0.3 + count as real * 0.7
  {
    ProjectionTimesWeight(count as real, tp);
    ev * (1.0 - tp * 0.7) + (count as real / tp) * (tp * 0.7)
  }

  /**
   * The blend moves the stored value towards the projection by the weight
   * 0.7 * tp, so it lies between the two, and it equals
   * `ev * (1 - 0.7 tp) + 0.7 count`, never negative for a non-negative `ev`.
   */
  lemma BlendBetween(ev: real, count: nat, tp: real)
    requires 0.0 < tp <= 1.0
    ensures Blend(ev, count, tp) == ev + tp * 0.7 * (count as real / tp - ev)
    ensures Blend(ev, count, tp) == ev * (1.0 - tp * 0.7) + count as real * 0.7
    ensures Min(ev, count as real / tp) <= Blend(ev, count, tp) <= Max(ev, count as real / tp)
    ensures ev >= 0.0 ==> Blend(ev, count, tp) >= 0.0
  {
    ProjectionTimesWeight(count as real, tp);
    Interpolate(ev, count as real / tp, tp * 0.7);
    if ev >= 0.0 {
      MulLe(0.0, 1.0 - tp * 0.7, ev);
    }
  }

  /** Weighting the projection `count / tp` by `0.7 tp` gives `0.7 count`. */
  lemma ProjectionTimesWeight(count: real, tp: real)
    requires tp > 0.0
    ensures (count / tp) * (tp * 0.7) == count * 0.7
  {
    assert (count / tp) * tp == count;
  }

  /** Moving from `a` towards `b` by a fraction `w` of the way stays between the two. */
  lemma Interpolate(a: real, b: real, w: real)
    requires 0.0 <= w <= 1.0
    ensures a * (1.0 - w) + b * w == a + w * (b - a)
    ensures Min(a, b) <= a + w * (b - a) <= Max(a, b)
  {
    var d := b - a;
    ScaleWithin(w, d);
    Between(a, b, w * d);
  }

  /** A fraction of a difference lies between zero and the whole difference. */
  lemma ScaleWithin(w: real, d: real)
    requires 0.0 <= w <= 1.0
    ensures d >= 0.0 ==> 0.0 <= w * d <= d
    ensures d < 0.0 ==> d <= w * d <= 0.0
  {
    if d >= 0.0 {
      MulLe(0.0, w, d);
      MulLe(w, 1.0, d);
    } else {
      var e := -d;
      MulLe(0.0, w, e);
      MulLe(w, 1.0, e);
      assert w * e == -(w * d);
    }
  }

  lemma Between(a: real, b: real, s: real)
    requires b - a >= 0.0 ==> 0.0 <= s <= b - a
    requires b - a < 0.0 ==> b - a <= s <= 0.0
    ensures Min(a, b) <= a + s <= Max(a, b)
  {
  }

  /** The value `addTally` prices with: the blend once any time has elapsed, else the stored value. */
  function AddedEv(ev: real, count: nat, tp: real): (r: real)
    requires 0.0 <= tp <= 1.0
    ensures tp == 0.0 ==> r == ev
    ensures ev >= 0.0 ==> r >= 0.0
  {
    if tp > 0.0 then BlendBetween(ev, count, tp); Blend(ev, count, tp) else ev
  }

  /** The value `deleteTally` prices with: the blend only while some active tally remains. */
  function DeletedEv(ev: real, count: nat, tp: real): (r: real)
    requires 0.0 <= tp <= 1.0
    ensures tp == 0.0 || count == 0 ==> r == ev
    ensures ev >= 0.0 ==> r >= 0.0
  {
    if tp > 0.0 && count > 0 then BlendBetween(ev, count, tp); Blend(ev, count, tp) else ev
  }

  /**
   * The two blends agree whenever a tally remains; with none left after some
   * time has passed, deleting keeps `ev` while the add formula would pull it
   * down by the weight 0.7 * tp.
   */
  lemma AddedAndDeletedEv(ev: real, count: nat, tp: real)
    requires 0.0 <= tp <= 1.0
    ensures count > 0 ==> AddedEv(ev, count, tp) == DeletedEv(ev, count, tp)
    ensures count == 0 && tp > 0.0 ==> AddedEv(ev, count, tp) == ev * (1.0 - tp * 0.7)
    ensures count == 0 && tp > 0.0 && ev > 0.0 ==> AddedEv(ev, count, tp) < DeletedEv(ev, count, tp)
  {
    if count == 0 && tp > 0.0 {
      BlendBetween(ev, count, tp);
      if ev > 0.0 {
        MulLe(0.0, tp * 0.7, ev);
        assert ev * (tp * 0.7) > 0.0;
      }
    }
  }

  /** The option with its odds rewritten by the pricer for `ev`. */
  function RepriceOne(o: PropOption, ev: real, user: UserId): (r: PropOption)
    requires ev >= 0.0
    ensures r.prop == o.prop && r.line == o.line && r.active == o.active && r.modifiedBy == user
    ensures r.oddsOver == PriceLine(ev, o.line).over && r.oddsUnder == PriceLine(ev, o.line).under
  {
    var q := PriceLine(ev, o.line);
    o.(oddsOver := q.over, oddsUnder := q.under, modifiedBy := user)
  }

  predicate Targeted(o: PropOption, prop: PropId)
  {
    o.prop == prop && o.active
  }

  /** The options table after the reprice loop over the ids in `done`. */
  function RepricedOn(options: map<OptionId, PropOption>, done: set<OptionId>, ev: real, user: UserId): (r: map<OptionId, PropOption>)
    requires ev >= 0.0
    ensures r.Keys == options.Keys
  {
    map id | id in options :: if id in done then RepriceOne(options[id], ev, user) else options[id]
  }

  function TargetIds(options: map<OptionId, PropOption>, prop: PropId): set<OptionId>
  {
    set id | id in options && Targeted(options[id], prop)
  }

  /** The options table after every active option of `prop` was repriced for `ev`. */
  function Repriced(options: map<OptionId, PropOption>, prop: PropId, ev: real, user: UserId): (r: map<OptionId, PropOption>)
    requires ev >= 0.0
    ensures r.Keys == options.Keys
  {
    RepricedOn(options, TargetIds(options, prop), ev, user)
  }

  /**
   * After repricing, the active options of the prop carry pricer odds in the
   * pricer's range (over favoured exactly when the line is at most `ev`), and
   * every other option is untouched.
   */
  lemma RepricedQuotes(options: map<OptionId, PropOption>, prop: PropId, ev: real, user: UserId, id: OptionId)
    requires ev >= 0.0 && id in options
    ensures var r := Repriced(options, prop, ev, user)[id];
      if Targeted(options[id], prop) then
        InOddsRange(r.oddsOver) && InOddsRange(r.oddsUnder) &&
        (r.oddsOver < 0 <==> options[id].line <= ev) && (r.oddsUnder < 0 <==> options[id].line >= ev) &&
        r.line == options[id].line && r.active
      else r == options[id]
  {
  }

  /**
   * The reprice loop: every active option of `prop` is updated with the odds
   * for `ev`, in whatever order the database returns them.
   */
  method RepriceOptions(db: Database, prop: PropId, ev: real, user: UserId)
    requires ev >= 0.0
    modifies db
    ensures db.Snapshot() == old(db.Snapshot()).(options := Repriced(old(db.options), prop, ev, user))
  {
    var pending := TargetIds(db.options, prop);
    ghost var done: set<OptionId> := {};
    ghost var original := db.options;
    while pending != {}
      invariant pending + done == TargetIds(original, prop) && pending !! done
      invariant db.options == RepricedOn(original, done, ev, user)
      invariant db.Snapshot() == old(db.Snapshot()).(options := db.options)
      decreases pending
    {
      var id :| id in pending;
      db.options := db.options[id := RepriceOne(db.options[id], ev, user)];
      pending := pending - {id};
      done := done + {id};
    }
  }

  /** The error `addTally` reports, in the order it checks. */
  function AddTallyError(t: Tables, user: Option<UserId>, prop: PropId): (e: Option<string>)
    ensures e.None? <==> user.Some? && prop in t.props && user.value in t.users
    ensures user.None? ==> e == Some("User not authenticated")
  {
    if user.None? then Some("User not authenticated")
    else if prop !in t.props then Some("Prop not found")
    else if user.value !in t.users then Some("User not found")
    else None
  }

  /** The store after a successful `addTally` at time `now`. */
  function AddTallyEffect(t: Tables, user: UserId, prop: PropId, now: Time): (r: Tables)
    requires Consistent(t) && prop in t.props
    ensures |r.tallies| == |t.tallies| + 1 && r.tallies[..|t.tallies|] == t.tallies
    ensures r.tallies[|t.tallies|] == Tally(prop, now, user, user, true)
    ensures r.options.Keys == t.options.Keys
    ensures r.users == t.users && r.balances == t.balances && r.props == t.props
    ensures r.parlays == t.parlays && r.legs == t.legs
  {
    var tallies := t.tallies + [Tally(prop, now, user, user, true)];
    var p := t.props[prop];
    var ev := AddedEv(p.ev, ActiveTallyCount(tallies, prop), TimeProgress(p.created, p.end, now));
    t.(tallies := tallies, options := Repriced(t.options, prop, ev, user))
  }

  /**
   * `addTally`: on success one active tally by the user is appended and the
   * prop's active options are repriced; on any error nothing is written.
   */
  method AddTally(db: Database, user: Option<UserId>, prop: PropId, now: Time) returns (r: Result<()>)
    requires db.Valid()
    modifies db
    ensures db.Valid()
    ensures var e := AddTallyError(old(db.Snapshot()), user, prop);
      if e.Some? then r == Err(e.value) && db.Snapshot() == old(db.Snapshot())
      else r == Ok(()) && db.Snapshot() == AddTallyEffect(old(db.Snapshot()), user.value, prop, now)
  {
    if user.None? {
      return Err("User not authenticated");
    }
    var userId := user.value;
    if prop !in db.props {
      return Err("Prop not found");
    }
    if userId !in db.users {
      return Err("User not found");
    }
    db.tallies := db.tallies + [Tally(prop, now, userId, userId, true)];
    var p := db.props[prop];
    var count := ActiveTallyCount(db.tallies, prop);
    var timeProgress := TimeProgress(p.created, p.end, now);
    var newEv := AddedEv(p.ev, count, timeProgress);
    RepriceOptions(db, prop, newEv, userId);
    r := Ok(());
  }

  /**
   * A successful add raises the prop's active count by one, leaves every other
   * prop's count and all props (their `ev` included) unchanged, and keeps the
   * store consistent.
   */
  lemma AddTallyCounts(t: Tables, user: UserId, prop: PropId, now: Time, other: PropId)
    requires Consistent(t) && prop in t.props
    ensures var r := AddTallyEffect(t, user, prop, now);
      ActiveTallyCount(r.tallies, prop) == ActiveTallyCount(t.tallies, prop) + 1 &&
      (other != prop ==> ActiveTallyCount(r.tallies, other) == ActiveTallyCount(t.tallies, other)) &&
      r.props == t.props && r.balances == t.balances && r.parlays == t.parlays && Consistent(r)
  {
    var tally := Tally(prop, now, user, user, true);
    ActiveTallyCountAppend(t.tallies, tally, prop);
    ActiveTallyCountAppend(t.tallies, tally, other);
  }

  /** The error `deleteTally` reports; the last one rolls back the soft delete. */
  function DeleteTallyError(t: Tables, user: Option<UserId>, id: int): (e: Option<string>)
    ensures e.None? <==> user.Some? && 0 <= id < |t.tallies| && t.tallies[id].active && t.tallies[id].prop in t.props
    ensures user.Some? && !(0 <= id < |t.tallies|) ==> e == Some("Tally not found or already deleted")
  {
    if user.None? then Some("User not authenticated")
    else if !(0 <= id < |t.tallies|) || !t.tallies[id].active then Some("Tally not found or already deleted")
    else if t.tallies[id].prop !in t.props then Some("Prop not found during odds calculation")
    else None
  }

  /** The store after a successful `deleteTally` at time `now`. */
  function DeleteTallyEffect(t: Tables, user: UserId, id: nat, now: Time): (r: Tables)
    requires Consistent(t) && id < |t.tallies| && t.tallies[id].prop in t.props
    ensures |r.tallies| == |t.tallies|
    ensures !r.tallies[id].active && r.tallies[id].modifiedBy == user
    ensures r.tallies[id].prop == t.tallies[id].prop && r.tallies[id].createdBy == t.tallies[id].createdBy
    ensures forall j :: 0 <= j < |t.tallies| && j != id ==> r.tallies[j] == t.tallies[j]
    ensures r.options.Keys == t.options.Keys
    ensures r.users == t.users && r.balances == t.balances && r.props == t.props
    ensures r.parlays == t.parlays && r.legs == t.legs
  {
    var prop := t.tallies[id].prop;
    var tallies := t.tallies[id := t.tallies[id].(active := false, modifiedBy := user)];
    var p := t.props[prop];
    var ev := DeletedEv(p.ev, ActiveTallyCount(tallies, prop), TimeProgress(p.created, p.end, now));
    t.(tallies := tallies, options := Repriced(t.options, prop, ev, user))
  }

  /**
   * `deleteTally`: on success exactly that tally becomes inactive and the
   * prop's active options are repriced; on any error nothing is written.
   */
  method DeleteTally(db: Database, user: Option<UserId>, id: int, now: Time) returns (r: Result<()>)
    requires db.Valid()
    modifies db
    ensures db.Valid()
    ensures var e := DeleteTallyError(old(db.Snapshot()), user, id);
      if e.Some? then r == Err(e.value) && db.Snapshot() == old(db.Snapshot())
      else r == Ok(()) && db.Snapshot() == DeleteTallyEffect(old(db.Snapshot()), user.value, id, now)
  {
    if user.None? {
      return Err("User not authenticated");
    }
    var userId := user.value;
    if !(0 <= id < |db.tallies|) || !db.tallies[id].active {
      return Err("Tally not found or already deleted");
    }
    var tally := db.tallies[id];
    if tally.prop !in db.props {
      // the transaction is rolled back, so the soft delete is never visible
      return Err("Prop not found during odds calculation");
    }
    db.tallies := db.tallies[id := tally.(active := false, modifiedBy := userId)];
    var p := db.props[tally.prop];
    var count := ActiveTallyCount(db.tallies, tally.prop);
    var timeProgress := TimeProgress(p.created, p.end, now);
    var newEv := DeletedEv(p.ev, count, timeProgress);
    RepriceOptions(db, tally.prop, newEv, userId);
    r := Ok(());
  }

  /**
   * A successful delete lowers the prop's active count by one and only that
   * tally changes; deleting the same tally again fails with no writes.
   */
  lemma DeleteTallyOnce(t: Tables, user: UserId, id: nat, now: Time)
    requires Consistent(t) && DeleteTallyError(t, Some(user), id).None?
    ensures var r := DeleteTallyEffect(t, user, id, now);
      var prop := t.tallies[id].prop;
      ActiveTallyCount(r.tallies, prop) + 1 == ActiveTallyCount(t.tallies, prop) &&
      |r.tallies| == |t.tallies| &&
      (forall j :: 0 <= j < |t.tallies| && j != id ==> r.tallies[j] == t.tallies[j]) &&
      DeleteTallyError(r, Some(user), id) == Some("Tally not found or already deleted") &&
      r.props == t.props && Consistent(r)
  {
    var prop := t.tallies[id].prop;
    ActiveTallyCountDeactivate(t.tallies, id, prop);
    var deactivated := t.tallies[id := t.tallies[id].(active := false)];
    var tallies := t.tallies[id := t.tallies[id].(active := false, modifiedBy := user)];
    assert ActiveTallyCount(tallies, prop) == ActiveTallyCount(deactivated, prop) by {
      ActiveTallyCountIgnoresAuthor(deactivated, tallies, prop);
    }
  }

  /** The count only reads each tally's prop and active flag. */
  lemma {:induction false} ActiveTallyCountIgnoresAuthor(a: seq<Tally>, b: seq<Tally>, prop: PropId)
    requires |a| == |b|
    requires forall j :: 0 <= j < |a| ==> a[j].prop == b[j].prop && a[j].active == b[j].active
    ensures ActiveTallyCount(a, prop) == ActiveTallyCount(b, prop)
  {
    if a != [] {
      ActiveTallyCountIgnoresAuthor(a[..|a| - 1], b[..|b| - 1], prop);
    }
  }
}
