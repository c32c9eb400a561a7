/**
 * The coin ledger and the lifecycle transitions around it: placing a parlay
 * (`createParlay`), topping up a balance (`createCoins`) and deleting a prop
 * with its cascade (`deleteProp`).
 */
module Ledger {
  import opened Wrappers
  import opened Text
  import opened Store

  /** One betslip entry sent with a new parlay: an option (`lineId`) of a prop, a side and the odds shown. */
  datatype SlipItem = SlipItem(prop: PropId, option: OptionId, isOver: bool, odds: int)

  /** The ids of `ids` that name active options: what `findMany({ id: { in: ids }, active: true })` returns. */
  function ActiveFound(options: map<OptionId, PropOption>, ids: seq<OptionId>): (found: set<OptionId>)
    ensures forall id :: id in found <==> id in ids && id in options && options[id].active
    ensures |found| <= |ids|
  {
    if ids == [] then {}
    else
      var last := ids[|ids| - 1];
      var prior := ActiveFound(options, ids[..|ids| - 1]);
      assert forall id :: id in ids <==> id in ids[..|ids| - 1] || id == last;
      if last in options && options[last].active then prior + {last} else prior
  }

  /** Every id names an active option. */
  predicate AllActive(options: map<OptionId, PropOption>, ids: seq<OptionId>)
  {
    forall i :: 0 <= i < |ids| ==> ids[i] in options && options[ids[i]].active
  }

  /**
   * The availability check passes (one row per requested id) exactly when
   * the requested ids are pairwise distinct and every one is an active option.
   */
  lemma {:induction false} ActiveFoundComplete(options: map<OptionId, PropOption>, ids: seq<OptionId>)
    ensures |ActiveFound(options, ids)| == |ids| <==> Distinct(ids) && AllActive(options, ids)
  {
    if ids != [] {
      var rest := ids[..|ids| - 1];
      var last := ids[|ids| - 1];
      assert ids == rest + [last];
      DistinctSnoc(rest, last);
      assert AllActive(options, ids) <==> AllActive(options, rest) && last in options && options[last].active;
      ActiveFoundComplete(options, rest);
      var prior := ActiveFound(options, rest);
      if last in prior {
        assert ActiveFound(options, ids) == prior;
      } else if last in options && options[last].active {
        assert ActiveFound(options, ids) == prior + {last};
        if AllActive(options, rest) {
          assert last !in rest;
        }
      } else {
        assert ActiveFound(options, ids) == prior;
      }
    }
  }

  function OptionIds(items: seq<SlipItem>): (ids: seq<OptionId>)
    ensures |ids| == |items| && forall i :: 0 <= i < |items| ==> ids[i] == items[i].option
  {
    seq(|items|, i requires 0 <= i < |items| => items[i].option)
  }

  /** The parlay's legs, one per betslip item, with the item's odds locked in. */
  function NewLegs(pid: ParlayId, items: seq<SlipItem>): (legs: seq<Leg>)
    ensures |legs| == |items|
    ensures forall i :: 0 <= i < |items| ==> legs[i] == Leg(pid, items[i].option, items[i].isOver, items[i].odds, true)
  {
    seq(|items|, i requires 0 <= i < |items| => Leg(pid, items[i].option, items[i].isOver, items[i].odds, true))
  }

  /** `data.title || null`: an absent or empty title stores no name. */
  function ParlayName(title: Option<string>): (name: Option<string>)
    ensures name.Some? <==> title.Some? && title.value != ""
    ensures name.Some? ==> name == title
  {
    if title.Some? && title.value != "" then title else None
  }

  /** The reason `createParlay` refuses, in the order the source checks. */
  function CreateParlayError(t: Tables, user: Option<UserId>, coins: int, items: seq<SlipItem>): (e: Option<string>)
    ensures e.None? <==> (user.Some? && coins > 0 && items != [] && user.value in t.balances &&
                          t.balances[user.value] >= coins && AllActive(t.options, OptionIds(items)) &&
                          Distinct(OptionIds(items)))
    ensures user.None? ==> e == Some("User not authenticated")
  {
    ActiveFoundComplete(t.options, OptionIds(items));
    if user.None? then Some("User not authenticated")
    else if coins <= 0 then Some("Invalid bet amount")
    else if items == [] then Some("No bets selected")
    else if user.value !in t.balances then Some("User coin balance not found")
    else if t.balances[user.value] < coins then
      Some("Insufficient coins. You have " + Show(t.balances[user.value]) + " coins but tried to bet " + Show(coins))
    else if |ActiveFound(t.options, OptionIds(items))| != |items| then Some("Some prop options are no longer available")
    else None
  }

  /** The store after placing the parlay `pid`. */
  function CreateParlayEffect(t: Tables, user: UserId, title: Option<string>, coins: int, items: seq<SlipItem>,
                              pid: ParlayId, now: Time): (r: Tables)
    requires user in t.balances
    ensures r.parlays.Keys == t.parlays.Keys + {pid}
    ensures r.parlays[pid].owner == user && r.parlays[pid].coins == coins && r.parlays[pid].active
    ensures forall id :: id in t.parlays && id != pid ==> r.parlays[id] == t.parlays[id]
    ensures |r.legs| == |t.legs| + |items| && r.legs[..|t.legs|] == t.legs
    ensures forall i :: |t.legs| <= i < |r.legs| ==>
      r.legs[i].parlay == pid && r.legs[i].active && r.legs[i].option == items[i - |t.legs|].option
    ensures r.balances.Keys == t.balances.Keys && r.balances[user] == t.balances[user] - coins
    ensures forall u :: u in t.balances && u != user ==> r.balances[u] == t.balances[u]
    ensures r.users == t.users && r.props == t.props && r.options == t.options && r.tallies == t.tallies
  {
    t.(parlays := t.parlays[pid := Parlay(user, ParlayName(title), coins, now, true)],
       legs := t.legs + NewLegs(pid, items),
       balances := t.balances[user := t.balances[user] - coins])
  }

  datatype Placed = Placed(parlay: ParlayId, message: string)

  /**
   * `createParlay`: the guards in order, then one active parlay, its legs and
   * the debit. `pid` is the freshly generated id. Items with odds 0, which
   * the source would place, are excluded here, because the store invariant
   * (`Consistent`) admits only legs with odds other than 0.
   */
  method CreateParlay(db: Database, user: Option<UserId>, title: Option<string>, coins: int, items: seq<SlipItem>,
                      pid: ParlayId, now: Time) returns (r: Result<Placed>)
    requires db.Valid() && pid !in db.parlays
    requires forall i :: 0 <= i < |items| ==> items[i].odds != 0
    modifies db
    ensures db.Valid()
    ensures var e := CreateParlayError(old(db.Snapshot()), user, coins, items);
      if e.Some? then r == Err(e.value) && db.Snapshot() == old(db.Snapshot())
      else r == Ok(Placed(pid, "Parlay created successfully!")) &&
           db.Snapshot() == CreateParlayEffect(old(db.Snapshot()), user.value, title, coins, items, pid, now)
  {
    if user.None? {
      return Err("User not authenticated");
    }
    var owner := user.value;
    if coins <= 0 {
      return Err("Invalid bet amount");
    }
    if items == [] {
      return Err("No bets selected");
    }
    if owner !in db.balances {
      return Err("User coin balance not found");
    }
    var balance := db.balances[owner];
    if balance < coins {
      return Err("Insufficient coins. You have " + Show(balance) + " coins but tried to bet " + Show(coins));
    }
    var ids := OptionIds(items);
    var found := ActiveFound(db.options, ids);
    if |found| != |ids| {
      return Err("Some prop options are no longer available");
    }
    ActiveFoundComplete(db.options, ids);
    Place(db, owner, title, coins, items, pid, now);
    r := Ok(Placed(pid, "Parlay created successfully!"));
  }

  /** The transaction: insert the parlay and its legs, then debit the stake. */
  method Place(db: Database, owner: UserId, title: Option<string>, coins: int, items: seq<SlipItem>,
               pid: ParlayId, now: Time)
    requires db.Valid() && pid !in db.parlays && owner in db.balances && coins > 0
    requires AllActive(db.options, OptionIds(items)) && forall i :: 0 <= i < |items| ==> items[i].odds != 0
    modifies db
    ensures db.Valid()
    ensures db.Snapshot() == CreateParlayEffect(old(db.Snapshot()), owner, title, coins, items, pid, now)
  {
    ghost var t := db.Snapshot();
    CreatedConsistent(t, owner, title, coins, items, pid, now);
    assert t.legs == db.legs;
    ghost var u := CreateParlayEffect(t, owner, title, coins, items, pid, now);
    db.parlays := db.parlays[pid := Parlay(owner, ParlayName(title), coins, now, true)];
    assert db.parlays == u.parlays;
    db.legs := db.legs + NewLegs(pid, items);
    assert db.legs == u.legs;
    db.balances := db.balances[owner := db.balances[owner] - coins];
    assert db.balances == u.balances;
    assert db.Snapshot() == u;
  }

  /**
   * A placed parlay is active, owned by the user, with the stake debited
   * (leaving a non-negative balance) and one active leg per distinct
   * requested option, each on the requested side at the requested odds.
   */
  lemma CreateParlayPlaces(t: Tables, user: UserId, title: Option<string>, coins: int, items: seq<SlipItem>,
                           pid: ParlayId, now: Time)
    requires Consistent(t) && pid !in t.parlays && CreateParlayError(t, Some(user), coins, items).None?
    ensures user in t.balances
    ensures var u := CreateParlayEffect(t, user, title, coins, items, pid, now);
      u.parlays[pid] == Parlay(user, ParlayName(title), coins, now, true) &&
      u.balances[user] == t.balances[user] - coins >= 0 &&
      u.legs[|t.legs|..] == NewLegs(pid, items) &&
      AllActive(t.options, OptionIds(items)) && Distinct(OptionIds(items))
  {
    ActiveFoundComplete(t.options, OptionIds(items));
    var u := CreateParlayEffect(t, user, title, coins, items, pid, now);
    assert u.legs[|t.legs|..] == NewLegs(pid, items);
  }

  /** Placing a parlay that passed the checks keeps the store consistent. */
  lemma CreatedConsistent(t: Tables, user: UserId, title: Option<string>, coins: int, items: seq<SlipItem>,
                          pid: ParlayId, now: Time)
    requires Consistent(t) && pid !in t.parlays && user in t.balances && coins > 0
    requires AllActive(t.options, OptionIds(items)) && forall i :: 0 <= i < |items| ==> items[i].odds != 0
    ensures Consistent(CreateParlayEffect(t, user, title, coins, items, pid, now))
  {
    var ids := OptionIds(items);
    var u := CreateParlayEffect(t, user, title, coins, items, pid, now);
    var added := NewLegs(pid, items);
    forall i | 0 <= i < |u.legs|
      ensures u.legs[i].parlay in u.parlays && u.legs[i].option in u.options && u.legs[i].odds != 0
    {
      if i < |t.legs| {
        assert u.legs[i] == t.legs[i];
      } else {
        assert u.legs[i] == added[i - |t.legs|];
        assert ids[i - |t.legs|] in t.options;
      }
    }
  }

  /** The store after `deleteProp`: the prop, all its options and every parlay with a leg on them are inactive. */
  function DeletePropEffect(t: Tables, user: UserId, prop: PropId): (r: Tables)
    requires prop in t.props
    ensures r.props.Keys == t.props.Keys && r.options.Keys == t.options.Keys && r.parlays.Keys == t.parlays.Keys
    ensures !r.props[prop].active && r.props[prop].modifiedBy == user && r.props[prop].ev == t.props[prop].ev
    ensures forall id :: id in t.options && t.options[id].prop == prop ==> !r.options[id].active
    ensures forall id :: id in t.parlays ==> r.parlays[id].coins == t.parlays[id].coins && r.parlays[id].owner == t.parlays[id].owner
    ensures r.users == t.users && r.balances == t.balances && r.tallies == t.tallies && r.legs == t.legs
  {
    t.(props := t.props[prop := t.props[prop].(active := false, modifiedBy := user)],
       options := OptionsClosed(t.options, prop),
       parlays := ParlaysClosed(t, prop))
  }

  /** `prop_options.updateMany({ where: { prop_id }, data: { active: false } })`. */
  function OptionsClosed(options: map<OptionId, PropOption>, prop: PropId): (r: map<OptionId, PropOption>)
    ensures r.Keys == options.Keys
    ensures forall id :: id in options ==>
      r[id] == if options[id].prop == prop then options[id].(active := false) else options[id]
  {
    map id | id in options :: if options[id].prop == prop then options[id].(active := false) else options[id]
  }

  /** Some leg of the parlay, active or not, is on an option of `prop`. */
  predicate HasLegOn(t: Tables, pid: ParlayId, prop: PropId)
  {
    exists i :: 0 <= i < |t.legs| && t.legs[i].parlay == pid && t.legs[i].option in t.options &&
      t.options[t.legs[i].option].prop == prop
  }

  /** `parlays.updateMany({ where: { parlay_props: { some: { prop_options: { prop_id } } } }, data: { active: false } })`. */
  function ParlaysClosed(t: Tables, prop: PropId): (r: map<ParlayId, Parlay>)
    ensures r.Keys == t.parlays.Keys
    ensures forall id :: id in t.parlays ==>
      r[id] == if HasLegOn(t, id, prop) then t.parlays[id].(active := false) else t.parlays[id]
  {
    map id | id in t.parlays :: if HasLegOn(t, id, prop) then t.parlays[id].(active := false) else t.parlays[id]
  }

  /**
   * `deleteProp`: refused without a session; a missing prop makes the first
   * update fail; otherwise the three deactivations. No stake is refunded.
   */
  method DeleteProp(db: Database, user: Option<UserId>, prop: PropId) returns (r: Result<()>)
    requires db.Valid()
    modifies db
    ensures db.Valid()
    ensures user.None? ==> r == Err("Unauthorized") && db.Snapshot() == old(db.Snapshot())
    ensures user.Some? && prop !in old(db.props) ==> r == Err("Prop not found") && db.Snapshot() == old(db.Snapshot())
    ensures user.Some? && prop in old(db.props) ==>
      r == Ok(()) && db.Snapshot() == DeletePropEffect(old(db.Snapshot()), user.value, prop)
  {
    if user.None? {
      return Err("Unauthorized");
    }
    if prop !in db.props {
      return Err("Prop not found");
    }
    var t := db.Snapshot();
    db.props := db.props[prop := db.props[prop].(active := false, modifiedBy := user.value)];
    db.options := OptionsClosed(db.options, prop);
    db.parlays := ParlaysClosed(t, prop);
    assert db.Snapshot() == DeletePropEffect(t, user.value, prop);
    DeletePropCascade(t, user.value, prop);
    r := Ok(());
  }

  /**
   * After the cascade no active parlay has a leg on the deleted prop, no
   * option of it is active, and balances, legs and tallies are unchanged.
   */
  lemma DeletePropCascade(t: Tables, user: UserId, prop: PropId)
    requires Consistent(t) && prop in t.props
    ensures var u := DeletePropEffect(t, user, prop);
      Consistent(u) && !u.props[prop].active && u.props[prop].modifiedBy == user &&
      (forall id :: id in u.options && u.options[id].prop == prop ==> !u.options[id].active) &&
      (forall i :: 0 <= i < |u.legs| && u.options[u.legs[i].option].prop == prop ==> !u.parlays[u.legs[i].parlay].active) &&
      u.balances == t.balances && u.legs == t.legs && u.tallies == t.tallies
  {
    var u := DeletePropEffect(t, user, prop);
    forall i | 0 <= i < |u.legs| && u.options[u.legs[i].option].prop == prop
      ensures !u.parlays[u.legs[i].parlay].active
    {
      assert HasLegOn(t, t.legs[i].parlay, prop);
    }
  }

  /** Parlays without a leg on the prop, and other props, keep their state. */
  lemma DeletePropKeepsOthers(t: Tables, user: UserId, prop: PropId, pid: ParlayId, other: PropId)
    requires prop in t.props
    ensures var u := DeletePropEffect(t, user, prop);
      (pid in t.parlays && !HasLegOn(t, pid, prop) ==> u.parlays[pid] == t.parlays[pid]) &&
      (other != prop && other in t.props ==> u.props[other] == t.props[other])
  {
  }

  /** Some user has this exact username (`findFirst({ where: { username: { equals } } })`). */
  predicate HasUsername(users: map<UserId, User>, username: string)
  {
    exists id :: id in users && users[id].username == username
  }

  datatype Topped = Topped(coins: int, user: UserId)

  /**
   * `createCoins`: the username is lower-cased before the lookup; an unknown
   * user is an error; otherwise the balance is incremented (created if absent)
   * and the new balance and the user id are returned.
   */
  method CreateCoins(db: Database, username: string, amount: int) returns (r: Result<Topped>)
    requires db.Valid()
    modifies db
    ensures db.Valid()
    ensures !HasUsername(old(db.users), Lower(username)) ==>
      r == Err("User not found") && db.Snapshot() == old(db.Snapshot())
    ensures HasUsername(old(db.users), Lower(username)) ==>
      r.Ok? && r.value.user in old(db.users) && old(db.users)[r.value.user].username == Lower(username) &&
      db.Snapshot() == old(db.Snapshot()).(balances := Credit(old(db.balances), r.value.user, amount)) &&
      r.value.coins == db.balances[r.value.user]
  {
    var name := Lower(username);
    if !(exists id :: id in db.users && db.users[id].username == name) {
      return Err("User not found");
    }
    var id :| id in db.users && db.users[id].username == name;
    db.balances := Credit(db.balances, id, amount);
    r := Ok(Topped(db.balances[id], id));
  }

  /** The user a top-up credits is determined by the name, since usernames are unique. */
  lemma CreateCoinsTarget(t: Tables, username: string, a: UserId, b: UserId)
    requires Consistent(t)
    requires a in t.users && t.users[a].username == Lower(username)
    requires b in t.users && t.users[b].username == Lower(username)
    ensures a == b
  {
  }
}
