/**
 * The database tables the server actions read and write, held by one
 * `Database` object whose fields the actions reassign.
 *
 * Rows are values; a table keyed by a generated string id is a `map`, and the
 * two tables with an auto-increment or insertion order (tallies, parlay legs)
 * are sequences, a tally's id being its position. Modification timestamps are
 * not part of the model; `modified_by` columns are.
 */
module Store {
  import opened Wrappers

  type UserId = string
  type PropId = string
  type OptionId = string
  type ParlayId = string
  /** Milliseconds since the epoch. */
  type Time = int

  datatype User = User(name: string, username: string, email: string, password: string)

  /** A proposition about a subject, with an expected tally count `ev` and an end time. */
  datatype Prop = Prop(ev: real, created: Time, end: Time, subject: UserId, active: bool, modifiedBy: UserId)

  /** An over/under line offered on a prop with its current odds (`prop_options`). */
  datatype PropOption = PropOption(prop: PropId, line: real, oddsOver: int, oddsUnder: int, active: bool, modifiedBy: UserId)

  /** One observed occurrence counted towards a prop (`prop_points`). */
  datatype Tally = Tally(prop: PropId, created: Time, createdBy: UserId, modifiedBy: UserId, active: bool)

  /** A bet of `coins` on all of its legs at once. */
  datatype Parlay = Parlay(owner: UserId, name: Option<string>, coins: int, created: Time, active: bool)

  /** One leg of a parlay (`parlay_props`): a side of an option with the odds locked in when it was placed. */
  datatype Leg = Leg(parlay: ParlayId, option: OptionId, isOver: bool, odds: int, active: bool)

  /** All tables at one moment, for stating what an action does to the whole store. */
  datatype Tables = Tables(
    users: map<UserId, User>,
    balances: map<UserId, int>,
    props: map<PropId, Prop>,
    options: map<OptionId, PropOption>,
    tallies: seq<Tally>,
    parlays: map<ParlayId, Parlay>,
    legs: seq<Leg>)

  /**
   * The integrity the actions rely on: options belong to existing props,
   * legs to existing parlays and options with nonzero locked-in odds, expected
   * values are not negative, stakes are positive and usernames are unique.
   */
  predicate Consistent(t: Tables)
  {
    (forall id :: id in t.options ==> t.options[id].prop in t.props) &&
    (forall id :: id in t.props ==> t.props[id].ev >= 0.0) &&
    (forall id :: id in t.parlays ==> t.parlays[id].coins > 0) &&
    (forall i :: 0 <= i < |t.legs| ==>
       t.legs[i].parlay in t.parlays && t.legs[i].option in t.options && t.legs[i].odds != 0) &&
    (forall a, b :: a in t.users && b in t.users && t.users[a].username == t.users[b].username ==> a == b)
  }

  class Database {
    var users: map<UserId, User>
    var balances: map<UserId, int>
    var props: map<PropId, Prop>
    var options: map<OptionId, PropOption>
    var tallies: seq<Tally>
    var parlays: map<ParlayId, Parlay>
    var legs: seq<Leg>

    function Snapshot(): (t: Tables)
      reads this
      ensures t.parlays == parlays && t.balances == balances && t.legs == legs
    {
      Tables(users, balances, props, options, tallies, parlays, legs)
    }

    predicate Valid()
      reads this
    {
      Consistent(Snapshot())
    }

    /** An empty store. */
    constructor ()
      ensures Valid()
      ensures Snapshot() == Tables(map[], map[], map[], map[], [], map[], [])
    {
      users, balances, props, options := map[], map[], map[], map[];
      tallies, parlays, legs := [], map[], [];
    }
  }

  /**
   * The balance upsert `{ update: { increment: amount }, create: { coins: amount } }`:
   * an existing balance grows by `amount`, a missing one starts at `amount`.
   */
  function Credit(balances: map<UserId, int>, user: UserId, amount: int): (r: map<UserId, int>)
    ensures user in r && r[user] == (if user in balances then balances[user] else 0) + amount
    ensures r.Keys == balances.Keys + {user}
    ensures forall u :: u in balances && u != user ==> r[u] == balances[u]
  {
    balances[user := if user in balances then balances[user] + amount else amount]
  }

  /** Crediting twice is crediting the sum once. */
  lemma CreditTwice(balances: map<UserId, int>, user: UserId, a: int, b: int)
    ensures Credit(Credit(balances, user, a), user, b) == Credit(balances, user, a + b)
  {
  }

  /** No element occurs twice. */
  predicate Distinct<T(==)>(s: seq<T>)
  {
    forall i, j :: 0 <= i < j < |s| ==> s[i] != s[j]
  }

  lemma DistinctSnoc<T>(s: seq<T>, x: T)
    ensures Distinct(s + [x]) <==> Distinct(s) && x !in s
  {
    var u := s + [x];
    if Distinct(u) {
      forall i | 0 <= i < |s|
        ensures s[i] != x
      {
        assert u[i] == s[i] && u[|s|] == x;
      }
      forall i, j | 0 <= i < j < |s|
        ensures s[i] != s[j]
      {
        assert u[i] == s[i] && u[j] == s[j];
      }
    }
    if Distinct(s) && x !in s {
      forall i, j | 0 <= i < j < |u|
        ensures u[i] != u[j]
      {
        if j < |s| {
          assert u[i] == s[i] && u[j] == s[j];
        } else {
          assert u[i] == s[i] && u[j] == x;
        }
      }
    }
  }

  /** Number of active tallies of `prop` (`prop_points` where `active: true`). */
  function ActiveTallyCount(ts: seq<Tally>, prop: PropId): (n: nat)
    ensures n <= |ts|
  {
    if ts == [] then 0
    else ActiveTallyCount(ts[..|ts| - 1], prop) + (if ts[|ts| - 1].prop == prop && ts[|ts| - 1].active then 1 else 0)
  }

  /** Number of active tallies of `prop` created in the closed interval [from, to]. */
  function WindowTallyCount(ts: seq<Tally>, prop: PropId, from: Time, to: Time): (n: nat)
    ensures n <= ActiveTallyCount(ts, prop)
  {
    if ts == [] then 0
    else
      var last := ts[|ts| - 1];
      WindowTallyCount(ts[..|ts| - 1], prop, from, to)
      + (if last.prop == prop && last.active && from <= last.created <= to then 1 else 0)
  }

  /** Appending an active tally of `prop` adds one to its count and none to any other prop's. */
  lemma {:induction false} ActiveTallyCountAppend(ts: seq<Tally>, t: Tally, prop: PropId)
    ensures ActiveTallyCount(ts + [t], prop) == ActiveTallyCount(ts, prop) + (if t.prop == prop && t.active then 1 else 0)
  {
    assert (ts + [t])[..|ts + [t]| - 1] == ts;
  }

  /** Deactivating an active tally of `prop` removes exactly one from its count. */
  lemma {:induction false} ActiveTallyCountDeactivate(ts: seq<Tally>, i: nat, prop: PropId)
    requires i < |ts| && ts[i].active && ts[i].prop == prop
    ensures ActiveTallyCount(ts[i := ts[i].(active := false)], prop) + 1 == ActiveTallyCount(ts, prop)
    decreases |ts|
  {
    var us := ts[i := ts[i].(active := false)];
    if i < |ts| - 1 {
      assert us[..|us| - 1] == ts[..|ts| - 1][i := ts[i].(active := false)];
      ActiveTallyCountDeactivate(ts[..|ts| - 1], i, prop);
    } else {
      assert us[..|us| - 1] == ts[..|ts| - 1];
    }
  }

  /** The active legs of a parlay, in table order. */
  function ActiveLegsOf(legs: seq<Leg>, parlay: ParlayId): (r: seq<Leg>)
    ensures |r| <= |legs|
    ensures forall i :: 0 <= i < |r| ==> r[i] in legs && r[i].parlay == parlay && r[i].active
    ensures forall i :: 0 <= i < |legs| && legs[i].parlay == parlay && legs[i].active ==> legs[i] in r
  {
    if legs == [] then []
    else
      var last := legs[|legs| - 1];
      ActiveLegsOf(legs[..|legs| - 1], parlay) + (if last.parlay == parlay && last.active then [last] else [])
  }

  /** Legs of other parlays, or new inactive legs, do not change a parlay's active legs. */
  lemma {:induction false} ActiveLegsOfAppend(legs: seq<Leg>, extra: seq<Leg>, parlay: ParlayId)
    requires forall i :: 0 <= i < |extra| ==> extra[i].parlay != parlay
    ensures ActiveLegsOf(legs + extra, parlay) == ActiveLegsOf(legs, parlay)
    decreases |extra|
  {
    if extra != [] {
      var all := legs + extra;
      assert all[..|all| - 1] == legs + extra[..|extra| - 1];
      ActiveLegsOfAppend(legs, extra[..|extra| - 1], parlay);
    } else {
      assert legs + extra == legs;
    }
  }
}
