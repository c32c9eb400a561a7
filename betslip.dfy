/**
 * The betslip kept in the browser's local storage: the picks a user has
 * collected before placing a parlay, keyed by (prop, line, side), with the
 * combined American odds and the payout they imply.
 */
module Betslip {
  import opened Wrappers
  import opened Numeric
  import opened Valuation
  import Text
  import opened Positions

  datatype Selection = Over | Under

  function SelectionText(s: Selection): string
  {
    match s
    case Over => "over"
    case Under => "under"
  }

  /** What a caller of `addItem` supplies: an item without its id and time stamp. */
  datatype ItemDraft = ItemDraft(propId: string, propDescription: string, lineId: string, line: real,
                                 selection: Selection, odds: int, createdBy: string)

  datatype BetslipItem = BetslipItem(id: string, propId: string, propDescription: string, lineId: string, line: real,
                                     selection: Selection, odds: int, createdBy: string, addedAt: string)

  /** The fields that say whether two picks are "this exact bet". */
  datatype Key = Key(propId: string, lineId: string, selection: Selection)

  function KeyOf(item: BetslipItem): Key
  {
    Key(item.propId, item.lineId, item.selection)
  }

  function DraftKey(d: ItemDraft): Key
  {
    Key(d.propId, d.lineId, d.selection)
  }

  /** `${propId}-${lineId}-${selection}`. */
  function ItemId(k: Key): string
  {
    k.propId + "-" + k.lineId + "-" + SelectionText(k.selection)
  }

  /** The item `addItem` stores for a draft, stamped with the time it was added. */
  function Stamp(d: ItemDraft, addedAt: string): BetslipItem
  {
    BetslipItem(ItemId(DraftKey(d)), d.propId, d.propDescription, d.lineId, d.line, d.selection, d.odds, d.createdBy,
                addedAt)
  }

  /** `hasItem`: some stored item is this exact bet. */
  predicate HasKey(items: seq<BetslipItem>, k: Key)
  {
    exists i :: 0 <= i < |items| && KeyOf(items[i]) == k
  }

  /** `hasPropItems`: some stored item is on this prop. */
  predicate HasPropItems(items: seq<BetslipItem>, propId: string)
  {
    exists i :: 0 <= i < |items| && items[i].propId == propId
  }

  predicate HasId(items: seq<BetslipItem>, id: string)
  {
    exists i :: 0 <= i < |items| && items[i].id == id
  }

  /** Every stored item carries the id its key gives, as `addItem` writes them. */
  predicate IdsMatchKeys(items: seq<BetslipItem>)
  {
    forall i :: 0 <= i < |items| ==> items[i].id == ItemId(KeyOf(items[i]))
  }

  predicate UniqueKeys(items: seq<BetslipItem>)
  {
    forall i, j :: 0 <= i < j < |items| ==> KeyOf(items[i]) != KeyOf(items[j])
  }

  /** At most one pick per prop, which the buttons' enable rule maintains. */
  predicate OnePerProp(items: seq<BetslipItem>)
  {
    forall i, j :: 0 <= i < j < |items| ==> items[i].propId != items[j].propId
  }

  /** `findIndex` on the key: the first position holding this exact bet, or -1. */
  function KeyIndex(items: seq<BetslipItem>, k: Key): (i: int)
    ensures -1 <= i < |items|
    ensures i >= 0 ==> KeyOf(items[i]) == k
    ensures forall j :: 0 <= j < |items| && (i < 0 || j < i) ==> KeyOf(items[j]) != k
  {
    if items == [] then -1
    else if KeyOf(items[0]) == k then 0
    else
      var i := KeyIndex(items[1..], k);
      if i < 0 then -1 else i + 1
  }

  /** `find` on the prop: the first position holding a pick on this prop, or -1. */
  function PropIndex(items: seq<BetslipItem>, propId: string): (i: int)
    ensures -1 <= i < |items|
    ensures i >= 0 ==> items[i].propId == propId
    ensures forall j :: 0 <= j < |items| && (i < 0 || j < i) ==> items[j].propId != propId
  {
    if items == [] then -1
    else if items[0].propId == propId then 0
    else
      var i := PropIndex(items[1..], propId);
      if i < 0 then -1 else i + 1
  }

  /** `getPropItem`: the first pick on the prop, if there is one. */
  function GetPropItem(items: seq<BetslipItem>, propId: string): (r: Option<BetslipItem>)
    ensures r.Some? <==> HasPropItems(items, propId)
    ensures r.Some? ==> r.value.propId == propId
    ensures r.Some? ==> exists i :: 0 <= i < |items| && items[i] == r.value &&
                                    forall j :: 0 <= j < i ==> items[j].propId != propId
  {
    var i := PropIndex(items, propId);
    if i >= 0 then Some(items[i]) else None
  }

  /** `addItem`'s list update: the pick replaces this exact bet where it stands, or is appended. */
  function Upsert(items: seq<BetslipItem>, item: BetslipItem): (r: seq<BetslipItem>)
    ensures item in r
    ensures |r| == if HasKey(items, KeyOf(item)) then |items| else |items| + 1
  {
    var i := KeyIndex(items, KeyOf(item));
    if i >= 0 then
      assert KeyOf(items[i]) == KeyOf(item);
      assert items[i := item][i] == item;
      items[i := item]
    else
      assert items + [item] == items + [item] && (items + [item])[|items|] == item;
      items + [item]
  }

  /**
   * The slip grows by at most one, gains the new pick, keeps every other
   * bet where it was, and keeps at most one entry per bet.
   */
  lemma UpsertKeeps(items: seq<BetslipItem>, item: BetslipItem)
    ensures var r := Upsert(items, item);
      (HasKey(items, KeyOf(item)) ==> |r| == |items|) &&
      (!HasKey(items, KeyOf(item)) ==> r == items + [item]) &&
      item in r &&
      (forall j :: 0 <= j < |items| && KeyOf(items[j]) != KeyOf(item) ==> r[j] == items[j]) &&
      (UniqueKeys(items) ==> UniqueKeys(r)) &&
      (IdsMatchKeys(items) && item.id == ItemId(KeyOf(item)) ==> IdsMatchKeys(r))
  {
    var i := KeyIndex(items, KeyOf(item));
    if i < 0 {
      assert !HasKey(items, KeyOf(item));
    } else {
      assert HasKey(items, KeyOf(item));
      assert items[i := item][i] == item;
    }
  }

  /** Adding a pick on a prop with none yet keeps the slip at one pick per prop. */
  lemma UpsertNewProp(items: seq<BetslipItem>, item: BetslipItem)
    requires !HasPropItems(items, item.propId)
    ensures Upsert(items, item) == items + [item]
    ensures OnePerProp(items) ==> OnePerProp(Upsert(items, item))
  {
    forall i | 0 <= i < |items| ensures KeyOf(items[i]) != KeyOf(item) {
      assert items[i].propId != item.propId;
    }
  }

  /** `filter(item => item.id !== itemId)`: no pick with that id is left, and the slip never grows. */
  function WithoutId(items: seq<BetslipItem>, id: string): (r: seq<BetslipItem>)
    ensures |r| <= |items|
    ensures forall k :: 0 <= k < |r| ==> r[k].id != id
  {
    if items == [] then []
    else if items[0].id == id then WithoutId(items[1..], id)
    else [items[0]] + WithoutId(items[1..], id)
  }

  /** The positions of the picks `removeItem` keeps, first to last. */
  function KeptIndices(items: seq<BetslipItem>, id: string): seq<nat>
  {
    if items == [] then []
    else
      var shifted := Successors(KeptIndices(items[1..], id));
      if items[0].id == id then shifted else [0] + shifted
  }

  /**
   * Removal keeps the order and the multiplicity of the rest of the slip: the
   * k-th survivor is the pick at the k-th kept position, the positions
   * increase, and every pick whose id differs is kept.
   */
  lemma {:induction false} WithoutIdKeepsOrder(items: seq<BetslipItem>, id: string)
    ensures |KeptIndices(items, id)| == |WithoutId(items, id)|
    ensures forall k :: 0 <= k < |KeptIndices(items, id)| ==>
      KeptIndices(items, id)[k] < |items| && WithoutId(items, id)[k] == items[KeptIndices(items, id)[k]]
    ensures forall k, l :: 0 <= k < l < |KeptIndices(items, id)| ==> KeptIndices(items, id)[k] < KeptIndices(items, id)[l]
    ensures forall j :: 0 <= j < |items| && items[j].id != id ==> j in KeptIndices(items, id)
  {
    if items != [] {
      var tail := items[1..];
      WithoutIdKeepsOrder(tail, id);
      var rest := KeptIndices(tail, id);
      var shifted := Successors(rest);
      var survivors := WithoutId(tail, id);
      TailKept(items, id, rest, survivors);
      if items[0].id != id {
        assert KeptIndices(items, id) == [0] + shifted;
        assert WithoutId(items, id) == [items[0]] + survivors;
        KeptHead(items[0], survivors, shifted, items);
      } else {
        assert KeptIndices(items, id) == shifted;
        assert WithoutId(items, id) == survivors;
      }
    }
  }

  /** The positions kept in the tail of a slip, moved one place right, are positions of the whole slip. */
  lemma TailKept(items: seq<BetslipItem>, id: string, rest: seq<nat>, survivors: seq<BetslipItem>)
    requires items != [] && |rest| == |survivors|
    requires forall k :: 0 <= k < |rest| ==> rest[k] < |items[1..]| && survivors[k] == items[1..][rest[k]]
    requires forall k, l :: 0 <= k < l < |rest| ==> rest[k] < rest[l]
    requires forall j :: 0 <= j < |items[1..]| && items[1..][j].id != id ==> j in rest
    ensures forall k :: 0 <= k < |rest| ==> 1 <= Successors(rest)[k] < |items| && survivors[k] == items[Successors(rest)[k]]
    ensures forall k, l :: 0 <= k < l < |rest| ==> Successors(rest)[k] < Successors(rest)[l]
    ensures forall j :: 1 <= j < |items| && items[j].id != id ==> j in Successors(rest)
  {
    var tail := items[1..];
    var shifted := Successors(rest);
    forall k | 0 <= k < |shifted| ensures 1 <= shifted[k] < |items| && survivors[k] == items[shifted[k]] {
      assert tail[rest[k]] == items[rest[k] + 1];
    }
    forall j | 1 <= j < |items| && items[j].id != id ensures j in shifted {
      assert tail[j - 1] == items[j];
      var k :| 0 <= k < |rest| && rest[k] == j - 1;
      assert shifted[k] == j;
    }
  }

  /**
   * Removal deletes exactly the picks with that id: none is left, every
   * other pick stays, and nothing new appears.
   */
  lemma {:induction false} WithoutIdExact(items: seq<BetslipItem>, id: string)
    ensures forall x :: x in WithoutId(items, id) <==> x in items && x.id != id
    ensures |WithoutId(items, id)| <= |items|
    ensures !HasId(items, id) ==> WithoutId(items, id) == items
  {
    if items != [] {
      WithoutIdExact(items[1..], id);
      assert items == [items[0]] + items[1..];
      if !HasId(items, id) {
        assert !HasId(items[1..], id) by {
          forall j | 0 <= j < |items[1..]| ensures items[1..][j].id != id {
            assert items[1..][j] == items[j + 1];
          }
        }
      }
    }
  }

  /** A pick that survives removal from the tail of a slip stands somewhere after its head. */
  lemma SurvivorOfTail(items: seq<BetslipItem>, id: string, x: BetslipItem)
    requires items != [] && x in WithoutId(items[1..], id)
    ensures exists j :: 1 <= j < |items| && items[j] == x
  {
    WithoutIdExact(items[1..], id);
    var j :| 0 <= j < |items[1..]| && items[1..][j] == x;
    assert items[j + 1] == x;
  }

  /** Removal keeps the rest in order, so it keeps one entry per bet. */
  lemma {:induction false} WithoutIdUniqueKeys(items: seq<BetslipItem>, id: string)
    requires UniqueKeys(items)
    ensures UniqueKeys(WithoutId(items, id))
  {
    if items != [] {
      var rest := items[1..];
      assert UniqueKeys(rest) by {
        assert forall j :: 0 <= j < |rest| ==> rest[j] == items[j + 1];
      }
      WithoutIdUniqueKeys(rest, id);
      var r := WithoutId(rest, id);
      if items[0].id != id {
        forall x | x in r ensures KeyOf(x) != KeyOf(items[0]) {
          SurvivorOfTail(items, id, x);
        }
        var s := [items[0]] + r;
        forall a, b | 0 <= a < b < |s| ensures KeyOf(s[a]) != KeyOf(s[b]) {
          assert s[b] == r[b - 1];
          if a > 0 {
            assert s[a] == r[a - 1];
          }
        }
      }
    }
  }

  /** Removal keeps the rest in order, so it keeps one pick per prop. */
  lemma {:induction false} WithoutIdOnePerProp(items: seq<BetslipItem>, id: string)
    requires OnePerProp(items)
    ensures OnePerProp(WithoutId(items, id))
  {
    if items != [] {
      var rest := items[1..];
      assert OnePerProp(rest) by {
        assert forall j :: 0 <= j < |rest| ==> rest[j] == items[j + 1];
      }
      WithoutIdOnePerProp(rest, id);
      var r := WithoutId(rest, id);
      if items[0].id != id {
        forall x | x in r ensures x.propId != items[0].propId {
          SurvivorOfTail(items, id, x);
        }
        var s := [items[0]] + r;
        forall a, b | 0 <= a < b < |s| ensures s[a].propId != s[b].propId {
          assert s[b] == r[b - 1];
          if a > 0 {
            assert s[a] == r[a - 1];
          }
        }
      }
    }
  }

  /** Removal keeps every surviving pick's id as it was. */
  lemma WithoutIdMatchesKeys(items: seq<BetslipItem>, id: string)
    requires IdsMatchKeys(items)
    ensures IdsMatchKeys(WithoutId(items, id))
    ensures !HasId(WithoutId(items, id), id)
  {
    WithoutIdExact(items, id);
    var r := WithoutId(items, id);
    forall k | 0 <= k < |r| ensures r[k].id == ItemId(KeyOf(r[k])) && r[k].id != id {
      assert r[k] in items;
    }
  }

  /** A slip whose ids match their keys and that has no pick with the id of a key has no pick with that key. */
  lemma NoIdNoKey(items: seq<BetslipItem>, k: Key)
    requires IdsMatchKeys(items) && !HasId(items, ItemId(k))
    ensures !HasKey(items, k)
  {
    forall i | 0 <= i < |items| ensures KeyOf(items[i]) != k {
      assert items[i].id == ItemId(KeyOf(items[i]));
    }
  }

  /**
   * Adding a pick and then removing it by the id the button computes gives
   * back the original slip, provided no stored pick already had that id.
   */
  lemma AddThenRemove(items: seq<BetslipItem>, d: ItemDraft, addedAt: string)
    requires IdsMatchKeys(items) && !HasId(items, ItemId(DraftKey(d)))
    ensures WithoutId(Upsert(items, Stamp(d, addedAt)), ItemId(DraftKey(d))) == items
  {
    var item := Stamp(d, addedAt);
    var id := ItemId(DraftKey(d));
    NoIdNoKey(items, DraftKey(d));
    UpsertKeeps(items, item);
    WithoutIdAppend(items, item, id);
    WithoutIdExact(items, id);
  }

  lemma {:induction false} WithoutIdAppend(items: seq<BetslipItem>, item: BetslipItem, id: string)
    requires item.id == id
    ensures WithoutId(items + [item], id) == WithoutId(items, id)
  {
    if items == [] {
      assert [item][1..] == [];
    } else {
      assert (items + [item])[1..] == items[1..] + [item];
      WithoutIdAppend(items[1..], item, id);
    }
  }

  /**
   * Removing a pick and then adding it again puts it back, re-stamped, at
   * the end of the slip, after the other picks in their old order.
   */
  lemma RemoveThenAdd(items: seq<BetslipItem>, d: ItemDraft, addedAt: string)
    requires IdsMatchKeys(items)
    ensures Upsert(WithoutId(items, ItemId(DraftKey(d))), Stamp(d, addedAt))
            == WithoutId(items, ItemId(DraftKey(d))) + [Stamp(d, addedAt)]
  {
    var removed := WithoutId(items, ItemId(DraftKey(d)));
    WithoutIdMatchesKeys(items, ItemId(DraftKey(d)));
    NoIdNoKey(removed, DraftKey(d));
    UpsertKeeps(removed, Stamp(d, addedAt));
  }

  /** Every stored pick has nonzero odds (zero would make the decimal odds infinite). */
  predicate ItemOddsValid(items: seq<BetslipItem>)
  {
    forall i :: 0 <= i < |items| ==> items[i].odds != 0
  }

  /** `items.map(...).reduce((acc, odds) => acc * odds, 1)`: the decimal odds of the slip. */
  function SlipDecimal(items: seq<BetslipItem>): (d: real)
    requires ItemOddsValid(items)
    ensures items != [] ==> d > 1.0
  {
    var ds := seq(|items|, i requires 0 <= i < |items| => Decimal(items[i].odds));
    ProductOfMultipliers(ds);
    Product(ds)
  }

  /**
   * `calculateTotalOdds`: 0 for an empty slip, otherwise the slip's decimal
   * odds back in American form, +100 or more from 2.0 up and -100 or less
   * below; so the shown odds are never strictly between -100 and +100.
   */
  function CalculateTotalOdds(items: seq<BetslipItem>): (total: int)
    requires ItemOddsValid(items)
    ensures items == [] <==> total == 0
    ensures items != [] ==> (total >= 100 <==> SlipDecimal(items) >= 2.0) && (total >= 100 || total <= -100)
  {
    if items == [] then 0 else AmericanFromDecimal(SlipDecimal(items))
  }

  /** Decimal odds above 1 back in American form: positive from 2.0 up, otherwise negative. */
  function AmericanFromDecimal(d: real): (odds: int)
    requires d > 1.0
    ensures d >= 2.0 ==> odds >= 100
    ensures d < 2.0 ==> odds <= -100
  {
    if d >= 2.0 then
      RoundOfInt(100);
      RoundMonotone(100.0, (d - 1.0) * 100.0);
      Round((d - 1.0) * 100.0)
    else
      DivCompare(-100.0, d - 1.0, -100.0);
      RoundOfInt(-100);
      RoundMonotone(-100.0 / (d - 1.0), -100.0);
      Round(-100.0 / (d - 1.0))
  }

  /**
   * A one-pick slip shows that pick's odds when they are +100 or more or
   * below -100; -100 (decimal 2.0) is shown as +100.
   */
  lemma TotalOddsOfOnePick(item: BetslipItem)
    requires item.odds != 0
    ensures item.odds >= 100 || item.odds < -100 ==> CalculateTotalOdds([item]) == item.odds
    ensures item.odds == -100 ==> CalculateTotalOdds([item]) == 100
  {
    var o := item.odds;
    var ds := seq(1, i requires 0 <= i < 1 => Decimal([item][i].odds));
    assert ds == [Decimal(o)];
    assert Product(ds) == Product([]) * Decimal(o) by {
      assert ds[..0] == [];
    }
    assert SlipDecimal([item]) == Decimal(o);
    if o >= 100 {
      assert (Decimal(o) - 1.0) * 100.0 == o as real;
      RoundOfInt(o);
    } else if o == -100 {
      assert Decimal(o) == 2.0;
      RoundOfInt(100);
    } else if o < -100 {
      var a := IntAbs(o) as real;
      assert Decimal(o) - 1.0 == 100.0 / a;
      assert -100.0 / (100.0 / a) == -a;
      RoundOfInt(o);
    }
  }

  /**
   * `calculatePayout`: the stake times the decimal form of the American
   * odds (stake plus odds/100 of it for positive odds, plus 100/|odds| of it
   * for negative odds).
   */
  function CalculatePayout(coins: real, totalOdds: int): (payout: real)
    requires totalOdds != 0
    ensures payout == coins * Decimal(totalOdds)
  {
    if totalOdds > 0 then coins + coins * (totalOdds as real / 100.0)
    else coins + coins * (100.0 / IntAbs(totalOdds) as real)
  }

  /**
   * The payout on the slip's rounded American odds differs from the stake
   * times the exact decimal odds by at most half a percent of the stake.
   */
  lemma PayoutTracksSlip(coins: real, items: seq<BetslipItem>)
    requires coins >= 0.0 && items != [] && ItemOddsValid(items)
    ensures Abs(CalculatePayout(coins, CalculateTotalOdds(items)) - coins * SlipDecimal(items)) <= coins * 0.005
  {
    var d := SlipDecimal(items);
    if d >= 2.0 {
      PayoutFromTwo(coins, d, AmericanFromDecimal(d));
    } else {
      PayoutBelowTwo(coins, d, AmericanFromDecimal(d));
    }
  }

  /** From decimal odds 2.0 up the rounded odds are positive and off by at most half a unit of 1/100. */
  lemma PayoutFromTwo(coins: real, d: real, t: int)
    requires coins >= 0.0 && d >= 2.0 && t == Round((d - 1.0) * 100.0) && t >= 100
    ensures Abs(CalculatePayout(coins, t) - coins * d) <= coins * 0.005
  {
    var x := (d - 1.0) * 100.0;
    var p := CalculatePayout(coins, t);
    assert p == coins + coins * (t as real / 100.0);
    assert p - coins * d == coins * ((t as real - x) / 100.0);
    ScaledError(coins, (t as real - x) / 100.0);
  }

  /** Below decimal odds 2.0 the rounded odds are -100 or less, and their reciprocal is off by at most 0.005. */
  lemma PayoutBelowTwo(coins: real, d: real, t: int)
    requires coins >= 0.0 && 1.0 < d < 2.0 && t == Round(-100.0 / (d - 1.0)) && t <= -100
    ensures Abs(CalculatePayout(coins, t) - coins * d) <= coins * 0.005
  {
    var y := -100.0 / (d - 1.0);
    DivCompare(-100.0, d - 1.0, -100.0);
    var a := -(t as real);
    var b := -y;
    assert d - 1.0 == 100.0 / b;
    var p := CalculatePayout(coins, t);
    assert p == coins + coins * (100.0 / a);
    ReciprocalGap(a, b);
    assert p - coins * d == coins * (100.0 / a - 100.0 / b);
    ScaledError(coins, 100.0 / a - 100.0 / b);
  }

  lemma ScaledError(coins: real, e: real)
    requires coins >= 0.0 && -0.005 <= e <= 0.005
    ensures Abs(coins * e) <= coins * 0.005
  {
    MulLe(e, 0.005, coins);
    MulLe(-0.005, e, coins);
  }

  lemma ReciprocalGap(a: real, b: real)
    requires a >= 100.0 && b >= 100.0 && a - b <= 0.5 && b - a <= 0.5
    ensures -0.005 <= 100.0 / a - 100.0 / b <= 0.005
  {
    assert 100.0 / a - 100.0 / b == 100.0 * (b - a) / (a * b);
    MulLe(100.0, a, b);
    MulLe(100.0, b, 100.0);
    var ab := a * b;
    assert ab >= 10000.0;
    QuotientBetween(100.0 * (b - a), ab, -0.005, 0.005);
  }

  /** What `getSummary` reports as the expected payout. */
  datatype Expected =
    | NotShown
    | Amount(value: real)
      /** An empty slip has total odds 0, and `100 / 0` makes the payout infinite, signed like the stake. */
    | Infinite(positive: bool)

  datatype BetslipSummary = BetslipSummary(items: seq<BetslipItem>, totalOdds: int, coins: Option<real>,
                                           expectedPayout: Expected)

  /**
   * `getSummary`: the payout is shown only for a truthy stake (present and
   * nonzero); it is the stake times the decimal total odds, and infinite
   * for an empty slip.
   */
  function GetSummary(items: seq<BetslipItem>, coins: Option<real>): (s: BetslipSummary)
    requires ItemOddsValid(items)
    ensures s.items == items && s.coins == coins && s.totalOdds == CalculateTotalOdds(items)
    ensures s.expectedPayout.NotShown? <==> coins.None? || coins.value == 0.0
    ensures s.expectedPayout.Infinite? <==> items == [] && coins.Some? && coins.value != 0.0
    ensures s.expectedPayout.Amount? ==> s.expectedPayout.value == coins.value * Decimal(s.totalOdds)
  {
    var totalOdds := CalculateTotalOdds(items);
    var expected :=
      if coins.None? || coins.value == 0.0 then NotShown
      else if totalOdds == 0 then Infinite(coins.value > 0.0)
      else Amount(CalculatePayout(coins.value, totalOdds));
    BetslipSummary(items, totalOdds, coins, expected)
  }

  /**
   * The browser's local storage under the betslip key. `stored` is what
   * parses from it: None when the key is absent, empty or unreadable. On
   * the server (no window) nothing is read or written.
   */
  class BetslipStorage {
    const hasWindow: bool
    var stored: Option<seq<BetslipItem>>

    constructor(hasWindow: bool, stored: Option<seq<BetslipItem>>)
      ensures this.hasWindow == hasWindow && this.stored == stored
    {
      this.hasWindow := hasWindow;
      this.stored := stored;
    }

    /** `getItems`: the parsed list, or [] without a window or without readable data. */
    function Items(): (items: seq<BetslipItem>)
      reads this
      ensures !hasWindow || stored.None? ==> items == []
    {
      if hasWindow && stored.Some? then stored.value else []
    }

    /** `saveItems`: with a window, what is saved is what the next read returns. */
    method SaveItems(items: seq<BetslipItem>)
      modifies this
      ensures stored == if hasWindow then Some(items) else old(stored)
      ensures hasWindow ==> Items() == items
    {
      if hasWindow {
        stored := Some(items);
      }
    }

    /** `addItem`: stores the stamped pick in place of the same bet or at the end, and returns it. */
    method AddItem(d: ItemDraft, addedAt: string) returns (newItem: BetslipItem)
      modifies this
      ensures newItem == Stamp(d, addedAt) && newItem.id == ItemId(DraftKey(d))
      ensures stored == if hasWindow then Some(Upsert(old(Items()), newItem)) else old(stored)
    {
      var items := Items();
      var existingIndex := KeyIndex(items, DraftKey(d));
      newItem := Stamp(d, addedAt);
      if existingIndex >= 0 {
        items := items[existingIndex := newItem];
      } else {
        items := items + [newItem];
      }
      SaveItems(items);
    }

    /** `removeItem`: stores the list without the picks carrying that id. */
    method RemoveItem(itemId: string)
      modifies this
      ensures stored == if hasWindow then Some(WithoutId(old(Items()), itemId)) else old(stored)
    {
      var items := Items();
      var filtered := WithoutId(items, itemId);
      SaveItems(filtered);
    }

    /** `clear`: drops the key, so the slip reads as empty. */
    method Clear()
      modifies this
      ensures stored == if hasWindow then None else old(stored)
      ensures Items() == []
    {
      if hasWindow {
        stored := None;
      }
    }
  }

  /** The label of a pick's button: "Added", or the side's letter and the odds with '+' when positive. */
  function ButtonLabel(isAdded: bool, selection: Selection, odds: int): (caption: string)
    ensures isAdded ==> caption == "Added"
    ensures !isAdded ==> |caption| >= 3 && caption[1] == ' ' && (caption[0] == 'O' <==> selection == Over) &&
                         (caption[2] == '+' <==> odds > 0)
  {
    if isAdded then "Added"
    else
      Text.FormatOddsSign(odds);
      [if selection == Over then 'O' else 'U', ' '] + Text.FormatOdds(odds)
  }

  /** The odds part of a button's label reads back as the pick's odds. */
  lemma LabelShowsOdds(selection: Selection, odds: int)
    ensures Text.ParseInt(Text.ReplaceFirstPlus(ButtonLabel(false, selection, odds)[2..])) == Some(odds)
  {
    var caption := ButtonLabel(false, selection, odds);
    assert caption[2..] == Text.FormatOdds(odds);
    Text.ParseFormattedOdds(odds);
  }

  /**
   * One pick's button. `isAdded` and `isDisabled` are the button's state;
   * `draft` holds its props.
   */
  class AddToBetslipButton {
    const store: BetslipStorage
    const draft: ItemDraft
    var isAdded: bool
    var isDisabled: bool

    constructor(store: BetslipStorage, draft: ItemDraft)
      ensures this.store == store && this.draft == draft
      ensures isAdded == HasKey(store.Items(), DraftKey(draft)) && !isDisabled
    {
      this.store := store;
      this.draft := draft;
      isAdded := HasKey(store.Items(), DraftKey(draft));
      isDisabled := false;
    }

    /** The state `updateButtonState` sets: added iff this exact bet is stored; disabled iff another pick holds the prop. */
    predicate Synced()
      reads this, store
    {
      isAdded == HasKey(store.Items(), DraftKey(draft)) &&
      isDisabled == (HasPropItems(store.Items(), draft.propId) && !isAdded)
    }

    method UpdateButtonState()
      modifies this
      ensures Synced()
      ensures isAdded == HasKey(store.Items(), DraftKey(draft))
      ensures isDisabled <==> HasPropItems(store.Items(), draft.propId) && !HasKey(store.Items(), DraftKey(draft))
    {
      var isCurrentItemAdded := HasKey(store.Items(), DraftKey(draft));
      var hasPropItems := HasPropItems(store.Items(), draft.propId);
      isAdded := isCurrentItemAdded;
      isDisabled := hasPropItems && !isCurrentItemAdded;
    }

    /**
     * `handleAddToBetslip` on an enabled button whose state is current:
     * an added pick is removed by its id, otherwise the pick is added; the
     * update event then refreshes this button's state. An add only ever
     * happens on a prop with no pick yet, so the slip stays at one pick
     * per prop.
     */
    method Click(addedAt: string)
      requires Synced() && !isDisabled
      modifies this, store
      ensures Synced()
      ensures old(isAdded) ==>
        store.stored == if store.hasWindow then Some(WithoutId(old(store.Items()), ItemId(DraftKey(draft))))
                        else old(store.stored)
      ensures !old(isAdded) ==>
        !HasPropItems(old(store.Items()), draft.propId) &&
        store.stored == if store.hasWindow then Some(old(store.Items()) + [Stamp(draft, addedAt)])
                        else old(store.stored)
      ensures OnePerProp(old(store.Items())) ==> OnePerProp(store.Items())
    {
      ghost var before := store.Items();
      if isAdded {
        var itemId := ItemId(DraftKey(draft));
        store.RemoveItem(itemId);
        if OnePerProp(before) {
          WithoutIdOnePerProp(before, itemId);
        }
      } else {
        var newItem := store.AddItem(draft, addedAt);
        UpsertNewProp(before, newItem);
      }
      UpdateButtonState();
    }
  }
}
