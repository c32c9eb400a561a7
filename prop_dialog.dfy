/**
 * The dialog that creates a prop: the list of users with their expected
 * values, the user picker, and the checks before the prop is sent.
 */
module PropDialog {
  import opened Wrappers
  import opened Positions

  datatype User = User(id: string, name: Option<string>)

  datatype UserEV = UserEV(userId: string, userName: string, ev: real)

  /** One user's expected value as sent to `createProp`. */
  datatype SubjectEV = SubjectEV(userId: string, ev: real)

  datatype PropRequest = PropRequest(description: string, userEvs: seq<SubjectEV>, endDate: int)

  datatype Toast = Success(message: string) | Failure(message: string)

  predicate Added(evs: seq<UserEV>, id: string)
  {
    exists i :: 0 <= i < |evs| && evs[i].userId == id
  }

  /** No user appears twice in the list. */
  predicate DistinctUsers(evs: seq<UserEV>)
  {
    forall i, j :: 0 <= i < j < |evs| ==> evs[i].userId != evs[j].userId
  }

  /** `availableUsers`: the users not yet in the list, in their order. */
  function AvailableUsers(users: seq<User>, evs: seq<UserEV>): (r: seq<User>)
    ensures |r| <= |users|
    ensures forall u :: u in r <==> u in users && !Added(evs, u.id)
  {
    if users == [] then []
    else
      var rest := AvailableUsers(users[1..], evs);
      assert forall u :: u in users <==> u == users[0] || u in users[1..];
      if Added(evs, users[0].id) then rest else [users[0]] + rest
  }

  /** The picker's entries: the available users, except a first one named "All". */
  function MenuUsers(available: seq<User>): (r: seq<User>)
    ensures forall u :: u in r ==> u in available
    ensures available != [] && available[0].name != Some("All") ==> r == available
  {
    if available != [] && available[0].name == Some("All") then available[1..] else available
  }

  /** `users.find(user => user.id === id)`. */
  function FindUser(users: seq<User>, id: string): (r: Option<User>)
    ensures r.Some? ==> r.value in users && r.value.id == id
    ensures r.None? ==> forall u :: u in users ==> u.id != id
  {
    if users == [] then None
    else if users[0].id == id then Some(users[0])
    else FindUser(users[1..], id)
  }

  /** `name || 'Unknown user'`: a missing or empty name shows as "Unknown user". */
  function DisplayName(u: User): (shown: string)
    ensures shown != ""
    ensures u.name.Some? && u.name.value != "" ==> shown == u.name.value
    ensures shown != "Unknown user" ==> u.name == Some(shown)
  {
    if u.name.Some? && u.name.value != "" then u.name.value else "Unknown user"
  }

  /** `filter(item => item.userId !== userId)`. */
  function WithoutUser(evs: seq<UserEV>, id: string): (r: seq<UserEV>)
    ensures forall e :: e in r <==> e in evs && e.userId != id
    ensures !Added(r, id)
  {
    if evs == [] then []
    else
      var rest := WithoutUser(evs[1..], id);
      assert forall e :: e in evs <==> e == evs[0] || e in evs[1..];
      if evs[0].userId == id then rest else [evs[0]] + rest
  }

  /** The positions of the entries `removeUser` keeps, first to last. */
  function KeptPositions(evs: seq<UserEV>, id: string): seq<nat>
  {
    if evs == [] then []
    else
      var shifted := Successors(KeptPositions(evs[1..], id));
      if evs[0].userId == id then shifted else [0] + shifted
  }

  /**
   * Removing a user keeps the order and the multiplicity of the other
   * entries: the k-th survivor is the entry at the k-th kept position, the
   * positions increase, and every entry of another user is kept.
   */
  lemma {:induction false} WithoutUserKeepsOrder(evs: seq<UserEV>, id: string)
    ensures |KeptPositions(evs, id)| == |WithoutUser(evs, id)|
    ensures forall k :: 0 <= k < |KeptPositions(evs, id)| ==>
      KeptPositions(evs, id)[k] < |evs| && WithoutUser(evs, id)[k] == evs[KeptPositions(evs, id)[k]]
    ensures forall k, l :: 0 <= k < l < |KeptPositions(evs, id)| ==> KeptPositions(evs, id)[k] < KeptPositions(evs, id)[l]
    ensures forall j :: 0 <= j < |evs| && evs[j].userId != id ==> j in KeptPositions(evs, id)
  {
    if evs != [] {
      var tail := evs[1..];
      WithoutUserKeepsOrder(tail, id);
      var later := KeptPositions(tail, id);
      var shifted := Successors(later);
      var survivors := WithoutUser(tail, id);
      ShiftedTail(evs, id, later, survivors);
      if evs[0].userId != id {
        assert KeptPositions(evs, id) == [0] + shifted;
        assert WithoutUser(evs, id) == [evs[0]] + survivors;
        KeptHead(evs[0], survivors, shifted, evs);
      } else {
        assert KeptPositions(evs, id) == shifted;
        assert WithoutUser(evs, id) == survivors;
      }
    }
  }

  /** The positions kept in the tail of a list, moved one place right, are positions of the whole list. */
  lemma ShiftedTail(evs: seq<UserEV>, id: string, later: seq<nat>, survivors: seq<UserEV>)
    requires evs != [] && |later| == |survivors|
    requires forall k :: 0 <= k < |later| ==> later[k] < |evs[1..]| && survivors[k] == evs[1..][later[k]]
    requires forall k, l :: 0 <= k < l < |later| ==> later[k] < later[l]
    requires forall j :: 0 <= j < |evs[1..]| && evs[1..][j].userId != id ==> j in later
    ensures forall k :: 0 <= k < |later| ==> 1 <= Successors(later)[k] < |evs| && survivors[k] == evs[Successors(later)[k]]
    ensures forall k, l :: 0 <= k < l < |later| ==> Successors(later)[k] < Successors(later)[l]
    ensures forall j :: 1 <= j < |evs| && evs[j].userId != id ==> j in Successors(later)
  {
    var tail := evs[1..];
    var shifted := Successors(later);
    forall k | 0 <= k < |shifted| ensures 1 <= shifted[k] < |evs| && survivors[k] == evs[shifted[k]] {
      assert tail[later[k]] == evs[later[k] + 1];
    }
    forall j | 1 <= j < |evs| && evs[j].userId != id ensures j in shifted {
      assert tail[j - 1] == evs[j];
      var k :| 0 <= k < |later| && later[k] == j - 1;
      assert shifted[k] == j;
    }
  }

  /** `map(item => item.userId === userId ? { ...item, ev } : item)`. */
  function WithEV(evs: seq<UserEV>, id: string, ev: real): (r: seq<UserEV>)
    ensures |r| == |evs|
    ensures forall i :: 0 <= i < |evs| ==>
      r[i].userId == evs[i].userId && r[i].userName == evs[i].userName &&
      r[i].ev == (if evs[i].userId == id then ev else evs[i].ev)
  {
    if evs == [] then []
    else
      var head := if evs[0].userId == id then evs[0].(ev := ev) else evs[0];
      [head] + WithEV(evs[1..], id, ev)
  }

  /** Removing a user keeps the list free of duplicates. */
  lemma {:induction false} WithoutUserDistinct(evs: seq<UserEV>, id: string)
    requires DistinctUsers(evs)
    ensures DistinctUsers(WithoutUser(evs, id))
  {
    if evs != [] {
      var rest := evs[1..];
      assert DistinctUsers(rest) by {
        assert forall j :: 0 <= j < |rest| ==> rest[j] == evs[j + 1];
      }
      WithoutUserDistinct(rest, id);
      if evs[0].userId != id {
        var r := WithoutUser(rest, id);
        forall e | e in r ensures e.userId != evs[0].userId {
          var j :| 0 <= j < |rest| && rest[j] == e;
          assert e == evs[j + 1];
        }
        var s := [evs[0]] + r;
        forall a, b | 0 <= a < b < |s| ensures s[a].userId != s[b].userId {
          assert s[b] == r[b - 1] && s[b] in r;
          if a > 0 {
            assert s[a] == r[a - 1];
          }
        }
      }
    }
  }

  /** Adding a user who is not in the list and then removing them gives back the list. */
  lemma {:induction false} AddThenRemoveUser(evs: seq<UserEV>, e: UserEV)
    requires !Added(evs, e.userId)
    ensures WithoutUser(evs + [e], e.userId) == evs
  {
    if evs == [] {
      assert [e][1..] == [];
    } else {
      assert (evs + [e])[1..] == evs[1..] + [e];
      assert !Added(evs[1..], e.userId) by {
        forall j | 0 <= j < |evs[1..]| ensures evs[1..][j].userId != e.userId {
          assert evs[1..][j] == evs[j + 1];
        }
      }
      AddThenRemoveUser(evs[1..], e);
      assert evs == [evs[0]] + evs[1..];
    }
  }

  /**
   * The checks before the prop is sent, in order: a description, at least
   * one user, an end date. The request carries each user's id and value.
   */
  function SubmitCheck(description: string, evs: seq<UserEV>, endDate: Option<int>): (r: Result<PropRequest>)
    ensures r.Ok? <==> description != "" && evs != [] && endDate.Some?
    ensures description == "" ==> r == Err("Please provide a description")
    ensures description != "" && evs == [] ==> r == Err("Please add at least one user")
    ensures r.Ok? ==> r.value.description == description && r.value.endDate == endDate.value
    ensures r.Ok? ==> |r.value.userEvs| == |evs| &&
                      forall i :: 0 <= i < |evs| ==> r.value.userEvs[i] == SubjectEV(evs[i].userId, evs[i].ev)
  {
    if description == "" then Err("Please provide a description")
    else if evs == [] then Err("Please add at least one user")
    else if endDate.None? then Err("Please select an end date/time")
    else Ok(PropRequest(description, seq(|evs|, i requires 0 <= i < |evs| => SubjectEV(evs[i].userId, evs[i].ev)),
                        endDate.value))
  }

  class CreatePropDialog {
    const users: seq<User>
    var open: bool
    var description: string
    var selectedUserId: string
    var userEVs: seq<UserEV>
    var endDate: Option<int>

    /** No user is listed twice, and the picker never holds a user already listed. */
    predicate Valid()
      reads this
    {
      DistinctUsers(userEVs) && (selectedUserId != "" ==> !Added(userEVs, selectedUserId))
    }

    constructor(users: seq<User>)
      ensures Valid()
      ensures this.users == users && !open && description == "" && selectedUserId == "" && userEVs == [] &&
              endDate.None?
    {
      this.users := users;
      open := false;
      description := "";
      selectedUserId := "";
      userEVs := [];
      endDate := None;
    }

    /** Choosing an entry of the picker. */
    method SelectUser(id: string)
      requires Valid()
      requires exists u :: u in MenuUsers(AvailableUsers(users, userEVs)) && u.id == id
      modifies this
      ensures Valid()
      ensures selectedUserId == id && userEVs == old(userEVs)
      ensures open == old(open) && description == old(description) && endDate == old(endDate)
    {
      selectedUserId := id;
    }

    /**
     * `handleAddUser`: nothing without a selection or for an unknown id;
     * otherwise the user joins the end of the list with value 0 and the
     * picker is cleared.
     */
    method AddUser()
      requires Valid()
      modifies this
      ensures Valid()
      ensures var found := FindUser(users, old(selectedUserId));
        if old(selectedUserId) == "" || found.None? then
          selectedUserId == old(selectedUserId) && userEVs == old(userEVs)
        else
          selectedUserId == "" && userEVs == old(userEVs) + [UserEV(found.value.id, DisplayName(found.value), 0.0)]
      ensures open == old(open) && description == old(description) && endDate == old(endDate)
    {
      if selectedUserId == "" {
        return;
      }
      var selectedUser := FindUser(users, selectedUserId);
      if selectedUser.None? {
        return;
      }
      var entry := UserEV(selectedUser.value.id, DisplayName(selectedUser.value), 0.0);
      forall i | 0 <= i < |userEVs| ensures userEVs[i].userId != entry.userId {
        assert !Added(userEVs, selectedUserId);
      }
      userEVs := userEVs + [entry];
      selectedUserId := "";
    }

    /** `handleRemoveUser`: drops the user's entry. */
    method RemoveUser(id: string)
      requires Valid()
      modifies this
      ensures Valid()
      ensures userEVs == WithoutUser(old(userEVs), id) && selectedUserId == old(selectedUserId)
      ensures open == old(open) && description == old(description) && endDate == old(endDate)
    {
      WithoutUserDistinct(userEVs, id);
      var remaining := WithoutUser(userEVs, id);
      forall k | 0 <= k < |remaining| ensures remaining[k].userId != selectedUserId || selectedUserId == "" {
        assert remaining[k] in userEVs;
      }
      userEVs := remaining;
    }

    /** `handleUpdateEV`: sets the value of that user's entry only. */
    method UpdateEV(id: string, ev: real)
      requires Valid()
      modifies this
      ensures Valid()
      ensures userEVs == WithEV(old(userEVs), id, ev) && selectedUserId == old(selectedUserId)
      ensures open == old(open) && description == old(description) && endDate == old(endDate)
    {
      var updated := WithEV(userEVs, id, ev);
      forall k | 0 <= k < |updated| ensures updated[k].userId != selectedUserId || selectedUserId == "" {
        assert updated[k].userId == userEVs[k].userId;
      }
      userEVs := updated;
    }

    /**
     * `handleSubmit`, with `succeeded` the outcome of `createProp`: a failed
     * check shows its message and sends nothing; otherwise the request is
     * sent, and on success the form is reset and the dialog closed.
     */
    method Submit(succeeded: bool) returns (sent: Option<PropRequest>, toast: Toast)
      requires Valid()
      modifies this
      ensures Valid()
      ensures var check := SubmitCheck(old(description), old(userEVs), old(endDate));
        match check
        case Err(m) =>
          sent.None? && toast == Failure(m) && unchanged(this)
        case Ok(request) =>
          sent == Some(request) &&
          if succeeded then
            toast == Success("Prop created successfully") && description == "" && userEVs == [] && endDate.None? &&
            !open && selectedUserId == old(selectedUserId)
          else
            toast == Failure("Failed to create prop") && unchanged(this)
    {
      var check := SubmitCheck(description, userEVs, endDate);
      if check.Err? {
        return None, Failure(check.message);
      }
      sent := Some(check.value);
      if succeeded {
        toast := Success("Prop created successfully");
        description := "";
        userEVs := [];
        endDate := None;
        open := false;
      } else {
        toast := Failure("Failed to create prop");
      }
    }
  }
}
