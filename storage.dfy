/**
 * The user table of the bot (`storage.js`): the in-memory `usersCache` object
 * keyed by the user id as a string, updated in place by partial records.
 */
module Storage {
  import opened Wrappers

  /** A stored user; a field never written is `None`. */
  datatype User = User(
    groupId: Option<string>, groupCode: Option<string>, groupName: Option<string>,
    subscribed: Option<bool>, notifyTime: Option<string>, lastActive: int)

  /** The fields a call writes; `None` leaves a field as it was. */
  datatype Patch = Patch(
    groupId: Option<string>, groupCode: Option<string>, groupName: Option<string>,
    subscribed: Option<bool>, notifyTime: Option<string>)

  const NoUser: User := User(None, None, None, None, None, 0)
  const DefaultTime: string := "07:00"

  function Pick<T>(written: Option<T>, kept: Option<T>): (r: Option<T>)
    ensures written.Some? ==> r == written
    ensures written.None? ==> r == kept
  {
    if written.Some? then written else kept
  }

  /** `{...existing, ...data, lastActive: now}`. */
  function Merge(existing: User, data: Patch, now: int): (r: User)
    ensures r.lastActive == now
    ensures r.groupId == Pick(data.groupId, existing.groupId) && r.groupCode == Pick(data.groupCode, existing.groupCode)
    ensures r.groupName == Pick(data.groupName, existing.groupName)
    ensures r.subscribed == Pick(data.subscribed, existing.subscribed)
    ensures r.notifyTime == Pick(data.notifyTime, existing.notifyTime)
  {
    User(Pick(data.groupId, existing.groupId), Pick(data.groupCode, existing.groupCode),
         Pick(data.groupName, existing.groupName), Pick(data.subscribed, existing.subscribed),
         Pick(data.notifyTime, existing.notifyTime), now)
  }

  function GroupPatch(id: string, code: string, fullName: string): Patch {
    Patch(Some(id), Some(code), Some(fullName), None, None)
  }

  function SubscribePatch(time: string): Patch { Patch(None, None, None, Some(true), Some(time)) }

  const UnsubscribePatch: Patch := Patch(None, None, None, Some(false), None)

  /** A user receives the daily schedule when subscribed and with a non-empty group id. */
  predicate Receives(u: User) {
    u.subscribed == Some(true) && u.groupId.Some? && u.groupId.value != ""
  }

  /** The subscribed users with a group, in key order. */
  function SubscribedIn(keys: seq<string>, users: map<string, User>): (r: seq<(string, User)>)
    requires forall k :: 0 <= k < |keys| ==> keys[k] in users
    ensures forall p :: p in r <==> (exists k :: 0 <= k < |keys| && keys[k] == p.0) && p.0 in users && p.1 == users[p.0] && Receives(p.1)
    ensures |r| <= |keys|
    decreases |keys|
  {
    if keys == [] then []
    else
      var init := SubscribedIn(keys[..|keys| - 1], users);
      var key := keys[|keys| - 1];
      assert forall k :: 0 <= k < |keys| - 1 ==> keys[..|keys| - 1][k] == keys[k];
      if Receives(users[key]) then init + [(key, users[key])] else init
  }

  /** Subscribing and then unsubscribing keeps the group and the chosen time and turns the subscription off. */
  lemma SubscribeThenUnsubscribe(u: User, time: string, t1: int, t2: int)
    ensures var v := Merge(Merge(u, SubscribePatch(time), t1), UnsubscribePatch, t2);
            && v.subscribed == Some(false) && v.notifyTime == Some(time)
            && v.groupId == u.groupId && v.groupCode == u.groupCode && v.groupName == u.groupName
            && !Receives(v)
  {
  }

  /** A user who chose a group and subscribed receives the schedule, whatever the order of the two calls. */
  lemma GroupAndSubscriptionReceive(u: User, id: string, code: string, name: string, time: string, t1: int, t2: int)
    requires id != ""
    ensures Receives(Merge(Merge(u, GroupPatch(id, code, name), t1), SubscribePatch(time), t2))
    ensures Receives(Merge(Merge(u, SubscribePatch(time), t1), GroupPatch(id, code, name), t2))
  {
  }

  /** The module state: the user table, with its keys in insertion order. */
  class UserStore {
    var users: map<string, User>
    var keys: seq<string>

    /** The keys list each stored user exactly once. */
    predicate Valid()
      reads this
    {
      && (forall k :: 0 <= k < |keys| ==> keys[k] in users)
      && (forall id :: id in users ==> id in keys)
      && (forall i, j :: 0 <= i < j < |keys| ==> keys[i] != keys[j])
    }

    /** The table loaded at start, with its keys in the order given. */
    constructor (loaded: seq<(string, User)>)
      requires forall i, j :: 0 <= i < j < |loaded| ==> loaded[i].0 != loaded[j].0
      ensures Valid()
      ensures |keys| == |loaded| && forall k :: 0 <= k < |loaded| ==> keys[k] == loaded[k].0 && users[keys[k]] == loaded[k].1
    {
      var m: map<string, User> := map[];
      var ks: seq<string> := [];
      for i := 0 to |loaded|
        invariant |ks| == i && forall k :: 0 <= k < i ==> ks[k] == loaded[k].0
        invariant forall k :: 0 <= k < i ==> ks[k] in m && m[ks[k]] == loaded[k].1
        invariant forall id :: id in m ==> id in ks
      {
        m := m[loaded[i].0 := loaded[i].1];
        ks := ks + [loaded[i].0];
      }
      users := m;
      keys := ks;
    }

    /** `getUser`: the stored user, or none. */
    function GetUser(userId: string): (r: Option<User>)
      reads this
      ensures r.Some? <==> userId in users
      ensures r.Some? ==> r.value == users[userId]
    {
      if userId in users then Some(users[userId]) else None
    }

    /** `setUser`: the patch is merged over the stored user (or an empty one) at time `now`; no other user changes. */
    method SetUser(userId: string, data: Patch, now: int) returns (u: User)
      requires Valid()
      modifies this
      ensures Valid()
      ensures u == Merge(if userId in old(users) then old(users)[userId] else NoUser, data, now)
      ensures users == old(users)[userId := u]
      ensures keys == if userId in old(users) then old(keys) else old(keys) + [userId]
    {
      var existing := if userId in users then users[userId] else NoUser;
      u := Merge(existing, data, now);
      if userId !in users {
        keys := keys + [userId];
      }
      users := users[userId := u];
    }

    /** `deleteUser`: the user is gone; no other user changes. */
    method DeleteUser(userId: string)
      requires Valid()
      modifies this
      ensures Valid()
      ensures users == old(users) - {userId}
      ensures forall k :: 0 <= k < |keys| ==> keys[k] != userId
      ensures forall id :: id != userId ==> (id in keys <==> id in old(keys))
    {
      var ks: seq<string> := [];
      for i := 0 to |keys|
        invariant forall k :: 0 <= k < |ks| ==> ks[k] != userId && ks[k] in keys[..i]
        invariant forall k :: 0 <= k < i && keys[k] != userId ==> keys[k] in ks
        invariant forall a, b :: 0 <= a < b < |ks| ==> ks[a] != ks[b]
      {
        if keys[i] != userId {
          assert keys[i] !in ks by {
            forall k | 0 <= k < |ks| ensures ks[k] != keys[i] {
              assert ks[k] in keys[..i];
              var j :| 0 <= j < i && keys[..i][j] == ks[k];
              assert keys[j] == ks[k];
            }
          }
          ks := ks + [keys[i]];
        }
      }
      assert keys[..|keys|] == keys;
      users := users - {userId};
      keys := ks;
    }

    /** `setUserGroup`: the group's id, code and full name are stored. */
    method SetUserGroup(userId: string, id: string, code: string, fullName: string, now: int) returns (u: User)
      requires Valid()
      modifies this
      ensures Valid()
      ensures u.groupId == Some(id) && u.groupCode == Some(code) && u.groupName == Some(fullName)
      ensures userId in old(users) ==> u.subscribed == old(users)[userId].subscribed && u.notifyTime == old(users)[userId].notifyTime
      ensures users == old(users)[userId := u]
    {
      u := SetUser(userId, GroupPatch(id, code, fullName), now);
    }

    /** `subscribeUser`: subscribed at `time`, "07:00" when none is given. */
    method SubscribeUser(userId: string, time: Option<string>, now: int) returns (u: User)
      requires Valid()
      modifies this
      ensures Valid()
      ensures u.subscribed == Some(true)
      ensures u.notifyTime == Some(if time.Some? then time.value else DefaultTime)
      ensures userId in old(users) ==> u.groupId == old(users)[userId].groupId
      ensures users == old(users)[userId := u]
    {
      u := SetUser(userId, SubscribePatch(if time.Some? then time.value else DefaultTime), now);
    }

    /** `unsubscribeUser`: the subscription is off; the time and group stay. */
    method UnsubscribeUser(userId: string, now: int) returns (u: User)
      requires Valid()
      modifies this
      ensures Valid()
      ensures u.subscribed == Some(false) && !Receives(u)
      ensures userId in old(users) ==> u.groupId == old(users)[userId].groupId && u.notifyTime == old(users)[userId].notifyTime
      ensures users == old(users)[userId := u]
    {
      u := SetUser(userId, UnsubscribePatch, now);
    }

    /** `getSubscribedUsers`: the loop over the table, keeping subscribed users with a group. */
    method GetSubscribedUsers() returns (result: seq<(string, User)>)
      requires Valid()
      ensures result == SubscribedIn(keys, users)
    {
      result := [];
      for i := 0 to |keys|
        invariant result == SubscribedIn(keys[..i], users)
      {
        assert keys[..i + 1][..i] == keys[..i];
        if Receives(users[keys[i]]) {
          result := result + [(keys[i], users[keys[i]])];
        }
      }
      assert keys[..|keys|] == keys;
    }

    /** `hasGroup`: the user exists and has a non-empty group id. */
    function HasGroup(userId: string): (r: bool)
      reads this
      ensures r <==> userId in users && users[userId].groupId.Some? && users[userId].groupId.value != ""
    {
      match GetUser(userId)
      case None => false
      case Some(u) => u.groupId.Some? && u.groupId.value != ""
    }

    /** `getUsersCount`: the number of stored users. */
    function UsersCount(): (r: nat)
      reads this
      requires Valid()
      ensures r == |users|
      ensures r == |keys|
    {
      KeysCount(keys, users);
      |keys|
    }
  }

  /** A duplicate-free key list of a map lists as many keys as the map has. */
  lemma KeysCount(keys: seq<string>, users: map<string, User>)
    requires forall k :: 0 <= k < |keys| ==> keys[k] in users
    requires forall id :: id in users ==> id in keys
    requires forall i, j :: 0 <= i < j < |keys| ==> keys[i] != keys[j]
    ensures |keys| == |users|
  {
    var s := set k | 0 <= k < |keys| :: keys[k];
    assert s == users.Keys;
    DistinctCard(keys);
  }

  lemma {:induction false} DistinctCard(keys: seq<string>)
    requires forall i, j :: 0 <= i < j < |keys| ==> keys[i] != keys[j]
    ensures |set k | 0 <= k < |keys| :: keys[k]| == |keys|
    decreases |keys|
  {
    if keys != [] {
      var init := keys[..|keys| - 1];
      DistinctCard(init);
      var s := set k | 0 <= k < |keys| :: keys[k];
      var t := set k | 0 <= k < |init| :: init[k];
      assert s == t + {keys[|keys| - 1]};
      assert keys[|keys| - 1] !in t;
    }
  }
}
