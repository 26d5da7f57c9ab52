/**
 * The group store of lib/firebase/database.ts: the remote store when it is
 * configured, the browser-local fallback otherwise, the read-modify-write
 * helpers that add a participant, an expense or a settlement to a group,
 * and the local branch of `subscribeToGroup` as a set of listeners on the
 * window's events.
 *
 * The remote store is a map from group id to the document under
 * `groups/<id>`. Failures are parameters: `readFails` makes a read throw
 * (the service catches it and answers null), `writeFails` makes the write
 * throw. A remote write passes the error on, reported as `ok == false`; the
 * local fallback logs and swallows it, so nothing is stored and no update
 * event is dispatched. The clock is the parameter `now`.
 */
module Database {
  import opened Types
  import opened GroupList

  /** The storage key of the local fallback. */
  const StorageKey: string := "splitchain_groups"

  /** The placeholder API key shipped in the example configuration. */
  const PlaceholderApiKey: string := "your-api-key-here"

  /** isFirebaseConfigured: an API key that is set, not the placeholder and not empty, and a database handle. */
  function IsConfigured(apiKey: Option<string>, hasDatabase: bool): bool
  {
    apiKey.Some? && apiKey.value != PlaceholderApiKey && apiKey.value != "" && hasDatabase
  }

  /** The window events the local subscriptions listen to. */
  datatype Event =
    | StorageChange(key: Option<string>, newValue: Option<string>)  // 'storage', from another tab
    | GroupUpdate(groupId: string)                                   // 'splitchain-update', from this tab

  /** One live `subscribeToGroup` registration: its two listeners share `handle`. */
  datatype Subscription = Subscription(handle: nat, sessionId: string)

  /** One invocation of a subscriber's callback. */
  datatype Call = Call(handle: nat, group: Group)

  /**
   * Whether an event makes the subscriber to `sessionId` reload: a storage
   * event on the groups key with a non-empty new value, or an update event
   * for this very group.
   */
  predicate Wakes(ev: Event, sessionId: string)
  {
    match ev
    case StorageChange(key, newValue) => key == Some(StorageKey) && newValue.Some? && newValue.value != ""
    case GroupUpdate(groupId) => groupId == sessionId
  }

  /**
   * The callbacks an event triggers, in registration order: each woken
   * subscriber reloads its group and is called with it when it exists.
   */
  function Calls(subs: seq<Subscription>, ev: Event, gs: seq<Group>): seq<Call>
  {
    if subs == [] then []
    else
      var s := subs[|subs| - 1];
      Calls(subs[..|subs| - 1], ev, gs)
        + (if Wakes(ev, s.sessionId) && FindById(gs, s.sessionId).Some?
           then [Call(s.handle, FindById(gs, s.sessionId).value)] else [])
  }

  /** The subscriptions left after the cleanup function of `handle` ran. */
  function Without(subs: seq<Subscription>, handle: nat): seq<Subscription>
  {
    if subs == [] then []
    else
      Without(subs[..|subs| - 1], handle)
        + (if subs[|subs| - 1].handle == handle then [] else [subs[|subs| - 1]])
  }

  /** The document the remote save writes: the group stamped with `updatedAt`. */
  function Stamped(group: Group, now: int): Group
  {
    group.(updatedAt := Some(now))
  }

  /** addParticipant's change to a loaded group, or `None` when it saves nothing (the address is there up to case). */
  function WithParticipant(g: Group, p: User): Option<Group>
  {
    var ps := OrEmpty(g.participants);
    if HasAddress(ps, p.address) then None else Some(g.(participants := Some(ps + [p])))
  }

  /** addExpense's change to a loaded group: an absent list starts empty, then the expense is appended. */
  function WithExpense(g: Group, e: Expense): Group
  {
    g.(expenses := Some(OrEmpty(g.expenses) + [e]))
  }

  /** addSettlement's change to a loaded group, the same way. */
  function WithSettlement(g: Group, s: Settlement): Group
  {
    g.(settlements := Some(OrEmpty(g.settlements) + [s]))
  }

  class FirebaseService {
    /** Whether the remote store is configured; fixed for the life of the page. */
    const configured: bool
    /** The local fallback: the value under `StorageKey`, `None` while never written. */
    var local: Option<seq<Group>>
    /** The remote store: `groups/<id>`. */
    var remote: map<string, Group>
    /** The live local subscriptions, in registration order. */
    var subscriptions: seq<Subscription>
    var nextHandle: nat

    /** Handles are distinct and below the next one to hand out. */
    ghost predicate Valid()
      reads this
    {
      (forall i :: 0 <= i < |subscriptions| ==> subscriptions[i].handle < nextHandle)
      && (forall i, k :: 0 <= i < k < |subscriptions| ==> subscriptions[i].handle != subscriptions[k].handle)
    }

    function LocalGroups(): seq<Group>
      reads this
    {
      OrEmpty(local)
    }

    /** What getGroup answers: the local lookup, or the remote document unless the read fails. */
    function Read(sessionId: string, readFails: bool): Option<Group>
      reads this
    {
      if !configured then FindById(LocalGroups(), sessionId)
      else if readFails || sessionId !in remote then None
      else Some(remote[sessionId])
    }

    constructor(apiKey: Option<string>, hasDatabase: bool)
      ensures configured == IsConfigured(apiKey, hasDatabase)
      ensures local == None && remote == map[] && subscriptions == [] && Valid()
    {
      configured := IsConfigured(apiKey, hasDatabase);
      local := None;
      remote := map[];
      subscriptions := [];
      nextHandle := 0;
    }

    /**
     * Deliver a window event to the live subscriptions: the callbacks it
     * triggers, in registration order. Nothing in the store changes.
     */
    method Dispatch(ev: Event) returns (calls: seq<Call>)
      ensures calls == Calls(subscriptions, ev, LocalGroups())
    {
      calls := [];
      var k := 0;
      while k < |subscriptions|
        invariant k <= |subscriptions|
        invariant calls == Calls(subscriptions[..k], ev, LocalGroups())
      {
        var s := subscriptions[k];
        assert subscriptions[..k + 1][..k] == subscriptions[..k];
        if Wakes(ev, s.sessionId) {
          var group := FindById(LocalGroups(), s.sessionId);
          if group.Some? {
            calls := calls + [Call(s.handle, group.value)];
          }
        }
        k := k + 1;
      }
      assert subscriptions[..k] == subscriptions;
    }

    /**
     * localStorageFallback.saveGroup: upsert by id, write the list, then
     * signal this tab. A failed write is caught before the signal.
     */
    method LocalSave(group: Group, writeFails: bool) returns (calls: seq<Call>)
      modifies this
      ensures remote == old(remote) && subscriptions == old(subscriptions) && nextHandle == old(nextHandle)
      ensures writeFails ==> local == old(local) && calls == []
      ensures !writeFails ==>
        local == Some(Upsert(old(LocalGroups()), group))
        && calls == Calls(subscriptions, GroupUpdate(group.id), LocalGroups())
    {
      var groups := LocalGroups();
      var index := IndexOfId(groups, group.id);
      if index.Some? {
        groups := groups[index.value := group];
      } else {
        groups := groups + [group];
      }
      if writeFails {
        calls := [];
        return;
      }
      local := Some(groups);
      calls := Dispatch(GroupUpdate(group.id));
    }

    /** firebaseService.saveGroup: the local fallback, or a stamped remote write that may throw. */
    method SaveGroup(group: Group, now: int, writeFails: bool) returns (ok: bool, calls: seq<Call>)
      modifies this
      ensures subscriptions == old(subscriptions) && nextHandle == old(nextHandle)
      ensures !configured ==>
        ok && remote == old(remote)
        && if writeFails then local == old(local) && calls == []
           else local == Some(Upsert(old(LocalGroups()), group))
                && calls == Calls(subscriptions, GroupUpdate(group.id), LocalGroups())
      ensures configured ==> ok == !writeFails && calls == [] && local == old(local)
      ensures configured ==> remote == if writeFails then old(remote) else old(remote)[group.id := Stamped(group, now)]
    {
      if !configured {
        calls := LocalSave(group, writeFails);
        ok := true;
        return;
      }
      calls := [];
      if writeFails {
        ok := false;
        return;
      }
      remote := remote[group.id := Stamped(group, now)];
      ok := true;
    }

    /** firebaseService.getGroup */
    method GetGroup(sessionId: string, readFails: bool) returns (r: Option<Group>)
      ensures r == Read(sessionId, readFails)
    {
      if !configured {
        r := FindById(LocalGroups(), sessionId);
        return;
      }
      if readFails || sessionId !in remote {
        r := None;
      } else {
        r := Some(remote[sessionId]);
      }
    }

    /** firebaseService.addParticipant: load, add unless present up to case, save. */
    method AddParticipant(sessionId: string, participant: User, now: int, readFails: bool, writeFails: bool)
      returns (ok: bool, calls: seq<Call>)
      modifies this
      ensures subscriptions == old(subscriptions) && nextHandle == old(nextHandle)
      ensures old(Read(sessionId, readFails)).None?
              || WithParticipant(old(Read(sessionId, readFails)).value, participant).None? ==>
        ok && calls == [] && local == old(local) && remote == old(remote)
      ensures old(Read(sessionId, readFails)).Some?
              && WithParticipant(old(Read(sessionId, readFails)).value, participant).Some? ==>
        var g := WithParticipant(old(Read(sessionId, readFails)).value, participant).value;
        if configured then
          ok == !writeFails && local == old(local)
          && remote == if writeFails then old(remote) else old(remote)[g.id := Stamped(g, now)]
        else
          ok && remote == old(remote)
          && if writeFails then local == old(local) && calls == []
             else local == Some(Upsert(old(LocalGroups()), g))
                  && calls == Calls(subscriptions, GroupUpdate(g.id), LocalGroups())
    {
      var group := GetGroup(sessionId, readFails);
      ok, calls := true, [];
      if group.None? {
        return;
      }
      var updated := WithParticipant(group.value, participant);
      if updated.Some? {
        ok, calls := SaveGroup(updated.value, now, writeFails);
      }
    }

    /** firebaseService.addExpense: load, start an absent list, append, save. */
    method AddExpense(sessionId: string, expense: Expense, now: int, readFails: bool, writeFails: bool)
      returns (ok: bool, calls: seq<Call>)
      modifies this
      ensures subscriptions == old(subscriptions) && nextHandle == old(nextHandle)
      ensures old(Read(sessionId, readFails)).None? ==>
        ok && calls == [] && local == old(local) && remote == old(remote)
      ensures old(Read(sessionId, readFails)).Some? ==>
        var g := WithExpense(old(Read(sessionId, readFails)).value, expense);
        if configured then
          ok == !writeFails && local == old(local)
          && remote == if writeFails then old(remote) else old(remote)[g.id := Stamped(g, now)]
        else
          ok && remote == old(remote)
          && if writeFails then local == old(local) && calls == []
             else local == Some(Upsert(old(LocalGroups()), g))
                  && calls == Calls(subscriptions, GroupUpdate(g.id), LocalGroups())
    {
      var group := GetGroup(sessionId, readFails);
      ok, calls := true, [];
      if group.None? {
        return;
      }
      ok, calls := SaveGroup(WithExpense(group.value, expense), now, writeFails);
    }

    /** firebaseService.addSettlement: load, start an absent list, append, save. */
    method AddSettlement(sessionId: string, settlement: Settlement, now: int, readFails: bool, writeFails: bool)
      returns (ok: bool, calls: seq<Call>)
      modifies this
      ensures subscriptions == old(subscriptions) && nextHandle == old(nextHandle)
      ensures old(Read(sessionId, readFails)).None? ==>
        ok && calls == [] && local == old(local) && remote == old(remote)
      ensures old(Read(sessionId, readFails)).Some? ==>
        var g := WithSettlement(old(Read(sessionId, readFails)).value, settlement);
        if configured then
          ok == !writeFails && local == old(local)
          && remote == if writeFails then old(remote) else old(remote)[g.id := Stamped(g, now)]
        else
          ok && remote == old(remote)
          && if writeFails then local == old(local) && calls == []
             else local == Some(Upsert(old(LocalGroups()), g))
                  && calls == Calls(subscriptions, GroupUpdate(g.id), LocalGroups())
    {
      var group := GetGroup(sessionId, readFails);
      ok, calls := true, [];
      if group.None? {
        return;
      }
      ok, calls := SaveGroup(WithSettlement(group.value, settlement), now, writeFails);
    }

    /**
     * subscribeToGroup, local branch: call back at once when the group
     * exists, then register the two listeners under a fresh handle.
     */
    method Subscribe(sessionId: string) returns (handle: nat, initial: Option<Group>)
      requires !configured && Valid()
      modifies this
      ensures Valid()
      ensures initial == FindById(LocalGroups(), sessionId)
      ensures subscriptions == old(subscriptions) + [Subscription(handle, sessionId)]
      ensures local == old(local) && remote == old(remote)
      ensures handle == old(nextHandle)
    {
      initial := FindById(LocalGroups(), sessionId);
      handle := nextHandle;
      subscriptions := subscriptions + [Subscription(handle, sessionId)];
      nextHandle := nextHandle + 1;
    }

    /** The cleanup function returned by subscribeToGroup: remove both listeners of `handle`. */
    method Unsubscribe(handle: nat)
      requires Valid()
      modifies this
      ensures Valid()
      ensures subscriptions == Without(old(subscriptions), handle)
      ensures local == old(local) && remote == old(remote) && nextHandle == old(nextHandle)
    {
      WithoutSub(subscriptions, handle);
      WithoutKeepsDistinct(subscriptions, handle);
      subscriptions := Without(subscriptions, handle);
    }
  }

  /** Removing a handle keeps exactly the other subscriptions. */
  lemma {:induction false} WithoutSub(subs: seq<Subscription>, handle: nat)
    ensures forall s :: s in Without(subs, handle) <==> s in subs && s.handle != handle
    ensures |Without(subs, handle)| <= |subs|
  {
    if subs != [] {
      WithoutSub(subs[..|subs| - 1], handle);
    }
  }

  /**
   * Removing a handle keeps the other subscriptions in their order: the
   * cleanup of a list cut in two is the cleanup of each part, in turn.
   */
  lemma {:induction false} WithoutAppend(a: seq<Subscription>, b: seq<Subscription>, handle: nat)
    ensures Without(a + b, handle) == Without(a, handle) + Without(b, handle)
    decreases |b|
  {
    if b == [] {
      assert a + b == a;
    } else {
      var b' := b[..|b| - 1];
      assert (a + b)[..|a + b| - 1] == a + b';
      assert (a + b)[|a + b| - 1] == b[|b| - 1];
      WithoutAppend(a, b', handle);
    }
  }

  /** No two subscriptions share a handle. */
  predicate DistinctHandles(subs: seq<Subscription>)
  {
    forall i, k :: 0 <= i < k < |subs| ==> subs[i].handle != subs[k].handle
  }

  /** The cleanup keeps handles distinct. */
  lemma {:induction false} WithoutKeepsDistinct(subs: seq<Subscription>, handle: nat)
    requires DistinctHandles(subs)
    ensures DistinctHandles(Without(subs, handle))
  {
    if subs != [] {
      var init := subs[..|subs| - 1];
      var last := subs[|subs| - 1];
      WithoutKeepsDistinct(init, handle);
      WithoutSub(init, handle);
      var w := Without(init, handle);
      if last.handle != handle {
        forall i | 0 <= i < |w|
          ensures w[i].handle != last.handle
        {
          assert w[i] in w;
          var j :| 0 <= j < |init| && init[j] == w[i];
          assert subs[j] == w[i];
        }
        assert Without(subs, handle) == w + [last];
      }
    }
  }

  /**
   * Every callback goes to a live subscriber the event wakes, with the
   * group that subscriber asked for as the store holds it now.
   */
  lemma {:induction false} CallsSpec(subs: seq<Subscription>, ev: Event, gs: seq<Group>)
    ensures forall c :: c in Calls(subs, ev, gs) ==>
      exists s :: s in subs && s.handle == c.handle && Wakes(ev, s.sessionId)
        && c.group.id == s.sessionId && FindById(gs, s.sessionId) == Some(c.group)
    ensures forall s :: s in subs && Wakes(ev, s.sessionId) && FindById(gs, s.sessionId).Some? ==>
      Call(s.handle, FindById(gs, s.sessionId).value) in Calls(subs, ev, gs)
  {
    if subs != [] {
      var init := subs[..|subs| - 1];
      CallsSpec(init, ev, gs);
      assert forall s :: s in init ==> s in subs;
      forall s | s in subs ensures s in init || s == subs[|subs| - 1] {
        var i :| 0 <= i < |subs| && subs[i] == s;
        if i < |subs| - 1 {
          assert init[i] == s;
        }
      }
      forall c | c in Calls(subs, ev, gs)
        ensures exists s :: (s in subs && s.handle == c.handle && Wakes(ev, s.sessionId)
                             && c.group.id == s.sessionId && FindById(gs, s.sessionId) == Some(c.group))
      {
        FindByIdSpec(gs, c.group.id);
        if c !in Calls(init, ev, gs) {
          var s := subs[|subs| - 1];
          FindByIdSpec(gs, s.sessionId);
        }
      }
    }
  }

  /** After the cleanup function ran, no event reaches that subscriber again. */
  lemma NoCallAfterUnsubscribe(subs: seq<Subscription>, handle: nat, ev: Event, gs: seq<Group>)
    ensures forall c :: c in Calls(Without(subs, handle), ev, gs) ==> c.handle != handle
  {
    WithoutSub(subs, handle);
    CallsSpec(Without(subs, handle), ev, gs);
  }

  /**
   * An update event carries the id of the saved group: subscribers to other
   * groups are not called, and a storage event on another key, or with an
   * empty new value, calls nobody.
   */
  lemma SilentEvents(subs: seq<Subscription>, gs: seq<Group>, key: Option<string>, newValue: Option<string>)
    requires key != Some(StorageKey) || newValue.None? || newValue == Some("")
    ensures Calls(subs, StorageChange(key, newValue), gs) == []
  {
    CallsSpec(subs, StorageChange(key, newValue), gs);
    if Calls(subs, StorageChange(key, newValue), gs) != [] {
      assert Calls(subs, StorageChange(key, newValue), gs)[0] in Calls(subs, StorageChange(key, newValue), gs);
    }
  }

  /** After a local save, every subscriber to that group is called with exactly the saved group. */
  lemma SaveNotifies(subs: seq<Subscription>, gs: seq<Group>, g: Group)
    ensures forall c :: c in Calls(subs, GroupUpdate(g.id), Upsert(gs, g)) ==> c.group == g
    ensures forall s :: s in subs && s.sessionId == g.id ==> Call(s.handle, g) in Calls(subs, GroupUpdate(g.id), Upsert(gs, g))
  {
    UpsertThenFind(gs, g);
    CallsSpec(subs, GroupUpdate(g.id), Upsert(gs, g));
  }

  /** The remote save round trip: the next read of the id answers the group, stamped. */
  lemma RemoteSaveThenRead(remote: map<string, Group>, g: Group, now: int)
    ensures var m := remote[g.id := Stamped(g, now)];
      g.id in m && m[g.id] == g.(updatedAt := Some(now))
      && forall id :: id != g.id ==> (id in m <==> id in remote) && (id in remote ==> m[id] == remote[id])
  {
  }

  /**
   * addExpense and addSettlement append exactly one record at the end of
   * the list, which starts empty when absent, and change nothing else.
   */
  lemma AppendOne(g: Group, e: Expense, s: Settlement)
    ensures WithExpense(g, e).expenses.value == OrEmpty(g.expenses) + [e]
    ensures |WithExpense(g, e).expenses.value| == |OrEmpty(g.expenses)| + 1
    ensures WithExpense(g, e).(expenses := g.expenses) == g
    ensures WithSettlement(g, s).settlements.value == OrEmpty(g.settlements) + [s]
    ensures |WithSettlement(g, s).settlements.value| == |OrEmpty(g.settlements)| + 1
    ensures WithSettlement(g, s).(settlements := g.settlements) == g
  {
  }

  /**
   * addParticipant writes only when the address is new up to case; it keeps
   * the participants unique up to case, and the address is present after.
   */
  lemma WithParticipantSpec(g: Group, p: User)
    requires UniqueAddresses(OrEmpty(g.participants))
    ensures WithParticipant(g, p).None? <==> HasAddress(OrEmpty(g.participants), p.address)
    ensures WithParticipant(g, p).Some? ==>
      var ps := WithParticipant(g, p).value.participants;
      ps == Some(OrEmpty(g.participants) + [p])
      && UniqueAddresses(ps.value) && HasAddress(ps.value, p.address)
  {
    JoinKeepsUnique(OrEmpty(g.participants), p);
  }

  /** The configuration check rejects a missing key, the placeholder, the empty key and a missing database. */
  lemma ConfiguredSpec(apiKey: Option<string>, hasDatabase: bool)
    ensures IsConfigured(apiKey, hasDatabase) ==> hasDatabase && apiKey.Some? && |apiKey.value| > 0
    ensures !IsConfigured(None, hasDatabase) && !IsConfigured(Some(PlaceholderApiKey), hasDatabase)
    ensures !IsConfigured(Some(""), hasDatabase) && !IsConfigured(apiKey, false)
  {
  }
}
