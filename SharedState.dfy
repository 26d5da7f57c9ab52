/**
 * The browser-local group store of lib/utils/sharedState.ts. All groups
 * live as one list under a single storage key; every operation reads the
 * whole list, changes it, and writes the whole list back.
 *
 * `stored` is the value under the storage key: `None` when the key is
 * absent (never written, or removed by clearAll). JSON encoding is taken to
 * round-trip, so the stored value is the list itself. Whether the storage
 * write fails (quota, private mode) is the parameter `writeFails`.
 */
module SharedState {
  import opened Types
  import opened GroupList

  /**
   * The change addParticipant makes, or `None` when it writes nothing: the
   * group is missing, its participant list is absent (the `push` throws and
   * the error is swallowed), or the address is already there up to case.
   */
  function ParticipantAdded(gs: seq<Group>, id: string, p: User): Option<seq<Group>>
  {
    match FindById(gs, id)
    case None => None
    case Some(g) =>
      if g.participants.None? || HasAddress(g.participants.value, p.address) then None
      else Some(Upsert(gs, g.(participants := Some(g.participants.value + [p]))))
  }

  /**
   * The change addExpense makes, or `None` when it writes nothing: the
   * group is missing, or its expense list is absent (the `push` throws).
   */
  function ExpenseAdded(gs: seq<Group>, id: string, e: Expense): Option<seq<Group>>
  {
    match FindById(gs, id)
    case None => None
    case Some(g) =>
      if g.expenses.None? then None
      else Some(Upsert(gs, g.(expenses := Some(g.expenses.value + [e]))))
  }

  class SharedStore {
    var stored: Option<seq<Group>>

    /** The list the store holds: what is under the key, or the empty list. */
    function Groups(): seq<Group>
      reads this
    {
      OrEmpty(stored)
    }

    constructor()
      ensures stored == None
    {
      stored := None;
    }

    /** getAllGroups: the stored list, or the empty list when nothing is stored. */
    method GetAllGroups() returns (gs: seq<Group>)
      ensures stored.None? ==> gs == []
      ensures stored.Some? ==> gs == stored.value
    {
      if stored.Some? {
        gs := stored.value;
      } else {
        gs := [];
      }
    }

    /** getGroup: the first group with the id, or null. */
    method GetGroup(sessionId: string) returns (r: Option<Group>)
      ensures r == FindById(Groups(), sessionId)
    {
      var groups := GetAllGroups();
      r := FindById(groups, sessionId);
    }

    /**
     * saveGroup: replace the group with the same id where it stands, or
     * append it, and write the list. A failed write is caught and logged,
     * so the store keeps its old value.
     */
    method SaveGroup(group: Group, writeFails: bool)
      modifies this
      ensures stored == if writeFails then old(stored) else Some(Upsert(old(Groups()), group))
    {
      var groups := GetAllGroups();
      var existingIndex := IndexOfId(groups, group.id);
      if existingIndex.Some? {
        groups := groups[existingIndex.value := group];
      } else {
        groups := groups + [group];
      }
      if !writeFails {
        stored := Some(groups);
      }
    }

    /** addParticipant: add `participant` to the group unless it is already a member up to case. */
    method AddParticipant(sessionId: string, participant: User, writeFails: bool)
      modifies this
      ensures ParticipantAdded(old(Groups()), sessionId, participant).None? || writeFails ==> stored == old(stored)
      ensures ParticipantAdded(old(Groups()), sessionId, participant).Some? && !writeFails ==>
        stored == Some(ParticipantAdded(old(Groups()), sessionId, participant).value)
    {
      var group := GetGroup(sessionId);
      if group.None? {
        return;
      }
      var g := group.value;
      if g.participants.None? {
        return;
      }
      var present := HasAddress(g.participants.value, participant.address);
      if !present {
        SaveGroup(g.(participants := Some(g.participants.value + [participant])), writeFails);
      }
    }

    /** addExpense: append `expense` to the group's expenses and save the group. */
    method AddExpense(sessionId: string, expense: Expense, writeFails: bool)
      modifies this
      ensures ExpenseAdded(old(Groups()), sessionId, expense).None? || writeFails ==> stored == old(stored)
      ensures ExpenseAdded(old(Groups()), sessionId, expense).Some? && !writeFails ==>
        stored == Some(ExpenseAdded(old(Groups()), sessionId, expense).value)
    {
      var group := GetGroup(sessionId);
      if group.None? {
        return;
      }
      var g := group.value;
      if g.expenses.None? {
        return;
      }
      SaveGroup(g.(expenses := Some(g.expenses.value + [expense])), writeFails);
    }

    /** clearAll: remove the key, so the store reads as empty. */
    method ClearAll()
      modifies this
      ensures stored == None && Groups() == []
    {
      stored := None;
    }
  }

  /**
   * addExpense on a stored group with an expense list appends exactly that
   * one expense at the end, and every other group reads as before.
   */
  lemma ExpenseAddedSpec(gs: seq<Group>, id: string, e: Expense, other: string)
    requires other != id
    ensures ExpenseAdded(gs, id, e).None? <==>
      FindById(gs, id).None? || FindById(gs, id).value.expenses.None?
    ensures ExpenseAdded(gs, id, e).Some? ==>
      var before := FindById(gs, id).value;
      var after := FindById(ExpenseAdded(gs, id, e).value, id);
      after.Some? && after.value.expenses == Some(before.expenses.value + [e])
      && |after.value.expenses.value| == |before.expenses.value| + 1
      && after.value == before.(expenses := after.value.expenses)
    ensures ExpenseAdded(gs, id, e).Some? ==> FindById(ExpenseAdded(gs, id, e).value, other) == FindById(gs, other)
  {
    match FindById(gs, id)
    case None =>
    case Some(g) =>
      if g.expenses.Some? {
        var g' := g.(expenses := Some(g.expenses.value + [e]));
        UpsertThenFind(gs, g');
        FindByIdSpec(gs, id);
        UpsertKeepsOthers(gs, g', other);
      }
  }

  /**
   * addParticipant on a stored group keeps its addresses unique up to case;
   * after the call the address is a member; every other group reads as
   * before; and nothing is written when the address was already there.
   */
  lemma ParticipantAddedSpec(gs: seq<Group>, id: string, p: User, other: string)
    requires other != id
    requires FindById(gs, id).Some? ==> UniqueAddresses(OrEmpty(FindById(gs, id).value.participants))
    ensures ParticipantAdded(gs, id, p).None? <==>
      FindById(gs, id).None? || FindById(gs, id).value.participants.None?
      || HasAddress(FindById(gs, id).value.participants.value, p.address)
    ensures ParticipantAdded(gs, id, p).Some? ==>
      var after := FindById(ParticipantAdded(gs, id, p).value, id);
      after.Some? && after.value.participants.Some?
      && UniqueAddresses(after.value.participants.value)
      && HasAddress(after.value.participants.value, p.address)
    ensures ParticipantAdded(gs, id, p).Some? ==> FindById(ParticipantAdded(gs, id, p).value, other) == FindById(gs, other)
  {
    match FindById(gs, id)
    case None =>
    case Some(g) =>
      if g.participants.Some? && !HasAddress(g.participants.value, p.address) {
        var g' := g.(participants := Some(g.participants.value + [p]));
        FindByIdSpec(gs, id);
        UpsertThenFind(gs, g');
        UpsertKeepsOthers(gs, g', other);
        JoinKeepsUnique(g.participants.value, p);
        assert JoinParticipant(g.participants.value, p) == g.participants.value + [p];
      }
  }

  /** addParticipant on a group id nobody saved writes nothing. */
  lemma UnknownGroupUnchanged(gs: seq<Group>, id: string, p: User, e: Expense)
    requires forall k :: 0 <= k < |gs| ==> gs[k].id != id
    ensures ParticipantAdded(gs, id, p) == None && ExpenseAdded(gs, id, e) == None
  {
  }
}
