/**
 * The list-of-groups rules that both local stores share
 * (lib/utils/sharedState.ts and the localStorage fallback of
 * lib/firebase/database.ts): find the first group with an id, upsert by id,
 * and the case-insensitive participant join.
 */
module GroupList {
  import opened Types

  /** `groups.findIndex(g => g.id === id)`: the first index holding `id`, if any. */
  function IndexOfId(gs: seq<Group>, id: string): (r: Option<nat>)
    ensures r.Some? ==> r.value < |gs| && gs[r.value].id == id
    ensures r.Some? ==> forall k :: 0 <= k < r.value ==> gs[k].id != id
    ensures r.None? <==> forall k :: 0 <= k < |gs| ==> gs[k].id != id
  {
    if gs == [] then None
    else if gs[0].id == id then Some(0)
    else match IndexOfId(gs[1..], id)
      case None => None
      case Some(k) => Some(k + 1)
  }

  /** `groups.find(g => g.id === id) || null` */
  function FindById(gs: seq<Group>, id: string): Option<Group>
  {
    match IndexOfId(gs, id)
    case None => None
    case Some(k) => Some(gs[k])
  }

  /**
   * The save step: replace the first group carrying `g.id` where it stands,
   * otherwise append `g`.
   */
  function Upsert(gs: seq<Group>, g: Group): (r: seq<Group>)
    ensures IndexOfId(gs, g.id).None? ==> r == gs + [g]
    ensures IndexOfId(gs, g.id).Some? ==>
      |r| == |gs| && forall k :: 0 <= k < |gs| ==> r[k] == if k == IndexOfId(gs, g.id).value then g else gs[k]
  {
    match IndexOfId(gs, g.id)
    case None => gs + [g]
    case Some(k) => gs[k := g]
  }

  predicate UniqueIds(gs: seq<Group>)
  {
    forall i, j :: 0 <= i < j < |gs| ==> gs[i].id != gs[j].id
  }

  /** A group lookup finds a group with that id, and finds one exactly when the list holds the id. */
  lemma FindByIdSpec(gs: seq<Group>, id: string)
    ensures FindById(gs, id).Some? <==> exists k :: 0 <= k < |gs| && gs[k].id == id
    ensures FindById(gs, id).Some? ==> FindById(gs, id).value in gs && FindById(gs, id).value.id == id
  {
  }

  /** With unique ids, the lookup returns the one group that holds the id. */
  lemma FindByIdUnique(gs: seq<Group>, k: nat)
    requires UniqueIds(gs) && k < |gs|
    ensures FindById(gs, gs[k].id) == Some(gs[k])
  {
    assert forall i :: 0 <= i < k ==> gs[i].id != gs[k].id;
  }

  /** Round trip: a saved group is what the next lookup of its id returns. */
  lemma UpsertThenFind(gs: seq<Group>, g: Group)
    ensures FindById(Upsert(gs, g), g.id) == Some(g)
  {
    var r := Upsert(gs, g);
    match IndexOfId(gs, g.id)
    case None =>
      assert r[|gs|] == g;
      assert forall j :: 0 <= j < |gs| ==> r[j] == gs[j];
    case Some(k) =>
      assert r[k] == g;
      assert forall j :: 0 <= j < k ==> r[j] == gs[j];
  }

  /** Saving leaves the lookup of every other id as it was. */
  lemma UpsertKeepsOthers(gs: seq<Group>, g: Group, id: string)
    requires id != g.id
    ensures FindById(Upsert(gs, g), id) == FindById(gs, id)
  {
    var r := Upsert(gs, g);
    assert forall k :: 0 <= k < |r| && r[k].id == id ==> k < |gs| && r[k] == gs[k];
    match IndexOfId(gs, id)
    case None =>
    case Some(k) =>
      assert r[k] == gs[k];
      assert forall j :: 0 <= j < k ==> r[j].id != id;
  }

  /** Saving the same group twice leaves the list as one save does. */
  lemma UpsertIdempotent(gs: seq<Group>, g: Group)
    ensures Upsert(Upsert(gs, g), g) == Upsert(gs, g)
  {
    var r := Upsert(gs, g);
    UpsertThenFind(gs, g);
    var k := IndexOfId(r, g.id).value;
    assert r[k] == g;
    assert r[k := g] == r;
  }

  /** Saving keeps the ids of the list unique. */
  lemma UpsertKeepsIdsUnique(gs: seq<Group>, g: Group)
    requires UniqueIds(gs)
    ensures UniqueIds(Upsert(gs, g))
  {
  }

  /**
   * The read-modify-write race: two writers read the same document, each
   * appends its own expense and saves. The second save overwrites the first,
   * and the first expense is lost.
   */
  lemma LostUpdate(gs: seq<Group>, g: Group, e1: Expense, e2: Expense)
    requires FindById(gs, g.id) == Some(g) && g.expenses.Some?
    requires e1 != e2 && e1 !in g.expenses.value
    ensures var a := g.(expenses := Some(g.expenses.value + [e1]));
            var b := g.(expenses := Some(g.expenses.value + [e2]));
            var final := FindById(Upsert(Upsert(gs, a), b), g.id);
            final == Some(b) && e1 !in final.value.expenses.value
  {
    var a := g.(expenses := Some(g.expenses.value + [e1]));
    var b := g.(expenses := Some(g.expenses.value + [e2]));
    UpsertThenFind(Upsert(gs, a), b);
    assert b.expenses.value == g.expenses.value + [e2];
  }

  /**
   * The participant join of addParticipant: append `p` unless an address
   * that is the same up to case is already there.
   */
  function JoinParticipant(ps: seq<User>, p: User): seq<User>
  {
    if HasAddress(ps, p.address) then ps else ps + [p]
  }

  /** Joining keeps case-insensitive address uniqueness, and the address is present afterwards. */
  lemma JoinKeepsUnique(ps: seq<User>, p: User)
    requires UniqueAddresses(ps)
    ensures UniqueAddresses(JoinParticipant(ps, p))
    ensures HasAddress(JoinParticipant(ps, p), p.address)
    ensures |JoinParticipant(ps, p)| == if HasAddress(ps, p.address) then |ps| else |ps| + 1
  {
    var r := JoinParticipant(ps, p);
    if !HasAddress(ps, p.address) {
      assert SameAddress(r[|ps|].address, p.address);
      forall i, j | 0 <= i < j < |r| ensures !SameAddress(r[i].address, r[j].address) {
        if j == |ps| {
          assert r[i] == ps[i];
          if SameAddress(ps[i].address, p.address) { assert false; }
        }
      }
    }
  }

  /**
   * Joining the same address twice in different case leaves exactly one
   * entry for it: the second join changes nothing.
   */
  lemma JoinCaseInsensitive(ps: seq<User>, p: User, q: User)
    requires SameAddress(p.address, q.address)
    ensures JoinParticipant(JoinParticipant(ps, p), q) == JoinParticipant(ps, p)
  {
    var r := JoinParticipant(ps, p);
    if !HasAddress(ps, p.address) {
      assert SameAddress(r[|ps|].address, q.address);
    }
  }
}
