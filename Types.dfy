/**
 * The entities of the expense ledger and the address-comparison rule shared
 * by every component (types/index.ts).
 *
 * A field that the TypeScript declares optional, or that the code guards
 * with `!x`, `x?.` or `x || 0` because a stored document may lack it, is an
 * `Option` here; `None` plays the part of `undefined`.
 */
module Types {

  datatype Option<+T> = None | Some(value: T)

  /** A participant, or the signed-in user. */
  datatype User = User(
    address: string,
    ensName: Option<string>,
    ensAvatar: Option<string>,
    preferredChains: Option<seq<int>>)

  /** One outlay, paid by `paidBy` and split equally among `splitAmong`. */
  datatype Expense = Expense(
    id: string,
    amount: real,
    description: string,
    paidBy: string,
    paidByEns: Option<string>,
    splitAmong: seq<string>,
    timestamp: int,
    currency: string)

  datatype SettlementStatus = Pending | Processing | Completed | Failed

  /** A recorded transfer from one participant to another. */
  datatype Settlement = Settlement(
    id: string,
    from: string,
    to: string,
    amount: real,
    currency: string,
    fromChain: Option<int>,
    toChain: Option<int>,
    status: SettlementStatus,
    txHash: Option<string>,
    timestamp: int)

  /**
   * A group session, the document every store keeps under its id.
   * `updatedAt` is the stamp the remote store adds on every save.
   */
  datatype Group = Group(
    id: string,
    name: string,
    createdBy: string,
    createdAt: Option<int>,
    participants: Option<seq<User>>,
    expenses: Option<seq<Expense>>,
    isActive: bool,
    yellowSessionId: Option<string>,
    settlements: Option<seq<Settlement>>,
    updatedAt: Option<int>)

  datatype Balance = Balance(address: string, ensName: Option<string>, netAmount: real, currency: string)

  /** A list the document may lack, read as empty. */
  function OrEmpty<T>(o: Option<seq<T>>): seq<T>
  {
    if o.Some? then o.value else []
  }

  /** No element occurs twice: each one is absent from the part before it. */
  predicate Distinct<T(==)>(s: seq<T>)
  {
    |s| == 0 || (Distinct(s[..|s| - 1]) && s[|s| - 1] !in s[..|s| - 1])
  }

  /** A list is distinct exactly when its head is not in its distinct tail. */
  lemma DistinctCons<T>(ids: seq<T>)
    requires ids != []
    ensures Distinct(ids) <==> ids[0] !in ids[1..] && Distinct(ids[1..])
  {
    DistinctSpec(ids);
    DistinctSpec(ids[1..]);
    if ids[0] !in ids[1..] && Distinct(ids[1..]) {
      forall i, j | 0 <= i < j < |ids|
        ensures ids[i] != ids[j]
      {
        if i > 0 {
          assert ids[i] == ids[1..][i - 1] && ids[j] == ids[1..][j - 1];
        } else {
          assert ids[j] == ids[1..][j - 1];
        }
      }
    }
    if Distinct(ids) {
      forall i, j | 0 <= i < j < |ids[1..]|
        ensures ids[1..][i] != ids[1..][j]
      {
        assert ids[1..][i] == ids[i + 1] && ids[1..][j] == ids[j + 1];
      }
    }
  }

  /** `Distinct` as pairwise inequality. */
  lemma {:induction false} DistinctSpec<T>(ids: seq<T>)
    ensures Distinct(ids) <==> forall i, j :: 0 <= i < j < |ids| ==> ids[i] != ids[j]
    decreases |ids|
  {
    if ids != [] {
      var init := ids[..|ids| - 1];
      DistinctSpec(init);
      assert forall i :: 0 <= i < |init| ==> init[i] == ids[i];
    }
  }

  /** Two distinct lists with no common entry append to a distinct list. */
  lemma DistinctAppend<T>(a: seq<T>, b: seq<T>)
    requires |a| <= 1 && Distinct(b) && forall x :: x in a ==> x !in b
    ensures Distinct(a + b)
  {
    if a != [] {
      assert (a + b)[0] == a[0] && (a + b)[1..] == b;
      DistinctCons(a + b);
    } else {
      assert a + b == b;
    }
  }

  /** Appending an absent element keeps a list distinct. */
  lemma DistinctAppendOne<T>(ids: seq<T>, x: T)
    requires Distinct(ids) && x !in ids
    ensures Distinct(ids + [x])
  {
    assert (ids + [x])[..|ids + [x]| - 1] == ids;
  }

  /** `toLowerCase` on the ASCII letters that addresses are made of. */
  function LowerChar(c: char): char
  {
    if 'A' <= c <= 'Z' then (c as int + 32) as char else c
  }

  function Lower(s: string): (r: string)
    ensures |r| == |s|
    ensures forall i :: 0 <= i < |s| ==> r[i] == LowerChar(s[i])
  {
    seq(|s|, i requires 0 <= i < |s| => LowerChar(s[i]))
  }

  /** Two addresses denote the same participant iff their lower-cased forms are equal. */
  predicate SameAddress(a: string, b: string)
  {
    Lower(a) == Lower(b)
  }

  /** `participants.some(p => p.address.toLowerCase() === address.toLowerCase())` */
  predicate HasAddress(ps: seq<User>, address: string)
  {
    exists i :: 0 <= i < |ps| && SameAddress(ps[i].address, address)
  }

  /** Within a group, addresses are unique under case-insensitive comparison. */
  predicate UniqueAddresses(ps: seq<User>)
  {
    forall i, j :: 0 <= i < j < |ps| ==> !SameAddress(ps[i].address, ps[j].address)
  }

  /** Lower-casing is idempotent, so comparing normalised addresses is an equivalence. */
  lemma LowerIdempotent(s: string)
    ensures Lower(Lower(s)) == Lower(s)
  {
    var l := Lower(s);
    assert forall i :: 0 <= i < |s| ==> Lower(l)[i] == l[i];
  }
}
