/**
 * The in-memory app state of lib/store.ts: the signed-in user, the open
 * group, its expenses and balances, and the loading and error flags. Every
 * setter replaces one field and leaves the others.
 */
module Store {
  import opened Types

  /** `expenses.filter(e => e.id !== expenseId)` */
  function WithoutExpense(es: seq<Expense>, expenseId: string): seq<Expense>
  {
    if es == [] then []
    else (if es[0].id == expenseId then [] else [es[0]]) + WithoutExpense(es[1..], expenseId)
  }

  class AppStore {
    var currentUser: Option<User>
    var currentGroup: Option<Group>
    var expenses: seq<Expense>
    var balances: seq<Balance>
    var isLoading: bool
    var error: Option<string>

    /** The store starts with nobody signed in, no group, nothing listed, idle and without error. */
    constructor()
      ensures currentUser == None && currentGroup == None
      ensures expenses == [] && balances == []
      ensures !isLoading && error == None
    {
      currentUser := None;
      currentGroup := None;
      expenses := [];
      balances := [];
      isLoading := false;
      error := None;
    }

    method SetCurrentUser(user: Option<User>)
      modifies this
      ensures currentUser == user
      ensures currentGroup == old(currentGroup) && expenses == old(expenses) && balances == old(balances)
      ensures isLoading == old(isLoading) && error == old(error)
    {
      currentUser := user;
    }

    method SetCurrentGroup(group: Option<Group>)
      modifies this
      ensures currentGroup == group
      ensures currentUser == old(currentUser) && expenses == old(expenses) && balances == old(balances)
      ensures isLoading == old(isLoading) && error == old(error)
    {
      currentGroup := group;
    }

    /** addExpense: the expense goes at the end of the list. */
    method AddExpense(expense: Expense)
      modifies this
      ensures expenses == old(expenses) + [expense]
      ensures currentUser == old(currentUser) && currentGroup == old(currentGroup) && balances == old(balances)
      ensures isLoading == old(isLoading) && error == old(error)
    {
      expenses := expenses + [expense];
    }

    /** removeExpense: every expense with the id goes; the rest keep their order. */
    method RemoveExpense(expenseId: string)
      modifies this
      ensures expenses == WithoutExpense(old(expenses), expenseId)
      ensures currentUser == old(currentUser) && currentGroup == old(currentGroup) && balances == old(balances)
      ensures isLoading == old(isLoading) && error == old(error)
    {
      expenses := WithoutExpense(expenses, expenseId);
    }

    method UpdateBalances(balances: seq<Balance>)
      modifies this
      ensures this.balances == balances
      ensures currentUser == old(currentUser) && currentGroup == old(currentGroup) && expenses == old(expenses)
      ensures isLoading == old(isLoading) && error == old(error)
    {
      this.balances := balances;
    }

    method SetIsLoading(loading: bool)
      modifies this
      ensures isLoading == loading
      ensures currentUser == old(currentUser) && currentGroup == old(currentGroup) && expenses == old(expenses)
      ensures balances == old(balances) && error == old(error)
    {
      isLoading := loading;
    }

    method SetError(error: Option<string>)
      modifies this
      ensures this.error == error
      ensures currentUser == old(currentUser) && currentGroup == old(currentGroup) && expenses == old(expenses)
      ensures balances == old(balances) && isLoading == old(isLoading)
    {
      this.error := error;
    }
  }

  /**
   * Removal keeps exactly the expenses with another id, in their order: no
   * expense with the id is left, an id that is not listed changes nothing,
   * and the list never grows.
   */
  lemma {:induction false} WithoutExpenseSpec(es: seq<Expense>, expenseId: string)
    ensures forall e :: e in WithoutExpense(es, expenseId) <==> e in es && e.id != expenseId
    ensures (forall k :: 0 <= k < |es| ==> es[k].id != expenseId) ==> WithoutExpense(es, expenseId) == es
    ensures |WithoutExpense(es, expenseId)| <= |es|
    decreases |es|
  {
    if es != [] {
      WithoutExpenseSpec(es[1..], expenseId);
      assert forall e :: e in es <==> e == es[0] || e in es[1..];
      if forall k :: 0 <= k < |es| ==> es[k].id != expenseId {
        assert forall k :: 0 <= k < |es[1..]| ==> es[1..][k].id == es[k + 1].id;
        assert es == [es[0]] + es[1..];
      }
    }
  }

  /** Removing twice removes no more than removing once. */
  lemma WithoutExpenseIdempotent(es: seq<Expense>, expenseId: string)
    ensures WithoutExpense(WithoutExpense(es, expenseId), expenseId) == WithoutExpense(es, expenseId)
  {
    var once := WithoutExpense(es, expenseId);
    WithoutExpenseSpec(es, expenseId);
    WithoutExpenseSpec(once, expenseId);
    forall k | 0 <= k < |once|
      ensures once[k].id != expenseId
    {
      assert once[k] in once;
    }
  }

  /** Adding an expense with a new id and then removing that id gives back the list. */
  lemma {:induction false} AddThenRemove(es: seq<Expense>, e: Expense)
    requires forall k :: 0 <= k < |es| ==> es[k].id != e.id
    ensures WithoutExpense(es + [e], e.id) == es
    decreases |es|
  {
    if es == [] {
      assert WithoutExpense([e], e.id) == [] + WithoutExpense([], e.id);
    } else {
      assert forall k :: 0 <= k < |es[1..]| ==> es[1..][k].id == es[k + 1].id;
      AddThenRemove(es[1..], e);
      assert (es + [e])[1..] == es[1..] + [e];
      assert es == [es[0]] + es[1..];
    }
  }
}
