/**
 * The dashboard of app/dashboard/page.tsx: the signed-in user's own
 * balance in a group (`calculateBalance`), which groups are listed and in
 * what order, how a balance is shown, and which wallet address stands for
 * the user.
 */
module Dashboard {
  import opened Types
  import opened Balances

  // ---------------------------------------------------------------------
  // calculateBalance
  // ---------------------------------------------------------------------

  /** `splitAmong.some(addr => addr.toLowerCase() === user.toLowerCase())` */
  predicate InSplit(split: seq<string>, user: string)
  {
    exists i :: 0 <= i < |split| && SameAddress(split[i], user)
  }

  /**
   * What one expense does to the user's balance: the full amount when the
   * user paid, less one share when the user is in the split at all, however
   * many times the split lists the user.
   */
  function UserEffect(e: Expense, user: string): real
  {
    (if SameAddress(e.paidBy, user) then e.amount else 0.0)
    - (if InSplit(e.splitAmong, user) then Share(e) else 0.0)
  }

  /** The user's balance over a list of expenses. */
  function UserBalance(es: seq<Expense>, user: string): real
  {
    if es == [] then 0.0 else UserBalance(es[..|es| - 1], user) + UserEffect(es[|es| - 1], user)
  }

  /** calculateBalance: 0 without expenses, else the sum of the expenses' effects on the user. */
  method CalculateBalance(group: Group, userAddress: string) returns (balance: real)
    ensures balance == UserBalance(OrEmpty(group.expenses), userAddress)
  {
    if group.expenses.None? || |group.expenses.value| == 0 {
      return 0.0;
    }
    var expenses := group.expenses.value;
    balance := 0.0;
    var normalizedUserAddress := Lower(userAddress);
    var k := 0;
    while k < |expenses|
      invariant k <= |expenses|
      invariant balance == UserBalance(expenses[..k], userAddress)
    {
      var expense := expenses[k];
      assert expenses[..k + 1][..k] == expenses[..k];
      if Lower(expense.paidBy) == normalizedUserAddress {
        balance := balance + expense.amount;
      }
      var listed := exists i :: 0 <= i < |expense.splitAmong| && Lower(expense.splitAmong[i]) == normalizedUserAddress;
      if listed {
        balance := balance - expense.amount / (|expense.splitAmong| as real);
      }
      k := k + 1;
    }
    assert expenses[..k] == expenses;
  }

  /** The balance of a group whose expense list is absent or empty is zero. */
  lemma NoExpensesNoBalance(group: Group, user: string)
    requires group.expenses.None? || group.expenses == Some([])
    ensures UserBalance(OrEmpty(group.expenses), user) == 0.0
  {
  }

  /** Balances of consecutive runs of expenses add up. */
  lemma {:induction false} UserBalanceAppend(a: seq<Expense>, c: seq<Expense>, user: string)
    ensures UserBalance(a + c, user) == UserBalance(a, user) + UserBalance(c, user)
  {
    if c == [] {
      assert a + c == a;
    } else {
      var c' := c[..|c| - 1];
      assert (a + c)[..|a + c| - 1] == a + c';
      assert (a + c)[|a + c| - 1] == c[|c| - 1];
      UserBalanceAppend(a, c', user);
    }
  }

  /** Lower-case addresses throughout, as the create and join pages store them. */
  predicate LowerCaseExpense(e: Expense)
  {
    Lower(e.paidBy) == e.paidBy && forall i :: 0 <= i < |e.splitAmong| ==> Lower(e.splitAmong[i]) == e.splitAmong[i]
  }

  /** No address appears twice in the split. */
  lemma {:induction false} CountDistinct(s: seq<string>, k: string)
    requires Distinct(s)
    ensures Count(s, k) == if k in s then 1 else 0
  {
    if s != [] {
      var init := s[..|s| - 1];
      CountDistinct(init, k);
      assert s == init + [s[|s| - 1]];
    }
  }

  /**
   * Agreement with calculateBalances: when every address is lower-case and
   * no split lists an address twice, the user's dashboard balance is the
   * user's entry of the group ledger.
   */
  lemma {:induction false} BalanceAgrees(es: seq<Expense>, user: string)
    requires Lower(user) == user
    requires forall i :: 0 <= i < |es| ==> LowerCaseExpense(es[i]) && Distinct(es[i].splitAmong)
    ensures UserBalance(es, user) == Net(es, user)
  {
    if es != [] {
      BalanceAgrees(es[..|es| - 1], user);
      EffectAgrees(es[|es| - 1], user);
    }
  }

  /** The same agreement for one expense. */
  lemma EffectAgrees(e: Expense, user: string)
    requires Lower(user) == user
    requires LowerCaseExpense(e) && Distinct(e.splitAmong)
    ensures UserEffect(e, user) == Effect(e, user)
  {
    assert SameAddress(e.paidBy, user) <==> e.paidBy == user;
    assert InSplit(e.splitAmong, user) <==> user in e.splitAmong by {
      if InSplit(e.splitAmong, user) {
        var i :| 0 <= i < |e.splitAmong| && SameAddress(e.splitAmong[i], user);
        assert e.splitAmong[i] == user;
      }
      if user in e.splitAmong {
        var i :| 0 <= i < |e.splitAmong| && e.splitAmong[i] == user;
        assert SameAddress(e.splitAmong[i], user);
      }
    }
    DebitCount(e.splitAmong, user, Share(e));
    CountDistinct(e.splitAmong, user);
  }

  /**
   * Where the two disagree: a split listing the user twice debits the user
   * one share here and two shares in the group ledger.
   */
  lemma DuplicateSplitDisagrees()
    ensures var e := Expense("1", 30.0, "taxi", "p", None, ["u", "u"], 0, "USD");
      UserBalance([e], "u") == -15.0 && Net([e], "u") == -30.0
  {
    var e := Expense("1", 30.0, "taxi", "p", None, ["u", "u"], 0, "USD");
    assert [e][..0] == [];
    assert SameAddress(e.splitAmong[0], "u");
    assert !SameAddress("p", "u") by {
      assert Lower("p")[0] != Lower("u")[0];
    }
    assert Share(e) == 15.0;
    assert ["u", "u"][..1] == ["u"] && ["u"][..0] == [];
    DebitCount(e.splitAmong, "u", 15.0);
  }

  /**
   * And the other difference: an expense paid by the user's address written
   * in upper case credits the user here, and not the user's entry there.
   */
  lemma MixedCaseDisagrees()
    ensures var e := Expense("1", 10.0, "coffee", "A", None, [], 0, "USD");
      UserBalance([e], "a") == 10.0 && Net([e], "a") == 0.0
  {
    var e := Expense("1", 10.0, "coffee", "A", None, [], 0, "USD");
    assert [e][..0] == [];
    assert Lower("A") == "a";
    assert SameAddress(e.paidBy, "a");
  }

  // ---------------------------------------------------------------------
  // Which groups are listed, and in what order
  // ---------------------------------------------------------------------

  /** The user is a participant of the group, up to case; a group without a participant list has none. */
  predicate IsMember(g: Group, user: string)
  {
    g.participants.Some? && HasAddress(g.participants.value, user)
  }

  /** `allGroups.filter(group => group.participants?.some(...))` */
  function UserGroups(gs: seq<Group>, user: string): seq<Group>
  {
    if gs == [] then []
    else UserGroups(gs[..|gs| - 1], user) + (if IsMember(gs[|gs| - 1], user) then [gs[|gs| - 1]] else [])
  }

  /** The filter keeps exactly the groups the user belongs to, each as often as it occurs. */
  lemma {:induction false} UserGroupsSpec(gs: seq<Group>, user: string)
    ensures forall g :: g in UserGroups(gs, user) ==> IsMember(g, user)
    ensures forall g :: multiset(UserGroups(gs, user))[g] == if IsMember(g, user) then multiset(gs)[g] else 0
  {
    if gs != [] {
      var init := gs[..|gs| - 1];
      UserGroupsSpec(init, user);
      assert gs == init + [gs[|gs| - 1]];
    }
  }

  /** `createdAt || 0` */
  function CreatedKey(g: Group): int
  {
    if g.createdAt.Some? then g.createdAt.value else 0
  }

  /** Newest first. */
  predicate SortedDesc(s: seq<Group>)
  {
    forall i, j :: 0 <= i < j < |s| ==> CreatedKey(s[i]) >= CreatedKey(s[j])
  }

  /** Place `g` before the first group that is not newer, after all that are newer. */
  function Insert(g: Group, s: seq<Group>): seq<Group>
  {
    if s == [] || CreatedKey(g) >= CreatedKey(s[0]) then [g] + s else [s[0]] + Insert(g, s[1..])
  }

  /**
   * `userGroups.sort((a, b) => (b.createdAt || 0) - (a.createdAt || 0))`:
   * the stable sort, newest first, groups created at the same time keeping
   * their order.
   */
  function SortByCreated(s: seq<Group>): seq<Group>
  {
    if s == [] then [] else Insert(s[0], SortByCreated(s[1..]))
  }

  /** The groups of `s` with creation key `k`, in order. */
  function WithKey(s: seq<Group>, k: int): seq<Group>
  {
    if s == [] then [] else (if CreatedKey(s[0]) == k then [s[0]] else []) + WithKey(s[1..], k)
  }

  lemma {:induction false} InsertSpec(g: Group, s: seq<Group>)
    requires SortedDesc(s)
    ensures SortedDesc(Insert(g, s))
    ensures multiset(Insert(g, s)) == multiset([g] + s)
    ensures forall k :: WithKey(Insert(g, s), k) == WithKey([g] + s, k)
  {
    InsertSorted(g, s);
    InsertPermutes(g, s);
    forall k
      ensures WithKey(Insert(g, s), k) == WithKey([g] + s, k)
    {
      InsertStable(g, s, k);
    }
  }

  lemma {:induction false} InsertPermutes(g: Group, s: seq<Group>)
    ensures multiset(Insert(g, s)) == multiset([g] + s)
  {
    if s != [] && CreatedKey(g) < CreatedKey(s[0]) {
      InsertPermutes(g, s[1..]);
      assert s == [s[0]] + s[1..];
    }
  }

  lemma {:induction false} InsertSorted(g: Group, s: seq<Group>)
    requires SortedDesc(s)
    ensures SortedDesc(Insert(g, s))
    ensures forall x :: x in Insert(g, s) ==> x == g || x in s
  {
    if s != [] && CreatedKey(g) < CreatedKey(s[0]) {
      InsertSorted(g, s[1..]);
      var r := Insert(g, s[1..]);
      assert forall x :: x in s[1..] ==> CreatedKey(x) <= CreatedKey(s[0]);
      assert forall x :: x in s[1..] ==> x in s;
      assert forall i :: 0 <= i < |r| ==> CreatedKey(r[i]) <= CreatedKey(s[0]) by {
        forall i | 0 <= i < |r| ensures CreatedKey(r[i]) <= CreatedKey(s[0]) {
          assert r[i] in r;
        }
      }
    }
  }

  lemma {:induction false} InsertStable(g: Group, s: seq<Group>, k: int)
    ensures WithKey(Insert(g, s), k) == WithKey([g] + s, k)
  {
    if s != [] && CreatedKey(g) < CreatedKey(s[0]) {
      var r := Insert(g, s[1..]);
      var head := if CreatedKey(s[0]) == k then [s[0]] else [];
      var mine := if CreatedKey(g) == k then [g] else [];
      var rest := WithKey(s[1..], k);
      InsertStable(g, s[1..], k);
      WithKeyCons(s[0], r, k);
      WithKeyCons(g, s[1..], k);
      WithKeyCons(g, s, k);
      WithKeyCons(s[0], s[1..], k);
      assert s == [s[0]] + s[1..];
      assert head == [] || mine == [];
      assert head + (mine + rest) == mine + (head + rest);
    }
  }

  lemma WithKeyCons(x: Group, s: seq<Group>, k: int)
    ensures WithKey([x] + s, k) == (if CreatedKey(x) == k then [x] else []) + WithKey(s, k)
  {
    assert ([x] + s)[1..] == s;
  }

  /**
   * The listed order is newest first, a rearrangement of the filtered
   * groups, and stable: groups with the same creation key stay in their
   * original order.
   */
  lemma {:induction false} SortByCreatedSpec(s: seq<Group>)
    ensures SortedDesc(SortByCreated(s))
    ensures multiset(SortByCreated(s)) == multiset(s)
    ensures forall k :: WithKey(SortByCreated(s), k) == WithKey(s, k)
  {
    if s != [] {
      SortByCreatedSpec(s[1..]);
      InsertSpec(s[0], SortByCreated(s[1..]));
      assert s == [s[0]] + s[1..];
      forall k
        ensures WithKey(SortByCreated(s), k) == WithKey(s, k)
      {
        WithKeyCons(s[0], SortByCreated(s[1..]), k);
        WithKeyCons(s[0], s[1..], k);
      }
    }
  }

  /** A group without a creation time sorts as created at time 0, after every later one. */
  lemma MissingCreatedAtLast(a: Group, b: Group)
    requires a.createdAt.None? && b.createdAt.Some? && b.createdAt.value > 0
    ensures SortByCreated([a, b]) == [b, a]
  {
    assert [a, b][1..] == [b] && [b][1..] == [];
    assert SortByCreated([b]) == [b];
    assert Insert(a, [b]) == [b] + Insert(a, []);
  }

  // ---------------------------------------------------------------------
  // How a balance is shown
  // ---------------------------------------------------------------------

  const SettledBand: real := 0.01

  datatype Standing = Owed | Owing | Settled

  /** `isOwed = balance > 0.01`, `isOwing = balance < -0.01`, "Settled" otherwise. */
  function StandingOf(balance: real): Standing
  {
    if balance > SettledBand then Owed else if balance < -SettledBand then Owing else Settled
  }

  /**
   * The three cases split the line: owed exactly above the band, owing
   * exactly below it, settled within it, and the sign flips owed and owing.
   */
  lemma StandingSpec(balance: real)
    ensures StandingOf(balance) == Owed <==> balance > 0.01
    ensures StandingOf(balance) == Owing <==> balance < -0.01
    ensures StandingOf(balance) == Settled <==> -0.01 <= balance <= 0.01
    ensures StandingOf(-balance) == match StandingOf(balance)
      case Owed => Owing
      case Owing => Owed
      case Settled => Settled
  {
  }

  // ---------------------------------------------------------------------
  // The user's wallet address
  // ---------------------------------------------------------------------

  datatype Wallet = Wallet(address: Option<string>)

  datatype LinkedAccount = LinkedAccount(kind: string, walletClientType: Option<string>, address: Option<string>)

  /** The parts of the signed-in user the address is read from. */
  datatype AuthUser = AuthUser(wallet: Option<Wallet>, linkedAccounts: Option<seq<LinkedAccount>>, smartWallet: Option<Wallet>)

  /** A JavaScript string value that is truthy: present and not empty. */
  predicate Truthy(s: Option<string>)
  {
    s.Some? && s.value != ""
  }

  /** `account.type === 'wallet' || account.walletClientType === 'privy'` */
  predicate IsEmbedded(a: LinkedAccount)
  {
    a.kind == "wallet" || a.walletClientType == Some("privy")
  }

  /** `linkedAccounts?.find(...)`: the first embedded account. */
  function FirstEmbedded(accounts: seq<LinkedAccount>): Option<LinkedAccount>
  {
    if accounts == [] then None
    else if IsEmbedded(accounts[0]) then Some(accounts[0])
    else FirstEmbedded(accounts[1..])
  }

  /**
   * The address of the user: the wallet's, else that of the first embedded
   * linked account, else the smart wallet's, else none.
   */
  function ResolveAddress(u: AuthUser): Option<string>
  {
    var fromWallet := if u.wallet.Some? then u.wallet.value.address else None;
    var embedded := if u.linkedAccounts.Some? then FirstEmbedded(u.linkedAccounts.value) else None;
    var fromEmbedded := if Truthy(fromWallet) then fromWallet
                        else if embedded.Some? then embedded.value.address else None;
    var address := if !Truthy(fromEmbedded) && u.smartWallet.Some? then u.smartWallet.value.address else fromEmbedded;
    if Truthy(address) then address else None
  }

  lemma {:induction false} FirstEmbeddedSpec(accounts: seq<LinkedAccount>)
    ensures FirstEmbedded(accounts).Some? <==> exists i :: 0 <= i < |accounts| && IsEmbedded(accounts[i])
    ensures FirstEmbedded(accounts).Some? ==>
      exists i :: 0 <= i < |accounts| && accounts[i] == FirstEmbedded(accounts).value
        && IsEmbedded(accounts[i]) && forall j :: 0 <= j < i ==> !IsEmbedded(accounts[j])
  {
    if accounts != [] && !IsEmbedded(accounts[0]) {
      FirstEmbeddedSpec(accounts[1..]);
      if FirstEmbedded(accounts).Some? {
        var i :| 0 <= i < |accounts[1..]| && accounts[1..][i] == FirstEmbedded(accounts).value
          && IsEmbedded(accounts[1..][i]) && forall j :: 0 <= j < i ==> !IsEmbedded(accounts[1..][j]);
        assert accounts[i + 1] == FirstEmbedded(accounts).value;
      }
      if exists i :: 0 <= i < |accounts| && IsEmbedded(accounts[i]) {
        var i :| 0 <= i < |accounts| && IsEmbedded(accounts[i]);
        assert accounts[1..][i - 1] == accounts[i];
      }
    }
  }

  /**
   * First truthy candidate wins, in the fixed order; the answer is never an
   * empty string; and when nothing truthy is found the user has no address.
   */
  lemma ResolveAddressSpec(u: AuthUser)
    ensures var w := if u.wallet.Some? then u.wallet.value.address else None;
      Truthy(w) ==> ResolveAddress(u) == w
    ensures ResolveAddress(u).Some? ==> ResolveAddress(u).value != ""
    ensures var w := if u.wallet.Some? then u.wallet.value.address else None;
      var e := if u.linkedAccounts.Some? then FirstEmbedded(u.linkedAccounts.value) else None;
      !Truthy(w) && e.Some? && Truthy(e.value.address) ==> ResolveAddress(u) == e.value.address
    ensures var w := if u.wallet.Some? then u.wallet.value.address else None;
      var e := if u.linkedAccounts.Some? then FirstEmbedded(u.linkedAccounts.value) else None;
      !Truthy(w) && (e.None? || !Truthy(e.value.address)) ==>
        ResolveAddress(u) == (if u.smartWallet.Some? && Truthy(u.smartWallet.value.address) then u.smartWallet.value.address else None)
  {
  }

  /**
   * Only the first embedded account is consulted: when it has no address,
   * a later embedded account with one is not used.
   */
  lemma OnlyFirstEmbedded()
    ensures ResolveAddress(AuthUser(None,
      Some([LinkedAccount("wallet", None, None), LinkedAccount("wallet", None, Some("0xabc"))]), None)) == None
  {
  }
}
