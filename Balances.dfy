/**
 * The balance engine, `calculateBalances` of lib/utils/helpers.ts: fold the
 * expenses into an insertion-ordered map from address to net amount.
 *
 * The JavaScript object `balances` is a `Ledger`: its keys in insertion order
 * and a map from key to value. Addresses are never integer-like keys, so the
 * object's key order is its insertion order.
 */
module Balances {
  import opened Types

  datatype Ledger = Ledger(keys: seq<string>, amount: map<string, real>)

  /** Keys are listed once each, and exactly the keys of the map are listed. */
  ghost predicate Valid(b: Ledger)
  {
    Distinct(b.keys) && forall k :: k in b.amount <==> k in b.keys
  }

  /** `balances[k] || 0` */
  function Get0(b: Ledger, k: string): real
  {
    if k in b.amount then b.amount[k] else 0.0
  }

  /** `balances[k] = v`: a new key goes to the end, an existing one keeps its place. */
  function Put(b: Ledger, k: string, v: real): Ledger
  {
    Ledger(if k in b.amount then b.keys else b.keys + [k], b.amount[k := v])
  }

  /** Sum of the values of the listed keys. */
  function SumOver(ks: seq<string>, b: Ledger): real
  {
    if ks == [] then 0.0 else SumOver(ks[..|ks| - 1], b) + Get0(b, ks[|ks| - 1])
  }

  /** Sum of all values of the ledger. */
  function Total(b: Ledger): real
  {
    SumOver(b.keys, b)
  }

  /** Number of times `k` occurs in `s`. */
  function Count(s: seq<string>, k: string): nat
  {
    if s == [] then 0 else Count(s[..|s| - 1], k) + (if s[|s| - 1] == k then 1 else 0)
  }

  /**
   * `amount / splitAmong.length`. With an empty split list the source divides
   * by zero but never uses the quotient, so its value is immaterial here.
   */
  function Share(e: Expense): real
  {
    if |e.splitAmong| == 0 then 0.0 else e.amount / (|e.splitAmong| as real)
  }

  /** What one expense does to the balance of `k`: credit the payer, debit each split entry one share. */
  function Effect(e: Expense, k: string): real
  {
    (if e.paidBy == k then e.amount else 0.0) - Debit(e.splitAmong, k, Share(e))
  }

  /** Net position of `k` after the expenses. */
  function Net(es: seq<Expense>, k: string): real
  {
    if es == [] then 0.0 else Net(es[..|es| - 1], k) + Effect(es[|es| - 1], k)
  }

  /** The addresses the expense loop writes to, in the order it writes them. */
  function Touched(es: seq<Expense>): seq<string>
  {
    if es == [] then [] else Touched(es[..|es| - 1]) + [es[|es| - 1].paidBy] + es[|es| - 1].splitAmong
  }

  /** `s` with every element after its first occurrence removed. */
  function FirstOccurrences(s: seq<string>): seq<string>
  {
    if s == [] then []
    else
      var d := FirstOccurrences(s[..|s| - 1]);
      if s[|s| - 1] in d then d else d + [s[|s| - 1]]
  }

  /** The first occurrences are distinct and hold exactly the elements of the input. */
  lemma {:induction false} FirstOccurrencesSpec(s: seq<string>)
    ensures Distinct(FirstOccurrences(s))
    ensures forall x :: x in FirstOccurrences(s) <==> x in s
  {
    if s != [] {
      var d := FirstOccurrences(s[..|s| - 1]);
      FirstOccurrencesSpec(s[..|s| - 1]);
      assert forall x :: x in s <==> x in s[..|s| - 1] || x == s[|s| - 1];
      assert (d + [s[|s| - 1]])[..|d|] == d;
    }
  }

  /** Sum of the amounts of the expenses whose split list is empty. */
  function Unsplit(es: seq<Expense>): real
  {
    if es == [] then 0.0
    else Unsplit(es[..|es| - 1]) + (if |es[|es| - 1].splitAmong| == 0 then es[|es| - 1].amount else 0.0)
  }

  lemma {:induction false} SumOverPut(ks: seq<string>, b: Ledger, k: string, v: real)
    requires Distinct(ks)
    ensures SumOver(ks, Put(b, k, v)) == SumOver(ks, b) + (if k in ks then v - Get0(b, k) else 0.0)
  {
    if ks != [] {
      var init := ks[..|ks| - 1];
      assert Distinct(init);
      SumOverPut(init, b, k, v);
      assert k in ks <==> k in init || k == ks[|ks| - 1];
    }
  }

  /** Writing `v` under `k` changes the total by `v` minus the old value. */
  lemma PutTotal(b: Ledger, k: string, v: real)
    requires Valid(b)
    ensures Total(Put(b, k, v)) == Total(b) - Get0(b, k) + v
  {
    var r := Put(b, k, v);
    SumOverPut(b.keys, b, k, v);
    if k !in b.amount {
      assert r.keys[..|r.keys| - 1] == b.keys;
    }
  }

  lemma FirstOccurrencesSnoc(s: seq<string>, x: string)
    ensures FirstOccurrences(s + [x]) == if x in s then FirstOccurrences(s) else FirstOccurrences(s) + [x]
  {
    assert (s + [x])[..|s|] == s;
    FirstOccurrencesSpec(s);
  }

  /** `a` added up `n` times. */
  function Times(n: nat, a: real): real
  {
    if n == 0 then 0.0 else Times(n - 1, a) + a
  }

  lemma {:induction false} TimesMul(n: nat, a: real)
    ensures Times(n, a) == (n as real) * a
  {
    if n > 0 {
      TimesMul(n - 1, a);
    }
  }

  /** `n` debits of one share give back the whole amount. */
  lemma TimesShare(n: nat, x: real)
    requires n > 0
    ensures Times(n, x / (n as real)) == x
  {
    TimesMul(n, x / (n as real));
  }

  /** The debits of a split list: `a` for every occurrence of `k`. */
  function Debit(s: seq<string>, k: string, a: real): real
  {
    if s == [] then 0.0 else Debit(s[..|s| - 1], k, a) + (if s[|s| - 1] == k then a else 0.0)
  }

  /** Debiting one share per occurrence is debiting the occurrence count times the share. */
  lemma {:induction false} DebitCount(s: seq<string>, k: string, a: real)
    ensures Debit(s, k, a) == (Count(s, k) as real) * a
  {
    if s != [] {
      DebitCount(s[..|s| - 1], k, a);
    }
  }

  // ---------------------------------------------------------------------
  // The three loops of calculateBalances as functions, one write at a time.
  // ---------------------------------------------------------------------

  /** The participant loop: `balances[addr] = 0` for each listed address in turn. */
  function Seed(ps: seq<string>): Ledger
  {
    if ps == [] then Ledger([], map[]) else Put(Seed(ps[..|ps| - 1]), ps[|ps| - 1], 0.0)
  }

  /** The split loop: `balances[addr] = (balances[addr] || 0) - a` for each entry in turn. */
  function Debits(b: Ledger, s: seq<string>, a: real): Ledger
  {
    if s == [] then b
    else
      var p := Debits(b, s[..|s| - 1], a);
      Put(p, s[|s| - 1], Get0(p, s[|s| - 1]) - a)
  }

  /** One turn of the expense loop: credit the payer the amount, then debit the split list. */
  function Apply(b: Ledger, e: Expense): Ledger
  {
    Debits(Put(b, e.paidBy, Get0(b, e.paidBy) + e.amount), e.splitAmong, Share(e))
  }

  /** The expense loop. */
  function Fold(b: Ledger, es: seq<Expense>): Ledger
  {
    if es == [] then b else Apply(Fold(b, es[..|es| - 1]), es[|es| - 1])
  }

  /** What calculateBalances returns. */
  function BalancesOf(expenses: seq<Expense>, participants: seq<string>): Ledger
  {
    Fold(Seed(participants), expenses)
  }

  lemma SeedSnoc(ps: seq<string>, i: nat)
    requires i < |ps|
    ensures Seed(ps[..i + 1]) == Put(Seed(ps[..i]), ps[i], 0.0)
  {
    assert ps[..i + 1][..i] == ps[..i];
  }

  lemma DebitsSnoc(b: Ledger, s: seq<string>, j: nat, a: real)
    requires j < |s|
    ensures Debits(b, s[..j + 1], a) == Put(Debits(b, s[..j], a), s[j], Get0(Debits(b, s[..j], a), s[j]) - a)
  {
    assert s[..j + 1][..j] == s[..j];
  }

  lemma FoldSnoc(b: Ledger, es: seq<Expense>, i: nat)
    requires i < |es|
    ensures Fold(b, es[..i + 1]) == Apply(Fold(b, es[..i]), es[i])
  {
    assert es[..i + 1][..i] == es[..i];
  }

  // ---------------------------------------------------------------------
  // Key order: every write appends a key the first time it is touched.
  // ---------------------------------------------------------------------

  /** Exactly the listed keys are keys of the map. */
  ghost predicate Domain(b: Ledger)
  {
    forall k :: k in b.amount <==> k in b.keys
  }

  /** A ledger whose keys are the first occurrences of `seen`. */
  ghost predicate Shaped(b: Ledger, seen: seq<string>)
  {
    Domain(b) && b.keys == FirstOccurrences(seen)
  }

  lemma PutShape(b: Ledger, seen: seq<string>, k: string, v: real)
    requires Shaped(b, seen)
    ensures Shaped(Put(b, k, v), seen + [k])
  {
    FirstOccurrencesSpec(seen);
    FirstOccurrencesSnoc(seen, k);
  }

  lemma {:induction false} SeedShape(ps: seq<string>)
    ensures Shaped(Seed(ps), ps)
  {
    if ps != [] {
      var init := ps[..|ps| - 1];
      SeedShape(init);
      PutShape(Seed(init), init, ps[|ps| - 1], 0.0);
      assert init + [ps[|ps| - 1]] == ps;
    }
  }

  lemma {:induction false} DebitsShape(b: Ledger, seen: seq<string>, s: seq<string>, a: real)
    requires Shaped(b, seen)
    ensures Shaped(Debits(b, s, a), seen + s)
  {
    if s == [] {
      assert seen + s == seen;
    } else {
      var init := s[..|s| - 1];
      var p := Debits(b, init, a);
      DebitsShape(b, seen, init, a);
      PutShape(p, seen + init, s[|s| - 1], Get0(p, s[|s| - 1]) - a);
      assert seen + init + [s[|s| - 1]] == seen + s;
    }
  }

  lemma ApplyShape(b: Ledger, seen: seq<string>, e: Expense)
    requires Shaped(b, seen)
    ensures Shaped(Apply(b, e), seen + [e.paidBy] + e.splitAmong)
  {
    PutShape(b, seen, e.paidBy, Get0(b, e.paidBy) + e.amount);
    DebitsShape(Put(b, e.paidBy, Get0(b, e.paidBy) + e.amount), seen + [e.paidBy], e.splitAmong, Share(e));
  }

  lemma {:induction false} FoldShape(b: Ledger, seen: seq<string>, es: seq<Expense>)
    requires Shaped(b, seen)
    ensures Shaped(Fold(b, es), seen + Touched(es))
  {
    if es == [] {
      assert seen + Touched(es) == seen;
    } else {
      var init := es[..|es| - 1];
      FoldShape(b, seen, init);
      ApplyShape(Fold(b, init), seen + Touched(init), es[|es| - 1]);
      TouchedSnoc(seen, es);
    }
  }

  lemma TouchedSnoc(seen: seq<string>, es: seq<Expense>)
    requires es != []
    ensures seen + Touched(es)
         == seen + Touched(es[..|es| - 1]) + [es[|es| - 1].paidBy] + es[|es| - 1].splitAmong
  {
    var t := Touched(es[..|es| - 1]);
    var e := es[|es| - 1];
    assert Touched(es) == t + [e.paidBy] + e.splitAmong;
    AppendAssoc(seen, t + [e.paidBy], e.splitAmong);
    AppendAssoc(seen, t, [e.paidBy]);
  }

  lemma AppendAssoc<T>(a: seq<T>, b: seq<T>, c: seq<T>)
    ensures a + (b + c) == a + b + c
  {
  }

  // ---------------------------------------------------------------------
  // Values: every write changes one key only.
  // ---------------------------------------------------------------------

  lemma {:induction false} DebitsValue(b: Ledger, s: seq<string>, a: real, k: string)
    ensures Get0(Debits(b, s, a), k) == Get0(b, k) - Debit(s, k, a)
  {
    if s != [] {
      DebitsValue(b, s[..|s| - 1], a, k);
    }
  }

  lemma ApplyValue(b: Ledger, e: Expense, k: string)
    ensures Get0(Apply(b, e), k) == Get0(b, k) + Effect(e, k)
  {
    DebitsValue(Put(b, e.paidBy, Get0(b, e.paidBy) + e.amount), e.splitAmong, Share(e), k);
  }

  lemma {:induction false} FoldValue(b: Ledger, es: seq<Expense>, k: string)
    ensures Get0(Fold(b, es), k) == Get0(b, k) + Net(es, k)
  {
    if es != [] {
      FoldValue(b, es[..|es| - 1], k);
      ApplyValue(Fold(b, es[..|es| - 1]), es[|es| - 1], k);
    }
  }

  lemma {:induction false} SeedValue(ps: seq<string>, k: string)
    ensures Get0(Seed(ps), k) == 0.0
  {
    if ps != [] {
      SeedValue(ps[..|ps| - 1], k);
    }
  }

  // ---------------------------------------------------------------------
  // Totals: every write moves the sum of the values by the change it makes.
  // ---------------------------------------------------------------------

  /** A write keeps each key listed once and the listed keys those of the map. */
  lemma PutValid(b: Ledger, k: string, v: real)
    requires Valid(b)
    ensures Valid(Put(b, k, v))
  {
    if k !in b.amount {
      assert (b.keys + [k])[..|b.keys|] == b.keys;
    }
  }

  lemma {:induction false} SeedValid(ps: seq<string>)
    ensures Valid(Seed(ps))
  {
    if ps != [] {
      SeedValid(ps[..|ps| - 1]);
      PutValid(Seed(ps[..|ps| - 1]), ps[|ps| - 1], 0.0);
    }
  }

  lemma {:induction false} DebitsValid(b: Ledger, s: seq<string>, a: real)
    requires Valid(b)
    ensures Valid(Debits(b, s, a))
  {
    if s != [] {
      var p := Debits(b, s[..|s| - 1], a);
      DebitsValid(b, s[..|s| - 1], a);
      PutValid(p, s[|s| - 1], Get0(p, s[|s| - 1]) - a);
    }
  }

  lemma {:induction false} FoldValid(b: Ledger, es: seq<Expense>)
    requires Valid(b)
    ensures Valid(Fold(b, es))
  {
    if es != [] {
      FoldValid(b, es[..|es| - 1]);
      ApplyValid(Fold(b, es[..|es| - 1]), es[|es| - 1]);
    }
  }

  lemma ApplyValid(b: Ledger, e: Expense)
    requires Valid(b)
    ensures Valid(Apply(b, e))
  {
    PutValid(b, e.paidBy, Get0(b, e.paidBy) + e.amount);
    DebitsValid(Put(b, e.paidBy, Get0(b, e.paidBy) + e.amount), e.splitAmong, Share(e));
  }

  lemma {:induction false} SeedTotal(ps: seq<string>)
    ensures Total(Seed(ps)) == 0.0
  {
    if ps != [] {
      var init := ps[..|ps| - 1];
      SeedTotal(init);
      SeedValid(init);
      SeedValue(init, ps[|ps| - 1]);
      PutTotal(Seed(init), ps[|ps| - 1], 0.0);
    }
  }

  lemma {:induction false} DebitsTotal(b: Ledger, s: seq<string>, a: real)
    requires Valid(b)
    ensures Total(Debits(b, s, a)) == Total(b) - Times(|s|, a)
  {
    if s != [] {
      var p := Debits(b, s[..|s| - 1], a);
      DebitsTotal(b, s[..|s| - 1], a);
      DebitsValid(b, s[..|s| - 1], a);
      PutTotal(p, s[|s| - 1], Get0(p, s[|s| - 1]) - a);
    }
  }

  /** The whole split list is debited the full amount, unless it is empty. */
  lemma SplitTotal(e: Expense)
    ensures Times(|e.splitAmong|, Share(e)) == if |e.splitAmong| == 0 then 0.0 else e.amount
  {
    if |e.splitAmong| > 0 {
      TimesShare(|e.splitAmong|, e.amount);
    }
  }

  /** Crediting the payer keeps the ledger valid and adds the amount to the total. */
  lemma CreditTotal(b: Ledger, e: Expense)
    requires Valid(b)
    ensures Valid(Put(b, e.paidBy, Get0(b, e.paidBy) + e.amount))
    ensures Total(Put(b, e.paidBy, Get0(b, e.paidBy) + e.amount)) == Total(b) + e.amount
  {
    PutTotal(b, e.paidBy, Get0(b, e.paidBy) + e.amount);
    PutValid(b, e.paidBy, Get0(b, e.paidBy) + e.amount);
  }

  lemma ApplyTotal(b: Ledger, e: Expense)
    requires Valid(b)
    ensures Total(Apply(b, e)) == Total(b) + (if |e.splitAmong| == 0 then e.amount else 0.0)
  {
    CreditTotal(b, e);
    DebitsTotal(Put(b, e.paidBy, Get0(b, e.paidBy) + e.amount), e.splitAmong, Share(e));
    SplitTotal(e);
  }

  lemma {:induction false} FoldTotal(b: Ledger, es: seq<Expense>)
    requires Valid(b)
    ensures Total(Fold(b, es)) == Total(b) + Unsplit(es)
  {
    if es != [] {
      var init := es[..|es| - 1];
      FoldTotal(b, init);
      FoldValid(b, init);
      ApplyTotal(Fold(b, init), es[|es| - 1]);
    }
  }

  /**
   * calculateBalances, as a whole. Every listed participant and every
   * address that pays or shares an expense gets a key, in first-touch order;
   * each value is the address's net position; and the values sum to the
   * amounts of the expenses that had nobody to split them (zero when every
   * split list is non-empty: money is conserved).
   */
  lemma BalancesOfSpec(expenses: seq<Expense>, participants: seq<string>)
    ensures Valid(BalancesOf(expenses, participants))
    ensures BalancesOf(expenses, participants).keys == FirstOccurrences(participants + Touched(expenses))
    ensures forall k :: Get0(BalancesOf(expenses, participants), k) == Net(expenses, k)
    ensures Total(BalancesOf(expenses, participants)) == Unsplit(expenses)
  {
    var seed := Seed(participants);
    SeedShape(participants);
    FoldShape(seed, participants, expenses);
    SeedValid(participants);
    FoldValid(seed, expenses);
    forall k ensures Get0(BalancesOf(expenses, participants), k) == Net(expenses, k) {
      SeedValue(participants, k);
      FoldValue(seed, expenses, k);
    }
    SeedTotal(participants);
    FoldTotal(seed, expenses);
  }

  /**
   * The body of the expense loop: `splitAmount = amount / splitAmong.length`,
   * credit the payer, then debit each split entry in turn.
   */
  method ApplyExpense(b: Ledger, e: Expense) returns (r: Ledger)
    ensures r == Apply(b, e)
  {
    var split := e.splitAmong;
    var splitAmount := if |split| == 0 then 0.0 else e.amount / (|split| as real);
    assert splitAmount == Share(e);
    r := Put(b, e.paidBy, Get0(b, e.paidBy) + e.amount);
    ghost var credited := r;
    for j := 0 to |split|
      invariant r == Debits(credited, split[..j], splitAmount)
    {
      DebitsSnoc(credited, split, j, splitAmount);
      r := Put(r, split[j], Get0(r, split[j]) - splitAmount);
    }
    assert split[..|split|] == split;
  }

  /**
   * calculateBalances: the participant loop, then the expense loop with its
   * split loop inside, each writing one key at a time.
   */
  method CalculateBalances(expenses: seq<Expense>, participants: seq<string>) returns (b: Ledger)
    ensures b == BalancesOf(expenses, participants)
    ensures Valid(b)
    ensures b.keys == FirstOccurrences(participants + Touched(expenses))
    ensures forall k :: Get0(b, k) == Net(expenses, k)
    ensures Total(b) == Unsplit(expenses)
  {
    b := Ledger([], map[]);
    for i := 0 to |participants|
      invariant b == Seed(participants[..i])
    {
      SeedSnoc(participants, i);
      b := Put(b, participants[i], 0.0);
    }
    assert participants[..|participants|] == participants;
    assert expenses[..0] == [];
    for i := 0 to |expenses|
      invariant b == Fold(Seed(participants), expenses[..i])
    {
      b := ApplyExpense(b, expenses[i]);
      FoldSnoc(Seed(participants), expenses, i);
    }
    assert expenses[..|expenses|] == expenses;
    BalancesOfSpec(expenses, participants);
  }

  /** The net positions do not depend on how the expense list is cut: they add up. */
  lemma {:induction false} NetAppend(a: seq<Expense>, c: seq<Expense>, k: string)
    ensures Net(a + c, k) == Net(a, k) + Net(c, k)
  {
    if c == [] {
      assert a + c == a;
    } else {
      var c' := c[..|c| - 1];
      assert (a + c)[..|a + c| - 1] == a + c';
      assert (a + c)[|a + c| - 1] == c[|c| - 1];
      NetAppend(a, c', k);
    }
  }

  /** Order independence: reordering the expenses leaves every net position unchanged. */
  lemma {:induction false} NetPermutation(a: seq<Expense>, c: seq<Expense>, k: string)
    requires multiset(a) == multiset(c)
    ensures Net(a, k) == Net(c, k)
  {
    if a != [] {
      var x := a[|a| - 1];
      var a' := a[..|a| - 1];
      assert a == a' + [x];
      assert x in multiset(c);
      var i :| 0 <= i < |c| && c[i] == x;
      var c' := c[..i] + c[i + 1..];
      assert c == c[..i] + [x] + c[i + 1..];
      assert multiset(c') == multiset(c) - multiset{x};
      assert multiset(a') == multiset(a) - multiset{x};
      NetPermutation(a', c', k);
      NetAppend(c[..i] + [x], c[i + 1..], k);
      NetAppend(c[..i], [x], k);
      NetAppend(c[..i], c[i + 1..], k);
      assert Net([x], k) == Effect(x, k) by { assert [x][..0] == []; }
    }
  }

  /**
   * Split correctness: for one expense whose payer is listed once in a split
   * of n entries, the payer nets amount - amount/n and every other listed
   * address owes amount/n.
   */
  lemma OneExpense(e: Expense, other: string)
    requires |e.splitAmong| > 0 && Count(e.splitAmong, e.paidBy) == 1
    requires other != e.paidBy && Count(e.splitAmong, other) == 1
    ensures Net([e], e.paidBy) == e.amount - e.amount / (|e.splitAmong| as real)
    ensures Net([e], other) == -(e.amount / (|e.splitAmong| as real))
  {
    assert [e][..0] == [];
    DebitCount(e.splitAmong, e.paidBy, Share(e));
    DebitCount(e.splitAmong, other, Share(e));
  }

  /** The worked example: 90 paid by A and split among A, B and C gives A +60, B -30, C -30. */
  lemma ThreeWayExample()
    ensures var e := Expense("1", 90.0, "dinner", "A", None, ["A", "B", "C"], 0, "USD");
            Net([e], "A") == 60.0 && Net([e], "B") == -30.0 && Net([e], "C") == -30.0
  {
    var e := Expense("1", 90.0, "dinner", "A", None, ["A", "B", "C"], 0, "USD");
    assert [e][..0] == [];
    var s := e.splitAmong;
    assert s[..2] == ["A", "B"] && s[..2][..1] == ["A"] && s[..2][..1][..0] == [];
    assert Count([], "A") == 0 && Count([], "B") == 0 && Count([], "C") == 0;
    assert Count(["A"], "A") == 1 && Count(["A"], "B") == 0 && Count(["A"], "C") == 0;
    assert Count(["A", "B"], "A") == 1 && Count(["A", "B"], "B") == 1 && Count(["A", "B"], "C") == 0;
    assert Count(s, "A") == 1 && Count(s, "B") == 1 && Count(s, "C") == 1;
    assert Share(e) == 30.0;
    DebitCount(s, "A", 30.0);
    DebitCount(s, "B", 30.0);
    DebitCount(s, "C", 30.0);
  }
}
