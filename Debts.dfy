/**
 * Debt simplification, `simplifyDebts` of lib/utils/helpers.ts: split the
 * ledger into debtors and creditors, then match them greedily with two
 * indices, each transfer paying the smaller of the current debt and the
 * current credit.
 *
 * The imperative method is proved against `Greedy`, a recursive function
 * over the remaining debtor and creditor lists; everything the algorithm
 * promises is proved about `Greedy` and `Rounded`.
 */
module Debts {
  import opened Types
  import opened Balances

  /** The fixed tolerance below which an amount counts as settled. */
  const Epsilon: real := 0.01

  /** A debtor or creditor with its remaining amount (always positive). */
  datatype Entry = Entry(address: string, amount: real)

  /** One payment of the settlement plan. */
  datatype Transfer = Transfer(from: string, to: string, amount: real)

  /** `Math.abs` */
  function Abs(x: real): real
  {
    if x < 0.0 then -x else x
  }

  /** `Math.min` */
  function Min(x: real, y: real): real
  {
    if x <= y then x else y
  }

  /**
   * `Number(x.toFixed(2))`: the nearest multiple of one cent, halves
   * rounded up, on exact reals.
   */
  function Round2(x: real): real
  {
    ((x * 100.0 + 0.5).Floor as real) / 100.0
  }

  /** The output amount is within half a cent of the exact one. */
  lemma Round2Near(x: real)
    ensures x - 0.005 < Round2(x) <= x + 0.005
  {
    var f := (x * 100.0 + 0.5).Floor;
    assert (f as real) <= x * 100.0 + 0.5 < (f as real) + 1.0;
  }

  /** An amount of at least one cent is still at least one cent after rounding. */
  lemma Round2AtLeastCent(x: real)
    requires x >= Epsilon
    ensures Round2(x) >= Epsilon
  {
    var f := (x * 100.0 + 0.5).Floor;
    assert x * 100.0 + 0.5 >= 1.5;
    assert f >= 1;
  }

  // ---------------------------------------------------------------------
  // Classification, in the key order of the ledger.
  // ---------------------------------------------------------------------

  /** The creditors among the keys `ks`: balance above the tolerance, in key order. */
  function Creditors(ks: seq<string>, b: Ledger): seq<Entry>
  {
    if ks == [] then []
    else
      var k := ks[|ks| - 1];
      Creditors(ks[..|ks| - 1], b) + (if Get0(b, k) > Epsilon then [Entry(k, Get0(b, k))] else [])
  }

  /** The debtors among the keys `ks`: balance below minus the tolerance, stored positive. */
  function Debtors(ks: seq<string>, b: Ledger): seq<Entry>
  {
    if ks == [] then []
    else
      var k := ks[|ks| - 1];
      Debtors(ks[..|ks| - 1], b) + (if Get0(b, k) < -Epsilon then [Entry(k, Abs(Get0(b, k)))] else [])
  }

  function Addresses(es: seq<Entry>): seq<string>
  {
    seq(|es|, i requires 0 <= i < |es| => es[i].address)
  }

  /**
   * Classification: a key is a creditor exactly when its balance exceeds the
   * tolerance, a debtor exactly when it is below minus the tolerance, and
   * each entry carries the balance (a debtor its absolute value). Keys in
   * between are in neither list.
   */
  lemma {:induction false} ClassifySpec(ks: seq<string>, b: Ledger)
    ensures forall k :: k in Addresses(Creditors(ks, b)) <==> k in ks && Get0(b, k) > Epsilon
    ensures forall k :: k in Addresses(Debtors(ks, b)) <==> k in ks && Get0(b, k) < -Epsilon
    ensures forall e :: e in Creditors(ks, b) ==> e.amount == Get0(b, e.address) > Epsilon
    ensures forall e :: e in Debtors(ks, b) ==> e.amount == -Get0(b, e.address) > Epsilon
  {
    if ks != [] {
      var init := ks[..|ks| - 1];
      var k := ks[|ks| - 1];
      ClassifySpec(init, b);
      var ctail := if Get0(b, k) > Epsilon then [Entry(k, Get0(b, k))] else [];
      var dtail := if Get0(b, k) < -Epsilon then [Entry(k, Abs(Get0(b, k)))] else [];
      AddressesSnoc(Creditors(init, b), ctail);
      AddressesSnoc(Debtors(init, b), dtail);
      forall x
        ensures x in Addresses(Creditors(ks, b)) <==> x in ks && Get0(b, x) > Epsilon
        ensures x in Addresses(Debtors(ks, b)) <==> x in ks && Get0(b, x) < -Epsilon
      {
        assert x in ks <==> x in init || x == k;
        assert Addresses(ctail) == if Get0(b, k) > Epsilon then [k] else [];
        assert Addresses(dtail) == if Get0(b, k) < -Epsilon then [k] else [];
      }
    }
  }

  lemma AddressesSnoc(es: seq<Entry>, tail: seq<Entry>)
    ensures Addresses(es + tail) == Addresses(es) + Addresses(tail)
  {
  }

  lemma {:induction false} CreditorsAbove(ks: seq<string>, b: Ledger)
    ensures AllAbove(Creditors(ks, b)) && AllAbove(Debtors(ks, b))
  {
    if ks != [] {
      CreditorsAbove(ks[..|ks| - 1], b);
    }
  }

  /** Every remaining amount is at least the tolerance. */
  predicate AllAbove(es: seq<Entry>)
  {
    forall i :: 0 <= i < |es| ==> es[i].amount >= Epsilon
  }

  // ---------------------------------------------------------------------
  // The greedy matcher as a function of the remaining lists.
  // ---------------------------------------------------------------------

  /**
   * The list after its head entry was paid down to `rest`: the head is
   * dropped once less than the tolerance remains, and kept with the
   * remainder otherwise.
   */
  function Advance(es: seq<Entry>, rest: real): seq<Entry>
    requires es != []
  {
    if rest < Epsilon then es[1..] else [Entry(es[0].address, rest)] + es[1..]
  }

  /**
   * The transfers of the matching loop from the current debtor `ds[0]` and
   * creditor `cs[0]` on, amounts unrounded. Each step pays one of the two
   * heads off completely, so one of the lists always shrinks.
   */
  function Greedy(ds: seq<Entry>, cs: seq<Entry>): seq<Transfer>
    decreases |ds| + |cs|
  {
    if ds == [] || cs == [] then []
    else
      var amount := Min(ds[0].amount, cs[0].amount);
      [Transfer(ds[0].address, cs[0].address, amount)]
        + Greedy(Advance(ds, ds[0].amount - amount), Advance(cs, cs[0].amount - amount))
  }

  /** The output of simplifyDebts: every amount rounded to cents. */
  function Rounded(ts: seq<Transfer>): seq<Transfer>
  {
    if ts == [] then [] else [Transfer(ts[0].from, ts[0].to, Round2(ts[0].amount))] + Rounded(ts[1..])
  }

  /** The settlement plan simplifyDebts computes for a ledger. */
  function Plan(b: Ledger): seq<Transfer>
  {
    Rounded(Greedy(Debtors(b.keys, b), Creditors(b.keys, b)))
  }

  /**
   * Termination bound: with d debtors and c creditors the loop makes at most
   * d + c - 1 transfers, and none at all when either list is empty.
   */
  lemma {:induction false} GreedyCount(ds: seq<Entry>, cs: seq<Entry>)
    ensures |Greedy(ds, cs)| == 0 <==> ds == [] || cs == []
    ensures ds != [] && cs != [] ==> |Greedy(ds, cs)| <= |ds| + |cs| - 1
    decreases |ds| + |cs|
  {
    if ds != [] && cs != [] {
      var amount := Min(ds[0].amount, cs[0].amount);
      GreedyCount(Advance(ds, ds[0].amount - amount), Advance(cs, cs[0].amount - amount));
    }
  }

  /** Every unrounded transfer moves at least the tolerance. */
  lemma {:induction false} GreedyAmounts(ds: seq<Entry>, cs: seq<Entry>)
    requires AllAbove(ds) && AllAbove(cs)
    ensures forall t :: t in Greedy(ds, cs) ==> t.amount >= Epsilon
    decreases |ds| + |cs|
  {
    if ds != [] && cs != [] {
      var amount := Min(ds[0].amount, cs[0].amount);
      var ds' := Advance(ds, ds[0].amount - amount);
      var cs' := Advance(cs, cs[0].amount - amount);
      AdvanceAbove(ds, ds[0].amount - amount);
      AdvanceAbove(cs, cs[0].amount - amount);
      GreedyAmounts(ds', cs');
      var head := Transfer(ds[0].address, cs[0].address, amount);
      assert amount >= Epsilon by {
        assert ds[0].amount >= Epsilon && cs[0].amount >= Epsilon;
      }
      GreedyStep(ds, cs, ds', cs');
      forall t | t in Greedy(ds, cs)
        ensures t.amount >= Epsilon
      {
        if t != head {
          assert t in Greedy(ds', cs');
        }
      }
    }
  }

  /** Paying down the head keeps every remaining entry at or above the tolerance. */
  lemma AdvanceAbove(es: seq<Entry>, rest: real)
    requires es != [] && AllAbove(es)
    ensures AllAbove(Advance(es, rest))
  {
  }

  /**
   * Matching order: the payers of successive transfers walk through the
   * debtors in list order, each one paying once or several times in a row,
   * and likewise the payees through the creditors.
   */
  lemma {:induction false} GreedyOrder(ds: seq<Entry>, cs: seq<Entry>)
    ensures Walks(Froms(Greedy(ds, cs)), Addresses(ds))
    ensures Walks(Tos(Greedy(ds, cs)), Addresses(cs))
    decreases |ds| + |cs|
  {
    if ds != [] && cs != [] {
      var amount := Min(ds[0].amount, cs[0].amount);
      var ds' := Advance(ds, ds[0].amount - amount);
      var cs' := Advance(cs, cs[0].amount - amount);
      GreedyOrder(ds', cs');
      PayersStep(ds, cs, ds', cs');
      PayeesStep(ds, cs, ds', cs');
    }
  }

  /** One step of the payers' walk: the head debtor pays, then the walk goes on from the paid-down list. */
  lemma PayersStep(ds: seq<Entry>, cs: seq<Entry>, ds': seq<Entry>, cs': seq<Entry>)
    requires ds != [] && cs != []
    requires ds' == Advance(ds, ds[0].amount - Min(ds[0].amount, cs[0].amount))
    requires cs' == Advance(cs, cs[0].amount - Min(ds[0].amount, cs[0].amount))
    requires Walks(Froms(Greedy(ds', cs')), Addresses(ds'))
    ensures Walks(Froms(Greedy(ds, cs)), Addresses(ds))
  {
    var t := Transfer(ds[0].address, cs[0].address, Min(ds[0].amount, cs[0].amount));
    GreedyStep(ds, cs, ds', cs');
    FromsTosCons(t, Greedy(ds', cs'));
    AdvanceAddresses(ds, ds[0].amount - Min(ds[0].amount, cs[0].amount));
    WalksCons(t.from, Froms(Greedy(ds', cs')), Addresses(ds));
  }

  /** One step of the payees' walk, likewise. */
  lemma PayeesStep(ds: seq<Entry>, cs: seq<Entry>, ds': seq<Entry>, cs': seq<Entry>)
    requires ds != [] && cs != []
    requires ds' == Advance(ds, ds[0].amount - Min(ds[0].amount, cs[0].amount))
    requires cs' == Advance(cs, cs[0].amount - Min(ds[0].amount, cs[0].amount))
    requires Walks(Tos(Greedy(ds', cs')), Addresses(cs'))
    ensures Walks(Tos(Greedy(ds, cs)), Addresses(cs))
  {
    var t := Transfer(ds[0].address, cs[0].address, Min(ds[0].amount, cs[0].amount));
    GreedyStep(ds, cs, ds', cs');
    FromsTosCons(t, Greedy(ds', cs'));
    AdvanceAddresses(cs, cs[0].amount - Min(ds[0].amount, cs[0].amount));
    WalksCons(t.to, Tos(Greedy(ds', cs')), Addresses(cs));
  }

  /** The head transfer of `Greedy`, and the lists it leaves behind. */
  lemma GreedyStep(ds: seq<Entry>, cs: seq<Entry>, ds': seq<Entry>, cs': seq<Entry>)
    requires ds != [] && cs != []
    requires ds' == Advance(ds, ds[0].amount - Min(ds[0].amount, cs[0].amount))
    requires cs' == Advance(cs, cs[0].amount - Min(ds[0].amount, cs[0].amount))
    ensures Greedy(ds, cs)
      == [Transfer(ds[0].address, cs[0].address, Min(ds[0].amount, cs[0].amount))] + Greedy(ds', cs')
  {
  }

  lemma FromsTosCons(t: Transfer, ts: seq<Transfer>)
    ensures Froms([t] + ts) == [t.from] + Froms(ts)
    ensures Tos([t] + ts) == [t.to] + Tos(ts)
  {
  }

  lemma WalksCons(x: string, xs: seq<string>, ys: seq<string>)
    requires ys != [] && x == ys[0]
    requires Walks(xs, ys) || Walks(xs, ys[1..])
    ensures Walks([x] + xs, ys)
  {
    assert ([x] + xs)[1..] == xs;
  }

  lemma AdvanceAddresses(es: seq<Entry>, rest: real)
    requires es != []
    ensures Addresses(Advance(es, rest)) == if rest < Epsilon then Addresses(es)[1..] else Addresses(es)
  {
  }

  function Froms(ts: seq<Transfer>): seq<string>
  {
    seq(|ts|, i requires 0 <= i < |ts| => ts[i].from)
  }

  function Tos(ts: seq<Transfer>): seq<string>
  {
    seq(|ts|, i requires 0 <= i < |ts| => ts[i].to)
  }

  /**
   * `xs` visits the elements of `ys` in order, staying on one for a while
   * before moving on to the next, and never going back.
   */
  predicate Walks(xs: seq<string>, ys: seq<string>)
    decreases |xs|
  {
    xs == []
    || (ys != [] && xs[0] == ys[0] && (Walks(xs[1..], ys) || Walks(xs[1..], ys[1..])))
  }

  /** Sum of the amounts of the entries of `a`. */
  function Due(es: seq<Entry>, a: string): real
  {
    if es == [] then 0.0 else (if es[0].address == a then es[0].amount else 0.0) + Due(es[1..], a)
  }

  /** Sum of what `a` pays in `ts`. */
  function Sent(ts: seq<Transfer>, a: string): real
  {
    if ts == [] then 0.0 else (if ts[0].from == a then ts[0].amount else 0.0) + Sent(ts[1..], a)
  }

  /** Sum of what `a` receives in `ts`. */
  function Received(ts: seq<Transfer>, a: string): real
  {
    if ts == [] then 0.0 else (if ts[0].to == a then ts[0].amount else 0.0) + Received(ts[1..], a)
  }

  /** Paying down the head to a non-negative remainder lowers what the head's address is due by the payment. */
  lemma AdvanceDue(es: seq<Entry>, rest: real, a: string)
    requires es != [] && rest >= 0.0
    ensures Due(Advance(es, rest), a) <= Due(es, a) - (if es[0].address == a then es[0].amount - rest else 0.0)
  {
    if rest >= Epsilon {
      assert ([Entry(es[0].address, rest)] + es[1..])[1..] == es[1..];
    }
  }

  /**
   * No overpayment: no debtor pays more than it owes, and no creditor
   * receives more than it is owed.
   */
  lemma {:induction false} GreedyNoOverpayment(ds: seq<Entry>, cs: seq<Entry>, a: string)
    requires AllAbove(ds) && AllAbove(cs)
    ensures Sent(Greedy(ds, cs), a) <= Due(ds, a)
    ensures Received(Greedy(ds, cs), a) <= Due(cs, a)
    decreases |ds| + |cs|
  {
    if ds == [] || cs == [] {
      DueNonNegative(ds, a);
      DueNonNegative(cs, a);
    } else {
      var amount := Min(ds[0].amount, cs[0].amount);
      var ds' := Advance(ds, ds[0].amount - amount);
      var cs' := Advance(cs, cs[0].amount - amount);
      assert AllAbove(ds') && AllAbove(cs');
      GreedyNoOverpayment(ds', cs', a);
      AdvanceDue(ds, ds[0].amount - amount, a);
      AdvanceDue(cs, cs[0].amount - amount, a);
      var g := Greedy(ds, cs);
      assert g[1..] == Greedy(ds', cs');
    }
  }

  lemma {:induction false} DueNonNegative(es: seq<Entry>, a: string)
    requires AllAbove(es)
    ensures Due(es, a) >= 0.0
  {
    if es != [] {
      DueNonNegative(es[1..], a);
    }
  }

  lemma {:induction false} DueAppend(xs: seq<Entry>, ys: seq<Entry>, a: string)
    ensures Due(xs + ys, a) == Due(xs, a) + Due(ys, a)
  {
    if xs == [] {
      assert xs + ys == ys;
    } else {
      assert (xs + ys)[1..] == xs[1..] + ys;
      DueAppend(xs[1..], ys, a);
    }
  }

  /** Over distinct keys, what a debtor is due is its debt, and any other address is due nothing. */
  lemma {:induction false} DebtorsDue(ks: seq<string>, b: Ledger, a: string)
    requires Distinct(ks)
    ensures Due(Debtors(ks, b), a) == if a in ks && Get0(b, a) < -Epsilon then -Get0(b, a) else 0.0
  {
    if ks != [] {
      var init, k := ks[..|ks| - 1], ks[|ks| - 1];
      assert ks == init + [k];
      DebtorsDue(init, b, a);
      var last := if Get0(b, k) < -Epsilon then [Entry(k, Abs(Get0(b, k)))] else [];
      DueAppend(Debtors(init, b), last, a);
      if last != [] {
        assert last[1..] == [];
      }
    }
  }

  /** Over distinct keys, what a creditor is due is its credit, and any other address is due nothing. */
  lemma {:induction false} CreditorsDue(ks: seq<string>, b: Ledger, a: string)
    requires Distinct(ks)
    ensures Due(Creditors(ks, b), a) == if a in ks && Get0(b, a) > Epsilon then Get0(b, a) else 0.0
  {
    if ks != [] {
      var init, k := ks[..|ks| - 1], ks[|ks| - 1];
      assert ks == init + [k];
      CreditorsDue(init, b, a);
      var last := if Get0(b, k) > Epsilon then [Entry(k, Get0(b, k))] else [];
      DueAppend(Creditors(init, b), last, a);
      if last != [] {
        assert last[1..] == [];
      }
    }
  }

  /**
   * No overpayment, in terms of the balances: before rounding, no address
   * sends more than its debt and none receives more than its credit; a
   * settled address neither sends nor receives.
   */
  lemma GreedyWithinBalance(b: Ledger, a: string)
    requires Valid(b)
    ensures var g := Greedy(Debtors(b.keys, b), Creditors(b.keys, b));
      Sent(g, a) <= (if Get0(b, a) < -Epsilon then -Get0(b, a) else 0.0)
      && Received(g, a) <= (if Get0(b, a) > Epsilon then Get0(b, a) else 0.0)
  {
    CreditorsAbove(b.keys, b);
    GreedyNoOverpayment(Debtors(b.keys, b), Creditors(b.keys, b), a);
    DebtorsDue(b.keys, b, a);
    CreditorsDue(b.keys, b, a);
  }

  /** Rounding keeps payer, payee and count, and every output amount is at least one cent. */
  lemma {:induction false} RoundedSpec(ts: seq<Transfer>)
    requires forall t :: t in ts ==> t.amount >= Epsilon
    ensures |Rounded(ts)| == |ts|
    ensures forall i :: 0 <= i < |ts| ==>
      Rounded(ts)[i].from == ts[i].from && Rounded(ts)[i].to == ts[i].to
      && Rounded(ts)[i].amount == Round2(ts[i].amount) >= Epsilon
  {
    if ts != [] {
      assert ts[0] in ts;
      Round2AtLeastCent(ts[0].amount);
      assert forall t :: t in ts[1..] ==> t in ts;
      RoundedSpec(ts[1..]);
    }
  }

  /**
   * simplifyDebts, as a whole: at most n - 1 transfers for n unsettled
   * addresses and none when nobody owes or nobody is owed; every transfer
   * is from a debtor to a creditor and moves at least one cent.
   */
  lemma PlanSpec(b: Ledger)
    ensures var n := |Debtors(b.keys, b)| + |Creditors(b.keys, b)|;
      |Plan(b)| <= if n == 0 then 0 else n - 1
    ensures Plan(b) == [] <==> Debtors(b.keys, b) == [] || Creditors(b.keys, b) == []
    ensures forall t :: t in Plan(b) ==>
      t.amount >= Epsilon
      && b.keys != [] && Get0(b, t.from) < -Epsilon && Get0(b, t.to) > Epsilon
  {
    var ds := Debtors(b.keys, b);
    var cs := Creditors(b.keys, b);
    var g := Greedy(ds, cs);
    GreedyCount(ds, cs);
    CreditorsAbove(b.keys, b);
    GreedyAmounts(ds, cs);
    RoundedSpec(g);
    GreedyParties(ds, cs);
    ClassifySpec(b.keys, b);
    forall t | t in Plan(b)
      ensures t.amount >= Epsilon && b.keys != [] && Get0(b, t.from) < -Epsilon && Get0(b, t.to) > Epsilon
    {
      var i :| 0 <= i < |Plan(b)| && Plan(b)[i] == t;
      assert g[i] in g;
    }
  }

  /** Every payer is a debtor and every payee a creditor. */
  lemma GreedyParties(ds: seq<Entry>, cs: seq<Entry>)
    ensures forall t :: t in Greedy(ds, cs) ==> t.from in Addresses(ds) && t.to in Addresses(cs)
  {
    var g := Greedy(ds, cs);
    GreedyOrder(ds, cs);
    WalksMember(Froms(g), Addresses(ds));
    WalksMember(Tos(g), Addresses(cs));
    forall t | t in g
      ensures t.from in Addresses(ds) && t.to in Addresses(cs)
    {
      var i :| 0 <= i < |g| && g[i] == t;
      assert Froms(g)[i] == t.from && Tos(g)[i] == t.to;
    }
  }

  /** A walk through `ys` only visits elements of `ys`. */
  lemma {:induction false} WalksMember(xs: seq<string>, ys: seq<string>)
    requires Walks(xs, ys)
    ensures forall x :: x in xs ==> x in ys
    decreases |xs|
  {
    if xs != [] {
      if Walks(xs[1..], ys) {
        WalksMember(xs[1..], ys);
      } else {
        WalksMember(xs[1..], ys[1..]);
        TailMembers(ys);
      }
      forall x | x in xs
        ensures x in ys
      {
        if x != xs[0] {
          var i :| 0 <= i < |xs| && xs[i] == x;
          assert xs[1..][i - 1] == x;
        }
      }
    }
  }

  lemma TailMembers(ys: seq<string>)
    requires ys != []
    ensures forall x :: x in ys[1..] ==> x in ys
  {
  }

  // ---------------------------------------------------------------------
  // The method.
  // ---------------------------------------------------------------------

  /** The remaining list after the head of `es[i..]` was paid down to `rest`. */
  lemma AdvanceSlice(es: seq<Entry>, i: nat, rest: real)
    requires i < |es|
    ensures Advance(es[i..], rest)
         == es[i := Entry(es[i].address, rest)][if rest < Epsilon then i + 1 else i..]
  {
  }

  /**
   * The first half of simplifyDebts: walk `Object.entries(balances)` in key
   * order, pushing each entry onto the creditors or the debtors or neither.
   */
  method Classify(balances: Ledger) returns (debtors: seq<Entry>, creditors: seq<Entry>)
    ensures debtors == Debtors(balances.keys, balances)
    ensures creditors == Creditors(balances.keys, balances)
  {
    creditors := [];
    debtors := [];
    for n := 0 to |balances.keys|
      invariant creditors == Creditors(balances.keys[..n], balances)
      invariant debtors == Debtors(balances.keys[..n], balances)
    {
      assert balances.keys[..n + 1][..n] == balances.keys[..n];
      var address := balances.keys[n];
      var amount := Get0(balances, address);
      if amount > Epsilon {
        creditors := creditors + [Entry(address, amount)];
      } else if amount < -Epsilon {
        debtors := debtors + [Entry(address, Abs(amount))];
      }
    }
    assert balances.keys[..|balances.keys|] == balances.keys;
  }

  /**
   * The second half of simplifyDebts: the two-index loop, decrementing the
   * remaining amounts in place and advancing past every entry that falls
   * below the tolerance.
   */
  method Match(debtors0: seq<Entry>, creditors0: seq<Entry>) returns (transactions: seq<Transfer>)
    ensures transactions == Rounded(Greedy(debtors0, creditors0))
  {
    var debtors := debtors0;
    var creditors := creditors0;
    transactions := [];
    var i: nat := 0;
    var j: nat := 0;
    ghost var goal := Greedy(debtors0, creditors0);
    ghost var exact: seq<Transfer> := [];
    while i < |debtors| && j < |creditors|
      invariant i <= |debtors| && j <= |creditors|
      invariant goal == exact + Greedy(debtors[i..], creditors[j..])
      invariant transactions == Rounded(exact)
      decreases |debtors| - i + |creditors| - j
    {
      var amount := Min(debtors[i].amount, creditors[j].amount);
      TurnKeepsPlan(goal, exact, debtors, i, creditors, j);
      RoundedSnoc(exact, Transfer(debtors[i].address, creditors[j].address, amount));
      exact := exact + [Transfer(debtors[i].address, creditors[j].address, amount)];
      transactions := transactions + [Transfer(debtors[i].address, creditors[j].address, Round2(amount))];
      debtors, i := PayDown(debtors, i, amount);
      creditors, j := PayDown(creditors, j, amount);
    }
    MatchDone(goal, exact, debtors[i..], creditors[j..]);
  }

  /** Rounding a list with one more transfer rounds that transfer at the end. */
  lemma {:induction false} RoundedSnoc(ts: seq<Transfer>, t: Transfer)
    ensures Rounded(ts + [t]) == Rounded(ts) + [Transfer(t.from, t.to, Round2(t.amount))]
  {
    if ts != [] {
      assert (ts + [t])[1..] == ts[1..] + [t];
      RoundedSnoc(ts[1..], t);
    }
  }

  /** `es[i]` with `paid` taken off its amount. */
  function Paid(es: seq<Entry>, i: nat, paid: real): (r: seq<Entry>)
    requires i < |es|
    ensures |r| == |es| && r[i].amount == es[i].amount - paid
  {
    es[i := Entry(es[i].address, es[i].amount - paid)]
  }

  /** The index after paying `es[i]` down: past it once under one cent. */
  function Next(es: seq<Entry>, i: nat, paid: real): (r: nat)
    requires i < |es|
    ensures i <= r <= i + 1 <= |es| + 1
    ensures r == i + 1 <==> es[i].amount - paid < Epsilon
  {
    if es[i].amount - paid < Epsilon then i + 1 else i
  }

  /** Paying the entry under the index down advances the list from the index on. */
  lemma PaidSlice(es: seq<Entry>, i: nat, paid: real)
    requires i < |es|
    ensures Next(es, i, paid) <= |Paid(es, i, paid)|
    ensures Paid(es, i, paid)[Next(es, i, paid)..] == Advance(es[i..], es[i].amount - paid)
  {
    AdvanceSlice(es, i, es[i].amount - paid);
  }

  /**
   * `es[i].amount -= paid; if (es[i].amount < 0.01) i++`: the entry under
   * the index is paid down and passed over once it is under one cent.
   */
  method PayDown(es: seq<Entry>, i: nat, paid: real) returns (es': seq<Entry>, i': nat)
    requires i < |es|
    ensures es' == Paid(es, i, paid) && i' == Next(es, i, paid)
  {
    es' := es[i := Entry(es[i].address, es[i].amount - paid)];
    i' := i;
    if es'[i].amount < Epsilon {
      i' := i + 1;
    }
  }

  /**
   * One turn of the loop, written on the arrays and their two indices,
   * keeps the transfers emitted so far a prefix of the plan.
   */
  lemma TurnKeepsPlan(goal: seq<Transfer>, done: seq<Transfer>,
                      debtors: seq<Entry>, i: nat, creditors: seq<Entry>, j: nat)
    requires i < |debtors| && j < |creditors|
    requires goal == done + Greedy(debtors[i..], creditors[j..])
    ensures var amount := Min(debtors[i].amount, creditors[j].amount);
            Next(debtors, i, amount) <= |debtors| && Next(creditors, j, amount) <= |creditors| &&
            goal == (done + [Transfer(debtors[i].address, creditors[j].address, amount)])
                    + Greedy(Paid(debtors, i, amount)[Next(debtors, i, amount)..],
                             Paid(creditors, j, amount)[Next(creditors, j, amount)..])
  {
    var amount := Min(debtors[i].amount, creditors[j].amount);
    var ds, cs := debtors[i..], creditors[j..];
    assert ds[0] == debtors[i] && cs[0] == creditors[j];
    PaidSlice(debtors, i, amount);
    PaidSlice(creditors, j, amount);
    MatchTurn(goal, done, ds, cs,
              Paid(debtors, i, amount)[Next(debtors, i, amount)..],
              Paid(creditors, j, amount)[Next(creditors, j, amount)..],
              Transfer(debtors[i].address, creditors[j].address, amount));
  }

  /** One turn of the loop keeps the transfers emitted so far a prefix of the plan. */
  lemma MatchTurn(goal: seq<Transfer>, done: seq<Transfer>, ds: seq<Entry>, cs: seq<Entry>,
                  ds': seq<Entry>, cs': seq<Entry>, t: Transfer)
    requires ds != [] && cs != []
    requires goal == done + Greedy(ds, cs)
    requires ds' == Advance(ds, ds[0].amount - Min(ds[0].amount, cs[0].amount))
    requires cs' == Advance(cs, cs[0].amount - Min(ds[0].amount, cs[0].amount))
    requires t == Transfer(ds[0].address, cs[0].address, Min(ds[0].amount, cs[0].amount))
    ensures goal == (done + [t]) + Greedy(ds', cs')
  {
    GreedyStep(ds, cs, ds', cs');
    AppendAssoc(done, [t], Greedy(ds', cs'));
  }

  /** When either list runs out the plan has been emitted in full. */
  lemma MatchDone(goal: seq<Transfer>, done: seq<Transfer>, ds: seq<Entry>, cs: seq<Entry>)
    requires ds == [] || cs == []
    requires goal == done + Greedy(ds, cs)
    ensures done == goal
  {
    assert done + [] == done;
  }

  /** simplifyDebts */
  method SimplifyDebts(balances: Ledger) returns (transactions: seq<Transfer>)
    ensures transactions == Plan(balances)
  {
    var debtors, creditors := Classify(balances);
    transactions := Match(debtors, creditors);
  }

  // ---------------------------------------------------------------------
  // Worked examples.
  // ---------------------------------------------------------------------

  /** A owed 60, B and C owing 30 each: B pays A 30, then C pays A 30. */
  lemma ThreeWaySettlement()
    ensures Plan(ThreeWayLedger()) == [Transfer("B", "A", 30.0), Transfer("C", "A", 30.0)]
  {
    ThreeWayClassified();
    var ds := [Entry("B", 30.0), Entry("C", 30.0)];
    var cs := [Entry("A", 60.0)];
    GreedyStep([Entry("C", 30.0)], [Entry("A", 30.0)], [], []);
    GreedyStep(ds, cs, [Entry("C", 30.0)], [Entry("A", 30.0)]);
    assert Greedy(ds, cs) == [Transfer("B", "A", 30.0), Transfer("C", "A", 30.0)];
    assert Round2(30.0) == 30.0 by {
      assert (30.0 * 100.0 + 0.5).Floor == 3000;
    }
  }

  function ThreeWayLedger(): Ledger
  {
    Ledger(["A", "B", "C"], map["A" := 60.0, "B" := -30.0, "C" := -30.0])
  }

  lemma ThreeWayClassified()
    ensures Debtors(ThreeWayLedger().keys, ThreeWayLedger()) == [Entry("B", 30.0), Entry("C", 30.0)]
    ensures Creditors(ThreeWayLedger().keys, ThreeWayLedger()) == [Entry("A", 60.0)]
  {
    var b := ThreeWayLedger();
    var ks := b.keys;
    assert ks[..2] == ["A", "B"] && ks[..2][..1] == ["A"] && ks[..2][..1][..0] == [];
    assert Get0(b, "A") == 60.0 && Get0(b, "B") == -30.0 && Get0(b, "C") == -30.0;
    assert Creditors(["A"], b) == [Entry("A", 60.0)];
    assert Creditors(["A", "B"], b) == [Entry("A", 60.0)];
    assert Debtors(["A"], b) == [];
    assert Debtors(["A", "B"], b) == [Entry("B", 30.0)];
  }

  /**
   * The settled band is not a guarantee about the outcome: two debtors each
   * keep a residue under the tolerance, and the last creditor, owed more
   * than the tolerance, receives nothing. The balances sum to zero.
   */
  lemma UnpaidCreditor()
    ensures var b := ResidueLedger();
      Plan(b) == [Transfer("A", "X", 0.99), Transfer("B", "Y", 0.99)]
      && Get0(b, "Z") > Epsilon && Received(Plan(b), "Z") == 0.0
      && Get0(b, "A") + Get0(b, "B") + Get0(b, "X") + Get0(b, "Y") + Get0(b, "Z") == 0.0
  {
    var b := ResidueLedger();
    ResidueClassified();
    var ds := [Entry("A", 1.0), Entry("B", 1.0)];
    var cs := [Entry("X", 0.992), Entry("Y", 0.992), Entry("Z", 0.016)];
    GreedyStep([Entry("B", 1.0)], [Entry("Y", 0.992), Entry("Z", 0.016)], [], [Entry("Z", 0.016)]);
    GreedyStep(ds, cs, [Entry("B", 1.0)], [Entry("Y", 0.992), Entry("Z", 0.016)]);
    assert Greedy(ds, cs) == [Transfer("A", "X", 0.992), Transfer("B", "Y", 0.992)];
    assert Round2(0.992) == 0.99 by {
      assert (0.992 * 100.0 + 0.5).Floor == 99;
    }
  }

  function ResidueLedger(): Ledger
  {
    Ledger(["A", "B", "X", "Y", "Z"],
      map["A" := -1.0, "B" := -1.0, "X" := 0.992, "Y" := 0.992, "Z" := 0.016])
  }

  lemma ResidueClassified()
    ensures Debtors(ResidueLedger().keys, ResidueLedger()) == [Entry("A", 1.0), Entry("B", 1.0)]
    ensures Creditors(ResidueLedger().keys, ResidueLedger())
         == [Entry("X", 0.992), Entry("Y", 0.992), Entry("Z", 0.016)]
  {
    var b := ResidueLedger();
    var ks := b.keys;
    assert ks[..4] == ["A", "B", "X", "Y"] && ks[..4][..3] == ["A", "B", "X"];
    assert ks[..4][..3][..2] == ["A", "B"] && ks[..4][..3][..2][..1] == ["A"];
    assert ["A"][..0] == [];
    assert Get0(b, "A") == -1.0 && Get0(b, "B") == -1.0 && Get0(b, "X") == 0.992;
    assert Get0(b, "Y") == 0.992 && Get0(b, "Z") == 0.016;
    assert Debtors(["A", "B"], b) == [Entry("A", 1.0), Entry("B", 1.0)];
    assert Debtors(["A", "B", "X", "Y"], b) == [Entry("A", 1.0), Entry("B", 1.0)];
    assert Creditors(["A", "B"], b) == [];
    assert Creditors(["A", "B", "X"], b) == [Entry("X", 0.992)];
    assert Creditors(["A", "B", "X", "Y"], b) == [Entry("X", 0.992), Entry("Y", 0.992)];
  }
}
