/**
 * Balances per address, and the transfers that move them. One ledger holds lamports,
 * another the launch's tokens, aggregated per owner.
 */
module Ledgers {
  import opened Wrappers
  import opened Types

  type Ledger = map<Address, nat>

  datatype Payment = Payment(from: Address, to: Address, amount: nat)

  function Balance(l: Ledger, a: Address): nat {
    if a in l then l[a] else 0
  }

  /** Moves an amount, failing when the payer holds too little; a zero transfer does nothing. */
  function Transfer(l: Ledger, from: Address, to: Address, amount: nat): Result<Ledger, Error> {
    if amount == 0 then Success(l)
    else if Balance(l, from) < amount then Failure(InsufficientFunds)
    else
      var debited := l[from := Balance(l, from) - amount];
      Success(debited[to := Balance(debited, to) + amount])
  }

  function Deposit(l: Ledger, to: Address, amount: nat): Ledger {
    l[to := Balance(l, to) + amount]
  }

  /** Makes the payments in turn, failing with the first that fails. */
  function PayAll(l: Ledger, ps: seq<Payment>): Result<Ledger, Error>
    decreases ps
  {
    if ps == [] then Success(l)
    else
      var paid :- Transfer(l, ps[0].from, ps[0].to, ps[0].amount);
      PayAll(paid, ps[1..])
  }

  /** What a list of payments adds to, or takes from, one balance. */
  function Net(ps: seq<Payment>, a: Address): int {
    if ps == [] then 0
    else
      (if ps[0].to == a then ps[0].amount else 0)
      - (if ps[0].from == a then ps[0].amount else 0)
      + Net(ps[1..], a)
  }

  function Amount(ps: seq<Payment>): nat {
    if ps == [] then 0 else ps[0].amount + Amount(ps[1..])
  }

  lemma PayFirst(l: Ledger, p: Payment, ps: seq<Payment>)
    ensures Transfer(l, p.from, p.to, p.amount).Failure? ==> PayAll(l, [p] + ps).Failure?
    ensures Transfer(l, p.from, p.to, p.amount).Success? ==>
              PayAll(l, [p] + ps) == PayAll(Transfer(l, p.from, p.to, p.amount).value, ps)
  {
    assert ([p] + ps)[1..] == ps;
  }

  lemma {:induction false} PayLast(l: Ledger, ps: seq<Payment>, p: Payment)
    ensures PayAll(l, ps).Failure? ==> PayAll(l, ps + [p]).Failure?
    ensures PayAll(l, ps).Success? ==>
              PayAll(l, ps + [p]) == Transfer(PayAll(l, ps).value, p.from, p.to, p.amount)
    decreases ps
  {
    if ps == [] {
      assert ps + [p] == [p] + [];
      PayFirst(l, p, []);
    } else {
      assert (ps + [p])[1..] == ps[1..] + [p];
      if Transfer(l, ps[0].from, ps[0].to, ps[0].amount).Success? {
        PayLast(Transfer(l, ps[0].from, ps[0].to, ps[0].amount).value, ps[1..], p);
      }
    }
  }

  lemma {:induction false} PayAllBalances(l: Ledger, ps: seq<Payment>, a: Address)
    requires PayAll(l, ps).Success?
    ensures Balance(PayAll(l, ps).value, a) == Balance(l, a) + Net(ps, a)
    decreases ps
  {
    if ps != [] {
      var paid := Transfer(l, ps[0].from, ps[0].to, ps[0].amount).value;
      PayAllBalances(paid, ps[1..], a);
    }
  }

  /**
   * What one payer must hold to make the whole list in turn. A payment to himself needs its
   * amount at hand but does not use it up.
   */
  function Needed(ps: seq<Payment>, payer: Address): nat {
    if ps == [] then 0
    else
      var later := Needed(ps[1..], payer);
      if ps[0].to != payer then ps[0].amount + later
      else if later < ps[0].amount then ps[0].amount else later
  }

  /** One payer can make every payment of a list exactly when he holds what it needs. */
  lemma {:induction false} PayAllIff(l: Ledger, ps: seq<Payment>, payer: Address)
    requires forall i :: 0 <= i < |ps| ==> ps[i].from == payer
    ensures PayAll(l, ps).Success? <==> Needed(ps, payer) <= Balance(l, payer)
    decreases ps
  {
    if ps != [] && ps[0].amount <= Balance(l, payer) {
      PayAllIff(Transfer(l, payer, ps[0].to, ps[0].amount).value, ps[1..], payer);
    }
  }

  /** The whole amount is always enough, and is needed by a payer who is none of the recipients. */
  lemma {:induction false} NeededIsAmount(ps: seq<Payment>, payer: Address)
    ensures Needed(ps, payer) <= Amount(ps)
    ensures (forall i :: 0 <= i < |ps| ==> ps[i].to != payer) ==> Needed(ps, payer) == Amount(ps)
  {
    if ps != [] {
      NeededIsAmount(ps[1..], payer);
    }
  }

  /** One payer with enough for the whole list can make every payment in it. */
  lemma PayAllSolvent(l: Ledger, ps: seq<Payment>, payer: Address)
    requires forall i :: 0 <= i < |ps| ==> ps[i].from == payer
    requires Balance(l, payer) >= Amount(ps)
    ensures PayAll(l, ps).Success?
  {
    PayAllIff(l, ps, payer);
    NeededIsAmount(ps, payer);
  }

  lemma AmountOfFour(ps: seq<Payment>)
    requires |ps| == 4
    ensures Amount(ps) == ps[0].amount + ps[1].amount + ps[2].amount + ps[3].amount
  {
    var a, b, c := ps[1..], ps[2..], ps[3..];
    assert a[1..] == b && b[1..] == c && c[1..] == [];
    assert Amount(c) == ps[3].amount;
    assert Amount(b) == ps[2].amount + Amount(c);
    assert Amount(a) == ps[1].amount + Amount(b);
  }

  function Max(a: nat, b: nat): nat {
    if a < b then b else a
  }

  lemma NeededOfFour(ps: seq<Payment>, payer: Address)
    requires |ps| == 4 && ps[0].to != payer
    ensures Needed(ps, payer) >= ps[0].amount
    ensures ps[1].to == ps[2].to == ps[3].to == payer ==>
              Needed(ps, payer) == ps[0].amount + Max(ps[1].amount, Max(ps[2].amount, ps[3].amount))
  {
    var a, b, c := ps[1..], ps[2..], ps[3..];
    assert a[1..] == b && b[1..] == c && c[1..] == [];
    if ps[1].to == ps[2].to == ps[3].to == payer {
      assert Needed(c, payer) == ps[3].amount;
      assert Needed(b, payer) == Max(ps[2].amount, Needed(c, payer));
      assert Needed(a, payer) == Max(ps[1].amount, Needed(b, payer));
    }
  }

  /** Transfers fail for want of funds only. */
  lemma {:induction false} PayAllFailure(l: Ledger, ps: seq<Payment>)
    ensures PayAll(l, ps).Failure? ==> PayAll(l, ps).error == InsufficientFunds
    decreases ps
  {
    if ps != [] && Transfer(l, ps[0].from, ps[0].to, ps[0].amount).Success? {
      PayAllFailure(Transfer(l, ps[0].from, ps[0].to, ps[0].amount).value, ps[1..]);
    }
  }

  // ---------- totals ----------

  /** The sum of all balances. */
  ghost function Total(l: Ledger): nat {
    if l.Keys == {} then 0
    else
      var a :| a in l.Keys;
      l[a] + Total(l - {a})
  }

  lemma {:induction false} TotalWithout(l: Ledger, a: Address)
    requires a in l
    ensures Total(l) == l[a] + Total(l - {a})
    decreases l.Keys
  {
    var b :| b in l.Keys && Total(l) == l[b] + Total(l - {b});
    if a != b {
      var without := l - {b};
      assert without[a] == l[a];
      TotalWithout(without, a);
      TotalWithout(l - {a}, b);
      assert without - {a} == l - {a} - {b};
    }
  }

  lemma TotalUpdate(l: Ledger, a: Address, n: nat)
    ensures Total(l[a := n]) == Total(l) - Balance(l, a) + n
  {
    TotalWithout(l[a := n], a);
    assert l[a := n] - {a} == l - {a};
    if a in l {
      TotalWithout(l, a);
    } else {
      assert l - {a} == l;
    }
  }

  lemma TwoBalancesWithinTotal(l: Ledger, a: Address, b: Address)
    requires a != b
    ensures Balance(l, a) + Balance(l, b) <= Total(l)
  {
    TotalUpdate(l, a, 0);
    TotalUpdate(l[a := 0], b, 0);
  }

  lemma TransferKeepsTotal(l: Ledger, from: Address, to: Address, amount: nat)
    requires Transfer(l, from, to, amount).Success?
    ensures Total(Transfer(l, from, to, amount).value) == Total(l)
  {
    if amount > 0 {
      var debited := l[from := Balance(l, from) - amount];
      TotalUpdate(l, from, Balance(l, from) - amount);
      TotalUpdate(debited, to, Balance(debited, to) + amount);
    }
  }

  /** No list of payments creates or destroys anything, whoever coincides with whom. */
  lemma {:induction false} PayAllKeepsTotal(l: Ledger, ps: seq<Payment>)
    requires PayAll(l, ps).Success?
    ensures Total(PayAll(l, ps).value) == Total(l)
    decreases ps
  {
    if ps != [] {
      var paid := Transfer(l, ps[0].from, ps[0].to, ps[0].amount).value;
      TransferKeepsTotal(l, ps[0].from, ps[0].to, ps[0].amount);
      PayAllKeepsTotal(paid, ps[1..]);
    }
  }
}
