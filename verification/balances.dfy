/** The two ways the node turns transactions into balances: the checked ledger rule of
    _apply_transactions_to_balances, and the unchecked index rule used by the read index
    and by prune snapshots. */
module Balances {
  import opened Protocol

  function Get(b: Accounts, a: Address): int {
    if a in b then b[a] else 0
  }

  /** One transaction under the ledger rule; None is a rejection. */
  function ApplyTx(p: Params, b: Accounts, t: Tx): Option<Accounts> {
    if !Verifies(p, t) then None
    else if IsSystem(t.sender) then Some(b[t.receiver := Get(b, t.receiver) + t.amount])
    else if Get(b, t.sender) < t.amount then None
    else
      var debited := b[t.sender := Get(b, t.sender) - t.amount];
      Some(debited[t.receiver := Get(debited, t.receiver) + t.amount])
  }

  function ApplyTxs(p: Params, b: Accounts, ts: seq<Tx>): Option<Accounts>
    decreases |ts|
  {
    if ts == [] then Some(b)
    else match ApplyTx(p, b, ts[0])
      case None => None
      case Some(b') => ApplyTxs(p, b', ts[1..])
  }

  /** One transaction under the index rule: only SYSTEM is spared the debit. */
  function SettleTx(b: Accounts, t: Tx): Accounts {
    var debited := if t.sender == SYSTEM then b else b[t.sender := Get(b, t.sender) - t.amount];
    debited[t.receiver := Get(debited, t.receiver) + t.amount]
  }

  function Settle(b: Accounts, ts: seq<Tx>): Accounts
    decreases |ts|
  {
    if ts == [] then b else Settle(SettleTx(b, ts[0]), ts[1..])
  }

  function IssuedBy(t: Tx): int {
    if t.sender == SYSTEM then t.amount else 0
  }

  /** Total minted by SYSTEM. */
  function Issued(ts: seq<Tx>): int {
    if ts == [] then 0 else IssuedBy(ts[0]) + Issued(ts[1..])
  }

  /** All transactions of a chain, in block order. */
  function Txs(chain: seq<Block>): seq<Tx> {
    if chain == [] then [] else chain[0].data.transactions + Txs(chain[1..])
  }

  /** The canonical form of a snapshot: addresses with a balance. */
  function NonZero(b: Accounts): Accounts {
    map a | a in b && b[a] != 0 :: b[a]
  }

  // ---------------------------------------------------------------- folding

  lemma {:induction false} ApplyTxsConcat(p: Params, b: Accounts, xs: seq<Tx>, ys: seq<Tx>)
    ensures ApplyTxs(p, b, xs + ys) ==
            match ApplyTxs(p, b, xs) case None => None case Some(b') => ApplyTxs(p, b', ys)
    decreases |xs|
  {
    if xs == [] {
      assert xs + ys == ys;
    } else {
      assert (xs + ys)[1..] == xs[1..] + ys;
      match ApplyTx(p, b, xs[0])
      case None =>
      case Some(b') => ApplyTxsConcat(p, b', xs[1..], ys);
    }
  }

  lemma {:induction false} SettleConcat(b: Accounts, xs: seq<Tx>, ys: seq<Tx>)
    ensures Settle(b, xs + ys) == Settle(Settle(b, xs), ys)
    decreases |xs|
  {
    if xs == [] {
      assert xs + ys == ys;
    } else {
      assert (xs + ys)[1..] == xs[1..] + ys;
      SettleConcat(SettleTx(b, xs[0]), xs[1..], ys);
    }
  }

  lemma {:induction false} IssuedConcat(xs: seq<Tx>, ys: seq<Tx>)
    ensures Issued(xs + ys) == Issued(xs) + Issued(ys)
  {
    if xs == [] {
      assert xs + ys == ys;
    } else {
      assert (xs + ys)[1..] == xs[1..] + ys;
      IssuedConcat(xs[1..], ys);
    }
  }

  lemma {:induction false} TxsConcat(xs: seq<Block>, ys: seq<Block>)
    ensures Txs(xs + ys) == Txs(xs) + Txs(ys)
  {
    if xs == [] {
      assert xs + ys == ys;
    } else {
      assert (xs + ys)[1..] == xs[1..] + ys;
      TxsConcat(xs[1..], ys);
    }
  }

  lemma {:induction false} TxsAppend(chain: seq<Block>, b: Block)
    ensures Txs(chain + [b]) == Txs(chain) + b.data.transactions
  {
    TxsConcat(chain, [b]);
    assert Txs([b]) == b.data.transactions + Txs([b][1..]);
  }

  lemma {:induction false} IssuedNonNegative(ts: seq<Tx>)
    ensures Issued(ts) >= 0
  {
    if ts != [] {
      IssuedNonNegative(ts[1..]);
    }
  }

  // ------------------------------------------- agreement of the two rules

  /** Equal for everyone the ledger rule checks. */
  ghost predicate Agree(b: Accounts, c: Accounts) {
    forall a :: !IsSystem(a) ==> Get(b, a) == Get(c, a)
  }

  ghost predicate SameBalances(b: Accounts, c: Accounts) {
    forall a :: Get(b, a) == Get(c, a)
  }

  lemma ApplyTxAgree(p: Params, b: Accounts, c: Accounts, t: Tx)
    requires Agree(b, c)
    ensures ApplyTx(p, b, t).Some? == ApplyTx(p, c, t).Some?
    ensures ApplyTx(p, b, t).Some? ==>
              && Agree(ApplyTx(p, b, t).value, ApplyTx(p, c, t).value)
              && Agree(ApplyTx(p, b, t).value, SettleTx(c, t))
  {}

  /** The ledger rule cannot tell apart balances that agree outside SYSTEM_ADDRESSES,
      and where it accepts, the index rule computes agreeing balances. */
  lemma {:induction false} ApplyTxsAgree(p: Params, b: Accounts, c: Accounts, ts: seq<Tx>)
    requires Agree(b, c)
    ensures ApplyTxs(p, b, ts).Some? == ApplyTxs(p, c, ts).Some?
    ensures ApplyTxs(p, b, ts).Some? ==>
              && Agree(ApplyTxs(p, b, ts).value, ApplyTxs(p, c, ts).value)
              && Agree(ApplyTxs(p, b, ts).value, Settle(c, ts))
    decreases |ts|
  {
    if ts != [] {
      ApplyTxAgree(p, b, c, ts[0]);
      match ApplyTx(p, b, ts[0])
      case None =>
      case Some(b') =>
        ApplyTxsAgree(p, b', ApplyTx(p, c, ts[0]).value, ts[1..]);
        ApplyTxsAgree(p, b', SettleTx(c, ts[0]), ts[1..]);
    }
  }

  lemma SettleTxSame(b: Accounts, c: Accounts, t: Tx)
    requires SameBalances(b, c)
    ensures SameBalances(SettleTx(b, t), SettleTx(c, t))
  {
    forall a
      ensures Get(SettleTx(b, t), a) == Get(SettleTx(c, t), a)
    {
      assert Get(b, t.sender) == Get(c, t.sender) && Get(b, t.receiver) == Get(c, t.receiver) && Get(b, a) == Get(c, a);
    }
  }

  lemma {:induction false} SettleSame(b: Accounts, c: Accounts, ts: seq<Tx>)
    requires SameBalances(b, c)
    ensures SameBalances(Settle(b, ts), Settle(c, ts))
    decreases |ts|
  {
    if ts != [] {
      SettleTxSame(b, c, ts[0]);
      SettleSame(SettleTx(b, ts[0]), SettleTx(c, ts[0]), ts[1..]);
    }
  }

  lemma NonZeroSame(b: Accounts)
    ensures SameBalances(NonZero(b), b)
  {}

  /** Dropping zero balances makes a snapshot canonical. */
  lemma NonZeroCanonical(b: Accounts, c: Accounts)
    requires SameBalances(b, c)
    ensures NonZero(b) == NonZero(c)
  {
    forall a
      ensures a in NonZero(b) <==> a in NonZero(c)
      ensures a in NonZero(b) ==> NonZero(b)[a] == NonZero(c)[a]
    {
      assert Get(b, a) == Get(c, a);
    }
  }

  // ------------------------------------------------------- no overdrafts

  ghost predicate NoOverdraft(b: Accounts) {
    forall a :: !IsSystem(a) ==> Get(b, a) >= 0
  }

  /** The ledger rule never leaves an address outside SYSTEM_ADDRESSES overdrawn. */
  lemma {:induction false} ApplyTxsNoOverdraft(p: Params, b: Accounts, ts: seq<Tx>)
    requires NoOverdraft(b) && ApplyTxs(p, b, ts).Some?
    ensures NoOverdraft(ApplyTxs(p, b, ts).value)
    decreases |ts|
  {
    if ts != [] {
      var b' := ApplyTx(p, b, ts[0]).value;
      assert NoOverdraft(b');
      ApplyTxsNoOverdraft(p, b', ts[1..]);
    }
  }

  // --------------------------------------------------------- conservation

  /** The sum of all balances in the map. */
  ghost function Total(b: Accounts): int
    decreases |b.Keys|
  {
    if b.Keys == {} then 0
    else
      var a :| a in b.Keys;
      b[a] + Total(b - {a})
  }

  /** The total does not depend on the order addresses are visited in. */
  lemma {:induction false} TotalRemove(b: Accounts, a: Address)
    requires a in b
    ensures Total(b) == b[a] + Total(b - {a})
    decreases |b.Keys|
  {
    var x :| x in b.Keys && Total(b) == b[x] + Total(b - {x});
    if x != a {
      var bx, ba := b - {x}, b - {a};
      assert bx.Keys == b.Keys - {x} && ba.Keys == b.Keys - {a};
      TotalRemove(bx, a);
      TotalRemove(ba, x);
      assert bx - {a} == ba - {x};
    }
  }

  lemma TotalUpdate(b: Accounts, a: Address, v: int)
    ensures Total(b[a := v]) == Total(b) - Get(b, a) + v
  {
    var c := b[a := v];
    TotalRemove(c, a);
    if a in b {
      TotalRemove(b, a);
      assert c - {a} == b - {a};
    } else {
      assert c - {a} == b;
    }
  }

  lemma {:induction false} SettleTxTotal(b: Accounts, t: Tx)
    ensures Total(SettleTx(b, t)) == Total(b) + IssuedBy(t)
  {
    var debited := if t.sender == SYSTEM then b else b[t.sender := Get(b, t.sender) - t.amount];
    if t.sender != SYSTEM {
      TotalUpdate(b, t.sender, Get(b, t.sender) - t.amount);
    }
    TotalUpdate(debited, t.receiver, Get(debited, t.receiver) + t.amount);
  }

  /** Under the index rule money is only created by SYSTEM. */
  lemma {:induction false} SettleTotal(b: Accounts, ts: seq<Tx>)
    ensures Total(Settle(b, ts)) == Total(b) + Issued(ts)
    decreases |ts|
  {
    if ts != [] {
      SettleTxTotal(b, ts[0]);
      SettleTotal(SettleTx(b, ts[0]), ts[1..]);
    }
  }

  lemma NonZeroRemove(b: Accounts, a: Address)
    requires a in b
    ensures b[a] == 0 ==> NonZero(b) == NonZero(b - {a})
    ensures b[a] != 0 ==> a in NonZero(b) && NonZero(b) - {a} == NonZero(b - {a})
  {}

  /** Dropping zero balances drops no money. */
  lemma {:induction false} NonZeroTotal(b: Accounts)
    ensures Total(NonZero(b)) == Total(b)
    decreases |b.Keys|
  {
    if b.Keys == {} {
      assert NonZero(b) == b;
    } else {
      var a :| a in b.Keys;
      assert (b - {a}).Keys == b.Keys - {a};
      TotalRemove(b, a);
      NonZeroTotal(b - {a});
      NonZeroRemove(b, a);
      if b[a] != 0 {
        TotalRemove(NonZero(b), a);
      }
    }
  }
}
