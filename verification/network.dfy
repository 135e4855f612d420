/** Chain adoption from peers (blockchain/network.py), on the node's own objects and proved
    against Syncing.Sync. Requests to peers are replaced by their answers, in peer order. */
module Networks {
  import opened Protocol
  import opened Ledgers
  import opened Pool
  import opened Syncing
  import opened Node

  class Network {
    /** _is_valid_chain. */
    method IsValidChain(chain: seq<Block>, rules: Blockchain) returns (ok: bool)
      ensures ok == ValidOffer(rules.p, chain)
    {
      if chain == [] || chain[0].data.previousHash != "0" {
        return false;
      }
      var candidate := new Blockchain.Offered(rules, chain);
      ok := candidate.IsChainValid(true);
    }

    /** The heights are what the offers reach, wherever Looked marks a position. */
    ghost predicate Judged(p: Params, l: Ledger, offers: seq<Offer>, reaches: seq<Option<int>>) {
      && |reaches| == |offers|
      && forall i {:trigger Looked(i)} :: 0 <= i < |offers| && Looked(i) ==> reaches[i] == Reaches(p, l, offers)[i]
    }

    predicate Looked(i: int) {
      true
    }

    /** The tests of one round of sync_chain's loop; Some is the offer's height. */
    method Improves(local: Blockchain, offers: seq<Offer>, i: nat, bestHeight: int, ghost reaches: seq<Option<int>>)
      returns (better: Option<int>)
      requires i < |offers| && Judged(local.p, local.L(), offers, reaches)
      ensures better == if Above(reaches[i], bestHeight) then reaches[i] else None
    {
      assert Looked(i);
      var offer := offers[i];
      if offer.None? || offer.value == [] {
        return None;
      }
      var peerHeight := offer.value[|offer.value| - 1].data.index;
      if peerHeight <= bestHeight {
        return None;
      }
      var valid := IsValidChain(offer.value, local);
      if !valid {
        return None;
      }
      if local.prunePoint.Some? {
        var matching := local.OfferedChainMatchesPrunePoint(offer.value);
        if !matching {
          return None;
        }
      }
      return Some(peerHeight);
    }

    /** The loop of sync_chain: which offer to switch to, if any. */
    method BestOffer(local: Blockchain, offers: seq<Offer>, height: int, ghost reaches: seq<Option<int>>)
      returns (best: Option<nat>)
      requires Judged(local.p, local.L(), offers, reaches)
      ensures best == Chosen(reaches, height, |offers|)
    {
      best := None;
      var bestHeight := height;
      var i := 0;
      while i < |offers|
        invariant 0 <= i <= |offers| && unchanged(local)
        invariant best == Chosen(reaches, height, i) && bestHeight == BestHeight(reaches, height, best)
      {
        var better := Improves(local, offers, i, bestHeight, reaches);
        if better.Some? {
          best, bestHeight := Some(i), better.value;
        }
        i := i + 1;
      }
    }

    /** sync_chain. */
    method SyncChain(local: Blockchain, offers: seq<Offer>) returns (adopted: bool)
      requires local.Maintained()
      modifies local
      ensures local.Maintained()
      ensures (local.L(), adopted) == Sync(local.p, old(local.L()), offers)
      ensures adopted ==> local.index == null && local.prunePoint == None
      ensures adopted ==>
                && local.chain != [] && Height(local.L()) > Height(old(local.L()))
                && Valid(local.p, local.L()) && PoolApplies(local.p, local.L())
      ensures !adopted ==> unchanged(local)
    {
      ghost var l := local.L();
      var best := BestOffer(local, offers, local.GetBlockHeight(), Reaches(local.p, l, offers));
      if best.None? {
        return false;
      }
      var chain := offers[best.value].value;
      AdoptedNode(local.p, l, chain);
      local.SwitchTo(chain);
      FilterPending(local);
      var pruned := local.PrunePendingTransactions(true);
      return true;
    }

    /** _filter_pending_after_chain_update, and the assignment of its result. */
    method FilterPending(local: Blockchain)
      requires local.Coherent() && local.index == null && ConfirmedBalances(local.p, local.L()).Some?
      modifies local`pending
      ensures local.Coherent()
      ensures var b := ConfirmedBalances(local.p, old(local.L())).value;
              local.L() == old(local.L()).(pending := Filter(b, old(local.pending), old(local.pending)))
    {
      ghost var b := ConfirmedBalances(local.p, local.L()).value;
      var all := local.pending;
      var retained := [];
      var i := 0;
      while i < |all|
        invariant 0 <= i <= |all|
        invariant unchanged(local)
        invariant retained + Filter(b, all, all[i..]) == Filter(b, all, all)
      {
        FilterStep(b, all, retained, i);
        var t := all[i];
        i := i + 1;
        if t.sender == SYSTEM {
          continue;
        }
        var spendable := local.HasSpendableBalance(t);
        if spendable == Some(true) {
          retained := retained + [t];
        }
      }
      local.pending := retained;
    }
  }
}
