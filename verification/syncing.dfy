/** Chain adoption as a function of the offers received (blockchain/network.py, sync_chain):
    which offer is chosen, what the node becomes, and who accepts whose chain. */
module Syncing {
  import opened Protocol
  import opened Balances
  import opened Ledgers
  import opened Pruning
  import opened Reconciliation
  import opened Pool
  import opened Admission

  /** What a peer answered: nothing usable, or a chain. */
  type Offer = Option<seq<Block>>

  function TopIndex(chain: seq<Block>): int
    requires chain != []
  {
    chain[|chain| - 1].data.index
  }

  /** _is_valid_chain: rooted in "0" and valid in full, spacing included, without a prune point. */
  predicate ValidOffer(p: Params, chain: seq<Block>) {
    chain != [] && chain[0].data.previousHash == GENESIS_MARKER && ChainValid(p, chain, None, true)
  }

  /** An offer the node may adopt, heights aside. */
  predicate Adoptable(p: Params, l: Ledger, offer: Offer) {
    offer.Some? && offer.value != [] && ValidOffer(p, offer.value) && OfferedMatches(p, l, offer.value)
  }

  predicate Eligible(p: Params, l: Ledger, offer: Offer) {
    Adoptable(p, l, offer) && TopIndex(offer.value) > Height(l)
  }

  /** The height each offer could bring the node to; None for offers it may not adopt. */
  function Reaches(p: Params, l: Ledger, offers: seq<Offer>): (r: seq<Option<int>>)
    ensures |r| == |offers|
    ensures forall i :: 0 <= i < |r| ==>
              r[i] == if Adoptable(p, l, offers[i]) then Some(TopIndex(offers[i].value)) else None
  {
    seq(|offers|, i requires 0 <= i < |offers| =>
          if Adoptable(p, l, offers[i]) then Some(TopIndex(offers[i].value)) else None)
  }

  predicate Above(reach: Option<int>, height: int) {
    reach.Some? && reach.value > height
  }

  /** The first of the highest of the first n, all heights taken above a floor. */
  predicate FirstHighest(reaches: seq<Option<int>>, floor: int, n: nat, k: nat)
    requires n <= |reaches|
  {
    && k < n && Above(reaches[k], floor)
    && (forall i :: 0 <= i < n && Above(reaches[i], floor) ==> reaches[i].value <= reaches[k].value)
    && (forall i :: 0 <= i < k && Above(reaches[i], floor) ==> reaches[i].value < reaches[k].value)
  }

  predicate NoneAbove(reaches: seq<Option<int>>, floor: int, n: nat)
    requires n <= |reaches|
  {
    forall i :: 0 <= i < n ==> !Above(reaches[i], floor)
  }

  /** What sync_chain's loop has settled on after n offers. */
  function Chosen(reaches: seq<Option<int>>, floor: int, n: nat): (r: Option<nat>)
    requires n <= |reaches|
    ensures r.Some? ==> r.value < n && Above(reaches[r.value], floor)
  {
    if n == 0 then None
    else
      var before := Chosen(reaches, floor, n - 1);
      if Above(reaches[n - 1], BestHeight(reaches, floor, before)) then Some(n - 1) else before
  }

  function BestHeight(reaches: seq<Option<int>>, floor: int, k: Option<nat>): (r: int)
    requires k.Some? ==> k.value < |reaches| && Above(reaches[k.value], floor)
    ensures r >= floor
  {
    if k.None? then floor else reaches[k.value].value
  }

  /** The loop settles on the first of the highest offers, if any is above the node. */
  lemma {:induction false} ChosenIsFirstHighest(reaches: seq<Option<int>>, floor: int, n: nat)
    requires n <= |reaches|
    ensures match Chosen(reaches, floor, n)
            case Some(k) => FirstHighest(reaches, floor, n, k)
            case None => NoneAbove(reaches, floor, n)
  {
    if n > 0 {
      ChosenIsFirstHighest(reaches, floor, n - 1);
    }
  }

  function ChosenOffer(p: Params, l: Ledger, offers: seq<Offer>): (r: Option<nat>)
    ensures r.Some? ==> r.value < |offers| && Eligible(p, l, offers[r.value])
  {
    Chosen(Reaches(p, l, offers), Height(l), |offers|)
  }

  lemma EligibleIsAbove(p: Params, l: Ledger, offers: seq<Offer>, i: nat)
    requires i < |offers|
    ensures Eligible(p, l, offers[i]) <==> Above(Reaches(p, l, offers)[i], Height(l))
    ensures Eligible(p, l, offers[i]) ==> Reaches(p, l, offers)[i].value == TopIndex(offers[i].value)
  {}

  /** In terms of the offers: the first of the highest eligible ones is chosen. */
  lemma ChosenOfferIsFirstHighest(p: Params, l: Ledger, offers: seq<Offer>)
    ensures match ChosenOffer(p, l, offers)
            case Some(k) =>
              && (forall i :: 0 <= i < |offers| && Eligible(p, l, offers[i]) ==>
                  TopIndex(offers[i].value) <= TopIndex(offers[k].value))
              && (forall i :: 0 <= i < k && Eligible(p, l, offers[i]) ==>
                  TopIndex(offers[i].value) < TopIndex(offers[k].value))
            case None => forall i :: 0 <= i < |offers| ==> !Eligible(p, l, offers[i])
  {
    var reaches := Reaches(p, l, offers);
    ChosenIsFirstHighest(reaches, Height(l), |offers|);
    forall i | 0 <= i < |offers| && Eligible(p, l, offers[i])
      ensures Above(reaches[i], Height(l)) && reaches[i].value == TopIndex(offers[i].value)
    {
      EligibleIsAbove(p, l, offers, i);
    }
  }

  // --------------------------------------------------------------- the pool

  /** The spendability test that _filter_pending_after_chain_update applies. */
  predicate Spendable(b: Accounts, pending: seq<Tx>, t: Tx) {
    IsSystem(t.sender) || Get(b, t.sender) - PendingSpend(pending, t.sender) >= t.amount
  }

  /** _filter_pending_after_chain_update from this pool; `all` is the pool every test sees. */
  function Filter(b: Accounts, all: seq<Tx>, pending: seq<Tx>): seq<Tx> {
    if pending == [] then []
    else
      var kept := if pending[0].sender != SYSTEM && Spendable(b, all, pending[0]) then [pending[0]] else [];
      kept + Filter(b, all, pending[1..])
  }

  /** The filter keeps exactly the spendable transactions that are not rewards. */
  lemma {:induction false} FilterKeepsExactly(b: Accounts, all: seq<Tx>, pending: seq<Tx>)
    ensures forall t :: t in Filter(b, all, pending) <==> t in pending && t.sender != SYSTEM && Spendable(b, all, t)
  {
    if pending != [] {
      FilterKeepsExactly(b, all, pending[1..]);
      assert forall t :: t in pending <==> t == pending[0] || t in pending[1..];
    }
  }

  lemma {:induction false} FilterStep(b: Accounts, all: seq<Tx>, kept: seq<Tx>, i: nat)
    requires i < |all|
    ensures var keep := all[i].sender != SYSTEM && Spendable(b, all, all[i]);
            kept + Filter(b, all, all[i..]) == (if keep then kept + [all[i]] else kept) + Filter(b, all, all[i + 1..])
  {}

  /** The node right after it has switched to a valid chain. */
  function Switched(l: Ledger, chain: seq<Block>): Ledger {
    l.(chain := chain, prunePoint := None)
  }

  function Adopt(p: Params, l: Ledger, chain: seq<Block>): Ledger
    requires ConfirmedBalances(p, Switched(l, chain)).Some?
  {
    var balances := ConfirmedBalances(p, Switched(l, chain)).value;
    var pool := Filter(balances, l.pending, l.pending);
    PrunePending(p, Switched(l, chain).(pending := pool), true).value
  }

  lemma ValidOfferConfirms(p: Params, l: Ledger, chain: seq<Block>)
    requires ValidOffer(p, chain)
    ensures ConfirmedBalances(p, Switched(l, chain)).Some? && Valid(p, Switched(l, chain))
  {
    SpacingIsStronger(p, chain, None);
  }

  /** sync_chain. */
  function Sync(p: Params, l: Ledger, offers: seq<Offer>): (Ledger, bool) {
    var k := ChosenOffer(p, l, offers);
    if k.None? then (l, false)
    else
      ValidOfferConfirms(p, l, offers[k.value].value);
      (Adopt(p, l, offers[k.value].value), true)
  }

  /** Adoption leaves a valid full node, whose pool applies in order to the new balances and
      holds only old, not yet confirmed, non-reward transactions. */
  lemma {:induction false} AdoptedNode(p: Params, l: Ledger, chain: seq<Block>)
    requires ValidOffer(p, chain)
    ensures ConfirmedBalances(p, Switched(l, chain)).Some?
    ensures var l' := Adopt(p, l, chain);
            && l' == l.(chain := chain, prunePoint := None, pending := l'.pending)
            && Valid(p, l') && PoolApplies(p, l')
            && forall t :: t in l'.pending ==>
                 t in l.pending && t.sender != SYSTEM && IdentityOf(t) !in Identities(Txs(chain))
  {
    ValidOfferConfirms(p, l, chain);
    var balances := ConfirmedBalances(p, Switched(l, chain)).value;
    FilterKeepsExactly(balances, l.pending, l.pending);
    PrunePendingSound(p, Switched(l, chain).(pending := Filter(balances, l.pending, l.pending)), true);
  }

  lemma {:induction false} FilterLength(b: Accounts, all: seq<Tx>, pending: seq<Tx>)
    ensures |Filter(b, all, pending)| <= |pending|
  {
    if pending != [] {
      FilterLength(b, all, pending[1..]);
    }
  }

  /** The filter drops nothing exactly when every transaction passes its test. */
  lemma {:induction false} FilterAll(b: Accounts, all: seq<Tx>, pending: seq<Tx>)
    ensures Filter(b, all, pending) == pending <==>
              forall t :: t in pending ==> t.sender != SYSTEM && Spendable(b, all, t)
  {
    if pending != [] {
      var first, rest := pending[0], pending[1..];
      assert forall t :: t in pending <==> t == first || t in rest;
      FilterAll(b, all, rest);
      if first.sender != SYSTEM && Spendable(b, all, first) {
        assert ([first] + Filter(b, all, rest))[1..] == Filter(b, all, rest);
      } else {
        FilterLength(b, all, rest);
      }
    }
  }

  lemma {:induction false} FullLengthFilter(b: Accounts, all: seq<Tx>, pending: seq<Tx>)
    requires |Filter(b, all, pending)| == |pending|
    ensures Filter(b, all, pending) == pending
  {
    if pending != [] {
      FilterLength(b, all, pending[1..]);
      FullLengthFilter(b, all, pending[1..]);
    }
  }

  /** A transaction that the filter keeps: no reward, and its sender could pay all it sends in the pool
      and this once more, for the filter counts each transaction against itself. */
  predicate Keepable(b: Accounts, all: seq<Tx>, t: Tx) {
    t.sender != "SYSTEM" && (t.sender == "LENDING_POOL" || Get(b, t.sender) >= Sent(all, t.sender) + t.amount)
  }

  lemma FilterKeepsAll(b: Accounts, all: seq<Tx>)
    ensures Filter(b, all, all) == all <==> forall t :: t in all ==> Keepable(b, all, t)
  {
    FilterAll(b, all, all);
    forall t ensures Keepable(b, all, t) <==> t.sender != SYSTEM && Spendable(b, all, t) {
      PendingSpendIsSent(all, t.sender);
    }
  }

  /** Both passes together keep everything exactly when each does. */
  lemma BothKeepAll(p: Params, b: Accounts, confirmed: set<Identity>, all: seq<Tx>)
    ensures Retain(p, b, confirmed, true, Filter(b, all, all)) == all <==>
              Filter(b, all, all) == all && Retain(p, b, confirmed, true, all) == all
  {
    RetainLength(p, b, confirmed, true, Filter(b, all, all));
    FilterLength(b, all, all);
    if Retain(p, b, confirmed, true, Filter(b, all, all)) == all {
      FullLengthFilter(b, all, all);
    }
  }

  /** Adoption keeps the whole pool exactly when it applies to the new balances and each transaction
      passes the filter and is not confirmed by the new chain. */
  lemma AdoptionKeepsPoolExactly(p: Params, l: Ledger, chain: seq<Block>)
    requires ValidOffer(p, chain)
    ensures ConfirmedBalances(p, Switched(l, chain)).Some?
    ensures var b := ConfirmedBalances(p, Switched(l, chain)).value;
            Adopt(p, l, chain).pending == l.pending <==>
            && ApplyTxs(p, b, l.pending).Some?
            && forall t :: t in l.pending ==> Keepable(b, l.pending, t) && IdentityOf(t) !in Identities(Txs(chain))
  {
    ValidOfferConfirms(p, l, chain);
    var b, confirmed, all := ConfirmedBalances(p, Switched(l, chain)).value, Identities(Txs(chain)), l.pending;
    BothKeepAll(p, b, confirmed, all);
    FilterKeepsAll(b, all);
    RetainAll(p, b, confirmed, true, all);
    assert (forall t :: t in all ==> !Unwanted(confirmed, true, t)) <==>
           forall i :: 0 <= i < |all| ==> !Unwanted(confirmed, true, all[i]);
  }

  lemma SyncShape(p: Params, l: Ledger, offers: seq<Offer>)
    ensures match ChosenOffer(p, l, offers)
            case None => Sync(p, l, offers) == (l, false)
            case Some(k) =>
              && Sync(p, l, offers).1
              && Valid(p, Sync(p, l, offers).0)
              && Height(Sync(p, l, offers).0) == TopIndex(offers[k].value)
  {
    var k := ChosenOffer(p, l, offers);
    if k.Some? {
      AdoptedNode(p, l, offers[k.value].value);
    }
  }

  /** sync_chain never lowers the height, keeps the chain valid, and leaves no eligible offer
      above the node. */
  lemma SyncIsSafe(p: Params, l: Ledger, offers: seq<Offer>)
    requires Valid(p, l)
    ensures var (l', adopted) := Sync(p, l, offers);
            && Valid(p, l')
            && (if adopted then Height(l') > Height(l) else l' == l)
            && (adopted <==> exists i :: 0 <= i < |offers| && Eligible(p, l, offers[i]))
            && forall i :: 0 <= i < |offers| && Eligible(p, l, offers[i]) ==> TopIndex(offers[i].value) <= Height(l')
  {
    SyncShape(p, l, offers);
    ChosenOfferIsFirstHighest(p, l, offers);
  }

  /** A second look at the same offers changes nothing, exactly when no valid offer is higher
      than the adopted one. Such an offer can exist only because the prune point refused it
      the first time: adopting a full chain drops the prune point. */
  lemma SecondSyncExactly(p: Params, l: Ledger, offers: seq<Offer>)
    requires Valid(p, l)
    ensures var (l', adopted) := Sync(p, l, offers);
            adopted ==>
              (!Sync(p, l', offers).1 <==>
                forall i :: 0 <= i < |offers| && offers[i].Some? && ValidOffer(p, offers[i].value) ==>
                  TopIndex(offers[i].value) <= Height(l'))
  {
    var (l', adopted) := Sync(p, l, offers);
    if adopted {
      SyncIsSafe(p, l, offers);
      var k := ChosenOffer(p, l, offers);
      AdoptedNode(p, l, offers[k.value].value);
      SyncIsSafe(p, l', offers);
    }
  }

  lemma RefusedByPrunePoint(p: Params, l: Ledger, offers: seq<Offer>, i: nat)
    requires Valid(p, l) && Sync(p, l, offers).1 && i < |offers| && offers[i].Some? && ValidOffer(p, offers[i].value)
    requires TopIndex(offers[i].value) > Height(Sync(p, l, offers).0)
    ensures l.prunePoint.Some? && !OfferedMatches(p, l, offers[i].value)
  {
    SyncIsSafe(p, l, offers);
  }

  // --------------------------------------- admission implies peer acceptance

  /** The ledger after offering these blocks to add_block, accepted or not. */
  function Grow(p: Params, l: Ledger, blocks: seq<Block>): (r: Ledger)
    requires l.chain != []
    ensures r.chain != []
    decreases |blocks|
  {
    if blocks == [] then l else Grow(p, AddBlock(p, l, blocks[0]).0, blocks[1..])
  }

  /** Every chain that add_block has grown from an acceptable start is acceptable to peers. */
  lemma {:induction false} GrownChainsAreAccepted(p: Params, l: Ledger, blocks: seq<Block>)
    requires ValidOffer(p, l.chain) && l.prunePoint.None?
    ensures ValidOffer(p, Grow(p, l, blocks).chain) && Grow(p, l, blocks).prunePoint.None?
    decreases |blocks|
  {
    if blocks != [] {
      if AdmitAnswer(p, l, blocks[0]).Accepted? {
        AdmissionKeepsValidity(p, l, blocks[0], true);
      }
      GrownChainsAreAccepted(p, AddBlock(p, l, blocks[0]).0, blocks[1..]);
    }
  }

  /** An acceptable offer, in fields: rooted in "0", every block proven, linked to the one before it
      and, if it has a miner, far enough from it, and every transaction authorised and covered. */
  lemma {:induction false} OfferExactly(p: Params, chain: seq<Block>)
    ensures ValidOffer(p, chain) <==>
              && chain != [] && chain[0].data.previousHash == "0" && Proven(p, chain[0])
              && (forall i :: 0 < i < |chain| ==> FollowsIn(p, chain, i, true))
              && AllCovered(p, map[], Txs(chain))
  {
    ValidExactly(p, chain, None, true);
  }

  /** An offer is eligible exactly when it is acceptable, agrees with the prune point, and its last
      block's index is above that of the node's tip. */
  lemma EligibleExactly(p: Params, l: Ledger, offer: Offer)
    requires l.chain != []
    ensures Eligible(p, l, offer) <==>
              && offer.Some? && offer.value != []
              && ValidOffer(p, offer.value) && OfferedMatches(p, l, offer.value)
              && offer.value[|offer.value| - 1].data.index > l.chain[|l.chain| - 1].data.index
  {}

  /** Each block has the next index after the one before it and comes far enough behind it. */
  predicate Paced(minimum: int, chain: seq<Block>) {
    forall i :: 0 < i < |chain| ==>
      chain[i].data.index == chain[i - 1].data.index + 1 && FarEnough(minimum, chain[i - 1], chain[i])
  }

  /** Whatever is offered to add_block, the chain stays paced, blocks without a miner included. */
  lemma {:induction false} GrownChainsArePaced(p: Params, l: Ledger, blocks: seq<Block>)
    requires l.chain != [] && Paced(p.blockTimeMinimum, l.chain)
    ensures Paced(p.blockTimeMinimum, Grow(p, l, blocks).chain)
    decreases |blocks|
  {
    if blocks != [] {
      var next := AddBlock(p, l, blocks[0]).0;
      if AdmitAnswer(p, l, blocks[0]).Accepted? {
        AcceptedExactly(p, l, blocks[0]);
      }
      GrownChainsArePaced(p, next, blocks[1..]);
    }
  }

  lemma GenesisIsAccepted(p: Params, genesis: Block)
    requires HasValidProof(p, genesis) && genesis.data.transactions == [] && genesis.data.previousHash == GENESIS_MARKER
    ensures ValidOffer(p, [genesis])
  {
    assert Txs([genesis]) == [] + Txs([genesis][1..]);
  }

  /** Peers that grow their chains by add_block from genesis agree on the longer one: a lower
      full node that is shown it adopts it, whoever else answers with nothing usable. */
  lemma {:induction false} LowerPeerCatchesUp(p: Params, genesis: Block, l: Ledger, ahead: Ledger, blocks: seq<Block>,
                                              offers: seq<Offer>)
    requires HasValidProof(p, genesis) && genesis.data.transactions == [] && genesis.data.previousHash == GENESIS_MARKER
    requires ahead.chain == [genesis] && ahead.prunePoint.None?
    requires Valid(p, l) && l.prunePoint.None?
    requires Some(Grow(p, ahead, blocks).chain) in offers
    ensures Height(Sync(p, l, offers).0) >= Height(Grow(p, ahead, blocks))
  {
    GenesisIsAccepted(p, genesis);
    GrownChainsAreAccepted(p, ahead, blocks);
    SyncIsSafe(p, l, offers);
    var i :| 0 <= i < |offers| && offers[i] == Some(Grow(p, ahead, blocks).chain);
    assert TopIndex(offers[i].value) == Height(Grow(p, ahead, blocks));
  }

  // -------------------------------------------- pruned nodes and long chains

  /** A pruned node finds a contiguous offer eligible exactly when it is valid, higher, and
      repeats the node's forgotten history in every hashed field, unless a digest or a
      commitment collides. */
  lemma PrunedNodeAdoptsExactly(p: Params, full: Ledger, n: nat, offered: seq<Block>)
    requires full.prunePoint.None? && HashChained(p, full.chain) && Marked(full.chain) && Contiguous(full.chain)
    requires 0 < n < |full.chain| && Contiguous(offered) && Marked(offered)
    ensures Collide(p, offered, full.chain) || SnapshotsCollide(p, full, n, offered) ||
            (Eligible(p, PrunedAt(p, full, n), Some(offered)) <==>
               ValidOffer(p, offered) && |offered| > |full.chain| && SamePrefix(offered, full.chain, n))
  {
    if ValidOffer(p, offered) {
      SpacingIsStronger(p, offered, None);
      RootedIsChained(p, offered);
      ReconciliationOfContiguous(p, full, n, offered);
      assert TopIndex(offered) == |offered| - 1;
      assert Height(PrunedAt(p, full, n)) == |full.chain| - 1;
    }
  }

  /** Every longer acceptable chain that extends the node's own full history is eligible,
      whatever the digests. */
  lemma ExtensionIsEligible(p: Params, full: Ledger, n: nat, offered: seq<Block>)
    requires full.prunePoint.None? && Contiguous(full.chain) && 0 < n < |full.chain|
    requires Contiguous(offered) && ValidOffer(p, offered) && |offered| > |full.chain|
             && offered[..|full.chain|] == full.chain
    ensures Eligible(p, PrunedAt(p, full, n), Some(offered))
  {
    forall i | 0 <= i < n ensures offered[i] == full.chain[i] {
      assert offered[i] == offered[..|full.chain|][i];
    }
    ExtensionMatches(p, full, n, offered);
    assert TopIndex(offered) == |offered| - 1;
    assert Height(PrunedAt(p, full, n)) == |full.chain| - 1;
  }
}
