/** The node's two mutable objects: the chain with its pool, memo and prune point
    (class Blockchain), and the read index it maintains (class BlockchainIndexes). Every
    method is proved against the cache-free functions of Ledgers and IndexStates. */
module Node {
  import opened Protocol
  import opened Balances
  import opened Rewards
  import opened Ledgers
  import opened Pruning
  import opened Reconciliation
  import opened Indexing
  import opened IndexStates
  import opened Pool
  import opened Admission
  import opened IndexContents
  import opened Blocks

  class BlockchainIndexes {
    var indexes: Maps
    var chainHeight: int
    var latestBlockHash: string
    var pendingIds: set<string>
    var pendingByAddress: Buckets
    var fingerprint: Option<seq<string>>
    /** The pool the overlay was last derived from. */
    ghost var overlay: seq<Tx>

    function State(): IndexState
      reads this
    {
      IndexState(indexes, chainHeight, latestBlockHash, pendingIds, pendingByAddress, fingerprint)
    }

    constructor (state: IndexState, ghost pool: seq<Tx>)
      ensures State() == state && overlay == pool
    {
      indexes, chainHeight, latestBlockHash := state.maps, state.chainHeight, state.latestBlockHash;
      pendingIds, pendingByAddress, fingerprint := state.pendingIds, state.pendingByAddress, state.fingerprint;
      overlay := pool;
    }

    /** The tip this index was made for is the node's tip. */
    predicate CurrentFor(l: Ledger)
      reads this
      requires l.chain != []
    {
      chainHeight == Height(l) && latestBlockHash == Tip(l).hash
    }

    /** What both treatments do with a record's amount. */
    static method SettleRecord(confirmed: Accounts, issued: int, ledger: multiset<TxRecord>, record: TxRecord)
      returns (balances: Accounts, total: int, treasury: multiset<TxRecord>)
      ensures balances == SettleTx(confirmed, record.tx)
      ensures total == issued + IssuedBy(record.tx)
      ensures treasury == if OfTreasury(record) then ledger + multiset{record} else ledger
    {
      var sender, receiver, amount := record.tx.sender, record.tx.receiver, record.tx.amount;
      balances, total, treasury := confirmed, issued, ledger;
      if sender == SYSTEM {
        total := total + amount;
      } else {
        balances := balances[sender := Get(balances, sender) - amount];
      }
      balances := balances[receiver := Get(balances, receiver) + amount];
      if sender == TREASURY || receiver == TREASURY {
        treasury := treasury + multiset{record};
      }
    }

    /** One record in the loop over a block, as the rebuild treats it. */
    static method TallyForRebuild(p: Params, s: Tally, record: TxRecord) returns (r: Tally)
      ensures r == TallyRecord(p, true, s, record)
    {
      var groups := AppendRecord(p, s.buckets, record.tx.sender, record);
      groups := AppendRecord(p, groups, record.tx.receiver, record);
      var confirmed, issued, treasury := SettleRecord(s.confirmed, s.issued, s.treasury, record);
      r := Tally(s.byId[TxId(p, record.tx) := record], groups, s.bucket + [record], confirmed, issued, treasury);
    }

    /** One record in the loop over a block, as the incremental merge treats it. */
    static method TallyForMerge(p: Params, s: Tally, record: TxRecord) returns (r: Tally)
      ensures r == TallyRecord(p, false, s, record)
    {
      var groups := Add(s.buckets, record.tx.sender, record);
      if record.tx.receiver != record.tx.sender {
        groups := Add(groups, record.tx.receiver, record);
      }
      var confirmed, issued, treasury := SettleRecord(s.confirmed, s.issued, s.treasury, record);
      r := Tally(s.byId[TxId(p, record.tx) := record], groups, s.bucket + [record], confirmed, issued, treasury);
    }

    static method TallyBlockRecords(p: Params, rebuild: bool, start: Tally, b: Block) returns (s: Tally)
      ensures s == TallyAll(p, rebuild, start, Records(b))
    {
      s := start;
      var i := 0;
      while i < |b.data.transactions|
        invariant 0 <= i <= |b.data.transactions|
        invariant TallyAll(p, rebuild, s, Records(b)[i..]) == TallyAll(p, rebuild, start, Records(b))
      {
        var record := ConfirmedRecord(b, i);
        assert Records(b)[i..][0] == record && Records(b)[i..][1..] == Records(b)[i + 1..];
        if rebuild {
          s := TallyForRebuild(p, s, record);
        } else {
          s := TallyForMerge(p, s, record);
        }
        i := i + 1;
      }
    }

    /** One block of the rebuild. */
    static method BuildOne(p: Params, c: Core, issued: int, b: Block) returns (r: Core, total: int)
      ensures r == BuildBlock(p, c, b) && total == issued + Issued(b.data.transactions)
    {
      var start := Tally(c.byId, c.byAddress, [], c.confirmed, issued, c.treasury);
      TallyBlock(p, true, start, b);
      var s := TallyBlockRecords(p, true, start, b);
      assert s.bucket == Records(b);
      r := Core(c.blocksByIndex[b.data.index := RecordOf(b)], c.blocksByHash[b.hash := RecordOf(b)], s.byId, s.buckets,
                c.byBlock[b.data.index := s.bucket], s.confirmed, CountBlock(c.miners, b), s.treasury);
      total := s.issued;
    }

    static lemma {:induction false} CorePrefix(p: Params, seed: Accounts, chain: seq<Block>, i: nat)
      requires i < |chain|
      ensures CoreOf(p, seed, chain[..i + 1]) == BuildBlock(p, CoreOf(p, seed, chain[..i]), chain[i])
      ensures Issued(Txs(chain[..i + 1])) == Issued(Txs(chain[..i])) + Issued(chain[i].data.transactions)
      ensures |Txs(chain[..i + 1])| == |Txs(chain[..i])| + |chain[i].data.transactions|
    {
      assert chain[..i + 1] == chain[..i] + [chain[i]];
      CoreAppend(p, seed, chain[..i], chain[i]);
      TxsAppend(chain[..i], chain[i]);
      IssuedConcat(Txs(chain[..i]), chain[i].data.transactions);
    }

    /** The rebuild's loop over the chain. */
    static method BuildCore(p: Params, seed: Accounts, seedIssued: int, chain: seq<Block>)
      returns (c: Core, issued: int, count: nat)
      ensures c == CoreOf(p, seed, chain) && issued == seedIssued + Issued(Txs(chain)) && count == |Txs(chain)|
    {
      c, issued, count := EmptyCore(seed), seedIssued, 0;
      var i := 0;
      while i < |chain|
        invariant 0 <= i <= |chain|
        invariant c == CoreOf(p, seed, chain[..i])
        invariant issued == seedIssued + Issued(Txs(chain[..i])) && count == |Txs(chain[..i])|
      {
        CorePrefix(p, seed, chain, i);
        count := count + |chain[i].data.transactions|;
        c, issued := BuildOne(p, c, issued, chain[i]);
        i := i + 1;
      }
      assert chain[..|chain|] == chain;
    }

    /** The confirmed part of add_block. */
    static method MergeOne(p: Params, c: Core, b: Block) returns (r: Core, issued: int)
      ensures r == MergeBlock(p, c, b) && issued == Issued(b.data.transactions)
    {
      var start := Tally(c.byId, map[], BlockBucket(c.byBlock, b.data.index), c.confirmed, 0, c.treasury);
      TallyBlock(p, false, start, b);
      var s := TallyBlockRecords(p, false, start, b);
      r := Core(c.blocksByIndex[b.data.index := RecordOf(b)], c.blocksByHash[b.hash := RecordOf(b)], s.byId,
                Prepend(c.byAddress, s.buckets), c.byBlock[b.data.index := s.bucket], s.confirmed,
                CountBlock(c.miners, b), s.treasury);
      issued := s.issued;
    }

    /** The summary for the node's present state, with these running totals and newest block. */
    static method SummaryNow(bc: Blockchain, transactions: nat, issued: int, latest: Block) returns (s: Summary)
      requires bc.Coherent()
      modifies bc`validCache, bc`validCacheHeight, bc`validCacheTip
      ensures bc.MemoOk() && bc.L() == old(bc.L())
      ensures var l := bc.L();
              s == Summary(Height(l), |l.chain|, transactions, issued, l.difficulty, CurrentReward(l),
                           latest.hash, latest.data.timestamp, Valid(bc.p, l))
    {
      var reward := bc.GetCurrentMiningReward();
      var valid := bc.ChainValidFast();
      s := Summary(bc.GetBlockHeight(), |bc.chain|, transactions, issued, bc.difficulty, reward, latest.hash,
                   latest.data.timestamp, valid);
    }

    /** BlockchainIndexes.build. */
    static method Build(bc: Blockchain) returns (x: BlockchainIndexes)
      requires bc.Coherent()
      modifies bc`validCache, bc`validCacheHeight, bc`validCacheTip
      ensures bc.MemoOk() && bc.L() == old(bc.L())
      ensures fresh(x) && x.State() == BuildState(bc.p, bc.L()) && x.overlay == bc.pending
    {
      var p := bc.p;
      ghost var l := bc.L();
      var core, issued, count := BuildCore(p, SeedBalances(bc.prunePoint), SeedIssued(bc.prunePoint), bc.chain);
      var byId, balances, groups := OverlayPending(p, core.byId, core.confirmed, bc.pending);
      CoreIndices(p, SeedBalances(bc.prunePoint), bc.chain);
      assert forall i :: 0 <= i < |bc.chain| ==> UsesIndex(bc.chain, bc.chain[i].data.index);
      var latest := LatestWindow(core.blocksByIndex, bc.chain);
      var tip := bc.chain[|bc.chain| - 1];
      var summary := SummaryNow(bc, count, issued, tip);
      var maps := Maps(core.blocksByIndex, core.blocksByHash, byId, core.byAddress, core.byBlock, balances,
                       core.confirmed,
                       core.miners, latest, core.treasury, summary);
      var state := IndexState(maps, bc.GetBlockHeight(), tip.hash, IdsOf(p, PendingRecords(bc.pending)), groups,
                              Some(Fingerprint(p, bc.pending)));
      x := new BlockchainIndexes(state, bc.pending);
    }

    static method LatestWindow(blocks: map<int, BlockRecord>, chain: seq<Block>) returns (latest: seq<BlockRecord>)
      requires forall i :: 0 <= i < |chain| ==> chain[i].data.index in blocks
      ensures latest == LatestOf(blocks, chain)
    {
      latest := [];
      var n := if |chain| < LATEST_BLOCK_LIMIT then |chain| else LATEST_BLOCK_LIMIT;
      for i := 0 to n
        invariant |latest| == i
        invariant forall k :: 0 <= k < i ==> latest[k] == blocks[chain[|chain| - 1 - k].data.index]
      {
        latest := latest + [blocks[chain[|chain| - 1 - i].data.index]];
      }
    }

    /** The loop over the pending pool shared by build and refresh_pending_overlay. */
    static method OverlayPending(p: Params, byId: map<string, TxRecord>, confirmed: Accounts, pending: seq<Tx>)
      returns (ids: map<string, TxRecord>, balances: Accounts, groups: Buckets)
      ensures ids == Overlay(p, byId, PendingRecords(pending))
      ensures balances == Settle(confirmed, pending)
      ensures groups == MergeRecords(map[], PendingRecords(pending))
    {
      ids, balances, groups := byId, confirmed, map[];
      var i := 0;
      while i < |pending|
        invariant 0 <= i <= |pending|
        invariant Overlay(p, ids, PendingRecords(pending)[i..]) == Overlay(p, byId, PendingRecords(pending))
        invariant Settle(balances, pending[i..]) == Settle(confirmed, pending)
        invariant MergeRecords(groups, PendingRecords(pending)[i..]) == MergeRecords(map[], PendingRecords(pending))
      {
        var record := TxRecord(pending[i], Pending, None, i);
        assert PendingRecords(pending)[i..][0] == record
               && PendingRecords(pending)[i..][1..] == PendingRecords(pending)[i + 1..];
        assert pending[i..][0] == pending[i] && pending[i..][1..] == pending[i + 1..];
        var id := TxId(p, record.tx);
        if id !in ids {
          ids := ids[id := record];
        }
        groups := MergeRecord(groups, record);
        balances := SettleTx(balances, record.tx);
        i := i + 1;
      }
    }

    /** BlockchainIndexes.add_block: merge a block the node has just appended. */
    method AddBlock(bc: Blockchain, block: Block)
      requires bc.index == this && bc.Coherent() && !CurrentFor(bc.L())
      modifies this`indexes, this`chainHeight, this`latestBlockHash, this`fingerprint
      modifies bc`validCache, bc`validCacheHeight, bc`validCacheTip
      ensures bc.MemoOk() && bc.L() == old(bc.L())
      ensures State() == MergeState(bc.p, old(State()), bc.L(), block)
    {
      var idx := indexes;
      var c, issued := MergeOne(bc.p, CoreIn(idx), block);
      var summary := SummaryNow(bc, idx.summary.totalTransactions + |block.data.transactions|,
                                idx.summary.totalIssued + issued, block);
      indexes := Maps(c.blocksByIndex, c.blocksByHash, c.byId, c.byAddress, c.byBlock, idx.balances, c.confirmed,
                      c.miners,
                      Truncate([RecordOf(block)] + idx.latest), c.treasury, summary);
      chainHeight := bc.GetBlockHeight();
      latestBlockHash := block.hash;
      fingerprint := None;
    }

    /** BlockchainIndexes.refresh_pending_overlay. */
    method RefreshPendingOverlay(p: Params, pending: seq<Tx>)
      modifies this
      ensures State() == RefreshState(p, old(State()), pending) && overlay == pending
    {
      var idx := indexes;
      var byId := StripPending(idx.byId, pendingIds);
      var ids, balances, groups := OverlayPending(p, byId, idx.confirmed, pending);
      indexes := idx.(byId := ids, balances := balances);
      pendingByAddress := groups;
      pendingIds := IdsOf(p, PendingRecords(pending));
      fingerprint := Some(Fingerprint(p, pending));
      overlay := pending;
    }

    /** Removes the previous overlay's additions, one tracked id at a time. */
    static method StripPending(m: map<string, TxRecord>, ids: set<string>) returns (byId: map<string, TxRecord>)
      ensures byId == Strip(m, ids)
    {
      byId := m;
      var todo := ids;
      while todo != {}
        invariant Strip(byId, todo) == Strip(m, ids)
        decreases |todo|
      {
        var id :| id in todo;
        ghost var before := byId;
        if id in byId && byId[id].status.Pending? {
          byId := byId - {id};
        }
        StripOne(before, byId, todo, id);
        todo := todo - {id};
      }
      assert Strip(byId, {}) == byId;
    }

    static lemma StripOne(before: map<string, TxRecord>, after: map<string, TxRecord>, todo: set<string>, id: string)
      requires id in todo
      requires after == (if id in before && before[id].status.Pending? then before - {id} else before)
      ensures Strip(after, todo - {id}) == Strip(before, todo)
    {}

    /** transactions_for_address, on an index that is right for this ledger: the pool's and, on a
        chain that repeats nothing, the chain's transactions that touch the address. */
    method TransactionsForAddress(ghost p: Params, ghost l: Ledger, address: Address)
      returns (records: multiset<TxRecord>)
      requires l.chain != [] && IndexOk(p, l, State(), overlay) && fingerprint.Some?
      ensures Touching(PendingRecords(overlay), address) <= records
      ensures Regular(p, l.chain) ==>
                records == Touching(PendingRecords(overlay), address) + Touching(AllRecords(l.chain), address)
    {
      MergeBuckets(map[], PendingRecords(overlay), address);
      if Regular(p, l.chain) {
        RegularBuckets(p, SeedBalances(l.prunePoint), l.chain, address);
      }
      records := Bucket(pendingByAddress, address) + Bucket(indexes.byAddress, address);
    }

    /** block_detail, on an index that is right for this ledger. `index` is what the search term reads
        as a number, `hash` the term itself: an index that is used wins, and then the hash. */
    method BlockDetail(ghost p: Params, ghost l: Ledger, index: Option<int>, hash: string)
      returns (r: Option<BlockRecord>)
      requires l.chain != [] && IndexOk(p, l, State(), overlay)
      ensures forall i: nat :: index.Some? && IsLast(l.chain, IndexIs(index.value), i) ==>
                r.Some? && TellsBlock(r.value, l.chain[i])
      ensures (index.None? || forall i :: 0 <= i < |l.chain| ==> l.chain[i].data.index != index.value) ==>
                forall i: nat :: IsLast(l.chain, HashIs(hash), i) ==> r.Some? && TellsBlock(r.value, l.chain[i])
      ensures r.None? <==>
                && (index.Some? ==> forall i :: 0 <= i < |l.chain| ==> l.chain[i].data.index != index.value)
                && (forall i :: 0 <= i < |l.chain| ==> l.chain[i].hash != hash)
    {
      if index.Some? {
        BlockByIndex(p, SeedBalances(l.prunePoint), l.chain, index.value);
      }
      BlockByHash(p, SeedBalances(l.prunePoint), l.chain, hash);
      if index.Some? && index.value in indexes.blocksByIndex {
        return Some(indexes.blocksByIndex[index.value]);
      }
      return if hash in indexes.blocksByHash then Some(indexes.blocksByHash[hash]) else None;
    }

    /** transaction_detail: the last confirmed transaction with the id, or else the first pending one. */
    method TransactionDetail(ghost p: Params, ghost l: Ledger, id: string) returns (r: Option<TxRecord>)
      requires l.chain != [] && IndexOk(p, l, State(), overlay)
      ensures forall i: nat, j: nat :: LastInChain(p, l.chain, i, j, id) ==> r.Some? && TellsTx(r.value, l.chain[i], j)
      ensures Unused(p, l.chain, id) ==>
                forall i: nat :: FirstPending(p, overlay, i, id) ==> r == Some(TxRecord(overlay[i], Pending, None, i))
      ensures r.None? <==> Unused(p, l.chain, id) && NoneBears(p, overlay, id)
    {
      ghost var shown := l.(pending := overlay);
      assert BuildState(p, shown).maps.byId == indexes.byId;
      forall i: nat, j: nat | LastInChain(p, l.chain, i, j, id)
        ensures id in indexes.byId && TellsTx(indexes.byId[id], l.chain[i], j)
      {
        DetailOfConfirmed(p, shown, i, j, id);
      }
      if Unused(p, l.chain, id) {
        forall i: nat | FirstPending(p, overlay, i, id)
          ensures id in indexes.byId && indexes.byId[id] == TxRecord(overlay[i], Pending, None, i)
        {
          DetailOfPending(p, shown, i, id);
        }
      }
      DetailOfNone(p, shown, id);
      return if id in indexes.byId then Some(indexes.byId[id]) else None;
    }
  }

  class Blockchain {
    const p: Params
    var chain: seq<Block>
    var pending: seq<Tx>
    var difficulty: int
    var miningReward: real
    var prunePoint: Option<PrunePoint>
    var index: BlockchainIndexes?
    var validCache: Option<bool>
    var validCacheHeight: int
    var validCacheTip: string

    /** The ledger this node holds, caches aside. */
    function L(): Ledger
      reads this
    {
      Ledger(chain, pending, difficulty, miningReward, prunePoint)
    }

    /** The memo never lies: a remembered "valid" belongs to the current tip and is true; a
        remembered "invalid" is of the current tip and true, or of a lower one. */
    ghost predicate MemoOk()
      reads this
    {
      && chain != []
      && (validCache == Some(true) ==>
          validCacheHeight == Height(L()) && validCacheTip == Tip(L()).hash && Valid(p, L()))
      && (validCache == Some(false) ==>
            && validCacheHeight <= Height(L())
            && (validCacheHeight == Height(L()) && validCacheTip == Tip(L()).hash ==> !Valid(p, L())))
    }

    /** An index made for the current tip is right; while its overlay counts as fresh, the pool
        can only have grown beyond it. */
    ghost predicate Coherent()
      reads this, index
    {
      && MemoOk()
      && (index != null && index.CurrentFor(L()) ==>
            && IndexOk(p, L(), index.State(), index.overlay)
            && (index.fingerprint.Some? ==> index.overlay <= pending))
    }

    /** Between operations the index, if there is one, is made for the current tip. */
    ghost predicate Maintained()
      reads this, index
    {
      Coherent() && (index != null ==> index.CurrentFor(L()))
    }

    /** A node that has just mined its genesis block. */
    constructor (p: Params, genesis: Block, difficulty: int, miningReward: real)
      ensures Maintained() && index == null && this.p == p
      ensures L() == Ledger([genesis], [], difficulty, miningReward, None)
    {
      this.p := p;
      chain, pending, this.difficulty, this.miningReward, prunePoint := [genesis], [], difficulty, miningReward, None;
      index, validCache, validCacheHeight, validCacheTip := null, None, -1, "";
    }

    /** A copy that holds only the offered chain: no pool, no prune point, nothing derived. */
    constructor Offered(rules: Blockchain, chain: seq<Block>)
      ensures p == rules.p && this.chain == chain && prunePoint == None
    {
      p := rules.p;
      this.chain, pending, difficulty, miningReward, prunePoint :=
          chain, [], rules.difficulty, rules.miningReward, None;
      index, validCache, validCacheHeight, validCacheTip := null, None, -1, "";
    }

    function GetBlockHeight(): (h: int)
      reads this
    {
      if chain == [] then -1 else chain[|chain| - 1].data.index
    }

    // ----------------------------------------------------------- validation

    /** The body of the loop in _apply_transactions_to_balances. */
    static method ApplyTransaction(p: Params, t: Tx, start: Accounts) returns (ok: bool, balances: Accounts)
      ensures ok == ApplyTx(p, start, t).Some?
      ensures ok ==> balances == ApplyTx(p, start, t).value
    {
      balances := start;
      if !Verifies(p, t) {
        return false, balances;
      }
      if !IsSystem(t.sender) {
        var available := Get(balances, t.sender);
        if available < t.amount {
          return false, balances;
        }
        balances := balances[t.sender := available - t.amount];
      }
      balances := balances[t.receiver := Get(balances, t.receiver) + t.amount];
      ok := true;
    }

    /** _apply_transactions_to_balances. */
    static method ApplyTransactions(p: Params, ts: seq<Tx>, start: Accounts) returns (ok: bool, balances: Accounts)
      ensures ok == ApplyTxs(p, start, ts).Some?
      ensures ok ==> balances == ApplyTxs(p, start, ts).value
    {
      ok, balances := true, start;
      var i := 0;
      while i < |ts|
        invariant 0 <= i <= |ts|
        invariant ApplyTxs(p, balances, ts[i..]) == ApplyTxs(p, start, ts)
      {
        assert ts[i..][0] == ts[i] && ts[i..][1..] == ts[i + 1..];
        ok, balances := ApplyTransaction(p, ts[i], balances);
        if !ok {
          return;
        }
        i := i + 1;
      }
    }

    /** The loop over blocks of _chain_transactions_are_valid and _confirmed_balances. */
    static method ApplyChain(p: Params, chain: seq<Block>, seed: Accounts) returns (ok: bool, balances: Accounts)
      ensures ok == ApplyTxs(p, seed, Txs(chain)).Some?
      ensures ok ==> balances == ApplyTxs(p, seed, Txs(chain)).value
    {
      balances, ok := seed, true;
      var i := 0;
      while i < |chain|
        invariant 0 <= i <= |chain|
        invariant ApplyTxs(p, balances, Txs(chain[i..])) == ApplyTxs(p, seed, Txs(chain))
      {
        assert chain[i..][0] == chain[i] && chain[i..][1..] == chain[i + 1..];
        ApplyTxsConcat(p, balances, chain[i].data.transactions, Txs(chain[i + 1..]));
        ok, balances := ApplyTransactions(p, chain[i].data.transactions, balances);
        if !ok {
          return;
        }
        i := i + 1;
      }
    }

    method PruneCommitmentIsValid() returns (ok: bool)
      ensures ok == CommitmentValid(p, chain, prunePoint)
    {
      if prunePoint.None? {
        return true;
      }
      if Commit(p, prunePoint.value.snapshot) != prunePoint.value.commitment {
        return false;
      }
      return chain == [] || chain[0].data.previousHash == prunePoint.value.snapshot.blockHash;
    }

    method LinkIsValid(i: nat, enforceSpacing: bool) returns (ok: bool)
      requires 0 < i < |chain|
      ensures ok == LinkAt(p, chain, i, enforceSpacing)
    {
      var current, previous := chain[i], chain[i - 1];
      if current.hash != Digest(p, current.data) || !StartsWithZeros(current.hash, current.difficulty) {
        return false;
      }
      if current.data.previousHash != previous.hash {
        return false;
      }
      if enforceSpacing {
        var gap := current.data.timestamp - previous.data.timestamp;
        if Present(current.data.minerAddress) && gap < p.blockTimeMinimum as real {
          return false;
        }
        if Present(current.data.minerAddress) && Present(previous.data.minerAddress)
           && current.data.minerAddress == previous.data.minerAddress && gap < 2.0 * p.blockTimeMinimum as real {
          return false;
        }
      }
      return true;
    }

    /** is_chain_valid. */
    method IsChainValid(enforceSpacing: bool) returns (ok: bool)
      ensures ok == ChainValid(p, chain, prunePoint, enforceSpacing)
      ensures ok ==> forall i :: 0 < i < |chain| ==> FollowsIn(p, chain, i, enforceSpacing)
    {
      ValidExactly(p, chain, prunePoint, enforceSpacing);
      if chain == [] {
        return false;
      }
      ok := PruneCommitmentIsValid();
      if !ok || !HasValidProof(p, chain[0]) {
        return false;
      }
      var i := 1;
      while i < |chain|
        invariant 1 <= i <= |chain|
        invariant forall j :: 0 < j < i ==> LinkAt(p, chain, j, enforceSpacing)
      {
        ok := LinkIsValid(i, enforceSpacing);
        if !ok {
          return false;
        }
        i := i + 1;
      }
      var applies, balances := ApplyChain(p, chain, SeedBalances(prunePoint));
      ok := applies;
    }

    /** chain_valid_fast: the memo is exact, so its answer is always the full validation's. */
    method ChainValidFast() returns (ok: bool)
      requires MemoOk()
      modifies this`validCache, this`validCacheHeight, this`validCacheTip
      ensures MemoOk() && L() == old(L())
      ensures ok == Valid(p, L())
    {
      var tip := chain[|chain| - 1].hash;
      var height := GetBlockHeight();
      if validCache.Some? && validCacheHeight == height && validCacheTip == tip {
        return validCache.value;
      }
      ok := IsChainValid(false);
      validCache, validCacheHeight, validCacheTip := Some(ok), height, tip;
    }

    // ------------------------------------------------- balances and supply

    /** The confirmed balances the node goes by: the index rule's where there is an index for the
        tip, and otherwise the scan's, which are missing where the chain's own do not add up. */
    ghost function Seen(): Option<Accounts>
      requires chain != []
      reads this, index
    {
      if index != null && index.CurrentFor(L()) then Some(Settle(SeedBalances(prunePoint), Txs(chain)))
      else ConfirmedBalances(p, L())
    }

    /** _confirmed_balances; None is its ValueError. */
    method ConfirmedNow() returns (r: Option<Accounts>)
      requires Coherent()
      ensures r == Seen()
      ensures ConfirmedBalances(p, L()).Some? ==> r.Some? && Agree(ConfirmedBalances(p, L()).value, r.value)
    {
      var seed := SeedBalances(prunePoint);
      ApplyTxsAgree(p, seed, seed, Txs(chain));
      if index != null && index.CurrentFor(L()) {
        CoreBalances(p, seed, chain);
        return Some(index.indexes.confirmed);
      }
      var ok, balances := ApplyChain(p, chain, seed);
      r := if ok then Some(balances) else None;
    }

    /** get_total_issued. */
    method GetTotalIssued() returns (total: int)
      requires Coherent()
      ensures total == TotalIssued(L())
    {
      if index != null && index.CurrentFor(L()) {
        return index.indexes.summary.totalIssued;
      }
      total := SeedIssued(prunePoint);
      var i := 0;
      while i < |chain|
        invariant 0 <= i <= |chain|
        invariant total + Issued(Txs(chain[i..])) == TotalIssued(L())
      {
        assert chain[i..][0] == chain[i] && chain[i..][1..] == chain[i + 1..];
        IssuedConcat(chain[i].data.transactions, Txs(chain[i + 1..]));
        total := AddIssued(total, chain[i].data.transactions);
        i := i + 1;
      }
    }

    static method AddIssued(start: int, ts: seq<Tx>) returns (total: int)
      ensures total == start + Issued(ts)
    {
      total := start;
      var j := 0;
      while j < |ts|
        invariant 0 <= j <= |ts|
        invariant total + Issued(ts[j..]) == start + Issued(ts)
      {
        assert ts[j..][0] == ts[j] && ts[j..][1..] == ts[j + 1..];
        if ts[j].sender == SYSTEM {
          total := total + ts[j].amount;
        }
        j := j + 1;
      }
    }

    /** get_current_mining_reward. */
    method GetCurrentMiningReward() returns (reward: real)
      requires Coherent()
      ensures reward == CurrentReward(L())
    {
      var issued := GetTotalIssued();
      reward := RewardAt(miningReward, GetBlockHeight() + 1, issued);
    }

    /** The ledger's own answer to get_balance, read off the index. */
    lemma IndexedBalance(x: IndexState, a: Address)
      requires chain != [] && x == BuildState(p, L())
      ensures Get(x.maps.balances, a) ==
                ScannedBalance(L(), a) + (if a == SYSTEM then Issued(Txs(chain) + pending) else 0)
    {
      var seed := SeedBalances(prunePoint);
      CoreBalances(p, seed, chain);
      SettleConcat(seed, Txs(chain), pending);
      SettleDeltas(seed, Txs(chain) + pending, a);
    }

    /** get_balance; None is its ValueError. The index and the scan agree for every address
        except SYSTEM, whose mints the scan takes off it. */
    method GetBalance(address: Address) returns (balance: Option<int>)
      requires Coherent()
      modifies this`index, this`validCache, this`validCacheHeight, this`validCacheTip, index
      ensures Coherent() && L() == old(L())
      ensures balance.None? <==> address == ""
      ensures address != "" && address != SYSTEM ==> balance.value == ScannedBalance(L(), address)
      ensures address == SYSTEM && old(index) == null ==> balance.value == ScannedBalance(L(), address)
      ensures address == SYSTEM && old(index) != null ==>
                balance.value == ScannedBalance(L(), address) + Issued(Txs(chain) + pending)
    {
      if address == "" {
        return None;
      }
      if index != null {
        var x := GetIndexes();
        IndexedBalance(BuildState(p, L()), address);
        return Some(Get(x.indexes.balances, address));
      }
      var total := Get(SeedBalances(prunePoint), address);
      var ts := CollectTransactions();
      ts := ts + pending;
      var i := 0;
      while i < |ts|
        invariant 0 <= i <= |ts|
        invariant total + Deltas(ts[i..], address) == ScannedBalance(L(), address)
      {
        assert ts[i..][0] == ts[i] && ts[i..][1..] == ts[i + 1..];
        if ts[i].sender == address {
          total := total - ts[i].amount;
        }
        if ts[i].receiver == address {
          total := total + ts[i].amount;
        }
        i := i + 1;
      }
      balance := Some(total);
    }

    method CollectTransactions() returns (ts: seq<Tx>)
      ensures ts == Txs(chain)
    {
      ts := [];
      var i := 0;
      while i < |chain|
        invariant 0 <= i <= |chain|
        invariant ts + Txs(chain[i..]) == Txs(chain)
      {
        assert chain[i..][0] == chain[i] && chain[i..][1..] == chain[i + 1..];
        ts := ts + chain[i].data.transactions;
        i := i + 1;
      }
    }

    // ---------------------------------------------------------------- index

    /** rebuild_indexes. */
    method RebuildIndexes() returns (x: BlockchainIndexes)
      requires Coherent()
      modifies this`index, this`validCache, this`validCacheHeight, this`validCacheTip
      ensures Maintained() && L() == old(L())
      ensures fresh(x) && index == x && x.State() == BuildState(p, L()) && x.overlay == pending
    {
      x := BlockchainIndexes.Build(this);
      index := x;
      BuildIsOk(p, L());
    }

    /** get_indexes: whatever was cached, the caller gets what a rebuild would give. */
    method GetIndexes() returns (x: BlockchainIndexes)
      requires Coherent()
      modifies this`index, this`validCache, this`validCacheHeight, this`validCacheTip, index
      ensures Maintained() && L() == old(L())
      ensures index == x && (x == old(index) || fresh(x))
      ensures SameIndex(p, L(), x.State(), BuildState(p, L()))
    {
      if index == null {
        x := RebuildIndexes();
        return;
      }
      if !index.CurrentFor(L()) {
        x := RebuildIndexes();
        return;
      }
      var fingerprint := Fingerprint(p, pending);
      if index.fingerprint != Some(fingerprint) {
        RefreshKeepsIndex(p, L(), index.State(), index.overlay, pending);
        index.RefreshPendingOverlay(p, pending);
      }
      CurrentIndexIsRebuild(p, L(), index.State(), index.overlay);
      x := index;
    }

    // ------------------------------------------------------------ admission

    method AdjustDifficulty()
      requires chain != []
      modifies this`difficulty
      ensures difficulty == Retarget(p, chain, old(difficulty))
    {
      if !p.retargets {
        return;
      }
      var height := GetBlockHeight();
      if height <= 0 || height % DIFFICULTY_ADJUSTMENT_INTERVAL != 0 {
        return;
      }
      if |chain| <= DIFFICULTY_ADJUSTMENT_INTERVAL {
        return;
      }
      var start, end := chain[|chain| - (DIFFICULTY_ADJUSTMENT_INTERVAL + 1)], chain[|chain| - 1];
      var elapsed := end.data.timestamp - start.data.timestamp;
      if elapsed < 0.0 {
        elapsed := 0.0;
      }
      var average := elapsed / 10.0;
      if average < BLOCK_TIME_TARGET * 0.75 {
        difficulty := difficulty + 1;
      } else if average > BLOCK_TIME_TARGET * 1.25 {
        difficulty := if difficulty - 1 > 2 then difficulty - 1 else 2;
      }
    }

    /** The checks of add_block that do not look at transactions. */
    method FitsTip(block: Block) returns (ok: bool)
      requires chain != []
      ensures ok == Admissible(p, Tip(L()), block)
    {
      var latest := chain[|chain| - 1];
      if block.data.index != latest.data.index + 1 || block.data.previousHash != latest.hash {
        return false;
      }
      var gap := block.data.timestamp - latest.data.timestamp;
      if gap < p.blockTimeMinimum as real {
        return false;
      }
      if Present(latest.data.minerAddress) && Present(block.data.minerAddress)
         && latest.data.minerAddress == block.data.minerAddress && gap < 2.0 * p.blockTimeMinimum as real {
        return false;
      }
      return HasValidProof(p, block);
    }

    /** add_block. The answer is the one for the balances the node goes by; on a chain whose
        balances add up it is the cache-free one, with or without an index. */
    method AddBlock(block: Block) returns (answer: Answer)
      requires Maintained()
      modifies this, index
      ensures Maintained() && index == old(index)
      ensures answer == AdmitAnswerBy(p, old(L()), block, old(Seen()))
      ensures L() == if answer.Accepted? then Append(p, old(L()), block) else old(L())
      ensures answer.Accepted? ==>
                Continues(p, Tip(old(L())), block) && FarEnough(p.blockTimeMinimum, Tip(old(L())), block)
      ensures answer.Accepted? && index != null ==> index.fingerprint.None?
      ensures ConfirmedBalances(p, old(L())).Some? ==> (L(), answer) == Ledgers.AddBlock(p, old(L()), block)
    {
      ProvenExactly(p, block);
      var fits := FitsTip(block);
      if !fits {
        return Rejected;
      }
      var confirmed := ConfirmedNow();
      if confirmed.None? {
        return Failed;
      }
      var ok, _ := ApplyTransactions(p, block.data.transactions, confirmed.value);
      if ConfirmedBalances(p, L()).Some? {
        ApplyTxsAgree(p, ConfirmedBalances(p, L()).value, confirmed.value, block.data.transactions);
      }
      if !ok {
        return Rejected;
      }
      ExtendChain(block);
      return Accepted;
    }

    /** The append, with the memo carried over instead of dropped. */
    method AppendBlock(block: Block)
      requires MemoOk() && Admissible(p, Tip(L()), block)
      requires Valid(p, L()) ==> AdmitAnswer(p, L(), block).Accepted?
      modifies this`chain, this`validCacheHeight, this`validCacheTip
      ensures MemoOk() && chain == old(chain) + [block]
    {
      if Valid(p, L()) {
        AdmissionKeepsValidity(p, L(), block, false);
      }
      chain := chain + [block];
      if validCache == Some(true) {
        validCacheHeight := GetBlockHeight();
        validCacheTip := block.hash;
      }
    }

    /** The append and everything that follows it under the append lock. */
    method ExtendChain(block: Block)
      requires Maintained() && Admissible(p, Tip(L()), block)
      requires Valid(p, L()) ==> AdmitAnswer(p, L(), block).Accepted?
      modifies this, index
      ensures Maintained() && index == old(index) && (index != null ==> index.fingerprint.None?)
      ensures L() == Append(p, old(L()), block)
    {
      ghost var l := L();
      AppendBlock(block);
      AdjustDifficulty();
      assert L() == Append(p, l, block);
      if index != null {
        MergeIntoIndex(l, block);
      }
    }

    method MergeIntoIndex(ghost l: Ledger, block: Block)
      requires index != null && MemoOk()
      requires l.chain != [] && L() == Append(p, l, block) && block.data.index == Height(l) + 1
      requires index.CurrentFor(l) && IndexOk(p, l, index.State(), index.overlay)
      modifies index, this`validCache, this`validCacheHeight, this`validCacheTip
      ensures Maintained() && L() == old(L()) && index == old(index) && index.fingerprint.None?
    {
      MergeKeepsIndex(p, l, index.State(), index.overlay, block);
      index.AddBlock(this, block);
    }

    // --------------------------------------------------------- pending pool

    /** _pending_transaction_has_spendable_balance; None is the ValueError it lets through. */
    method HasSpendableBalance(t: Tx) returns (r: Option<bool>)
      requires Coherent()
      ensures IsSystem(t.sender) ==> r == Some(true)
      ensures !IsSystem(t.sender) ==>
                r == if Seen().None? then None
                     else Some(Get(Seen().value, t.sender) - PendingSpend(pending, t.sender) >= t.amount)
      ensures !IsSystem(t.sender) && ConfirmedBalances(p, L()).Some? ==>
                r == Some(Get(ConfirmedBalances(p, L()).value, t.sender) - PendingSpend(pending, t.sender) >= t.amount)
    {
      if IsSystem(t.sender) {
        return Some(true);
      }
      var confirmed := ConfirmedNow();
      if confirmed.None? {
        return None;
      }
      var available := Get(confirmed.value, t.sender);
      var i := 0;
      while i < |pending|
        invariant 0 <= i <= |pending|
        invariant available - PendingSpend(pending[i..], t.sender) ==
                    Get(confirmed.value, t.sender) - PendingSpend(pending, t.sender)
      {
        assert pending[i..][0] == pending[i] && pending[i..][1..] == pending[i + 1..];
        if pending[i].sender == t.sender {
          available := available - pending[i].amount;
        }
        i := i + 1;
      }
      r := Some(available >= t.amount);
    }

    /** Replacing the pool disturbs neither the memo nor the index. */
    twostate lemma PoolReplaced()
      requires old(Maintained())
      requires unchanged(this`chain, this`difficulty, this`miningReward, this`prunePoint, this`index)
      requires unchanged(this`validCache, this`validCacheHeight, this`validCacheTip)
      requires index != null ==> unchanged(index) && (index.fingerprint.Some? ==> old(pending) <= pending)
      ensures Maintained()
    {
      if index != null {
        PoolDoesNotMatter(p, old(L()), index.State(), index.overlay, pending);
        assert L() == old(L()).(pending := pending);
      }
    }

    /** add_pending_transaction. */
    method AddPendingTransaction(t: Tx) returns (answer: SubmitAnswer)
      requires Maintained()
      modifies this`pending
      ensures Maintained()
      ensures answer == SubmitAnswerBy(p, old(L()), t, old(Seen()))
      ensures L() == if answer.Submitted? then old(L()).(pending := old(pending) + [t]) else old(L())
      ensures IsSystem(t.sender) && Verifies(p, t) ==> answer.Submitted?
      ensures ConfirmedBalances(p, old(L())).Some? ==> (L(), answer) == Submit(p, old(L()), t)
    {
      if !Verifies(p, t) {
        return BadSignature;
      }
      var spendable := HasSpendableBalance(t);
      if spendable.None? {
        return SubmitFailed;
      }
      if !spendable.value {
        return NotEnough;
      }
      pending := pending + [t];
      PoolReplaced();
      return Submitted;
    }

    /** _select_valid_pending_transactions, given the confirmed balances. */
    method SelectValidPending(confirmed: Accounts) returns (valid: seq<Tx>)
      ensures valid == Select(p, confirmed, pending)
    {
      valid := [];
      var balances := confirmed;
      var i := 0;
      while i < |pending|
        invariant 0 <= i <= |pending|
        invariant valid + Select(p, balances, pending[i..]) == Select(p, confirmed, pending)
      {
        assert pending[i..][0] == pending[i] && pending[i..][1..] == pending[i + 1..];
        var ok, trial := ApplyTransactions(p, [pending[i]], balances);
        ApplyOne(p, balances, pending[i]);
        if ok {
          valid := valid + [pending[i]];
          balances := trial;
        }
        i := i + 1;
      }
    }

    static lemma {:induction false} ApplyOne(p: Params, b: Accounts, t: Tx)
      ensures ApplyTxs(p, b, [t]) == ApplyTx(p, b, t)
    {}

    /** prune_pending_transactions; false is its ValueError. */
    method PrunePendingTransactions(dropSystemRewards: bool) returns (ok: bool)
      requires Coherent()
      modifies this`pending, this`index
      ensures Coherent() && ok == old(Seen()).Some?
      ensures if ok then
                && index == null
                && L() == old(L()).(pending := Retain(p, old(Seen()).value, Identities(Txs(chain)), dropSystemRewards,
                                                      old(pending)))
              else index == old(index) && L() == old(L())
      ensures ConfirmedBalances(p, old(L())).Some? ==> ok && PrunePending(p, old(L()), dropSystemRewards) == Some(L())
    {
      var ts := CollectTransactions();
      var confirmedIdentities := Identities(ts);
      var confirmed := ConfirmedNow();
      if confirmed.None? {
        return false;
      }
      if ConfirmedBalances(p, L()).Some? {
        RetainAgree(p, ConfirmedBalances(p, L()).value, confirmed.value, confirmedIdentities, dropSystemRewards,
                    pending);
      }
      var retained := RetainPending(p, confirmed.value, confirmedIdentities, dropSystemRewards, pending);
      pending := retained;
      index := null;
      return true;
    }

    static lemma {:induction false} RetainAgree(p: Params, b: Accounts, c: Accounts, ids: set<Identity>,
                                                dropSystem: bool, pool: seq<Tx>)
      requires Agree(b, c)
      ensures Retain(p, b, ids, dropSystem, pool) == Retain(p, c, ids, dropSystem, pool)
      decreases |pool|
    {
      if pool != [] {
        ApplyTxAgree(p, b, c, pool[0]);
        if !(dropSystem && pool[0].sender == SYSTEM) && IdentityOf(pool[0]) !in ids && ApplyTx(p, b, pool[0]).Some? {
          RetainAgree(p, ApplyTx(p, b, pool[0]).value, ApplyTx(p, c, pool[0]).value, ids, dropSystem, pool[1..]);
        } else {
          RetainAgree(p, b, c, ids, dropSystem, pool[1..]);
        }
      }
    }

    static method RetainPending(p: Params, start: Accounts, ids: set<Identity>, dropSystem: bool, pool: seq<Tx>)
      returns (retained: seq<Tx>)
      ensures retained == Retain(p, start, ids, dropSystem, pool)
    {
      retained := [];
      var balances := start;
      var i := 0;
      while i < |pool|
        invariant 0 <= i <= |pool|
        invariant retained + Retain(p, balances, ids, dropSystem, pool[i..]) == Retain(p, start, ids, dropSystem, pool)
      {
        assert pool[i..][0] == pool[i] && pool[i..][1..] == pool[i + 1..];
        var t := pool[i];
        i := i + 1;
        if dropSystem && t.sender == SYSTEM {
          continue;
        }
        if IdentityOf(t) in ids {
          continue;
        }
        var ok, trial := ApplyTransactions(p, [t], balances);
        ApplyOne(p, balances, t);
        if ok {
          retained := retained + [t];
          balances := trial;
        }
      }
    }

    // --------------------------------------------------------------- mining

    /** build_candidate_block. */
    method BuildCandidateBlock(raw: string, miner: string, now: real, stamp: real) returns (answer: BuildAnswer)
      requires Maintained()
      ensures answer == BuildCandidate(p, L(), raw, miner, now, stamp)
    {
      if raw == "" {
        return MinerMissing;
      }
      if IsSystem(miner) || miner == TREASURY {
        return ReservedAddress;
      }
      var valid := IsChainValid(false);
      if !valid {
        return ChainInvalid;
      }
      var latest := chain[|chain| - 1];
      if now - latest.data.timestamp < p.blockTimeMinimum as real {
        return Cooldown;
      }
      var confirmed := ConfirmedNow();
      SelectAgree(p, ConfirmedBalances(p, L()).value, confirmed.value, pending);
      var transactions := SelectValidPending(confirmed.value);
      var data := BlockData(latest.data.index + 1, stamp, transactions, latest.hash, 0, Some(miner));
      var block := Block(data, Digest(p, data), difficulty);
      if Present(latest.data.minerAddress) && latest.data.minerAddress == Some(miner)
         && stamp - latest.data.timestamp < 2.0 * p.blockTimeMinimum as real {
        return ConsecutiveMiner;
      }
      return Built(block, latest.hash);
    }

    /** finalize_mined_block. */
    method FinalizeMinedBlock(block: Block, expectedPreviousHash: string, now: real, later: real)
      returns (answer: FinalizeAnswer)
      requires Maintained()
      modifies this, index
      ensures Maintained() && index == old(index)
      ensures (L(), answer) == FinalizeAs(p, old(L()), AdmitAnswerBy(p, old(L()), block, old(Seen())), block,
                                          expectedPreviousHash, now, later)
      ensures ConfirmedBalances(p, old(L())).Some? ==>
                (L(), answer) == Finalize(p, old(L()), block, expectedPreviousHash, now, later)
    {
      if chain[|chain| - 1].hash != expectedPreviousHash {
        return Stale;
      }
      var added := AddBlock(block);
      match added
      case Rejected => return NotAccepted;
      case Failed => return FinalizeFailed;
      case Accepted => answer := PayRewards(block, now, later);
    }

    /** The reward pair, constructed before the reward is tested for being positive. */
    method PayRewards(block: Block, now: real, later: real) returns (answer: FinalizeAnswer)
      requires Maintained() && (index != null ==> index.fingerprint.None?)
      modifies this`pending
      ensures Maintained() && (L(), answer) == Pay(old(L()), block, now, later)
    {
      var reward := GetCurrentMiningReward();
      var minerShare, treasuryShare := MinerShare(reward), TreasuryShare(reward);
      if !Present(block.data.minerAddress) || minerShare <= 0 || treasuryShare <= 0 {
        return Unpaid;
      }
      var rewardTransaction := Mint(block.data.minerAddress.value, minerShare, now);
      var treasuryTransaction := Mint(TREASURY, treasuryShare, later);
      pending := if reward > 0.0 then [rewardTransaction, treasuryTransaction] else [];
      PoolReplaced();
      return Mined;
    }

    /** mine_pending_transactions. `solution` is some nonce that solves the candidate, without
        which the search would not end. */
    method MinePendingTransactions(raw: string, miner: string, now: real, stamp: real, paid: real, later: real,
                                   ghost solution: nat)
      returns (answer: MineAnswer, nonce: int)
      requires Maintained()
      requires BuildCandidate(p, L(), raw, miner, now, stamp).Built? ==>
                 Solves(p, BuildCandidate(p, L(), raw, miner, now, stamp).block, solution)
      modifies this, index
      ensures Maintained() && index == old(index)
      ensures (L(), answer) == Mine(p, old(L()), raw, miner, now, stamp, nonce, paid, later)
      ensures PoolApplies(p, old(L())) && now <= stamp && answer.Finalized? ==>
                L().chain == old(L()).chain + [answer.block] && answer.block.data.transactions == old(L()).pending
    {
      ghost var l := L();
      var built := BuildCandidateBlock(raw, miner, now, stamp);
      if !built.Built? {
        return NotBuilt(built), 0;
      }
      var work := new MutableBlock(p, built.block);
      work.ProofOfWork(Some(built.block.difficulty), solution);
      var block := work.Value();
      assert block == WithNonce(p, built.block, work.nonce);
      var finalized := FinalizeMinedBlock(block, built.expectedPreviousHash, paid, later);
      answer, nonce := Finalized(finalized, block), work.nonce;
      if PoolApplies(p, l) && now <= stamp {
        MineConfirmsPool(p, l, Pool.Event.Mining(raw, miner, now, stamp, nonce, paid, later));
      }
    }

    // -------------------------------------------------------------- pruning

    /** prune_chain; None is its ValueError, otherwise whether anything was dropped. */
    method PruneChain(keep: int) returns (pruned: Option<bool>)
      requires Maintained()
      modifies this, index
      ensures Maintained()
      ensures pruned.None? <==> keep < 1
      ensures L() == if keep < 1 then old(L()) else Prune(p, old(L()), keep)
      ensures pruned == Some(true) ==> index != null && fresh(index) && index.State() == BuildState(p, L())
    {
      if keep < 1 {
        return None;
      }
      if |chain| <= keep {
        return Some(false);
      }
      DropAndRebuild(keep);
      return Some(true);
    }

    method DropAndRebuild(keep: nat)
      requires MemoOk() && 1 <= keep < |chain|
      modifies this
      ensures Maintained() && L() == Prune(p, old(L()), keep)
      ensures index != null && fresh(index) && index.State() == BuildState(p, L())
    {
      DropBlocks(|chain| - keep);
      var x := RebuildIndexes();
    }

    /** Replaces the first n blocks by a snapshot and resets everything derived from them. */
    method DropBlocks(n: nat)
      requires MemoOk() && 0 < n < |chain|
      modifies this
      ensures Coherent() && index == null && L() == PrunedAt(p, old(L()), n)
    {
      var point := MakePrunePoint(n);
      prunePoint := Some(point);
      chain := chain[n..];
      validCache, validCacheHeight, validCacheTip := None, -1, "";
      index := null;
    }

    method MakePrunePoint(n: nat) returns (point: PrunePoint)
      requires 0 < n <= |chain|
      ensures point == PointAt(p, chain, prunePoint, n)
    {
      var last := chain[n - 1];
      var balances, issued := SettleChain(chain[..n], SeedBalances(prunePoint), SeedIssued(prunePoint));
      var snapshot := Snapshot(last.data.index, last.hash, issued, NonZero(balances));
      point := PrunePoint(snapshot, Commit(p, snapshot));
    }

    /** The balance loop of prune_chain and offered_chain_matches_prune_point. */
    static method SettleChain(blocks: seq<Block>, start: Accounts, startIssued: int)
      returns (balances: Accounts, issued: int)
      ensures balances == Settle(start, Txs(blocks)) && issued == startIssued + Issued(Txs(blocks))
    {
      balances, issued := start, startIssued;
      var i := 0;
      while i < |blocks|
        invariant 0 <= i <= |blocks|
        invariant Settle(balances, Txs(blocks[i..])) == Settle(start, Txs(blocks))
        invariant issued + Issued(Txs(blocks[i..])) == startIssued + Issued(Txs(blocks))
      {
        assert blocks[i..][0] == blocks[i] && blocks[i..][1..] == blocks[i + 1..];
        SettleConcat(balances, blocks[i].data.transactions, Txs(blocks[i + 1..]));
        IssuedConcat(blocks[i].data.transactions, Txs(blocks[i + 1..]));
        balances, issued := SettleTransactions(blocks[i].data.transactions, balances, issued);
        i := i + 1;
      }
    }

    static method SettleTransactions(ts: seq<Tx>, start: Accounts, startIssued: int)
      returns (balances: Accounts, issued: int)
      ensures balances == Settle(start, ts) && issued == startIssued + Issued(ts)
    {
      balances, issued := start, startIssued;
      var i := 0;
      while i < |ts|
        invariant 0 <= i <= |ts|
        invariant Settle(balances, ts[i..]) == Settle(start, ts)
        invariant issued + Issued(ts[i..]) == startIssued + Issued(ts)
      {
        assert ts[i..][0] == ts[i] && ts[i..][1..] == ts[i + 1..];
        var t := ts[i];
        ghost var before := balances;
        if t.sender == SYSTEM {
          issued := issued + t.amount;
        } else {
          balances := balances[t.sender := Get(balances, t.sender) - t.amount];
        }
        balances := balances[t.receiver := Get(balances, t.receiver) + t.amount];
        assert balances == SettleTx(before, t);
        i := i + 1;
      }
    }

    /** The field updates by which sync_chain adopts a full chain. */
    method SwitchTo(offered: seq<Block>)
      requires offered != []
      modifies this
      ensures Coherent() && index == null && L() == old(L()).(chain := offered, prunePoint := None)
    {
      chain, prunePoint, index := offered, None, null;
      validCache, validCacheHeight, validCacheTip := None, -1, "";
    }

    /** offered_chain_matches_prune_point. */
    method OfferedChainMatchesPrunePoint(offered: seq<Block>) returns (ok: bool)
      ensures ok == OfferedMatches(p, L(), offered)
    {
      if prunePoint.None? {
        return true;
      }
      var height, hash := prunePoint.value.snapshot.height, prunePoint.value.snapshot.blockHash;
      var at := FirstAt(offered, height);
      if at.None? || offered[at.value].hash != hash {
        return false;
      }
      var kept := BlocksUpTo(offered, height);
      var balances, issued := SettleChain(kept, map[], 0);
      return Commit(p, Snapshot(height, hash, issued, NonZero(balances))) == prunePoint.value.commitment;
    }

    static method BlocksUpTo(offered: seq<Block>, height: int) returns (kept: seq<Block>)
      ensures kept == UpTo(offered, height)
    {
      kept := [];
      var i := 0;
      while i < |offered|
        invariant 0 <= i <= |offered|
        invariant kept + UpTo(offered[i..], height) == UpTo(offered, height)
      {
        assert offered[i..][0] == offered[i] && offered[i..][1..] == offered[i + 1..];
        if offered[i].data.index <= height {
          kept := kept + [offered[i]];
        }
        i := i + 1;
      }
    }
  }
}
