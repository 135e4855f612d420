/** The whole read index: confirmed core, pending overlay, summary and the tip it belongs to.
    Appending a block and refreshing the overlay are shown to keep it equal to a rebuild. */
module IndexStates {
  import opened Protocol
  import opened Balances
  import opened Ledgers
  import opened Indexing

  datatype IndexState = IndexState(maps: Maps, chainHeight: int, latestBlockHash: string, pendingIds: set<string>,
                                   pendingByAddress: Buckets, fingerprint: Option<seq<string>>)

  // --------------------------------------------------------------- overlay

  function PendingRecords(pending: seq<Tx>): (r: seq<TxRecord>)
    ensures |r| == |pending| && forall i :: 0 <= i < |r| ==> r[i] == TxRecord(pending[i], Pending, None, i)
  {
    seq(|pending|, i requires 0 <= i < |pending| => TxRecord(pending[i], Pending, None, i))
  }

  /** dict.setdefault for each record in turn. */
  function Overlay(p: Params, m: map<string, TxRecord>, records: seq<TxRecord>): map<string, TxRecord>
    decreases |records|
  {
    if records == [] then m
    else
      var id := TxId(p, records[0].tx);
      Overlay(p, if id in m then m else m[id := records[0]], records[1..])
  }

  function IdsOf(p: Params, records: seq<TxRecord>): set<string> {
    set r | r in records :: TxId(p, r.tx)
  }

  /** The previous overlay's own additions taken out again. */
  function Strip(m: map<string, TxRecord>, ids: set<string>): map<string, TxRecord> {
    map k | k in m && !(k in ids && m[k].status.Pending?) :: m[k]
  }

  /** _pending_fingerprint. */
  function Fingerprint(p: Params, pending: seq<Tx>): seq<string> {
    seq(|pending|, i requires 0 <= i < |pending| => TxId(p, pending[i]))
  }

  /** The record an overlay shows for an id it does not take from the core. */
  function FirstRecord(p: Params, records: seq<TxRecord>, id: string): Option<TxRecord> {
    if records == [] then None
    else if TxId(p, records[0].tx) == id then Some(records[0])
    else FirstRecord(p, records[1..], id)
  }

  lemma {:induction false} OverlayAt(p: Params, m: map<string, TxRecord>, records: seq<TxRecord>, id: string)
    ensures id in m ==> id in Overlay(p, m, records) && Overlay(p, m, records)[id] == m[id]
    ensures id !in m ==> (id in Overlay(p, m, records) <==> FirstRecord(p, records, id).Some?)
    ensures id !in m && id in Overlay(p, m, records) ==> Overlay(p, m, records)[id] == FirstRecord(p, records, id).value
    decreases |records|
  {
    if records != [] {
      var first := TxId(p, records[0].tx);
      OverlayAt(p, if first in m then m else m[first := records[0]], records[1..], id);
    }
  }

  lemma {:induction false} FirstRecordIn(p: Params, records: seq<TxRecord>, id: string)
    ensures FirstRecord(p, records, id).Some? ==> FirstRecord(p, records, id).value in records
    ensures FirstRecord(p, records, id).Some? ==> TxId(p, FirstRecord(p, records, id).value.tx) == id
    decreases |records|
  {
    if records != [] && TxId(p, records[0].tx) != id {
      FirstRecordIn(p, records[1..], id);
      assert forall r :: r in records[1..] ==> r in records;
    }
  }

  predicate AllPending(records: seq<TxRecord>) {
    forall i :: 0 <= i < |records| ==> records[i].status.Pending?
  }

  /** Refreshing first undoes the old overlay exactly. */
  lemma {:induction false} StripUndoesOverlay(p: Params, m: map<string, TxRecord>, records: seq<TxRecord>)
    requires AllPending(records) && forall k :: k in m ==> m[k].status.Confirmed?
    ensures Strip(Overlay(p, m, records), IdsOf(p, records)) == m
  {
    var stripped := Strip(Overlay(p, m, records), IdsOf(p, records));
    forall k
      ensures k in stripped <==> k in m
      ensures k in m ==> stripped[k] == m[k]
    {
      OverlayAt(p, m, records, k);
      FirstRecordIn(p, records, k);
    }
  }

  lemma OverlayPut(p: Params, m: map<string, TxRecord>, records: seq<TxRecord>, id: string, r: TxRecord)
    ensures Overlay(p, m, records)[id := r] == Overlay(p, m[id := r], records)
  {
    var left, right := Overlay(p, m, records)[id := r], Overlay(p, m[id := r], records);
    forall k
      ensures k in left <==> k in right
      ensures k in left ==> left[k] == right[k]
    {
      OverlayAt(p, m, records, k);
      OverlayAt(p, m[id := r], records, k);
    }
  }

  /** Confirming transactions under an overlay is overlaying the confirmed transactions. */
  lemma {:induction false} OverlayPutIds(p: Params, m: map<string, TxRecord>, records: seq<TxRecord>,
                                         confirmed: seq<TxRecord>)
    ensures PutIds(p, Overlay(p, m, records), confirmed) == Overlay(p, PutIds(p, m, confirmed), records)
    decreases |confirmed|
  {
    if confirmed != [] {
      var id := TxId(p, confirmed[0].tx);
      OverlayPut(p, m, records, id, confirmed[0]);
      OverlayPutIds(p, m[id := confirmed[0]], records, confirmed[1..]);
    }
  }

  lemma {:induction false} PutIdsConfirmed(p: Params, m: map<string, TxRecord>, records: seq<TxRecord>)
    requires AllConfirmed(records) && forall k :: k in m ==> m[k].status.Confirmed?
    ensures forall k :: k in PutIds(p, m, records) ==> PutIds(p, m, records)[k].status.Confirmed?
    decreases |records|
  {
    if records != [] {
      PutIdsConfirmed(p, m[TxId(p, records[0].tx) := records[0]], records[1..]);
    }
  }

  lemma {:induction false} CoreConfirmed(p: Params, seed: Accounts, chain: seq<Block>)
    ensures forall k :: k in CoreOf(p, seed, chain).byId ==> CoreOf(p, seed, chain).byId[k].status.Confirmed?
    decreases |chain|
  {
    if chain != [] {
      CoreConfirmed(p, seed, chain[..|chain| - 1]);
      PutIdsConfirmed(p, CoreOf(p, seed, chain[..|chain| - 1]).byId, Records(chain[|chain| - 1]));
    }
  }

  // --------------------------------------------------------------- rebuild

  function SummaryOf(p: Params, l: Ledger): Summary
    requires l.chain != []
  {
    Summary(Height(l), |l.chain|, |Txs(l.chain)|, TotalIssued(l), l.difficulty, CurrentReward(l),
            Tip(l).hash, Tip(l).data.timestamp, Valid(p, l))
  }

  /** The newest blocks first, at most 500 of them, as the rebuild looks them up by index. */
  function LatestOf(blocks: map<int, BlockRecord>, chain: seq<Block>): seq<BlockRecord>
    requires forall i :: 0 <= i < |chain| ==> chain[i].data.index in blocks
  {
    var n := if |chain| < LATEST_BLOCK_LIMIT then |chain| else LATEST_BLOCK_LIMIT;
    seq(n, i requires 0 <= i < n => blocks[chain[|chain| - 1 - i].data.index])
  }

  function SeedCore(p: Params, l: Ledger): Core {
    CoreOf(p, SeedBalances(l.prunePoint), l.chain)
  }

  function CoreLatest(p: Params, l: Ledger): seq<BlockRecord> {
    CoreIndices(p, SeedBalances(l.prunePoint), l.chain);
    assert forall i :: 0 <= i < |l.chain| ==> UsesIndex(l.chain, l.chain[i].data.index);
    LatestOf(SeedCore(p, l).blocksByIndex, l.chain)
  }

  /** BlockchainIndexes.build. */
  function BuildState(p: Params, l: Ledger): IndexState
    requires l.chain != []
  {
    var c := SeedCore(p, l);
    var records := PendingRecords(l.pending);
    IndexState(Maps(c.blocksByIndex, c.blocksByHash, Overlay(p, c.byId, records), c.byAddress, c.byBlock,
                    Settle(c.confirmed, l.pending), c.confirmed, c.miners, CoreLatest(p, l), c.treasury,
                    SummaryOf(p, l)),
               Height(l), Tip(l).hash, IdsOf(p, records), MergeRecords(map[], records), Some(Fingerprint(p, l.pending)))
  }

  // ----------------------------------------------------------- incremental

  function Truncate(s: seq<BlockRecord>): seq<BlockRecord> {
    if |s| > LATEST_BLOCK_LIMIT then s[..LATEST_BLOCK_LIMIT] else s
  }

  function CoreIn(m: Maps): Core {
    Core(m.blocksByIndex, m.blocksByHash, m.byId, m.byAddress, m.byBlock, m.confirmed, m.miners, m.treasury)
  }

  /** What add_block adds to the running summary; the rest is read off the ledger. */
  function MergeSummary(p: Params, s: Summary, l: Ledger, b: Block): Summary
    requires l.chain != []
  {
    Summary(Height(l), |l.chain|, s.totalTransactions + |b.data.transactions|,
            s.totalIssued + Issued(b.data.transactions), l.difficulty, CurrentReward(l), b.hash, b.data.timestamp,
            Valid(p, l))
  }

  /** BlockchainIndexes.add_block; l is the ledger after the append. */
  function MergeState(p: Params, x: IndexState, l: Ledger, b: Block): IndexState
    requires l.chain != []
  {
    var c := MergeBlock(p, CoreIn(x.maps), b);
    x.(maps := Maps(c.blocksByIndex, c.blocksByHash, c.byId, c.byAddress, c.byBlock, x.maps.balances, c.confirmed,
                    c.miners,
                    Truncate([RecordOf(b)] + x.maps.latest), c.treasury, MergeSummary(p, x.maps.summary, l, b)),
       chainHeight := Height(l), latestBlockHash := b.hash, fingerprint := None)
  }

  /** BlockchainIndexes.refresh_pending_overlay. */
  function RefreshState(p: Params, x: IndexState, pending: seq<Tx>): IndexState {
    var records := PendingRecords(pending);
    x.(maps := x.maps.(byId := Overlay(p, Strip(x.maps.byId, x.pendingIds), records),
                       balances := Settle(x.maps.confirmed, pending)),
       pendingIds := IdsOf(p, records), pendingByAddress := MergeRecords(map[], records),
       fingerprint := Some(Fingerprint(p, pending)))
  }

  // -------------------------------------------------------------- coherence

  /** The part of the index that is right on every chain; q is the pool its overlay shows. */
  predicate AlwaysRight(p: Params, l: Ledger, x: IndexState, q: seq<Tx>)
    requires l.chain != []
  {
    var c := SeedCore(p, l);
    && x.maps.byId == Overlay(p, c.byId, PendingRecords(q))
    && x.maps.confirmed == c.confirmed
    && x.maps.blocksByIndex == c.blocksByIndex
    && x.maps.blocksByHash == c.blocksByHash
    && x.maps.miners == c.miners
    && x.maps.treasury == c.treasury
    && x.maps.summary == SummaryOf(p, l)
    && x.chainHeight == Height(l)
    && x.latestBlockHash == Tip(l).hash
    && x.pendingIds == IdsOf(p, PendingRecords(q))
  }

  /** The part that needs a chain without repeated indices or transactions. */
  predicate RightWhenRegular(p: Params, l: Ledger, x: IndexState) {
    Regular(p, l.chain) ==>
      && x.maps.byAddress == SeedCore(p, l).byAddress
      && x.maps.byBlock == SeedCore(p, l).byBlock
      && x.maps.latest == CoreLatest(p, l)
  }

  /** The overlay, when the index claims to have one. */
  predicate OverlayRight(p: Params, x: IndexState, q: seq<Tx>) {
    x.fingerprint.Some? ==>
      && x.fingerprint.value == Fingerprint(p, q)
      && x.maps.balances == Settle(x.maps.confirmed, q)
      && x.pendingByAddress == MergeRecords(map[], PendingRecords(q))
  }

  predicate IndexOk(p: Params, l: Ledger, x: IndexState, q: seq<Tx>)
    requires l.chain != []
  {
    AlwaysRight(p, l, x, q) && RightWhenRegular(p, l, x) && OverlayRight(p, x, q)
  }

  lemma BuildIsOk(p: Params, l: Ledger)
    requires l.chain != []
    ensures IndexOk(p, l, BuildState(p, l), l.pending)
  {}

  lemma {:induction false} CoreBalances(p: Params, seed: Accounts, chain: seq<Block>)
    ensures CoreOf(p, seed, chain).confirmed == Settle(seed, Txs(chain))
    decreases |chain|
  {
    if chain != [] {
      var init, b := chain[..|chain| - 1], chain[|chain| - 1];
      assert init + [b] == chain;
      CoreBalances(p, seed, init);
      TxsAppend(init, b);
      SettleConcat(seed, Txs(init), b.data.transactions);
    }
  }

  lemma MergeSummaryRight(p: Params, l: Ledger, b: Block)
    requires l.chain != []
    ensures MergeSummary(p, SummaryOf(p, l), Append(p, l, b), b) == SummaryOf(p, Append(p, l, b))
  {
    TxsAppend(l.chain, b);
    IssuedConcat(Txs(l.chain), b.data.transactions);
  }

  lemma {:induction false} MergeByIdRight(p: Params, c: Core, m: map<string, TxRecord>, q: seq<Tx>, b: Block)
    requires m == Overlay(p, c.byId, PendingRecords(q))
    ensures PutIds(p, m, Records(b)) == Overlay(p, BuildBlock(p, c, b).byId, PendingRecords(q))
  {
    OverlayPutIds(p, c.byId, PendingRecords(q), Records(b));
  }

  lemma MergeAlwaysRight(p: Params, l: Ledger, x: IndexState, q: seq<Tx>, b: Block)
    requires l.chain != [] && AlwaysRight(p, l, x, q)
    ensures AlwaysRight(p, Append(p, l, b), MergeState(p, x, Append(p, l, b), b), q)
  {
    CoreAppend(p, SeedBalances(l.prunePoint), l.chain, b);
    MergeByIdRight(p, SeedCore(p, l), x.maps.byId, q, b);
    MergeSummaryRight(p, l, b);
  }

  function BlocksOf(chain: seq<Block>): map<int, BlockRecord> {
    if chain == [] then map[]
    else BlocksOf(chain[..|chain| - 1])[chain[|chain| - 1].data.index := RecordOf(chain[|chain| - 1])]
  }

  lemma {:induction false} CoreBlocks(p: Params, seed: Accounts, chain: seq<Block>)
    ensures CoreOf(p, seed, chain).blocksByIndex == BlocksOf(chain)
    decreases |chain|
  {
    if chain != [] {
      CoreBlocks(p, seed, chain[..|chain| - 1]);
    }
  }

  lemma {:induction false} BlockAtIndex(chain: seq<Block>, i: nat)
    requires IndicesDistinct(chain) && i < |chain|
    ensures chain[i].data.index in BlocksOf(chain)
    ensures BlocksOf(chain)[chain[i].data.index] == RecordOf(chain[i])
    decreases |chain|
  {
    var last := |chain| - 1;
    if i < last {
      assert chain[i].data.index != chain[last].data.index;
      BlockAtIndex(chain[..last], i);
    }
  }

  /** The newest blocks' own records, newest first. */
  function NewestRecords(chain: seq<Block>): (r: seq<BlockRecord>)
    ensures |r| == if |chain| < LATEST_BLOCK_LIMIT then |chain| else LATEST_BLOCK_LIMIT
    ensures forall i :: 0 <= i < |r| ==> r[i] == RecordOf(chain[|chain| - 1 - i])
  {
    var n := if |chain| < LATEST_BLOCK_LIMIT then |chain| else LATEST_BLOCK_LIMIT;
    seq(n, i requires 0 <= i < n => RecordOf(chain[|chain| - 1 - i]))
  }

  /** On distinct indices that is what the latest window holds. */
  lemma {:induction false} LatestIsNewest(blocks: map<int, BlockRecord>, chain: seq<Block>)
    requires IndicesDistinct(chain) && blocks == BlocksOf(chain)
    requires forall i :: 0 <= i < |chain| ==> chain[i].data.index in blocks
    ensures LatestOf(blocks, chain) == NewestRecords(chain)
  {
    forall i | 0 <= i < |NewestRecords(chain)| ensures LatestOf(blocks, chain)[i] == NewestRecords(chain)[i] {
      BlockAtIndex(chain, |chain| - 1 - i);
    }
  }

  lemma CoreLatestIsNewest(p: Params, l: Ledger)
    requires IndicesDistinct(l.chain)
    ensures CoreLatest(p, l) == NewestRecords(l.chain)
  {
    CoreBlocks(p, SeedBalances(l.prunePoint), l.chain);
    forall i | 0 <= i < |l.chain| ensures l.chain[i].data.index in BlocksOf(l.chain) {
      BlockAtIndex(l.chain, i);
    }
    LatestIsNewest(BlocksOf(l.chain), l.chain);
  }

  lemma NewestAppend(chain: seq<Block>, b: Block)
    ensures NewestRecords(chain + [b]) == Truncate([RecordOf(b)] + NewestRecords(chain))
  {}

  lemma MergeLatest(p: Params, l: Ledger, b: Block)
    requires Regular(p, l.chain + [b])
    ensures CoreLatest(p, Append(p, l, b)) == Truncate([RecordOf(b)] + CoreLatest(p, l))
  {
    RegularPrefix(p, l.chain, b);
    CoreLatestIsNewest(p, l);
    CoreLatestIsNewest(p, Append(p, l, b));
    NewestAppend(l.chain, b);
  }

  lemma MergeRightWhenRegular(p: Params, l: Ledger, x: IndexState, b: Block)
    requires l.chain != [] && RightWhenRegular(p, l, x)
    ensures RightWhenRegular(p, Append(p, l, b), MergeState(p, x, Append(p, l, b), b))
  {
    if Regular(p, l.chain + [b]) {
      RegularPrefix(p, l.chain, b);
      MergeOnRegular(p, SeedBalances(l.prunePoint), l.chain, b);
      MergeLatest(p, l, b);
    }
  }

  /** Merging a block keeps the index right. */
  lemma MergeKeepsIndex(p: Params, l: Ledger, x: IndexState, q: seq<Tx>, b: Block)
    requires l.chain != [] && IndexOk(p, l, x, q)
    ensures IndexOk(p, Append(p, l, b), MergeState(p, x, Append(p, l, b), b), q)
  {
    MergeAlwaysRight(p, l, x, q, b);
    MergeRightWhenRegular(p, l, x, b);
  }

  /** Refreshing the overlay keeps the index right and makes it show the given pool. */
  lemma RefreshKeepsIndex(p: Params, l: Ledger, x: IndexState, q: seq<Tx>, pending: seq<Tx>)
    requires l.chain != [] && IndexOk(p, l, x, q)
    ensures IndexOk(p, l, RefreshState(p, x, pending), pending)
  {
    var c := SeedCore(p, l);
    CoreConfirmed(p, SeedBalances(l.prunePoint), l.chain);
    StripUndoesOverlay(p, c.byId, PendingRecords(q));
  }

  /** The pool is not part of what the index says about the chain. */
  lemma PoolDoesNotMatter(p: Params, l: Ledger, x: IndexState, q: seq<Tx>, pending: seq<Tx>)
    requires l.chain != []
    ensures IndexOk(p, l.(pending := pending), x, q) <==> IndexOk(p, l, x, q)
  {}

  /** The same for readers: everything but the address buckets, per-block buckets and window,
      and those too when the chain repeats nothing. */
  predicate SameIndex(p: Params, l: Ledger, x: IndexState, y: IndexState) {
    && y == x.(maps := x.maps.(byAddress := y.maps.byAddress, byBlock := y.maps.byBlock, latest := y.maps.latest))
    && (Regular(p, l.chain) ==> x == y)
  }

  /** A right index whose fingerprint matches the pool is the rebuilt index. Pools only grow
      between refreshes, so equally many ids mean the same pool, whatever the ids are. */
  lemma CurrentIndexIsRebuild(p: Params, l: Ledger, x: IndexState, q: seq<Tx>)
    requires l.chain != [] && IndexOk(p, l, x, q)
    requires q <= l.pending && x.fingerprint == Some(Fingerprint(p, l.pending))
    ensures q == l.pending && SameIndex(p, l, x, BuildState(p, l))
  {
    assert |q| == |Fingerprint(p, q)| == |Fingerprint(p, l.pending)| == |l.pending|;
  }

  /** Conservation: what the index shows as confirmed sums to what has been issued, provided
      the prune snapshot did. */
  lemma IndexConservesSupply(p: Params, l: Ledger, x: IndexState, q: seq<Tx>)
    requires l.chain != [] && IndexOk(p, l, x, q)
    requires Total(SeedBalances(l.prunePoint)) == SeedIssued(l.prunePoint)
    ensures Total(x.maps.confirmed) == x.maps.summary.totalIssued == TotalIssued(l)
  {
    CoreBalances(p, SeedBalances(l.prunePoint), l.chain);
    SettleTotal(SeedBalances(l.prunePoint), Txs(l.chain));
  }

  /** Snapshots conserve too: zero balances are dropped, money is not. */
  lemma SnapshotConservesSupply(p: Params, chain: seq<Block>, pp: Option<PrunePoint>, n: nat)
    requires 0 < n <= |chain| && Total(SeedBalances(pp)) == SeedIssued(pp)
    ensures Total(PointAt(p, chain, pp, n).snapshot.balances) == PointAt(p, chain, pp, n).snapshot.totalIssued
  {
    var gone := Txs(chain[..n]);
    SettleTotal(SeedBalances(pp), gone);
    NonZeroTotal(Settle(SeedBalances(pp), gone));
  }

  /** So conservation survives every prune. */
  lemma PruneConservesSupply(p: Params, l: Ledger, keep: nat)
    requires keep >= 1 && Total(SeedBalances(l.prunePoint)) == SeedIssued(l.prunePoint)
    ensures Total(SeedBalances(Prune(p, l, keep).prunePoint)) == SeedIssued(Prune(p, l, keep).prunePoint)
  {
    if |l.chain| > keep {
      SnapshotConservesSupply(p, l.chain, l.prunePoint, |l.chain| - keep);
    }
  }
}
