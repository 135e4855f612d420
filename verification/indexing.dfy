/** The read index as a value (blockchain/indexes.py): what a rebuild from the whole chain
    computes, what merging a single new block computes, and when the two agree. */
module Indexing {
  import opened Protocol
  import opened Balances
  import opened Ledgers

  const LATEST_BLOCK_LIMIT: nat := 500

  datatype Status = Confirmed | Pending

  datatype TxRecord = TxRecord(tx: Tx, status: Status, block: Option<(int, string, real)>, position: nat)

  datatype BlockRecord = BlockRecord(block: Block, transactions: seq<TxRecord>)

  datatype MinerStats = MinerStats(blocksMined: nat, lastBlockIndex: int, lastBlockHash: string, lastMinedAt: real)

  datatype Summary = Summary(blockHeight: int, totalBlocks: nat, totalTransactions: nat, totalIssued: int,
                             difficulty: int,
                             reward: real, lastBlockHash: string, lastBlockTimestamp: real, chainValid: bool)

  /** Address buckets and the treasury ledger are bags: their order is not modelled. */
  type Buckets = map<Address, multiset<TxRecord>>

  datatype Maps = Maps(blocksByIndex: map<int, BlockRecord>,
                       blocksByHash: map<string, BlockRecord>,
                       byId: map<string, TxRecord>,
                       byAddress: Buckets,
                       byBlock: map<int, seq<TxRecord>>,
                       balances: Accounts,
                       confirmed: Accounts,
                       miners: map<Address, MinerStats>,
                       latest: seq<BlockRecord>,
                       treasury: multiset<TxRecord>,
                       summary: Summary)

  // --------------------------------------------------------------- records

  function ConfirmedRecord(b: Block, i: nat): TxRecord
    requires i < |b.data.transactions|
  {
    TxRecord(b.data.transactions[i], Confirmed, Some((b.data.index, b.hash, b.data.timestamp)), i)
  }

  function Records(b: Block): (r: seq<TxRecord>)
    ensures |r| == |b.data.transactions|
    ensures forall i :: 0 <= i < |r| ==> r[i] == ConfirmedRecord(b, i)
  {
    seq(|b.data.transactions|, i requires 0 <= i < |b.data.transactions| => ConfirmedRecord(b, i))
  }

  function RecordOf(b: Block): BlockRecord {
    BlockRecord(b, Records(b))
  }

  function PutIds(p: Params, m: map<string, TxRecord>, records: seq<TxRecord>): map<string, TxRecord>
    decreases |records|
  {
    if records == [] then m else PutIds(p, m[TxId(p, records[0].tx) := records[0]], records[1..])
  }

  predicate OfTreasury(r: TxRecord) {
    r.tx.sender == TREASURY || r.tx.receiver == TREASURY
  }

  function TreasuryRecords(records: seq<TxRecord>): multiset<TxRecord> {
    if records == [] then multiset{}
    else (if OfTreasury(records[0]) then multiset{records[0]} else multiset{}) + TreasuryRecords(records[1..])
  }

  function CountBlock(miners: map<Address, MinerStats>, b: Block): map<Address, MinerStats> {
    if !Present(b.data.minerAddress) then miners
    else
      var a := b.data.minerAddress.value;
      var mined := if a in miners then miners[a].blocksMined else 0;
      miners[a := MinerStats(mined + 1, b.data.index, b.hash, b.data.timestamp)]
  }

  // --------------------------------------------------------------- buckets

  function Bucket(m: Buckets, a: Address): multiset<TxRecord> {
    if a in m then m[a] else multiset{}
  }

  function Add(m: Buckets, a: Address, r: TxRecord): Buckets {
    m[a := Bucket(m, a) + multiset{r}]
  }

  /** _append_address_record: a record whose id and status are already in the bucket is skipped. */
  predicate Holds(p: Params, m: Buckets, a: Address, r: TxRecord) {
    exists x :: x in Bucket(m, a) && TxId(p, x.tx) == TxId(p, r.tx) && x.status == r.status
  }

  function AppendRecord(p: Params, m: Buckets, a: Address, r: TxRecord): Buckets {
    if Holds(p, m, a, r) then m else Add(m, a, r)
  }

  /** The rebuild's treatment of one record. */
  function BuildRecord(p: Params, m: Buckets, r: TxRecord): Buckets {
    AppendRecord(p, AppendRecord(p, m, r.tx.sender, r), r.tx.receiver, r)
  }

  function BuildRecords(p: Params, m: Buckets, records: seq<TxRecord>): Buckets
    decreases |records|
  {
    if records == [] then m else BuildRecords(p, BuildRecord(p, m, records[0]), records[1..])
  }

  /** The incremental merge's treatment of one record: no look at what is already there. */
  function MergeRecord(m: Buckets, r: TxRecord): Buckets {
    var m' := Add(m, r.tx.sender, r);
    if r.tx.receiver == r.tx.sender then m' else Add(m', r.tx.receiver, r)
  }

  function MergeRecords(m: Buckets, records: seq<TxRecord>): Buckets
    decreases |records|
  {
    if records == [] then m else MergeRecords(MergeRecord(m, records[0]), records[1..])
  }

  /** Prepending the collected groups to the buckets. */
  function Prepend(m: Buckets, groups: Buckets): Buckets {
    map a | a in m.Keys + groups.Keys :: Bucket(m, a) + Bucket(groups, a)
  }

  lemma PrependEmpty(m: Buckets)
    ensures Prepend(m, map[]) == m
  {
    var left := Prepend(m, map[]);
    assert left.Keys == m.Keys;
    forall a | a in left ensures left[a] == m[a] {}
  }

  lemma PrependBucket(m: Buckets, groups: Buckets, a: Address)
    ensures Bucket(Prepend(m, groups), a) == Bucket(m, a) + Bucket(groups, a)
  {}

  lemma BagAssociative(x: multiset<TxRecord>, y: multiset<TxRecord>, z: multiset<TxRecord>)
    ensures x + (y + z) == (x + y) + z
  {}

  lemma PrependAddAt(m: Buckets, groups: Buckets, a: Address, r: TxRecord, x: Address)
    ensures Bucket(Prepend(m, Add(groups, a, r)), x) == Bucket(Add(Prepend(m, groups), a, r), x)
  {
    PrependBucket(m, groups, x);
    PrependBucket(m, Add(groups, a, r), x);
    BagAssociative(Bucket(m, a), Bucket(groups, a), multiset{r});
  }

  lemma SameBuckets(m: Buckets, n: Buckets)
    requires m.Keys == n.Keys && forall x :: Bucket(m, x) == Bucket(n, x)
    ensures m == n
  {
    forall x | x in m ensures m[x] == n[x] {
      assert Bucket(m, x) == Bucket(n, x);
    }
  }

  lemma PrependAddKeys(m: Buckets, groups: Buckets, a: Address, r: TxRecord)
    ensures Prepend(m, Add(groups, a, r)).Keys == Add(Prepend(m, groups), a, r).Keys
  {}

  lemma PrependAdd(m: Buckets, groups: Buckets, a: Address, r: TxRecord)
    ensures Prepend(m, Add(groups, a, r)) == Add(Prepend(m, groups), a, r)
  {
    PrependAddKeys(m, groups, a, r);
    forall x ensures Bucket(Prepend(m, Add(groups, a, r)), x) == Bucket(Add(Prepend(m, groups), a, r), x) {
      PrependAddAt(m, groups, a, r, x);
    }
    SameBuckets(Prepend(m, Add(groups, a, r)), Add(Prepend(m, groups), a, r));
  }

  lemma PrependRecord(m: Buckets, groups: Buckets, r: TxRecord)
    ensures Prepend(m, MergeRecord(groups, r)) == MergeRecord(Prepend(m, groups), r)
  {
    PrependAdd(m, groups, r.tx.sender, r);
    PrependAdd(m, Add(groups, r.tx.sender, r), r.tx.receiver, r);
  }

  /** Grouping a block's records first and prepending the groups once is merging one by one. */
  lemma {:induction false} PrependGroups(m: Buckets, groups: Buckets, records: seq<TxRecord>)
    ensures Prepend(m, MergeRecords(groups, records)) == MergeRecords(Prepend(m, groups), records)
    decreases |records|
  {
    if records != [] {
      PrependRecord(m, groups, records[0]);
      PrependGroups(m, MergeRecord(groups, records[0]), records[1..]);
    }
  }

  // ------------------------------------------ rebuild against incremental

  /** No record of the list is already in one of its buckets when its turn comes. */
  predicate Unseen(p: Params, m: Buckets, records: seq<TxRecord>)
    decreases |records|
  {
    records == [] ||
    (var r := records[0];
     && !Holds(p, m, r.tx.sender, r)
     && !Holds(p, m, r.tx.receiver, r)
     && Unseen(p, MergeRecord(m, r), records[1..]))
  }

  /** When appended to its receiver's bucket, the record has already been offered to its sender's. */
  lemma BuildRecordShape(p: Params, m: Buckets, r: TxRecord)
    ensures BuildRecord(p, m, r) ==
            var m' := AppendRecord(p, m, r.tx.sender, r);
            if r.tx.receiver == r.tx.sender then m' else AppendRecord(p, m', r.tx.receiver, r)
    ensures r.tx.receiver != r.tx.sender ==>
              (Holds(p, AppendRecord(p, m, r.tx.sender, r), r.tx.receiver, r) <==> Holds(p, m, r.tx.receiver, r))
  {}

  lemma BuildRecordUnseen(p: Params, m: Buckets, r: TxRecord)
    requires !Holds(p, m, r.tx.sender, r) && !Holds(p, m, r.tx.receiver, r)
    ensures BuildRecord(p, m, r) == MergeRecord(m, r)
  {}

  /** How many records each treatment adds to a bucket. */
  lemma MergeGrowth(m: Buckets, r: TxRecord, a: Address)
    ensures |Bucket(MergeRecord(m, r), a)| == |Bucket(m, a)| + (if a == r.tx.sender || a == r.tx.receiver then 1 else 0)
  {}

  lemma AppendGrowth(p: Params, m: Buckets, at: Address, r: TxRecord, a: Address)
    ensures |Bucket(AppendRecord(p, m, at, r), a)| == |Bucket(m, a)| + (if a == at && !Holds(p, m, at, r) then 1 else 0)
  {}

  lemma BuildGrowth(p: Params, m: Buckets, r: TxRecord, a: Address)
    ensures |Bucket(BuildRecord(p, m, r), a)| ==
            |Bucket(m, a)| + (if (a == r.tx.sender || a == r.tx.receiver) && !Holds(p, m, a, r) then 1 else 0)
  {
    BuildRecordShape(p, m, r);
    AppendGrowth(p, m, r.tx.sender, r, a);
    AppendGrowth(p, AppendRecord(p, m, r.tx.sender, r), r.tx.receiver, r, a);
  }

  lemma {:induction false} BuildAllAddsNoMore(p: Params, m: Buckets, n: Buckets, records: seq<TxRecord>, a: Address)
    ensures |Bucket(BuildRecords(p, m, records), a)| - |Bucket(m, a)| <=
              |Bucket(MergeRecords(n, records), a)| - |Bucket(n, a)|
    decreases |records|
  {
    if records != [] {
      BuildGrowth(p, m, records[0], a);
      MergeGrowth(n, records[0], a);
      BuildAllAddsNoMore(p, BuildRecord(p, m, records[0]), MergeRecord(n, records[0]), records[1..], a);
    }
  }

  /** The merge and the rebuild fill the address buckets alike exactly when nothing is seen twice. */
  lemma {:induction false} BucketsAgreeExactly(p: Params, m: Buckets, records: seq<TxRecord>)
    ensures BuildRecords(p, m, records) == MergeRecords(m, records) <==> Unseen(p, m, records)
    decreases |records|
  {
    if records != [] {
      var r, rest := records[0], records[1..];
      if Holds(p, m, r.tx.sender, r) || Holds(p, m, r.tx.receiver, r) {
        var a := if Holds(p, m, r.tx.sender, r) then r.tx.sender else r.tx.receiver;
        BuildGrowth(p, m, r, a);
        MergeGrowth(m, r, a);
        BuildAllAddsNoMore(p, BuildRecord(p, m, r), MergeRecord(m, r), rest, a);
        assert |Bucket(BuildRecords(p, m, records), a)| < |Bucket(MergeRecords(m, records), a)|;
      } else {
        BuildRecordUnseen(p, m, r);
        BucketsAgreeExactly(p, MergeRecord(m, r), rest);
      }
    }
  }

  // ------------------------------------------------- seen means confirmed

  predicate Touches(t: Tx, a: Address) {
    t.sender == a || t.receiver == a
  }

  /** A record of this id is in the address's bucket. */
  predicate HeldAt(p: Params, m: Buckets, a: Address, id: string) {
    exists x :: x in Bucket(m, a) && TxId(p, x.tx) == id && x.status.Confirmed?
  }

  /** One of the transactions has this id and touches the address. */
  predicate KnownAt(p: Params, ts: seq<Tx>, a: Address, id: string) {
    exists i :: 0 <= i < |ts| && Touches(ts[i], a) && TxId(p, ts[i]) == id
  }

  /** The buckets hold the ids of exactly these transactions, each at both its ends. */
  ghost predicate Covers(p: Params, m: Buckets, ts: seq<Tx>) {
    forall a, id :: HeldAt(p, m, a, id) <==> KnownAt(p, ts, a, id)
  }

  /** Its id has been used before by a transaction that shares an address with it. */
  predicate Repeats(p: Params, ts: seq<Tx>, t: Tx) {
    KnownAt(p, ts, t.sender, TxId(p, t)) || KnownAt(p, ts, t.receiver, TxId(p, t))
  }

  /** Each transaction of us is new: it repeats nothing in ts and nothing earlier in us. */
  predicate NewTo(p: Params, ts: seq<Tx>, us: seq<Tx>)
    decreases |us|
  {
    us == [] || (!Repeats(p, ts, us[0]) && NewTo(p, ts + [us[0]], us[1..]))
  }

  function TxsOf(records: seq<TxRecord>): (r: seq<Tx>)
    ensures |r| == |records| && forall i :: 0 <= i < |r| ==> r[i] == records[i].tx
  {
    seq(|records|, i requires 0 <= i < |records| => records[i].tx)
  }

  lemma KnownAppend(p: Params, ts: seq<Tx>, t: Tx, a: Address, id: string)
    ensures KnownAt(p, ts + [t], a, id) <==> KnownAt(p, ts, a, id) || (Touches(t, a) && TxId(p, t) == id)
  {
    var us := ts + [t];
    if KnownAt(p, ts, a, id) {
      var i :| 0 <= i < |ts| && Touches(ts[i], a) && TxId(p, ts[i]) == id;
      assert Touches(us[i], a) && TxId(p, us[i]) == id;
    }
    assert us[|ts|] == t;
  }

  lemma HeldAfterAdd(p: Params, m: Buckets, at: Address, r: TxRecord, a: Address, id: string)
    requires r.status.Confirmed?
    ensures HeldAt(p, Add(m, at, r), a, id) <==> HeldAt(p, m, a, id) || (a == at && TxId(p, r.tx) == id)
  {
    if HeldAt(p, m, a, id) {
      var x :| x in Bucket(m, a) && TxId(p, x.tx) == id && x.status.Confirmed?;
      assert x in Bucket(Add(m, at, r), a);
    }
    assert r in Bucket(Add(m, at, r), at);
  }

  lemma HeldAfterAppend(p: Params, m: Buckets, at: Address, r: TxRecord, a: Address, id: string)
    requires r.status.Confirmed?
    ensures HeldAt(p, AppendRecord(p, m, at, r), a, id) <==> HeldAt(p, m, a, id) || (a == at && TxId(p, r.tx) == id)
  {
    HeldAfterAdd(p, m, at, r, a, id);
    assert Holds(p, m, at, r) <==> HeldAt(p, m, at, TxId(p, r.tx));
  }

  lemma MergeCovers(p: Params, m: Buckets, ts: seq<Tx>, r: TxRecord)
    requires Covers(p, m, ts) && r.status.Confirmed?
    ensures Covers(p, MergeRecord(m, r), ts + [r.tx])
  {
    forall a, id ensures HeldAt(p, MergeRecord(m, r), a, id) <==> KnownAt(p, ts + [r.tx], a, id) {
      HeldAfterAdd(p, m, r.tx.sender, r, a, id);
      HeldAfterAdd(p, Add(m, r.tx.sender, r), r.tx.receiver, r, a, id);
      KnownAppend(p, ts, r.tx, a, id);
    }
  }

  lemma BuildCovers(p: Params, m: Buckets, ts: seq<Tx>, r: TxRecord)
    requires Covers(p, m, ts) && r.status.Confirmed?
    ensures Covers(p, BuildRecord(p, m, r), ts + [r.tx])
  {
    forall a, id ensures HeldAt(p, BuildRecord(p, m, r), a, id) <==> KnownAt(p, ts + [r.tx], a, id) {
      HeldAfterAppend(p, m, r.tx.sender, r, a, id);
      HeldAfterAppend(p, AppendRecord(p, m, r.tx.sender, r), r.tx.receiver, r, a, id);
      KnownAppend(p, ts, r.tx, a, id);
    }
  }

  lemma TxsOfSplit(ts: seq<Tx>, records: seq<TxRecord>)
    requires records != []
    ensures ts + TxsOf(records) == ts + [records[0].tx] + TxsOf(records[1..])
    ensures TxsOf(records)[1..] == TxsOf(records[1..])
  {}

  predicate AllConfirmed(records: seq<TxRecord>) {
    forall i :: 0 <= i < |records| ==> records[i].status.Confirmed?
  }

  lemma {:induction false} BuildAllCovers(p: Params, m: Buckets, ts: seq<Tx>, records: seq<TxRecord>)
    requires Covers(p, m, ts) && AllConfirmed(records)
    ensures Covers(p, BuildRecords(p, m, records), ts + TxsOf(records))
    decreases |records|
  {
    if records == [] {
      assert ts + TxsOf(records) == ts;
    } else {
      TxsOfSplit(ts, records);
      BuildCovers(p, m, ts, records[0]);
      BuildAllCovers(p, BuildRecord(p, m, records[0]), ts + [records[0].tx], records[1..]);
    }
  }

  lemma HoldsIsRepeat(p: Params, m: Buckets, ts: seq<Tx>, r: TxRecord)
    requires Covers(p, m, ts) && r.status.Confirmed?
    ensures Holds(p, m, r.tx.sender, r) || Holds(p, m, r.tx.receiver, r) <==> Repeats(p, ts, r.tx)
  {
    assert Holds(p, m, r.tx.sender, r) <==> HeldAt(p, m, r.tx.sender, TxId(p, r.tx));
    assert Holds(p, m, r.tx.receiver, r) <==> HeldAt(p, m, r.tx.receiver, TxId(p, r.tx));
  }

  lemma {:induction false} UnseenIsNew(p: Params, m: Buckets, ts: seq<Tx>, records: seq<TxRecord>)
    requires Covers(p, m, ts) && AllConfirmed(records)
    ensures Unseen(p, m, records) <==> NewTo(p, ts, TxsOf(records))
    decreases |records|
  {
    if records != [] {
      HoldsIsRepeat(p, m, ts, records[0]);
      MergeCovers(p, m, ts, records[0]);
      UnseenIsNew(p, MergeRecord(m, records[0]), ts + [records[0].tx], records[1..]);
      TxsOfSplit(ts, records);
    }
  }

  lemma {:induction false} NewToConcat(p: Params, ts: seq<Tx>, xs: seq<Tx>, ys: seq<Tx>)
    ensures NewTo(p, ts, xs + ys) <==> NewTo(p, ts, xs) && NewTo(p, ts + xs, ys)
    decreases |xs|
  {
    if xs == [] {
      assert xs + ys == ys && ts + xs == ts;
    } else {
      assert (xs + ys)[1..] == xs[1..] + ys;
      NewToConcat(p, ts + [xs[0]], xs[1..], ys);
      assert ts + [xs[0]] + xs[1..] == ts + xs;
    }
  }

  // ------------------------------------------------------- confirmed core

  /** The part of the index that depends on confirmed blocks only. */
  datatype Core = Core(blocksByIndex: map<int, BlockRecord>, blocksByHash: map<string, BlockRecord>,
                       byId: map<string, TxRecord>, byAddress: Buckets, byBlock: map<int, seq<TxRecord>>,
                       confirmed: Accounts, miners: map<Address, MinerStats>, treasury: multiset<TxRecord>)

  function EmptyCore(seed: Accounts): Core {
    Core(map[], map[], map[], map[], map[], seed, map[], multiset{})
  }

  /** One block of the rebuild's loop. */
  function BuildBlock(p: Params, c: Core, b: Block): Core {
    Core(c.blocksByIndex[b.data.index := RecordOf(b)],
         c.blocksByHash[b.hash := RecordOf(b)],
         PutIds(p, c.byId, Records(b)),
         BuildRecords(p, c.byAddress, Records(b)),
         c.byBlock[b.data.index := Records(b)],
         Settle(c.confirmed, b.data.transactions),
         CountBlock(c.miners, b),
         c.treasury + TreasuryRecords(Records(b)))
  }

  function BlockBucket(m: map<int, seq<TxRecord>>, index: int): seq<TxRecord> {
    if index in m then m[index] else []
  }

  /** One block merged into an existing index. */
  function MergeBlock(p: Params, c: Core, b: Block): Core {
    BuildBlock(p, c, b).(byAddress := Prepend(c.byAddress, MergeRecords(map[], Records(b))),
                         byBlock := c.byBlock[b.data.index := BlockBucket(c.byBlock, b.data.index) + Records(b)])
  }

  function CoreOf(p: Params, seed: Accounts, chain: seq<Block>): Core
    decreases |chain|
  {
    if chain == [] then EmptyCore(seed)
    else BuildBlock(p, CoreOf(p, seed, chain[..|chain| - 1]), chain[|chain| - 1])
  }

  lemma {:induction false} CoreAppend(p: Params, seed: Accounts, chain: seq<Block>, b: Block)
    ensures CoreOf(p, seed, chain + [b]) == BuildBlock(p, CoreOf(p, seed, chain), b)
  {}

  predicate IndicesDistinct(chain: seq<Block>) {
    forall i, j :: 0 <= i < j < |chain| ==> chain[i].data.index != chain[j].data.index
  }

  /** No index used twice, and no transaction id used twice around one address. */
  predicate Regular(p: Params, chain: seq<Block>) {
    IndicesDistinct(chain) && NewTo(p, [], Txs(chain))
  }

  lemma {:induction false} CoreCovers(p: Params, seed: Accounts, chain: seq<Block>)
    ensures Covers(p, CoreOf(p, seed, chain).byAddress, Txs(chain))
    decreases |chain|
  {
    if chain != [] {
      var init, b := chain[..|chain| - 1], chain[|chain| - 1];
      assert init + [b] == chain;
      TxsAppend(init, b);
      assert TxsOf(Records(b)) == b.data.transactions;
      CoreCovers(p, seed, init);
      BuildAllCovers(p, CoreOf(p, seed, init).byAddress, Txs(init), Records(b));
    }
  }

  function MinedBy(chain: seq<Block>, a: Address): nat {
    if chain == [] then 0
    else
      var last := chain[|chain| - 1];
      (if last.data.minerAddress == Some(a) && a != "" then 1 else 0) + MinedBy(chain[..|chain| - 1], a)
  }

  /** The miner statistics count each miner's blocks. */
  lemma {:induction false} CoreMiners(p: Params, seed: Accounts, chain: seq<Block>, a: Address)
    ensures a in CoreOf(p, seed, chain).miners <==> MinedBy(chain, a) > 0
    ensures a in CoreOf(p, seed, chain).miners ==> CoreOf(p, seed, chain).miners[a].blocksMined == MinedBy(chain, a)
    decreases |chain|
  {
    if chain != [] {
      CoreMiners(p, seed, chain[..|chain| - 1], a);
    }
  }

  predicate Knows(p: Params, ts: seq<Tx>, id: string) {
    exists i :: 0 <= i < |ts| && TxId(p, ts[i]) == id
  }

  lemma KnowsConcat(p: Params, xs: seq<Tx>, ys: seq<Tx>, id: string)
    ensures Knows(p, xs + ys, id) <==> Knows(p, xs, id) || Knows(p, ys, id)
  {
    var zs := xs + ys;
    if Knows(p, xs, id) {
      var i :| 0 <= i < |xs| && TxId(p, xs[i]) == id;
      assert TxId(p, zs[i]) == id;
    }
    if Knows(p, ys, id) {
      var i :| 0 <= i < |ys| && TxId(p, ys[i]) == id;
      assert TxId(p, zs[|xs| + i]) == id;
    }
  }

  lemma {:induction false} PutIdsAt(p: Params, m: map<string, TxRecord>, records: seq<TxRecord>, id: string)
    ensures id in PutIds(p, m, records) <==> id in m || Knows(p, TxsOf(records), id)
    decreases |records|
  {
    if records != [] {
      PutIdsAt(p, m[TxId(p, records[0].tx) := records[0]], records[1..], id);
      TxsOfSplit([], records);
      KnowsConcat(p, [records[0].tx], TxsOf(records[1..]), id);
      assert TxsOf(records) == [records[0].tx] + TxsOf(records[1..]);
      assert Knows(p, [records[0].tx], id) <==> TxId(p, [records[0].tx][0]) == id;
    }
  }

  /** The id map knows exactly the confirmed transactions. */
  lemma {:induction false} CoreIds(p: Params, seed: Accounts, chain: seq<Block>, id: string)
    ensures id in CoreOf(p, seed, chain).byId <==> Knows(p, Txs(chain), id)
    decreases |chain|
  {
    if chain != [] {
      var init, b := chain[..|chain| - 1], chain[|chain| - 1];
      assert init + [b] == chain && TxsOf(Records(b)) == b.data.transactions;
      TxsAppend(init, b);
      CoreIds(p, seed, init, id);
      PutIdsAt(p, CoreOf(p, seed, init).byId, Records(b), id);
      KnowsConcat(p, Txs(init), b.data.transactions, id);
    }
  }

  predicate UsesIndex(chain: seq<Block>, k: int) {
    exists i :: 0 <= i < |chain| && chain[i].data.index == k
  }

  lemma UsesIndexAppend(chain: seq<Block>, b: Block, k: int)
    ensures UsesIndex(chain + [b], k) <==> UsesIndex(chain, k) || b.data.index == k
  {
    var longer := chain + [b];
    if UsesIndex(chain, k) {
      var i :| 0 <= i < |chain| && chain[i].data.index == k;
      assert longer[i].data.index == k;
    }
    assert longer[|chain|].data.index == b.data.index;
  }

  lemma {:induction false} CoreIndices(p: Params, seed: Accounts, chain: seq<Block>)
    ensures forall k :: k in CoreOf(p, seed, chain).byBlock <==> UsesIndex(chain, k)
    ensures forall k :: k in CoreOf(p, seed, chain).blocksByIndex <==> UsesIndex(chain, k)
    decreases |chain|
  {
    if chain != [] {
      var init, b := chain[..|chain| - 1], chain[|chain| - 1];
      assert init + [b] == chain;
      CoreIndices(p, seed, init);
      forall k ensures UsesIndex(chain, k) <==> UsesIndex(init, k) || b.data.index == k {
        UsesIndexAppend(init, b, k);
      }
    }
  }

  lemma {:induction false} AddressesAgreeExactly(p: Params, seed: Accounts, chain: seq<Block>, b: Block)
    ensures var m := CoreOf(p, seed, chain).byAddress;
            Prepend(m, MergeRecords(map[], Records(b))) == BuildRecords(p, m, Records(b)) <==>
                NewTo(p, Txs(chain), b.data.transactions)
  {
    var m := CoreOf(p, seed, chain).byAddress;
    CoreCovers(p, seed, chain);
    PrependEmpty(m);
    PrependGroups(m, map[], Records(b));
    BucketsAgreeExactly(p, m, Records(b));
    UnseenIsNew(p, m, Txs(chain), Records(b));
    assert TxsOf(Records(b)) == b.data.transactions;
  }

  lemma BlockBucketsAgreeExactly(m: map<int, seq<TxRecord>>, index: int, records: seq<TxRecord>)
    ensures m[index := BlockBucket(m, index) + records] == m[index := records] <==> BlockBucket(m, index) == []
  {
    var earlier := BlockBucket(m, index);
    assert |earlier + records| == |earlier| + |records|;
    assert m[index := earlier + records][index] == earlier + records;
    assert earlier == [] ==> earlier + records == records;
  }

  /** The transactions of the latest block of the chain with this index. */
  function TransactionsAt(chain: seq<Block>, k: int): seq<Tx>
    decreases |chain|
  {
    if chain == [] then []
    else if chain[|chain| - 1].data.index == k then chain[|chain| - 1].data.transactions
    else TransactionsAt(chain[..|chain| - 1], k)
  }

  lemma {:induction false} BucketAtIndex(p: Params, seed: Accounts, chain: seq<Block>, k: int)
    ensures TxsOf(BlockBucket(CoreOf(p, seed, chain).byBlock, k)) == TransactionsAt(chain, k)
    decreases |chain|
  {
    if chain != [] {
      var b := chain[|chain| - 1];
      BucketAtIndex(p, seed, chain[..|chain| - 1], k);
      assert TxsOf(Records(b)) == b.data.transactions;
    }
  }

  lemma {:induction false} TransactionsAtNone(chain: seq<Block>, k: int)
    requires forall i :: 0 <= i < |chain| ==> chain[i].data.index != k
    ensures TransactionsAt(chain, k) == []
    decreases |chain|
  {
    if chain != [] {
      TransactionsAtNone(chain[..|chain| - 1], k);
    }
  }

  /** The exact condition under which merging one block gives what a rebuild gives: its
      transactions are new to the chain and to each other, and the latest earlier block with its
      index, if there is one, has no transactions. */
  lemma {:induction false} MergeEqualsRebuildExactly(p: Params, seed: Accounts, chain: seq<Block>, b: Block)
    ensures MergeBlock(p, CoreOf(p, seed, chain), b) == CoreOf(p, seed, chain + [b])
            <==>
            NewTo(p, Txs(chain), b.data.transactions) && TransactionsAt(chain, b.data.index) == []
  {
    CoreAppend(p, seed, chain, b);
    AddressesAgreeExactly(p, seed, chain, b);
    BlockBucketsAgreeExactly(CoreOf(p, seed, chain).byBlock, b.data.index, Records(b));
    BucketAtIndex(p, seed, chain, b.data.index);
  }

  lemma {:induction false} RegularPrefix(p: Params, chain: seq<Block>, b: Block)
    requires Regular(p, chain + [b])
    ensures Regular(p, chain) && NewTo(p, Txs(chain), b.data.transactions)
    ensures forall i :: 0 <= i < |chain| ==> chain[i].data.index != b.data.index
  {
    var longer := chain + [b];
    TxsAppend(chain, b);
    NewToConcat(p, [], Txs(chain), b.data.transactions);
    assert [] + Txs(chain) == Txs(chain);
    forall i, j | 0 <= i < j < |chain| ensures chain[i].data.index != chain[j].data.index {
      assert longer[i].data.index != longer[j].data.index;
    }
    forall i | 0 <= i < |chain| ensures chain[i].data.index != b.data.index {
      assert longer[i].data.index != longer[|chain|].data.index;
    }
  }

  lemma {:induction false} MergeOnRegular(p: Params, seed: Accounts, chain: seq<Block>, b: Block)
    requires Regular(p, chain + [b])
    ensures MergeBlock(p, CoreOf(p, seed, chain), b) == CoreOf(p, seed, chain + [b])
  {
    RegularPrefix(p, chain, b);
    TransactionsAtNone(chain, b.data.index);
    MergeEqualsRebuildExactly(p, seed, chain, b);
  }

  // ------------------------------------------------------ address history

  /** The records whose sender or receiver is the address. */
  function Touching(records: seq<TxRecord>, a: Address): multiset<TxRecord> {
    if records == [] then multiset{}
    else (if Touches(records[0].tx, a) then multiset{records[0]} else multiset{}) + Touching(records[1..], a)
  }

  function AllRecords(chain: seq<Block>): seq<TxRecord> {
    if chain == [] then [] else AllRecords(chain[..|chain| - 1]) + Records(chain[|chain| - 1])
  }

  lemma {:induction false} TouchingConcat(xs: seq<TxRecord>, ys: seq<TxRecord>, a: Address)
    ensures Touching(xs + ys, a) == Touching(xs, a) + Touching(ys, a)
  {
    if xs == [] {
      assert xs + ys == ys;
    } else {
      assert (xs + ys)[1..] == xs[1..] + ys;
      TouchingConcat(xs[1..], ys, a);
    }
  }

  lemma MergeBucket(m: Buckets, r: TxRecord, a: Address)
    ensures Bucket(MergeRecord(m, r), a) == Bucket(m, a) + (if Touches(r.tx, a) then multiset{r} else multiset{})
  {}

  lemma {:induction false} MergeBuckets(m: Buckets, records: seq<TxRecord>, a: Address)
    ensures Bucket(MergeRecords(m, records), a) == Bucket(m, a) + Touching(records, a)
    decreases |records|
  {
    if records != [] {
      MergeBucket(m, records[0], a);
      MergeBuckets(MergeRecord(m, records[0]), records[1..], a);
    }
  }

  /** On a regular chain an address's bucket holds exactly its own records. */
  lemma {:induction false} RegularBuckets(p: Params, seed: Accounts, chain: seq<Block>, a: Address)
    requires Regular(p, chain)
    ensures Bucket(CoreOf(p, seed, chain).byAddress, a) == Touching(AllRecords(chain), a)
    decreases |chain|
  {
    if chain != [] {
      var init, b := chain[..|chain| - 1], chain[|chain| - 1];
      var m := CoreOf(p, seed, init).byAddress;
      assert init + [b] == chain;
      RegularPrefix(p, init, b);
      RegularBuckets(p, seed, init, a);
      AddressesAgreeExactly(p, seed, init, b);
      PrependBucket(m, MergeRecords(map[], Records(b)), a);
      MergeBuckets(map[], Records(b), a);
      TouchingConcat(AllRecords(init), Records(b), a);
    }
  }

  // -------------------------------------------------- one pass over a block

  /** The running values of the single loop that both treatments make over a block. */
  datatype Tally = Tally(byId: map<string, TxRecord>, buckets: Buckets, bucket: seq<TxRecord>, confirmed: Accounts,
                         issued: int, treasury: multiset<TxRecord>)

  function TallyRecord(p: Params, rebuild: bool, s: Tally, r: TxRecord): Tally {
    Tally(s.byId[TxId(p, r.tx) := r],
          if rebuild then BuildRecord(p, s.buckets, r) else MergeRecord(s.buckets, r),
          s.bucket + [r],
          SettleTx(s.confirmed, r.tx),
          s.issued + IssuedBy(r.tx),
          if OfTreasury(r) then s.treasury + multiset{r} else s.treasury)
  }

  function TallyAll(p: Params, rebuild: bool, s: Tally, records: seq<TxRecord>): Tally
    decreases |records|
  {
    if records == [] then s else TallyAll(p, rebuild, TallyRecord(p, rebuild, s, records[0]), records[1..])
  }

  lemma {:induction false} TallyTreasury(t: multiset<TxRecord>, records: seq<TxRecord>)
    requires records != []
    ensures (if OfTreasury(records[0]) then t + multiset{records[0]} else t) + TreasuryRecords(records[1..]) ==
              t + TreasuryRecords(records)
  {}

  /** The single pass computes each part as if it had been alone. */
  function TallyApart(p: Params, rebuild: bool, s: Tally, records: seq<TxRecord>): Tally {
    Tally(PutIds(p, s.byId, records),
          if rebuild then BuildRecords(p, s.buckets, records) else MergeRecords(s.buckets, records),
          s.bucket + records,
          Settle(s.confirmed, TxsOf(records)),
          s.issued + Issued(TxsOf(records)),
          s.treasury + TreasuryRecords(records))
  }

  lemma TallyApartStep(p: Params, rebuild: bool, s: Tally, records: seq<TxRecord>)
    requires records != []
    ensures TallyApart(p, rebuild, TallyRecord(p, rebuild, s, records[0]), records[1..]) ==
              TallyApart(p, rebuild, s, records)
  {
    TxsOfSplit([], records);
    assert TxsOf(records)[0] == records[0].tx;
    assert s.bucket + [records[0]] + records[1..] == s.bucket + records;
    TallyTreasury(s.treasury, records);
  }

  lemma {:induction false} TallyParts(p: Params, rebuild: bool, s: Tally, records: seq<TxRecord>)
    ensures TallyAll(p, rebuild, s, records) == TallyApart(p, rebuild, s, records)
    decreases |records|
  {
    if records == [] {
      assert s.bucket + records == s.bucket;
      assert s.treasury + multiset{} == s.treasury;
    } else {
      TallyParts(p, rebuild, TallyRecord(p, rebuild, s, records[0]), records[1..]);
      TallyApartStep(p, rebuild, s, records);
    }
  }

  lemma {:induction false} TallyBlock(p: Params, rebuild: bool, s: Tally, b: Block)
    ensures var t := TallyAll(p, rebuild, s, Records(b));
            && t.byId == PutIds(p, s.byId, Records(b))
            && t.buckets ==
                 (if rebuild then BuildRecords(p, s.buckets, Records(b)) else MergeRecords(s.buckets, Records(b)))
            && t.bucket == s.bucket + Records(b)
            && t.confirmed == Settle(s.confirmed, b.data.transactions)
            && t.issued == s.issued + Issued(b.data.transactions)
            && t.treasury == s.treasury + TreasuryRecords(Records(b))
  {
    TallyParts(p, rebuild, s, Records(b));
    assert TxsOf(Records(b)) == b.data.transactions;
  }
}
