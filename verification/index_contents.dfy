/** What the read index holds, said of the chain and the pool themselves: which key leads to which
    block or transaction, and what a record tells of it. */
module IndexContents {
  import opened Protocol
  import opened Balances
  import opened Ledgers
  import opened Pruning
  import opened Admission
  import opened Indexing
  import opened IndexStates

  // --------------------------------------------------------------- records

  /** The record shows the block's i-th transaction, as confirmed there. */
  predicate TellsTx(r: TxRecord, b: Block, i: nat)
    requires i < |b.data.transactions|
  {
    && r.tx == b.data.transactions[i] && r.status.Confirmed? && r.position == i
    && r.block == Some((b.data.index, b.hash, b.data.timestamp))
  }

  predicate TellsAll(records: seq<TxRecord>, b: Block) {
    && |records| == |b.data.transactions|
    && forall i :: 0 <= i < |records| ==> TellsTx(records[i], b, i)
  }

  /** The record shows the block, with all its transactions in order. */
  predicate TellsBlock(r: BlockRecord, b: Block) {
    r.block == b && TellsAll(r.transactions, b)
  }

  lemma RecordTells(b: Block)
    ensures TellsBlock(RecordOf(b), b) && TellsAll(Records(b), b)
  {}

  // ---------------------------------------------------------------- blocks

  /** The last block of the kind. */
  predicate IsLast(chain: seq<Block>, kind: Block -> bool, i: nat) {
    i < |chain| && kind(chain[i]) && forall j :: i < j < |chain| ==> !kind(chain[j])
  }

  function Last(chain: seq<Block>, kind: Block -> bool): Option<Block>
    decreases |chain|
  {
    if chain == [] then None
    else if kind(chain[|chain| - 1]) then Some(chain[|chain| - 1])
    else Last(chain[..|chain| - 1], kind)
  }

  lemma {:induction false} LastIsLast(chain: seq<Block>, kind: Block -> bool)
    ensures Last(chain, kind).None? ==> forall i :: 0 <= i < |chain| ==> !kind(chain[i])
    ensures Last(chain, kind).Some? ==> exists i: nat :: IsLast(chain, kind, i)
    decreases |chain|
  {
    if chain != [] {
      var n := |chain| - 1;
      if kind(chain[n]) {
        assert IsLast(chain, kind, n);
      } else {
        LastIsLast(chain[..n], kind);
        if Last(chain, kind).Some? {
          var i: nat :| IsLast(chain[..n], kind, i);
          assert IsLast(chain, kind, i);
        }
      }
    }
  }

  lemma {:induction false} TheLast(chain: seq<Block>, kind: Block -> bool, i: nat)
    requires IsLast(chain, kind, i)
    ensures Last(chain, kind) == Some(chain[i])
    decreases |chain|
  {
    var n := |chain| - 1;
    if i < n {
      assert !kind(chain[n]);
      assert IsLast(chain[..n], kind, i);
      TheLast(chain[..n], kind, i);
    }
  }

  function HashIs(hash: string): Block -> bool {
    (b: Block) => b.hash == hash
  }

  function IndexIs(index: int): Block -> bool {
    (b: Block) => b.data.index == index
  }

  function MinerIs(a: Address): Block -> bool {
    (b: Block) => b.data.minerAddress == Some(a)
  }

  lemma {:induction false} HashFinds(p: Params, seed: Accounts, chain: seq<Block>, hash: string)
    ensures var m := CoreOf(p, seed, chain).blocksByHash;
            match Last(chain, HashIs(hash))
            case Some(b) => hash in m && m[hash] == RecordOf(b)
            case None => hash !in m
    decreases |chain|
  {
    if chain != [] {
      HashFinds(p, seed, chain[..|chain| - 1], hash);
    }
  }

  lemma {:induction false} IndexFinds(p: Params, seed: Accounts, chain: seq<Block>, index: int)
    ensures var c := CoreOf(p, seed, chain);
            match Last(chain, IndexIs(index))
            case Some(b) =>
              && index in c.blocksByIndex && c.blocksByIndex[index] == RecordOf(b)
              && index in c.byBlock && c.byBlock[index] == Records(b)
            case None => index !in c.blocksByIndex && index !in c.byBlock
    decreases |chain|
  {
    if chain != [] {
      IndexFinds(p, seed, chain[..|chain| - 1], index);
    }
  }

  /** A block is found under its own hash, and shown as it is, unless a later one has the same hash;
      a hash that no block has finds nothing. */
  lemma {:induction false} BlockByHash(p: Params, seed: Accounts, chain: seq<Block>, hash: string)
    ensures var m := CoreOf(p, seed, chain).blocksByHash;
            && (hash in m <==> exists i :: 0 <= i < |chain| && chain[i].hash == hash)
            && forall i: nat :: IsLast(chain, HashIs(hash), i) ==> hash in m && TellsBlock(m[hash], chain[i])
  {
    HashFinds(p, seed, chain, hash);
    LastIsLast(chain, HashIs(hash));
    forall i: nat | IsLast(chain, HashIs(hash), i)
      ensures Last(chain, HashIs(hash)) == Some(chain[i]) && TellsBlock(RecordOf(chain[i]), chain[i])
    {
      TheLast(chain, HashIs(hash), i);
      RecordTells(chain[i]);
    }
  }

  /** The same for its index, which also leads to its transactions. */
  lemma {:induction false} BlockByIndex(p: Params, seed: Accounts, chain: seq<Block>, index: int)
    ensures var c := CoreOf(p, seed, chain);
            && (index in c.blocksByIndex <==> exists i :: 0 <= i < |chain| && chain[i].data.index == index)
            && (index in c.byBlock <==> index in c.blocksByIndex)
            && forall i: nat :: IsLast(chain, IndexIs(index), i) ==>
                 && index in c.blocksByIndex && TellsBlock(c.blocksByIndex[index], chain[i])
                 && TellsAll(c.byBlock[index], chain[i])
  {
    IndexFinds(p, seed, chain, index);
    LastIsLast(chain, IndexIs(index));
    forall i: nat | IsLast(chain, IndexIs(index), i)
      ensures Last(chain, IndexIs(index)) == Some(chain[i]) && TellsBlock(RecordOf(chain[i]), chain[i])
    {
      TheLast(chain, IndexIs(index), i);
      RecordTells(chain[i]);
    }
  }

  // ---------------------------------------------------------- transactions

  /** A transaction's id is the one it came with, or else its digest. */
  predicate Bears(p: Params, t: Tx, id: string) {
    if t.suppliedId.Some? && t.suppliedId.value != "" then id == t.suppliedId.value else id == p.txDigest(t)
  }

  /** Transaction j is the last of the list with this id. */
  predicate LastBearing(p: Params, ts: seq<Tx>, j: nat, id: string) {
    j < |ts| && Bears(p, ts[j], id) && forall k :: j < k < |ts| ==> !Bears(p, ts[k], id)
  }

  predicate NoneBears(p: Params, ts: seq<Tx>, id: string) {
    forall k :: 0 <= k < |ts| ==> !Bears(p, ts[k], id)
  }

  function LastWithId(p: Params, ts: seq<Tx>, id: string): (r: Option<nat>)
    ensures r.Some? ==> r.value < |ts|
    decreases |ts|
  {
    if ts == [] then None
    else if Bears(p, ts[|ts| - 1], id) then Some(|ts| - 1)
    else LastWithId(p, ts[..|ts| - 1], id)
  }

  lemma {:induction false} LastWithIdIs(p: Params, ts: seq<Tx>, id: string)
    ensures match LastWithId(p, ts, id)
            case Some(j) => LastBearing(p, ts, j, id)
            case None => NoneBears(p, ts, id)
    decreases |ts|
  {
    if ts != [] && !Bears(p, ts[|ts| - 1], id) {
      LastWithIdIs(p, ts[..|ts| - 1], id);
    }
  }

  /** Some transaction of the block has this id. */
  function HasId(p: Params, id: string): Block -> bool {
    (b: Block) => LastWithId(p, b.data.transactions, id).Some?
  }

  lemma {:induction false} PutIdsOther(p: Params, m: map<string, TxRecord>, records: seq<TxRecord>, id: string)
    requires NoneBears(p, TxsOf(records), id)
    ensures var ids := PutIds(p, m, records);
            (id in ids <==> id in m) && (id in m ==> ids[id] == m[id])
    decreases |records|
  {
    if records != [] {
      assert TxsOf(records)[0] == records[0].tx;
      forall k | 0 <= k < |records| - 1 ensures !Bears(p, TxsOf(records[1..])[k], id) {
        assert TxsOf(records)[k + 1] == TxsOf(records[1..])[k];
      }
      PutIdsOther(p, m[TxId(p, records[0].tx) := records[0]], records[1..], id);
    }
  }

  lemma {:induction false} PutIdsLast(p: Params, m: map<string, TxRecord>, records: seq<TxRecord>, j: nat, id: string)
    requires LastBearing(p, TxsOf(records), j, id)
    ensures var ids := PutIds(p, m, records);
            id in ids && ids[id] == records[j]
    decreases |records|
  {
    var ts, rest := TxsOf(records), records[1..];
    var m' := m[TxId(p, records[0].tx) := records[0]];
    forall k | 0 <= k < |rest| ensures TxsOf(rest)[k] == ts[k + 1] {}
    if j > 0 {
      forall k | j - 1 < k < |rest| ensures !Bears(p, TxsOf(rest)[k], id) {
        assert !Bears(p, ts[k + 1], id);
      }
      PutIdsLast(p, m', rest, j - 1, id);
    } else {
      forall k | 0 <= k < |rest| ensures !Bears(p, TxsOf(rest)[k], id) {
        assert !Bears(p, ts[k + 1], id);
      }
      PutIdsOther(p, m', rest, id);
    }
  }

  lemma {:induction false} PutIdsOfBlock(p: Params, m: map<string, TxRecord>, b: Block, id: string)
    ensures var ids := PutIds(p, m, Records(b));
            match LastWithId(p, b.data.transactions, id)
            case Some(j) => id in ids && ids[id] == Records(b)[j]
            case None => (id in ids <==> id in m) && (id in m ==> ids[id] == m[id])
  {
    LastWithIdIs(p, b.data.transactions, id);
    assert TxsOf(Records(b)) == b.data.transactions;
    match LastWithId(p, b.data.transactions, id)
    case Some(j) => PutIdsLast(p, m, Records(b), j, id);
    case None => PutIdsOther(p, m, Records(b), id);
  }

  lemma {:induction false} IdFinds(p: Params, seed: Accounts, chain: seq<Block>, id: string)
    ensures var m := CoreOf(p, seed, chain).byId;
            match Last(chain, HasId(p, id))
            case Some(b) =>
              LastWithId(p, b.data.transactions, id).Some? &&
              id in m && m[id] == Records(b)[LastWithId(p, b.data.transactions, id).value]
            case None => id !in m
    decreases |chain|
  {
    if chain != [] {
      var init, b := chain[..|chain| - 1], chain[|chain| - 1];
      IdFinds(p, seed, init, id);
      PutIdsOfBlock(p, CoreOf(p, seed, init).byId, b, id);
    }
  }

  /** No transaction of the chain has this id. */
  predicate Unused(p: Params, chain: seq<Block>, id: string) {
    forall i :: 0 <= i < |chain| ==> NoneBears(p, chain[i].data.transactions, id)
  }

  /** Transaction j of block i is the last of the chain with this id. */
  predicate LastInChain(p: Params, chain: seq<Block>, i: nat, j: nat, id: string) {
    i < |chain| && LastBearing(p, chain[i].data.transactions, j, id) && Unused(p, chain[i + 1..], id)
  }

  lemma BearersAgree(p: Params, chain: seq<Block>, id: string)
    ensures forall i :: 0 <= i < |chain| ==> HasId(p, id)(chain[i]) == !NoneBears(p, chain[i].data.transactions, id)
  {
    forall i | 0 <= i < |chain| ensures HasId(p, id)(chain[i]) == !NoneBears(p, chain[i].data.transactions, id) {
      LastWithIdIs(p, chain[i].data.transactions, id);
    }
  }

  lemma {:induction false} LastInChainIsLast(p: Params, chain: seq<Block>, i: nat, j: nat, id: string)
    requires LastInChain(p, chain, i, j, id)
    ensures Last(chain, HasId(p, id)) == Some(chain[i]) && LastWithId(p, chain[i].data.transactions, id) == Some(j)
  {
    BearersAgree(p, chain, id);
    LastWithIdIs(p, chain[i].data.transactions, id);
    forall k | i < k < |chain| ensures !HasId(p, id)(chain[k]) {
      assert chain[i + 1..][k - i - 1] == chain[k];
    }
    TheLast(chain, HasId(p, id), i);
  }

  /** An id leads to the record of the last transaction of the chain that bears it. */
  lemma {:induction false} TransactionById(p: Params, seed: Accounts, chain: seq<Block>, i: nat, j: nat, id: string)
    requires LastInChain(p, chain, i, j, id)
    ensures var m := CoreOf(p, seed, chain).byId;
            id in m && TellsTx(m[id], chain[i], j)
  {
    LastInChainIsLast(p, chain, i, j, id);
    IdFinds(p, seed, chain, id);
    RecordTells(chain[i]);
  }

  /** And an id that none bears leads nowhere. */
  lemma {:induction false} UnusedIsAbsent(p: Params, seed: Accounts, chain: seq<Block>, id: string)
    ensures id !in CoreOf(p, seed, chain).byId <==> Unused(p, chain, id)
  {
    IdFinds(p, seed, chain, id);
    BearersAgree(p, chain, id);
    LastIsLast(chain, HasId(p, id));
  }

  // ------------------------------------------- miners, treasury, balances

  /** The statistics show the block as the miner's last. */
  predicate ShowsBlock(m: MinerStats, b: Block) {
    m.lastBlockIndex == b.data.index && m.lastBlockHash == b.hash && m.lastMinedAt == b.data.timestamp
  }

  lemma {:induction false} MinerFinds(p: Params, seed: Accounts, chain: seq<Block>, a: Address)
    requires a != ""
    ensures var m := CoreOf(p, seed, chain).miners;
            match Last(chain, MinerIs(a))
            case Some(b) => a in m && ShowsBlock(m[a], b)
            case None => a !in m
    decreases |chain|
  {
    if chain != [] {
      MinerFinds(p, seed, chain[..|chain| - 1], a);
    }
  }

  /** A miner's statistics show its last block. */
  lemma {:induction false} MinersLastBlock(p: Params, seed: Accounts, chain: seq<Block>, a: Address, i: nat)
    requires a != "" && IsLast(chain, MinerIs(a), i)
    ensures var m := CoreOf(p, seed, chain).miners;
            a in m && ShowsBlock(m[a], chain[i])
  {
    MinerFinds(p, seed, chain, a);
    TheLast(chain, MinerIs(a), i);
  }

  lemma {:induction false} TreasuryIsTouching(records: seq<TxRecord>)
    ensures TreasuryRecords(records) == Touching(records, "VORLIQ_TREASURY")
  {
    if records != [] {
      TreasuryIsTouching(records[1..]);
    }
  }

  /** The treasury ledger holds the records of the transactions to and from the treasury. */
  lemma {:induction false} TreasuryLedger(p: Params, seed: Accounts, chain: seq<Block>)
    ensures CoreOf(p, seed, chain).treasury == Touching(AllRecords(chain), "VORLIQ_TREASURY")
    decreases |chain|
  {
    if chain != [] {
      var init, b := chain[..|chain| - 1], chain[|chain| - 1];
      TreasuryLedger(p, seed, init);
      TreasuryIsTouching(Records(b));
      TouchingConcat(AllRecords(init), Records(b), "VORLIQ_TREASURY");
    }
  }

  /** All records together, in order: one for each transaction of each block, telling of it. */
  lemma {:induction false} AllRecordsTell(chain: seq<Block>, i: nat, j: nat) returns (k: nat)
    requires i < |chain| && j < |chain[i].data.transactions|
    ensures k == |Txs(chain[..i])| + j < |AllRecords(chain)| && TellsTx(AllRecords(chain)[k], chain[i], j)
    decreases |chain|
  {
    var n := |chain| - 1;
    AllRecordsCount(chain[..n]);
    if i < n {
      assert chain[..n][..i] == chain[..i];
      k := AllRecordsTell(chain[..n], i, j);
    } else {
      k := |Txs(chain[..n])| + j;
      assert AllRecords(chain)[k] == Records(chain[n])[j];
    }
  }

  lemma {:induction false} AllRecordsCount(chain: seq<Block>)
    ensures |AllRecords(chain)| == |Txs(chain)|
    decreases |chain|
  {
    if chain != [] {
      var n := |chain| - 1;
      AllRecordsCount(chain[..n]);
      TxsAppend(chain[..n], chain[n]);
      assert chain[..n] + [chain[n]] == chain;
    }
  }

  lemma AppendTells(p: Params, m: Buckets, at: Address, r: TxRecord, a: Address, x: TxRecord)
    requires x in Bucket(AppendRecord(p, m, at, r), a)
    ensures x in Bucket(m, a) || (x == r && a == at)
  {}

  lemma {:induction false} BuildTells(p: Params, m: Buckets, records: seq<TxRecord>, a: Address, x: TxRecord)
    requires x in Bucket(BuildRecords(p, m, records), a)
    ensures x in Bucket(m, a) || (x in records && Touches(x.tx, a))
    decreases |records|
  {
    if records != [] {
      var r := records[0];
      BuildTells(p, BuildRecord(p, m, r), records[1..], a, x);
      if x in Bucket(BuildRecord(p, m, r), a) {
        AppendTells(p, AppendRecord(p, m, r.tx.sender, r), r.tx.receiver, r, a, x);
        if x in Bucket(AppendRecord(p, m, r.tx.sender, r), a) {
          AppendTells(p, m, r.tx.sender, r, a, x);
        }
      }
    }
  }

  /** On every chain, what is filed under an address is a record of the chain that touches it. */
  lemma {:induction false} BucketsTell(p: Params, seed: Accounts, chain: seq<Block>, a: Address, x: TxRecord)
    requires x in Bucket(CoreOf(p, seed, chain).byAddress, a)
    ensures x in AllRecords(chain) && Touches(x.tx, a)
    decreases |chain|
  {
    var init, b := chain[..|chain| - 1], chain[|chain| - 1];
    BuildTells(p, CoreOf(p, seed, init).byAddress, Records(b), a, x);
    if x in Bucket(CoreOf(p, seed, init).byAddress, a) {
      BucketsTell(p, seed, init, a, x);
    }
  }

  /** Balances from the index: what is remembered from pruning, received and sent, except that SYSTEM
      is not charged. */
  lemma {:induction false} IndexedBalances(p: Params, l: Ledger, a: Address)
    requires l.chain != []
    ensures var x := BuildState(p, l).maps;
            && Get(x.confirmed, a) == Get(SeedBalances(l.prunePoint), a) + Received(Txs(l.chain), a)
                                      - (if a == "SYSTEM" then 0 else Sent(Txs(l.chain), a))
            && Get(x.balances, a) == Get(x.confirmed, a) + Received(l.pending, a)
                                     - (if a == "SYSTEM" then 0 else Sent(l.pending, a))
  {
    var seed := SeedBalances(l.prunePoint);
    CoreBalances(p, seed, l.chain);
    SettleDeltas(seed, Txs(l.chain), a);
    SettleDeltas(Settle(seed, Txs(l.chain)), l.pending, a);
    DeltasAre(Txs(l.chain), a);
    DeltasAre(l.pending, a);
    IssuedIsSent(Txs(l.chain));
    IssuedIsSent(l.pending);
  }

  // ------------------------------------------------ window, summary, overlay

  /** The latest window of a chain without repeated indices: its newest 500 blocks, newest first. */
  lemma LatestWindowTells(p: Params, l: Ledger)
    requires l.chain != [] && IndicesDistinct(l.chain)
    ensures var latest := BuildState(p, l).maps.latest;
            && |latest| == (if |l.chain| < 500 then |l.chain| else 500)
            && forall i :: 0 <= i < |latest| ==> TellsBlock(latest[i], l.chain[|l.chain| - 1 - i])
  {
    CoreLatestIsNewest(p, l);
    forall b ensures TellsBlock(RecordOf(b), b) {
      RecordTells(b);
    }
  }

  lemma SummaryTells(p: Params, l: Ledger)
    requires l.chain != []
    ensures var s, tip := BuildState(p, l).maps.summary, l.chain[|l.chain| - 1];
            && s.blockHeight == tip.data.index && s.lastBlockHash == tip.hash
            && s.lastBlockTimestamp == tip.data.timestamp
            && s.totalBlocks == |l.chain| && s.totalTransactions == |Txs(l.chain)|
            && s.totalIssued == SeedIssued(l.prunePoint) + Sent(Txs(l.chain), "SYSTEM")
            && s.difficulty == l.difficulty && s.reward == CurrentReward(l) && (s.chainValid <==> Valid(p, l))
  {
    IssuedIsSent(Txs(l.chain));
  }

  /** The fingerprint of a pool: its ids, in order. */
  lemma FingerprintTells(p: Params, pending: seq<Tx>)
    ensures |Fingerprint(p, pending)| == |pending|
    ensures forall i :: 0 <= i < |pending| ==> Bears(p, pending[i], Fingerprint(p, pending)[i])
  {}

  /** The pool's first transaction with this id. */
  predicate FirstPending(p: Params, pending: seq<Tx>, i: nat, id: string) {
    i < |pending| && Bears(p, pending[i], id) && forall j :: 0 <= j < i ==> !Bears(p, pending[j], id)
  }

  lemma {:induction false} FirstRecordAt(p: Params, records: seq<TxRecord>, i: nat, id: string)
    requires FirstPending(p, TxsOf(records), i, id)
    ensures FirstRecord(p, records, id) == Some(records[i])
    decreases |records|
  {
    var ts, rest := TxsOf(records), records[1..];
    if i > 0 {
      assert !Bears(p, ts[0], id);
      forall j | 0 <= j < i ensures TxsOf(rest)[j] == ts[j + 1] {}
      forall j | 0 <= j < i - 1 ensures !Bears(p, TxsOf(rest)[j], id) {
        assert !Bears(p, ts[j + 1], id);
      }
      FirstRecordAt(p, rest, i - 1, id);
    }
  }

  lemma {:induction false} FirstRecordFound(p: Params, records: seq<TxRecord>, id: string) returns (i: nat)
    requires FirstRecord(p, records, id).Some?
    ensures FirstPending(p, TxsOf(records), i, id)
    decreases |records|
  {
    i := 0;
    if TxId(p, records[0].tx) != id {
      i := FirstRecordFound(p, records[1..], id);
      var ts, rest := TxsOf(records), TxsOf(records[1..]);
      assert ts[0] == records[0].tx && !Bears(p, ts[0], id);
      forall j | 0 <= j <= i ensures rest[j] == ts[j + 1] {}
      i := i + 1;
      forall j | 0 <= j < i ensures !Bears(p, ts[j], id) {
        assert j > 0 ==> !Bears(p, rest[j - 1], id);
      }
    }
  }

  /** Under an id the index shows the last confirmed transaction with it. */
  lemma DetailOfConfirmed(p: Params, l: Ledger, i: nat, j: nat, id: string)
    requires l.chain != [] && LastInChain(p, l.chain, i, j, id)
    ensures var m := BuildState(p, l).maps.byId;
            id in m && TellsTx(m[id], l.chain[i], j)
  {
    TransactionById(p, SeedBalances(l.prunePoint), l.chain, i, j, id);
    OverlayAt(p, SeedCore(p, l).byId, PendingRecords(l.pending), id);
  }

  /** Where no confirmed transaction has the id, the first pending one with it. */
  lemma DetailOfPending(p: Params, l: Ledger, i: nat, id: string)
    requires l.chain != [] && FirstPending(p, l.pending, i, id) && Unused(p, l.chain, id)
    ensures var m := BuildState(p, l).maps.byId;
            id in m && m[id] == TxRecord(l.pending[i], Pending, None, i)
  {
    var records := PendingRecords(l.pending);
    UnusedIsAbsent(p, SeedBalances(l.prunePoint), l.chain, id);
    OverlayAt(p, SeedCore(p, l).byId, records, id);
    assert TxsOf(records) == l.pending;
    FirstRecordAt(p, records, i, id);
  }

  /** And where none has it, nothing. */
  lemma DetailOfNone(p: Params, l: Ledger, id: string)
    requires l.chain != []
    ensures id !in BuildState(p, l).maps.byId <==> NoneBears(p, l.pending, id) && Unused(p, l.chain, id)
  {
    var records := PendingRecords(l.pending);
    UnusedIsAbsent(p, SeedBalances(l.prunePoint), l.chain, id);
    OverlayAt(p, SeedCore(p, l).byId, records, id);
    assert TxsOf(records) == l.pending;
    if FirstRecord(p, records, id).Some? {
      var i := FirstRecordFound(p, records, id);
      assert Bears(p, l.pending[i], id);
    } else if !NoneBears(p, l.pending, id) {
      var i := FirstOf(p, l.pending, id);
      FirstRecordAt(p, records, i, id);
    }
  }

  lemma {:induction false} FirstOf(p: Params, pending: seq<Tx>, id: string) returns (i: nat)
    requires !NoneBears(p, pending, id)
    ensures FirstPending(p, pending, i, id)
    decreases |pending|
  {
    var n := |pending| - 1;
    if NoneBears(p, pending[..n], id) {
      i := n;
      forall j | 0 <= j < n ensures !Bears(p, pending[j], id) {
        assert !Bears(p, pending[..n][j], id);
      }
    } else {
      i := FirstOf(p, pending[..n], id);
      forall j | 0 <= j < i ensures !Bears(p, pending[j], id) {
        assert !Bears(p, pending[..n][j], id);
      }
    }
  }
}
