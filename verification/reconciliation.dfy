/** offered_chain_matches_prune_point: may a node that has forgotten its early history
    adopt a longer chain? The check compares one hash and one commitment; here it is shown
    to decide exactly whether the offered chain contains the forgotten blocks. */
module Reconciliation {
  import opened Protocol
  import opened Balances
  import opened Ledgers
  import opened Pruning

  const GENESIS_MARKER: string := "0"

  /** Position of the first block carrying this index, or None. */
  function FirstAt(chain: seq<Block>, height: int): (r: Option<nat>)
    ensures r.Some? ==> r.value < |chain| && chain[r.value].data.index == height
  {
    if chain == [] then None
    else if chain[0].data.index == height then Some(0)
    else match FirstAt(chain[1..], height)
      case None => None
      case Some(i) => Some(i + 1)
  }

  lemma {:induction false} FirstAtIsFirst(chain: seq<Block>, height: int, i: nat)
    requires i < |chain| && chain[i].data.index == height
    ensures FirstAt(chain, height).Some? && FirstAt(chain, height).value <= i
  {
    if i > 0 && chain[0].data.index != height {
      FirstAtIsFirst(chain[1..], height, i - 1);
    }
  }

  /** The blocks whose own index does not exceed the height, in chain order. */
  function UpTo(chain: seq<Block>, height: int): seq<Block> {
    if chain == [] then []
    else (if chain[0].data.index <= height then [chain[0]] else []) + UpTo(chain[1..], height)
  }

  function OfferSnapshot(offered: seq<Block>, height: int, hash: string): Snapshot {
    var ts := Txs(UpTo(offered, height));
    Snapshot(height, hash, Issued(ts), NonZero(Settle(map[], ts)))
  }

  predicate OfferedMatches(p: Params, l: Ledger, offered: seq<Block>) {
    l.prunePoint.Some? ==>
      var height, hash := l.prunePoint.value.snapshot.height, l.prunePoint.value.snapshot.blockHash;
      var at := FirstAt(offered, height);
      && at.Some?
      && offered[at.value].hash == hash
      && Commit(p, OfferSnapshot(offered, height, hash)) == l.prunePoint.value.commitment
  }

  predicate Contiguous(chain: seq<Block>) {
    forall i :: 0 <= i < |chain| ==> chain[i].data.index == i
  }

  /** A chain a node may hold or be offered: valid with spacing off, rooted in "0". */
  predicate Rooted(p: Params, chain: seq<Block>) {
    ChainValid(p, chain, None, false) && chain[0].data.previousHash == GENESIS_MARKER
  }

  /** The offered chain repeats the first n blocks in every hashed field. */
  predicate SamePrefix(offered: seq<Block>, own: seq<Block>, n: nat) {
    n <= |own| && n <= |offered| && forall i :: 0 <= i < n ==> offered[i].data == own[i].data
  }

  predicate ChainedAt(p: Params, chain: seq<Block>, i: nat)
    requires i < |chain|
  {
    HashMatches(p, chain[i]) && chain[i].data.previousHash == if i == 0 then GENESIS_MARKER else chain[i - 1].hash
  }

  /** What reconciliation needs of a rooted chain: true hashes and true back-links. */
  predicate HashChained(p: Params, chain: seq<Block>) {
    forall i :: 0 <= i < |chain| ==> ChainedAt(p, chain, i)
  }

  lemma RootedIsChained(p: Params, chain: seq<Block>)
    requires Rooted(p, chain)
    ensures HashChained(p, chain)
  {
    forall i | 0 <= i < |chain| ensures ChainedAt(p, chain, i) {
      if i > 0 {
        assert LinkAt(p, chain, i, false);
      }
    }
  }

  /** Two different blocks with one digest. */
  predicate Collide(p: Params, a: seq<Block>, b: seq<Block>) {
    exists i, j :: 0 <= i < |a| && 0 <= j < |b| && CollideAt(p, a[i].data, b[j].data)
  }

  predicate CollideAt(p: Params, d: BlockData, e: BlockData) {
    d != e && Digest(p, d) == Digest(p, e)
  }

  /** Two different snapshots with one commitment. */
  predicate CommitmentsCollide(p: Params, s: Snapshot, t: Snapshot) {
    s != t && Commit(p, s) == Commit(p, t)
  }

  /** Hashes are digests, and none of them is the marker that genesis points back to. */
  predicate Marked(chain: seq<Block>) {
    forall i :: 0 <= i < |chain| ==> chain[i].hash != GENESIS_MARKER
  }

  /** Equal hashes force equal positions and equal histories, all the way down to genesis, unless
      two different blocks of the two chains share a digest. */
  lemma {:induction false} SameHashSameHistory(p: Params, a: seq<Block>, i: nat, b: seq<Block>, j: nat)
    requires HashChained(p, a) && Marked(a) && i < |a| && HashChained(p, b) && Marked(b) && j < |b|
    requires a[i].hash == b[j].hash
    ensures Collide(p, a, b) || (i == j && forall k :: 0 <= k <= i ==> a[k].data == b[k].data)
    decreases i
  {
    assert ChainedAt(p, a, i) && ChainedAt(p, b, j);
    if a[i].data != b[j].data {
      assert CollideAt(p, a[i].data, b[j].data);
    } else if i > 0 && j > 0 {
      SameHashSameHistory(p, a, i - 1, b, j - 1);
    }
  }

  lemma {:induction false} UpToConcat(xs: seq<Block>, ys: seq<Block>, height: int)
    ensures UpTo(xs + ys, height) == UpTo(xs, height) + UpTo(ys, height)
  {
    if xs == [] {
      assert xs + ys == ys;
    } else {
      assert (xs + ys)[1..] == xs[1..] + ys;
      UpToConcat(xs[1..], ys, height);
    }
  }

  lemma {:induction false} UpToAll(chain: seq<Block>, height: int)
    requires forall i :: 0 <= i < |chain| ==> chain[i].data.index <= height
    ensures UpTo(chain, height) == chain
  {
    if chain != [] {
      UpToAll(chain[1..], height);
    }
  }

  lemma {:induction false} UpToNone(chain: seq<Block>, height: int)
    requires forall i :: 0 <= i < |chain| ==> chain[i].data.index > height
    ensures UpTo(chain, height) == []
  {
    if chain != [] {
      UpToNone(chain[1..], height);
    }
  }

  lemma {:induction false} SameDataSameTxs(a: seq<Block>, b: seq<Block>)
    requires |a| == |b| && forall i :: 0 <= i < |a| ==> a[i].data == b[i].data
    ensures Txs(a) == Txs(b)
  {
    if a != [] {
      SameDataSameTxs(a[1..], b[1..]);
    }
  }

  /** Blocks after the shared prefix that carry an index of the pruned range do not disturb
      the recomputed snapshot. is_chain_valid does not look at indices, so they can exist. */
  predicate StraysNeutral(offered: seq<Block>, n: nat)
    requires n <= |offered|
  {
    var settled := Txs(offered[..n]);
    var strays := Txs(UpTo(offered[n..], n - 1));
    Issued(strays) == 0 && NonZero(Settle(map[], settled + strays)) == NonZero(Settle(map[], settled))
  }

  lemma PrefixTxs(full: seq<Block>, n: nat, offered: seq<Block>)
    requires SamePrefix(offered, full, n)
    ensures Txs(offered[..n]) == Txs(full[..n])
  {
    SameDataSameTxs(offered[..n], full[..n]);
  }

  lemma {:induction false} OfferedTxs(offered: seq<Block>, n: nat)
    requires n <= |offered| && forall i :: 0 <= i < n ==> offered[i].data.index == i
    ensures Txs(UpTo(offered, n - 1)) == Txs(offered[..n]) + Txs(UpTo(offered[n..], n - 1))
  {
    assert offered == offered[..n] + offered[n..];
    UpToConcat(offered[..n], offered[n..], n - 1);
    UpToAll(offered[..n], n - 1);
    TxsConcat(offered[..n], UpTo(offered[n..], n - 1));
  }

  /** Where the prefix is shared, the recomputed snapshot is the committed one exactly when
      the strays are neutral. */
  lemma PrefixSnapshot(full: seq<Block>, n: nat, offered: seq<Block>, hash: string)
    requires Contiguous(full) && 0 < n < |full|
    requires SamePrefix(offered, full, n)
    ensures OfferSnapshot(offered, n - 1, hash) ==
              Snapshot(n - 1, hash, Issued(Txs(full[..n])), NonZero(Settle(map[], Txs(full[..n]))))
            <==> StraysNeutral(offered, n)
  {
    PrefixTxs(full, n, offered);
    OfferedTxs(offered, n);
    IssuedConcat(Txs(offered[..n]), Txs(UpTo(offered[n..], n - 1)));
  }

  lemma FirstAtPrefix(offered: seq<Block>, n: nat)
    requires 0 < n <= |offered| && forall i :: 0 <= i < n ==> offered[i].data.index == i
    ensures FirstAt(offered, n - 1) == Some(n - 1)
  {
    FirstAtIsFirst(offered, n - 1, n - 1);
  }

  predicate SnapshotsCollide(p: Params, full: Ledger, n: nat, offered: seq<Block>)
    requires 0 < n <= |full.chain|
  {
    CommitmentsCollide(p, OfferSnapshot(offered, n - 1, full.chain[n - 1].hash),
                       SnapshotAt(full.chain, full.prunePoint, n))
  }

  /** The offer's first block of the prune point's height has the remembered hash. */
  predicate HashAgrees(full: seq<Block>, n: nat, offered: seq<Block>)
    requires 0 < n <= |full|
  {
    FirstAt(offered, n - 1).Some? && offered[FirstAt(offered, n - 1).value].hash == full[n - 1].hash
  }

  lemma MatchesMeans(p: Params, full: Ledger, n: nat, offered: seq<Block>)
    requires full.prunePoint.None? && Contiguous(full.chain) && 0 < n < |full.chain|
    ensures OfferedMatches(p, PrunedAt(p, full, n), offered) <==>
              && HashAgrees(full.chain, n, offered)
              && Commit(p, OfferSnapshot(offered, n - 1, full.chain[n - 1].hash)) ==
                 Commit(p, SnapshotAt(full.chain, full.prunePoint, n))
  {}

  lemma AgreeingHashes(p: Params, full: seq<Block>, n: nat, offered: seq<Block>)
    requires HashChained(p, full) && Marked(full) && Contiguous(full) && 0 < n < |full|
    requires HashChained(p, offered) && Marked(offered)
    ensures SamePrefix(offered, full, n) ==> HashAgrees(full, n, offered)
    ensures HashAgrees(full, n, offered) ==> Collide(p, offered, full) || SamePrefix(offered, full, n)
  {
    if SamePrefix(offered, full, n) {
      assert ChainedAt(p, offered, n - 1) && ChainedAt(p, full, n - 1);
      FirstAtPrefix(offered, n);
    }
    if HashAgrees(full, n, offered) {
      SameHashSameHistory(p, offered, FirstAt(offered, n - 1).value, full, n - 1);
    }
  }

  /** The check decides exactly whether the forgotten history is there: over every rooted
      hash chain offered, contiguous or not, unless a digest or a commitment collides. */
  lemma ReconciliationExact(p: Params, full: Ledger, n: nat, offered: seq<Block>)
    requires full.prunePoint.None? && HashChained(p, full.chain) && Marked(full.chain) && Contiguous(full.chain)
    requires 0 < n < |full.chain|
    requires HashChained(p, offered) && Marked(offered)
    ensures Collide(p, offered, full.chain) || SnapshotsCollide(p, full, n, offered) ||
            (OfferedMatches(p, PrunedAt(p, full, n), offered) <==>
             SamePrefix(offered, full.chain, n) && StraysNeutral(offered, n))
  {
    MatchesMeans(p, full, n, offered);
    AgreeingHashes(p, full.chain, n, offered);
    if SamePrefix(offered, full.chain, n) {
      PrefixSnapshot(full.chain, n, offered, full.chain[n - 1].hash);
    }
  }

  lemma NoStrays(offered: seq<Block>, n: nat)
    requires Contiguous(offered) && n <= |offered|
    ensures StraysNeutral(offered, n)
  {
    UpToNone(offered[n..], n - 1);
    assert Txs(offered[..n]) + Txs([]) == Txs(offered[..n]);
  }

  /** An offer that repeats the forgotten blocks always passes, collisions or not. */
  lemma ExtensionMatches(p: Params, full: Ledger, n: nat, offered: seq<Block>)
    requires full.prunePoint.None? && Contiguous(full.chain) && 0 < n < |full.chain|
    requires Contiguous(offered) && n <= |offered| && forall i :: 0 <= i < n ==> offered[i] == full.chain[i]
    ensures OfferedMatches(p, PrunedAt(p, full, n), offered)
  {
    MatchesMeans(p, full, n, offered);
    FirstAtPrefix(offered, n);
    NoStrays(offered, n);
    PrefixSnapshot(full.chain, n, offered, full.chain[n - 1].hash);
  }

  /** For contiguously indexed offers the check is exactly "same history". */
  lemma ReconciliationOfContiguous(p: Params, full: Ledger, n: nat, offered: seq<Block>)
    requires full.prunePoint.None? && HashChained(p, full.chain) && Marked(full.chain) && Contiguous(full.chain)
    requires 0 < n < |full.chain|
    requires HashChained(p, offered) && Marked(offered) && Contiguous(offered)
    ensures Collide(p, offered, full.chain) || SnapshotsCollide(p, full, n, offered) ||
            (OfferedMatches(p, PrunedAt(p, full, n), offered) <==> SamePrefix(offered, full.chain, n))
  {
    ReconciliationExact(p, full, n, offered);
    if SamePrefix(offered, full.chain, n) {
      NoStrays(offered, n);
    }
  }
}
