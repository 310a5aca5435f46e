/**
 `TxHistoryService.syncByWallet` and its helpers as one uninterrupted run over the table
 (src/main/blockchain/tx-history-service.js:238-316), against the invariant of the step machine.
 */
module TxService {
  import opened TxHistory
  import opened TxSync
  import opened Strings
  import opened TxMachine

  /** Every mined row's hash stays mined. */
  ghost predicate KeepsMined(before: Table, after: Table) {
    forall hash :: StoredMined(before, hash) ==> StoredMined(after, hash)
  }

  lemma KeepsMinedOn(a: Table, b: Table, c: Table)
    requires KeepsMined(a, b) && KeepsMined(b, c)
    ensures KeepsMined(a, c)
  {
  }

  class TxHistoryService {
    const table: TxTable
    var marks: map<string, nat>
    var isSyncingMap: map<string, bool>

    constructor ()
      ensures fresh(table) && table.Valid() && table.Contents() == Table(map[], 1)
      ensures marks == map[] && isSyncingMap == map[]
    {
      table := new TxTable();
      marks, isSyncingMap := map[], map[];
    }

    /** The service as a state of the machine, for the chain as it is now. */
    function AsState(chain: seq<Tx>, head: nat, jobs: map<string, Job>): State
      reads this, table
    {
      State(chain, head, table.Contents(), marks, jobs)
    }

    /** One round of `processTxHistory`: stores the hash's row if `processTx` accepts it. */
    method StoreHash(net: Network, hash: string, slots: Slots, walletAddress: string, ghost s: State)
      requires s.table == table.Contents() && Inv(net, s)
      requires walletAddress in s.jobs && s.jobs[walletAddress].Storing?
      requires hash in s.jobs[walletAddress].pending && s.jobs[walletAddress].pending[hash] == slots
      modifies table
      ensures Inv(net, WithoutPending(s, walletAddress, hash).(table := table.Contents()))
      ensures KeepsMined(s.table, table.Contents())
    {
      PendingSlots(net, s, walletAddress, hash);
      var processedTx := ProcessTransaction(net, slots, walletAddress);
      if processedTx.Some? {
        table.AddOrUpdate(hash, processedTx.value);
      }
      ghost var t := WithoutPending(s, walletAddress, hash).(table := table.Contents());
      assert Next(net, s, Store(walletAddress, hash), t);
      NextKeeps(net, s, Store(walletAddress, hash), t);
      forall h | StoredMined(s.table, h) { MinedStays(net, s, Store(walletAddress, hash), t, h); }
    }

    /** Stores what `processTx` accepts, hash by hash in whatever key order. */
    method ProcessTxHistory(net: Network, txHashes: Merged, walletAddress: string, ghost s: State)
      requires s.table == table.Contents() && Inv(net, s)
      requires walletAddress in s.jobs && s.jobs[walletAddress].Storing? && s.jobs[walletAddress].pending == txHashes
      modifies table
      ensures Inv(net, Pending(s, walletAddress, map[]).(table := table.Contents()))
      ensures KeepsMined(old(table.Contents()), table.Contents())
    {
      var left := txHashes;
      ghost var t := s;
      PendingAll(s, walletAddress);
      while left != map[]
        invariant t == Pending(s, walletAddress, left).(table := table.Contents())
        invariant Inv(net, t)
        invariant KeepsMined(s.table, t.table)
        decreases left.Keys
      {
        var hash :| hash in left;
        ghost var before := t.table;
        StoreHash(net, hash, left[hash], walletAddress, t);
        KeepsMinedOn(s.table, before, table.Contents());
        PendingLess(s, walletAddress, left, before, hash, table.Contents());
        t := WithoutPending(t, walletAddress, hash).(table := table.Contents());
        left := left - {hash};
      }
    }

    /** Fetches both histories from the last synced block and stores them. */
    method FetchAndStore(net: Network, chain: seq<Tx>, head: nat, address: string) returns (ghost t: State)
      requires Inv(net, AsState(chain, head, map[]))
      modifies table
      ensures t.jobs.Keys == {address} && t.jobs[address] == Storing(t.jobs[address].start, head, map[])
      ensures t == AsState(chain, head, t.jobs) && Inv(net, t)
      ensures KeepsMined(old(table.Contents()), table.Contents())
    {
      ghost var s := AsState(chain, head, map[]);
      var startBlock := if address in marks then marks[address] else 0;
      MarkBelowHead(net, s, address);
      var eth, token := HistoryOf(chain, address, false, startBlock, head), HistoryOf(chain, address, true, startBlock, head);
      var txHashes, rounds := FetchHistory(eth, token);
      FetchedState(net, s, address, txHashes);
      t := s.(jobs := map[address := Storing(startBlock, head, txHashes)]);
      ProcessTxHistory(net, txHashes, address, t);
      t := Pending(t, address, map[]).(table := table.Contents());
    }

    /**
     One sync: fetch both histories from the last synced block to `head`, store them, advance
     the mark. Everything up to `head` is stored then, for this wallet, and for every other
     wallet what was.
     */
    method SyncByWallet(net: Network, chain: seq<Tx>, head: nat, address: string, showProgress: bool)
      requires Inv(net, AsState(chain, head, map[]))
      modifies this, table
      ensures Inv(net, AsState(chain, head, map[]))
      ensures marks == old(marks)[address := head]
      ensures showProgress ==> isSyncingMap == old(isSyncingMap)[address := false]
      ensures !showProgress ==> isSyncingMap == old(isSyncingMap)
      ensures KeepsMined(old(table.Contents()), table.Contents())
    {
      if showProgress {
        isSyncingMap := isSyncingMap[address := true];
      }
      ghost var t := FetchAndStore(net, chain, head, address);
      if showProgress {
        isSyncingMap := isSyncingMap[address := false];
      }
      marks := marks[address := head];
      FinishedState(net, t, address, AsState(chain, head, map[]));
    }

    /** `sync` after a wallet's history: pending rows below the account's nonce go. */
    method RemoveNotMinedPendingTxs(net: Network, address: string, nonce: int, ghost chain: seq<Tx>, ghost head: nat)
      requires Inv(net, AsState(chain, head, map[]))
      modifies table
      ensures Inv(net, AsState(chain, head, map[]))
      ensures table.Contents() == CleanedUp(old(table.Contents()), Lower(address), nonce)
    {
      ghost var s := AsState(chain, head, map[]);
      table.RemoveNotMinedPendingTxs(Lower(address), nonce);
      ghost var t := AsState(chain, head, map[]);
      assert Next(net, s, Cleanup(Lower(address), nonce), t);
      NextKeeps(net, s, Cleanup(Lower(address), nonce), t);
    }
  }

  /** The state once `hash` is no longer pending. */
  ghost function WithoutPending(s: State, w: string, hash: string): State
    requires w in s.jobs && s.jobs[w].Storing?
  {
    s.(jobs := s.jobs[w := s.jobs[w].(pending := s.jobs[w].pending - {hash})])
  }

  /** The state with `left` still pending for wallet `w`. */
  ghost function Pending(s: State, w: string, left: Merged): State
    requires w in s.jobs && s.jobs[w].Storing?
  {
    s.(jobs := s.jobs[w := s.jobs[w].(pending := left)])
  }

  lemma PendingAll(s: State, w: string)
    requires w in s.jobs && s.jobs[w].Storing?
    ensures Pending(s, w, s.jobs[w].pending) == s
  {
    assert s.jobs[w := s.jobs[w]] == s.jobs;
  }

  lemma PendingLess(s: State, w: string, left: Merged, table: Table, hash: string, after: Table)
    requires w in s.jobs && s.jobs[w].Storing?
    ensures var t := Pending(s, w, left).(table := table);
      WithoutPending(t, w, hash).(table := after) == Pending(s, w, left - {hash}).(table := after)
  {
    var t := Pending(s, w, left).(table := table);
    assert WithoutPending(t, w, hash).jobs == Pending(s, w, left - {hash}).jobs;
  }

  lemma MarkBelowHead(net: Network, s: State, w: string)
    requires Inv(net, s)
    ensures Mark(s, w) <= s.head
  {
  }

  /** Finishing the only sync in progress. */
  lemma FinishedState(net: Network, s: State, w: string, t: State)
    requires Inv(net, s) && s.jobs.Keys == {w} && s.jobs[w].Storing? && s.jobs[w].pending == map[]
    requires t == s.(marks := s.marks[w := s.jobs[w].end], jobs := map[])
    ensures Inv(net, t)
  {
    assert s.jobs - {w} == map[];
    assert Next(net, s, Finish(w), t);
    NextKeeps(net, s, Finish(w), t);
  }

  lemma SlotHashes(chain: seq<Tx>, w: string, start: nat, end: nat, hash: string)
    ensures var eth := LastWith(HistoryOf(chain, w, false, start, end), hash);
      eth.Some? ==> eth.value.hash == hash
    ensures var token := LastWith(HistoryOf(chain, w, true, start, end), hash);
      token.Some? ==> token.value.hash == hash
  {
    LastWithMember(HistoryOf(chain, w, false, start, end), hash);
    LastWithMember(HistoryOf(chain, w, true, start, end), hash);
  }

  /** A pending hash has a transaction in one of its slots, and is processed to a mined row of that hash. */
  lemma PendingSlots(net: Network, s: State, w: string, hash: string)
    requires Inv(net, s) && w in s.jobs && s.jobs[w].Storing? && hash in s.jobs[w].pending
    ensures var slots := s.jobs[w].pending[hash];
      (slots.eth.Some? || slots.token.Some?) &&
      (ProcessTx(net, slots, w).Some? ==> HashOf(ProcessTx(net, slots, w).value, hash))
  {
    var job := s.jobs[w];
    assert GoodJob(net, s, w, job);
    SlotHashes(s.chain, w, job.start, job.end, hash);
    if ProcessTx(net, job.pending[hash], w).Some? {
      ProcessedIsMined(net, job.pending[hash], w, hash);
    }
  }

  /** The merge of the full histories is a sync ready to be stored. */
  lemma FetchedState(net: Network, s: State, w: string, merged: Merged)
    requires Inv(net, s) && s.jobs == map[]
    requires IsMerge(merged, HistoryOf(s.chain, w, false, Mark(s, w), s.head), HistoryOf(s.chain, w, true, Mark(s, w), s.head))
    ensures Inv(net, s.(jobs := map[w := Storing(Mark(s, w), s.head, merged)]))
  {
    var job := Storing(Mark(s, w), s.head, merged);
    var t := s.(jobs := map[w := job]);
    assert Mark(s, w) <= s.head;
    forall tx | tx in s.chain && Involves(tx, w) && job.start <= tx.block <= job.end
      ensures tx.hash in merged
    {
      SlotsShow(net, s, w, tx, job.start, job.end);
    }
    assert GoodJob(net, s, w, job);
    SameData(net, s, t);
  }
}
