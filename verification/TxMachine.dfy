/**
 Syncs of several wallets running while the chain grows, transactions are sent and pending rows
 are cleaned up (src/main/blockchain/tx-history-service.js:258-316): whatever the interleaving of
 these steps, everything up to a wallet's last synced block is stored. An upsert is one step here;
 `TxUpserts` has the gap between its look-up and its write.
 */
module TxMachine {
  import opened Wrappers
  import opened Json
  import opened Strings
  import opened TxHistory
  import opened TxSync

  /** A sync in progress: pages being fetched for a block range, or the merged result being stored. */
  datatype Job =
    | Fetching(start: nat, end: nat, page: nat, merged: Merged)
    | Storing(start: nat, end: nat, pending: Merged)

  /** `chain` in block order; `marks` are the last synced blocks. */
  datatype State = State(chain: seq<Tx>, head: nat, table: Table, marks: map<string, nat>, jobs: map<string, Job>)

  datatype Event =
    | Mine(txs: seq<Tx>, head: nat)
    | Begin(wallet: string)
    | Fetch(wallet: string)
    | Store(wallet: string, hash: string)
    | Finish(wallet: string)
    | Abort(wallet: string)
    | Send(hash: string, data: Row)
    | Cleanup(publicKey: string, nonce: int)

  predicate Listed(tx: Tx, wallet: string, isToken: bool, start: nat, end: nat) {
    tx.isToken == isToken && Involves(tx, wallet) && start <= tx.block <= end
  }

  /** The API's list for a wallet and block range, newest first. */
  function HistoryOf(chain: seq<Tx>, wallet: string, isToken: bool, start: nat, end: nat): seq<Tx> {
    if chain == [] then []
    else
      var older := HistoryOf(chain[..|chain| - 1], wallet, isToken, start, end);
      if Listed(chain[|chain| - 1], wallet, isToken, start, end) then [chain[|chain| - 1]] + older else older
  }

  function SlotsOf(s: State, wallet: string, start: nat, end: nat, hash: string): Slots {
    SlotsIn(HistoryOf(s.chain, wallet, false, start, end), HistoryOf(s.chain, wallet, true, start, end), hash)
  }

  function Mark(s: State, wallet: string): nat {
    if wallet in s.marks then s.marks[wallet] else 0
  }

  // Steps

  ghost predicate Grows(s: State, txs: seq<Tx>, head: nat) {
    s.head <= head &&
    (forall tx :: tx in txs ==> s.head < tx.block <= head) &&
    (forall a, b :: a in s.chain && b in txs ==> a.hash != b.hash) &&
    forall a, b :: a in txs && b in txs && a.hash == b.hash ==> a.block == b.block
  }

  function FetchedPage(s: State, wallet: string, job: Job, isToken: bool): seq<Tx>
    requires job.Fetching? && job.page > 0
  {
    PageOf(HistoryOf(s.chain, wallet, isToken, job.start, job.end), job.page)
  }

  /** The result of `MergePage` on the job's next two pages. */
  ghost predicate PageMerged(s: State, wallet: string, job: Job, merged: Merged)
    requires job.Fetching? && job.page > 0
  {
    var eth, token := HistoryOf(s.chain, wallet, false, job.start, job.end), HistoryOf(s.chain, wallet, true, job.start, job.end);
    IsMerge(merged, eth[..Covered(|eth|, job.page)], token[..Covered(|token|, job.page)])
  }

  ghost predicate Next(net: Network, s: State, e: Event, t: State) {
    match e
    case Mine(txs, head) =>
      Grows(s, txs, head) && t == s.(chain := s.chain + txs, head := head)
    case Begin(w) =>
      w !in s.jobs && t == s.(jobs := s.jobs[w := Fetching(Mark(s, w), s.head, 1, map[])])
    case Fetch(w) =>
      w in s.jobs && s.jobs[w].Fetching? && s.jobs[w].page > 0 &&
      var job := s.jobs[w];
      var more := |FetchedPage(s, w, job, false)| == OFFSET || |FetchedPage(s, w, job, true)| == OFFSET;
      exists merged :: PageMerged(s, w, job, merged) &&
        t == s.(jobs := s.jobs[w :=
          if more then job.(page := job.page + 1, merged := merged) else Storing(job.start, job.end, merged)])
    case Store(w, hash) =>
      w in s.jobs && s.jobs[w].Storing? && hash in s.jobs[w].pending &&
      var job := s.jobs[w];
      var slots := job.pending[hash];
      slots != Slots(None, None) &&
      t.chain == s.chain && t.head == s.head && t.marks == s.marks &&
      t.jobs == s.jobs[w := job.(pending := job.pending - {hash})] &&
      var row := ProcessTx(net, slots, w);
      if row.Some? then Upserted(s.table, hash, row.value, t.table) else t.table == s.table
    case Finish(w) =>
      w in s.jobs && s.jobs[w].Storing? && s.jobs[w].pending == map[] &&
      t == s.(marks := s.marks[w := s.jobs[w].end], jobs := s.jobs - {w})
    case Abort(w) =>
      t == s.(jobs := s.jobs - {w})
    case Send(hash, data) =>
      HashOf(data, hash) && "blockNumber" !in data &&
      t.(table := s.table) == s && Upserted(s.table, hash, data, t.table)
    case Cleanup(publicKey, nonce) =>
      t == s.(table := CleanedUp(s.table, publicKey, nonce))
  }

  ghost predicate Initial(s: State) {
    s == State([], 0, Table(map[], 1), map[], map[])
  }

  // The invariant

  ghost predicate OneBlockPerHash(chain: seq<Tx>) {
    forall a, b :: a in chain && b in chain && a.hash == b.hash ==> a.block == b.block
  }

  /** If `processTx` accepts this hash of the wallet, a mined row holds it. */
  ghost predicate Settled(net: Network, s: State, wallet: string, hash: string) {
    var slots := SlotsOf(s, wallet, 0, s.head, hash);
    slots != Slots(None, None) && ProcessTx(net, slots, wallet).Some? ==> StoredMined(s.table, hash)
  }

  /** Everything of the wallet up to its last synced block is settled. */
  ghost predicate SyncedTo(net: Network, s: State, wallet: string) {
    forall tx :: tx in s.chain && Involves(tx, wallet) && tx.block <= Mark(s, wallet) ==> Settled(net, s, wallet, tx.hash)
  }

  ghost predicate GoodJob(net: Network, s: State, wallet: string, job: Job) {
    job.start == Mark(s, wallet) && job.end <= s.head && job.start <= job.end &&
    match job
    case Fetching(start, end, page, merged) =>
      page > 0 &&
      var eth, token := HistoryOf(s.chain, wallet, false, start, end), HistoryOf(s.chain, wallet, true, start, end);
      IsMerge(merged, eth[..Covered(|eth|, page - 1)], token[..Covered(|token|, page - 1)])
    case Storing(start, end, pending) =>
      (forall hash :: hash in pending ==>
        pending[hash] == SlotsOf(s, wallet, start, end, hash) && pending[hash] != Slots(None, None)) &&
      forall tx :: tx in s.chain && Involves(tx, wallet) && start <= tx.block <= end ==>
        tx.hash in pending || Settled(net, s, wallet, tx.hash)
  }

  ghost predicate Inv(net: Network, s: State) {
    OneBlockPerHash(s.chain) && (forall tx :: tx in s.chain ==> tx.block <= s.head) &&
    Unique(s.table) &&
    (forall w :: Mark(s, w) <= s.head) &&
    (forall w :: SyncedTo(net, s, w)) &&
    forall w :: w in s.jobs ==> GoodJob(net, s, w, s.jobs[w])
  }

  // Lists and slots

  lemma {:induction false} LastWithPrepend(x: Tx, list: seq<Tx>, hash: string)
    ensures LastWith([x] + list, hash) ==
      if LastWith(list, hash).Some? then LastWith(list, hash) else if x.hash == hash then Some(x) else None
  {
    if list == [] {
      assert [x] + list == [x];
      assert [x][..0] == [];
    } else {
      var all, front := [x] + list, list[..|list| - 1];
      LastWithPrepend(x, front, hash);
      assert all[..|all| - 1] == [x] + front && all[|all| - 1] == list[|list| - 1];
    }
  }

  lemma {:induction false} HistoryMember(chain: seq<Tx>, wallet: string, isToken: bool, start: nat, end: nat, tx: Tx)
    ensures tx in HistoryOf(chain, wallet, isToken, start, end) <==> tx in chain && Listed(tx, wallet, isToken, start, end)
  {
    if chain != [] {
      HistoryMember(chain[..|chain| - 1], wallet, isToken, start, end, tx);
      assert chain == chain[..|chain| - 1] + [chain[|chain| - 1]];
    }
  }

  lemma {:induction false} LastWithMember(list: seq<Tx>, hash: string)
    ensures LastWith(list, hash).Some? ==> LastWith(list, hash).value in list && LastWith(list, hash).value.hash == hash
    ensures LastWith(list, hash).None? ==> forall tx :: tx in list ==> tx.hash != hash
  {
    if list != [] {
      LastWithMember(list[..|list| - 1], hash);
      assert list == list[..|list| - 1] + [list[|list| - 1]];
    }
  }

  /** Two ranges that both contain the hash's block list it alike. */
  lemma {:induction false} SameLast(chain: seq<Tx>, wallet: string, isToken: bool, start: nat, end: nat, start': nat,
        end': nat, hash: string)
    requires forall tx :: tx in chain && tx.hash == hash ==> start <= tx.block <= end && start' <= tx.block <= end'
    ensures LastWith(HistoryOf(chain, wallet, isToken, start, end), hash) ==
            LastWith(HistoryOf(chain, wallet, isToken, start', end'), hash)
  {
    if chain != [] {
      var front, tx := chain[..|chain| - 1], chain[|chain| - 1];
      SameLast(front, wallet, isToken, start, end, start', end', hash);
      LastWithPrepend(tx, HistoryOf(front, wallet, isToken, start, end), hash);
      LastWithPrepend(tx, HistoryOf(front, wallet, isToken, start', end'), hash);
    }
  }

  /** Blocks mined later do not change the list of an earlier range. */
  lemma {:induction false} OlderRange(chain: seq<Tx>, txs: seq<Tx>, wallet: string, isToken: bool, start: nat, end: nat)
    requires forall tx :: tx in txs ==> end < tx.block
    ensures HistoryOf(chain + txs, wallet, isToken, start, end) == HistoryOf(chain, wallet, isToken, start, end)
  {
    if txs == [] {
      assert chain + txs == chain;
    } else {
      var front := txs[..|txs| - 1];
      OlderRange(chain, front, wallet, isToken, start, end);
      assert (chain + txs)[..|chain + txs| - 1] == chain + front;
      assert (chain + txs)[|chain + txs| - 1] == txs[|txs| - 1];
    }
  }

  /** Nor what an older hash is merged to. */
  lemma {:induction false} OlderHash(chain: seq<Tx>, txs: seq<Tx>, wallet: string, isToken: bool, head: nat, head': nat, hash: string)
    requires forall tx :: tx in chain ==> tx.block <= head
    requires head <= head'
    requires forall tx :: tx in txs ==> tx.hash != hash
    ensures LastWith(HistoryOf(chain + txs, wallet, isToken, 0, head'), hash) == LastWith(HistoryOf(chain, wallet, isToken, 0, head), hash)
  {
    if txs == [] {
      assert chain + txs == chain;
      SameLast(chain, wallet, isToken, 0, head', 0, head, hash);
    } else {
      var front := txs[..|txs| - 1];
      OlderHash(chain, front, wallet, isToken, head, head', hash);
      assert (chain + txs)[..|chain + txs| - 1] == chain + front;
      assert (chain + txs)[|chain + txs| - 1] == txs[|txs| - 1];
      LastWithPrepend(txs[|txs| - 1], HistoryOf(chain + front, wallet, isToken, 0, head'), hash);
    }
  }

  /** A wallet's transaction shows up in its hash's slots, in any range around its block. */
  lemma SlotsShow(net: Network, s: State, wallet: string, tx: Tx, start: nat, end: nat)
    requires Inv(net, s) && tx in s.chain && Involves(tx, wallet) && start <= tx.block <= end <= s.head
    ensures SlotsOf(s, wallet, start, end, tx.hash) != Slots(None, None)
    ensures SlotsOf(s, wallet, start, end, tx.hash) == SlotsOf(s, wallet, 0, s.head, tx.hash)
  {
    var list := HistoryOf(s.chain, wallet, tx.isToken, start, end);
    HistoryMember(s.chain, wallet, tx.isToken, start, end, tx);
    LastWithMember(list, tx.hash);
    SameLast(s.chain, wallet, false, start, end, 0, s.head, tx.hash);
    SameLast(s.chain, wallet, true, start, end, 0, s.head, tx.hash);
  }

  // Steps keep the invariant

  lemma MineKeeps(net: Network, s: State, txs: seq<Tx>, head: nat, t: State)
    requires Inv(net, s) && Next(net, s, Mine(txs, head), t)
    ensures Inv(net, t)
  {
    forall w, hash | forall tx :: tx in txs ==> tx.hash != hash
      ensures SlotsOf(t, w, 0, t.head, hash) == SlotsOf(s, w, 0, s.head, hash)
    {
      OlderHash(s.chain, txs, w, false, s.head, head, hash);
      OlderHash(s.chain, txs, w, true, s.head, head, hash);
    }
    forall w, tx | tx in t.chain && Involves(tx, w) && tx.block <= s.head
      ensures tx in s.chain && (Settled(net, s, w, tx.hash) ==> Settled(net, t, w, tx.hash))
    {
      assert forall b :: b in txs ==> tx.hash != b.hash;
    }
    forall w
      ensures SyncedTo(net, t, w) && Mark(t, w) <= t.head
    {
      assert SyncedTo(net, s, w) && Mark(t, w) == Mark(s, w) <= s.head;
    }
    forall w | w in t.jobs
      ensures GoodJob(net, t, w, t.jobs[w])
    {
      var job := s.jobs[w];
      assert GoodJob(net, s, w, job);
      OlderRange(s.chain, txs, w, false, job.start, job.end);
      OlderRange(s.chain, txs, w, true, job.start, job.end);
    }
  }

  lemma BeginKeeps(net: Network, s: State, w: string, t: State)
    requires Inv(net, s) && Next(net, s, Begin(w), t)
    ensures Inv(net, t)
  {
    assert Mark(s, w) <= s.head;
    var eth, token := HistoryOf(s.chain, w, false, Mark(s, w), s.head), HistoryOf(s.chain, w, true, Mark(s, w), s.head);
    assert eth[..0] == [] && token[..0] == [];
    SameData(net, s, t);
  }

  /** Steps that leave chain and marks alone and un-mine nothing keep what was settled. */
  lemma SameData(net: Network, s: State, t: State)
    requires Inv(net, s) && t.chain == s.chain && t.head == s.head && t.marks == s.marks
    requires Unique(t.table) && forall hash :: StoredMined(s.table, hash) ==> StoredMined(t.table, hash)
    ensures forall w :: Mark(t, w) <= t.head
    ensures forall w :: SyncedTo(net, t, w)
    ensures forall w, hash :: Settled(net, s, w, hash) ==> Settled(net, t, w, hash)
    ensures forall w, job :: GoodJob(net, s, w, job) ==> GoodJob(net, t, w, job)
  {
    forall w, hash | Settled(net, s, w, hash)
      ensures Settled(net, t, w, hash)
    {
    }
    forall w
      ensures Mark(t, w) <= t.head && SyncedTo(net, t, w)
    {
      assert Mark(s, w) <= s.head && SyncedTo(net, s, w);
    }
  }

  lemma FetchKeeps(net: Network, s: State, w: string, t: State)
    requires Inv(net, s) && Next(net, s, Fetch(w), t)
    ensures Inv(net, t)
  {
    var job := s.jobs[w];
    assert GoodJob(net, s, w, job);
    SameData(net, s, t);
    FetchedJob(net, s, w, t);
    forall v | v in t.jobs && v != w
      ensures GoodJob(net, t, v, t.jobs[v])
    {
      assert GoodJob(net, s, v, s.jobs[v]);
    }
    assert GoodJob(net, t, w, t.jobs[w]);
  }

  lemma FetchedJob(net: Network, s: State, w: string, t: State)
    requires Inv(net, s) && Next(net, s, Fetch(w), t) && GoodJob(net, s, w, s.jobs[w])
    ensures w in t.jobs && GoodJob(net, s, w, t.jobs[w])
  {
    var job := s.jobs[w];
    var more := |FetchedPage(s, w, job, false)| == OFFSET || |FetchedPage(s, w, job, true)| == OFFSET;
    var merged :| PageMerged(s, w, job, merged) &&
      t == s.(jobs := s.jobs[w :=
        if more then job.(page := job.page + 1, merged := merged) else Storing(job.start, job.end, merged)]);
    if !more {
      FullyMerged(net, s, w, job, merged);
    }
  }

  /** The last page leaves nothing unmerged. */
  lemma FullyMerged(net: Network, s: State, w: string, job: Job, merged: Merged)
    requires Inv(net, s) && job.Fetching? && GoodJob(net, s, w, job) && PageMerged(s, w, job, merged)
    requires |FetchedPage(s, w, job, false)| != OFFSET && |FetchedPage(s, w, job, true)| != OFFSET
    ensures GoodJob(net, s, w, Storing(job.start, job.end, merged))
  {
    var eth, token := HistoryOf(s.chain, w, false, job.start, job.end), HistoryOf(s.chain, w, true, job.start, job.end);
    assert Covered(|eth|, job.page) == |eth| && Covered(|token|, job.page) == |token|;
    assert eth[..|eth|] == eth && token[..|token|] == token;
    forall tx | tx in s.chain && Involves(tx, w) && job.start <= tx.block <= job.end
      ensures tx.hash in merged
    {
      SlotsShow(net, s, w, tx, job.start, job.end);
    }
  }

  /** The row of an accepted hash is stored mined, and no other row is lost. */
  lemma StoredRow(net: Network, s: State, w: string, hash: string, t: State)
    requires Inv(net, s) && Next(net, s, Store(w, hash), t)
    ensures Unique(t.table) && forall other :: StoredMined(s.table, other) ==> StoredMined(t.table, other)
    ensures ProcessTx(net, s.jobs[w].pending[hash], w).Some? ==> StoredMined(t.table, hash)
  {
    var job := s.jobs[w];
    assert GoodJob(net, s, w, job);
    var slots := job.pending[hash];
    LastWithMember(HistoryOf(s.chain, w, false, job.start, job.end), hash);
    LastWithMember(HistoryOf(s.chain, w, true, job.start, job.end), hash);
    var row := ProcessTx(net, slots, w);
    if row.Some? {
      ProcessedIsMined(net, slots, w, hash);
      UpsertUnique(s.table, hash, row.value, t.table);
      forall other { UpsertKeepsMined(s.table, hash, row.value, t.table, other); }
    }
  }

  /** A party's history lists the hash: `findByPublicKey`. */
  ghost predicate BelongsTo(t: Table, hash: string, publicKey: string) {
    exists id :: id in t.rows && HashOf(t.rows[id], hash) && PartyOf(t.rows[id], publicKey)
  }

  /** Every row of the hash has the sender, the recipient, the block and the nonce of its transaction, each in its own column. */
  ghost predicate StoredAs(t: Table, txs: Slots, hash: string)
    requires txs.eth.Some? || txs.token.Some?
  {
    var tx := if txs.token.Some? then txs.token.value else txs.eth.value;
    Stored(t, hash) &&
    forall id :: id in t.rows && HashOf(t.rows[id], hash) ==>
      Field(t.rows[id], "from") == Some(Str(Lower(tx.from))) && Field(t.rows[id], "to") == Some(Str(Lower(tx.to))) &&
      Field(t.rows[id], "blockNumber") == Some(Num(tx.block)) && Field(t.rows[id], "nonce") == Some(Num(tx.nonce))
  }

  /**
   After a sync of wallet `w` stored a hash, its row has the sender and the recipient of its
   transaction, and is in the history of exactly the parties of
   the transaction `processTx` went by: of `w` itself, and no longer of a wallet whose sync had
   stored the hash for another transaction it was a party of.
   */
  lemma StoredBelongs(net: Network, s: State, w: string, hash: string, t: State, publicKey: string)
    requires Inv(net, s) && Next(net, s, Store(w, hash), t)
    requires ProcessTx(net, s.jobs[w].pending[hash], w).Some?
    ensures BelongsTo(t.table, hash, publicKey) <==> Involves(ProperTx(s.jobs[w].pending[hash]), publicKey)
    ensures BelongsTo(t.table, hash, w)
    ensures StoredAs(t.table, s.jobs[w].pending[hash], hash)
    ensures forall other :: other != hash ==> (BelongsTo(t.table, other, publicKey) <==> BelongsTo(s.table, other, publicKey))
  {
    var job := s.jobs[w];
    assert GoodJob(net, s, w, job);
    var slots := job.pending[hash];
    ProperInvolves(s, w, job.start, job.end, hash);
    var row := ProcessTx(net, slots, w).value;
    ProcessedIsMined(net, slots, w, hash);
    ProcessedBelongs(net, slots, w, publicKey);
    ProcessedBelongs(net, slots, w, w);
    UpsertedParties(s.table, hash, row, t.table, publicKey);
    UpsertedParties(s.table, hash, row, t.table, w);
    UpsertedAs(net, slots, w, hash, s.table, t.table);
  }

  lemma UpsertedAs(net: Network, txs: Slots, w: string, hash: string, t: Table, after: Table)
    requires Unique(t) && (txs.eth.Some? || txs.token.Some?) && ProcessTx(net, txs, w).Some?
    requires HashOf(ProcessTx(net, txs, w).value, hash) && Upserted(t, hash, ProcessTx(net, txs, w).value, after)
    ensures StoredAs(after, txs, hash)
  {
    ProcessedColumns(net, txs, w);
    var id := UpsertColumns(t, hash, ProcessTx(net, txs, w).value, after);
    assert HashOf(after.rows[id], hash);
  }

  lemma ProperInvolves(s: State, w: string, start: nat, end: nat, hash: string)
    requires SlotsOf(s, w, start, end, hash) != Slots(None, None)
    ensures var slots := SlotsOf(s, w, start, end, hash);
      Involves(ProperTx(slots), w) &&
      (slots.eth.Some? ==> slots.eth.value.hash == hash) && (slots.token.Some? ==> slots.token.value.hash == hash)
  {
    forall isToken: bool
      ensures var tx := LastWith(HistoryOf(s.chain, w, isToken, start, end), hash);
        tx.Some? ==> tx.value.hash == hash && Involves(tx.value, w)
    {
      var list := HistoryOf(s.chain, w, isToken, start, end);
      LastWithMember(list, hash);
      if LastWith(list, hash).Some? {
        HistoryMember(s.chain, w, isToken, start, end, LastWith(list, hash).value);
      }
    }
  }

  /** An upsert that names both parties makes the row theirs. */
  lemma UpsertedParties(t: Table, hash: string, data: Row, after: Table, publicKey: string)
    requires Unique(t) && HashOf(data, hash) && "from" in data && "to" in data && Upserted(t, hash, data, after)
    ensures BelongsTo(after, hash, publicKey) <==> PartyOf(data, publicKey)
    ensures forall other :: other != hash ==> (BelongsTo(after, other, publicKey) <==> BelongsTo(t, other, publicKey))
  {
    var found :| FoundBy(t, hash, found) && after == Written(t, found, data);
    var id := if found.Some? then found.value else t.nextId;
    assert id in after.rows && HashOf(after.rows[id], hash);
    assert PartyOf(after.rows[id], publicKey) <==> PartyOf(data, publicKey);
    assert forall k :: k in t.rows && k != id ==> k in after.rows && after.rows[k] == t.rows[k] && !HashOf(t.rows[k], hash);
    assert forall k :: k in after.rows && k != id ==> k in t.rows;
  }

  lemma StoreKeeps(net: Network, s: State, w: string, hash: string, t: State)
    requires Inv(net, s) && Next(net, s, Store(w, hash), t)
    ensures Inv(net, t)
  {
    var job := s.jobs[w];
    assert GoodJob(net, s, w, job);
    var slots := job.pending[hash];
    StoredRow(net, s, w, hash, t);
    SameData(net, s, t);
    forall tx | tx in s.chain && Involves(tx, w) && job.start <= tx.block <= job.end && tx.hash == hash
      ensures Settled(net, t, w, hash)
    {
      SlotsShow(net, s, w, tx, job.start, job.end);
      assert SlotsOf(t, w, 0, t.head, hash) == slots;
    }
    assert GoodJob(net, t, w, job.(pending := job.pending - {hash}));
    assert forall v :: v in t.jobs && v != w ==> v in s.jobs && GoodJob(net, s, v, s.jobs[v]);
  }

  lemma FinishKeeps(net: Network, s: State, w: string, t: State)
    requires Inv(net, s) && Next(net, s, Finish(w), t)
    ensures Inv(net, t)
  {
    var job := s.jobs[w];
    assert GoodJob(net, s, w, job);
    forall v
      ensures Mark(t, v) <= t.head && SyncedTo(net, t, v)
    {
      assert SyncedTo(net, s, v) && Mark(s, v) <= s.head;
      forall tx | tx in t.chain && Involves(tx, v) && tx.block <= Mark(t, v)
        ensures Settled(net, t, v, tx.hash)
      {
        assert Settled(net, s, v, tx.hash);
      }
    }
    forall v | v in t.jobs
      ensures GoodJob(net, t, v, t.jobs[v])
    {
      assert GoodJob(net, s, v, s.jobs[v]) && Mark(t, v) == Mark(s, v);
      forall hash | Settled(net, s, v, hash)
        ensures Settled(net, t, v, hash)
      {
      }
    }
  }

  /** Every step, whatever it interleaves with, keeps the invariant. */
  lemma NextKeeps(net: Network, s: State, e: Event, t: State)
    requires Inv(net, s) && Next(net, s, e, t)
    ensures Inv(net, t)
  {
    match e
    case Mine(txs, head) => MineKeeps(net, s, txs, head, t);
    case Begin(w) => BeginKeeps(net, s, w, t);
    case Fetch(w) => FetchKeeps(net, s, w, t);
    case Store(w, hash) => StoreKeeps(net, s, w, hash, t);
    case Finish(w) => FinishKeeps(net, s, w, t);
    case Abort(w) =>
      SameData(net, s, t);
    case Send(hash, data) =>
      UpsertUnique(s.table, hash, data, t.table);
      forall other { UpsertKeepsMined(s.table, hash, data, t.table, other); }
      SameData(net, s, t);
    case Cleanup(publicKey, nonce) =>
      forall other { CleanupKeepsMined(s.table, publicKey, nonce, other); }
      SameData(net, s, t);
  }

  ghost predicate IsRun(net: Network, states: seq<State>, events: seq<Event>) {
    |states| == |events| + 1 && Initial(states[0]) &&
    forall i :: 0 <= i < |events| ==> Next(net, states[i], events[i], states[i + 1])
  }

  /**
   Over every run, every transaction hash of a wallet that `processTx` accepts and that lies at
   or below the wallet's last synced block has a mined row, and no hash has two rows.
   */
  lemma {:induction false} SyncedHistoryIsStored(net: Network, states: seq<State>, events: seq<Event>, i: nat)
    requires IsRun(net, states, events) && i < |states|
    ensures Inv(net, states[i])
    ensures forall w :: SyncedTo(net, states[i], w)
    ensures Unique(states[i].table)
    decreases i
  {
    if i == 0 {
      var s := states[0];
      assert forall w :: Mark(s, w) == 0;
    } else {
      SyncedHistoryIsStored(net, states, events, i - 1);
      assert Next(net, states[i - 1], events[i - 1], states[i - 1 + 1]);
      NextKeeps(net, states[i - 1], events[i - 1], states[i]);
    }
  }

  /** A mined row is there for good: no step removes or un-mines one. */
  lemma MinedStays(net: Network, s: State, e: Event, t: State, hash: string)
    requires Inv(net, s) && Next(net, s, e, t) && StoredMined(s.table, hash)
    ensures StoredMined(t.table, hash)
  {
    match e
    case Store(w, h) => StoredRow(net, s, w, h, t);
    case Send(h, data) => UpsertKeepsMined(s.table, h, data, t.table, hash);
    case Cleanup(publicKey, nonce) => CleanupKeepsMined(s.table, publicKey, nonce, hash);
    case _ =>
  }

  /** The API's list has exactly the wallet's transactions of its kind in the block range. */
  lemma HistoryLists(chain: seq<Tx>, wallet: string, isToken: bool, start: nat, end: nat, tx: Tx)
    ensures tx in HistoryOf(chain, wallet, isToken, start, end) <==>
      tx in chain && tx.isToken == isToken && (Lower(tx.from) == wallet || Lower(tx.to) == wallet) && start <= tx.block <= end
  {
    HistoryMember(chain, wallet, isToken, start, end, tx);
  }

  /** The wallet's sync is neither begun, nor finished, nor aborted by this event. */
  predicate Apart(e: Event, w: string) {
    e != Begin(w) && e != Finish(w) && e != Abort(w)
  }

  lemma JobStays(net: Network, s: State, e: Event, t: State, w: string)
    requires Next(net, s, e, t) && w in s.jobs && Apart(e, w)
    ensures w in t.jobs && t.jobs[w].start == s.jobs[w].start && t.jobs[w].end == s.jobs[w].end
  {
  }

  lemma {:induction false} SyncRange(net: Network, states: seq<State>, events: seq<Event>, i: nat, k: nat, w: string)
    requires IsRun(net, states, events) && i < k <= |events| && events[i] == Begin(w)
    requires forall m :: i < m < k ==> Apart(events[m], w)
    ensures w in states[k].jobs && states[k].jobs[w].start == Mark(states[i], w) && states[k].jobs[w].end == states[i].head
    decreases k
  {
    assert Next(net, states[k - 1], events[k - 1], states[k - 1 + 1]);
    if k > i + 1 {
      SyncRange(net, states, events, i, k - 1, w);
      JobStays(net, states[k - 1], events[k - 1], states[k], w);
    }
  }

  /** A sync that finishes moves its wallet's mark to the head the chain had when it began. */
  lemma MarkAfterSync(net: Network, states: seq<State>, events: seq<Event>, i: nat, j: nat, w: string)
    requires IsRun(net, states, events) && i < j < |events| && events[i] == Begin(w) && events[j] == Finish(w)
    requires forall m :: i < m < j ==> Apart(events[m], w)
    ensures Mark(states[j + 1], w) == states[i].head
  {
    SyncRange(net, states, events, i, j, w);
    assert Next(net, states[j], events[j], states[j + 1]);
  }
}
