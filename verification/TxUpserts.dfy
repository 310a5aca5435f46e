/**
 `addOrUpdate` as the two steps it is (src/main/blockchain/tx-history.js:86-94): it awaits between
 looking a hash up and writing its row, and other syncs, sends and cleanups run in that gap. A
 machine with the gap keeps what `TxMachine` keeps exactly as long as no write finds that its
 look-up has gone stale in a way that matters.
 */
module TxUpserts {
  import opened Wrappers
  import opened Json
  import opened Strings
  import opened TxHistory
  import opened TxSync
  import opened TxMachine

  /** A row looked up and not yet written. */
  datatype Upsert = Upsert(hash: string, data: Row, found: Option<int>)

  /** `storing` has a sync's upsert by its wallet, `sending` those of sent transactions by call. */
  datatype Gapped = Gapped(base: State, storing: map<string, Upsert>, sending: map<int, Upsert>)

  datatype Event =
    | Whole(event: TxMachine.Event)
    | Skip(wallet: string, hash: string)
    | FindStored(wallet: string, hash: string)
    | WriteStored(wallet: string)
    | FindSent(call: int, hash: string, data: Row)
    | WriteSent(call: int)

  /** The wallet's sync is about to store this hash. */
  ghost predicate Due(s: State, w: string, hash: string) {
    w in s.jobs && s.jobs[w].Storing? && hash in s.jobs[w].pending && s.jobs[w].pending[hash] != Slots(None, None)
  }

  function Done(s: State, w: string, hash: string): map<string, Job>
    requires w in s.jobs && s.jobs[w].Storing?
  {
    s.jobs[w := s.jobs[w].(pending := s.jobs[w].pending - {hash})]
  }

  ghost predicate Next(net: Network, s: Gapped, e: Event, t: Gapped) {
    match e
    case Whole(event) =>
      !event.Store? && !event.Send? && TxMachine.Next(net, s.base, event, t.base) &&
      t.sending == s.sending && t.storing == if event.Abort? then s.storing - {event.wallet} else s.storing
    case Skip(w, hash) =>
      w !in s.storing && Due(s.base, w, hash) && ProcessTx(net, s.base.jobs[w].pending[hash], w).None? &&
      t == s.(base := s.base.(jobs := Done(s.base, w, hash)))
    case FindStored(w, hash) =>
      w !in s.storing && Due(s.base, w, hash) &&
      var row := ProcessTx(net, s.base.jobs[w].pending[hash], w);
      row.Some? &&
      exists found :: FoundBy(s.base.table, hash, found) && t == s.(storing := s.storing[w := Upsert(hash, row.value, found)])
    case WriteStored(w) =>
      w in s.storing && w in s.base.jobs && s.base.jobs[w].Storing? &&
      var u := s.storing[w];
      t == Gapped(s.base.(table := Written(s.base.table, u.found, u.data), jobs := Done(s.base, w, u.hash)), s.storing - {w}, s.sending)
    case FindSent(k, hash, data) =>
      k !in s.sending && HashOf(data, hash) && "blockNumber" !in data &&
      exists found :: FoundBy(s.base.table, hash, found) && t == s.(sending := s.sending[k := Upsert(hash, data, found)])
    case WriteSent(k) =>
      k in s.sending &&
      var u := s.sending[k];
      t == Gapped(s.base.(table := Written(s.base.table, u.found, u.data)), s.storing, s.sending - {k})
  }

  ghost predicate Initial(s: Gapped) {
    TxMachine.Initial(s.base) && s.storing == map[] && s.sending == map[]
  }

  /**
   The guard of the write: no row has appeared where there was none, and the row of a mined
   transaction, if it is gone, is stored mined all the same.
   */
  ghost predicate Harmless(s: Gapped, e: Event) {
    match e
    case WriteStored(w) => w in s.storing ==>
      var u := s.storing[w];
      if u.found.Some? then u.found.value in s.base.table.rows || StoredMined(s.base.table, u.hash)
      else !Stored(s.base.table, u.hash)
    case WriteSent(k) => k in s.sending ==>
      (s.sending[k].found.None? ==> !Stored(s.base.table, s.sending[k].hash))
    case _ => true
  }

  // The invariant

  /** A row that was found has the hash as long as it is there, and its key is not used again. */
  ghost predicate GoodUpsert(t: Table, u: Upsert) {
    HashOf(u.data, u.hash) &&
    (u.found.Some? ==> u.found.value < t.nextId && (u.found.value in t.rows ==> HashOf(t.rows[u.found.value], u.hash)))
  }

  ghost predicate GoodStoring(net: Network, s: State, w: string, u: Upsert) {
    Due(s, w, u.hash) && ProcessTx(net, s.jobs[w].pending[u.hash], w) == Some(u.data)
  }

  ghost predicate GoodUpserts(net: Network, s: Gapped) {
    (forall w :: w in s.storing ==> GoodUpsert(s.base.table, s.storing[w]) && GoodStoring(net, s.base, w, s.storing[w])) &&
    forall k :: k in s.sending ==> GoodUpsert(s.base.table, s.sending[k]) && "blockNumber" !in s.sending[k].data
  }

  ghost predicate GapInv(net: Network, s: Gapped) {
    Inv(net, s.base) && GoodUpserts(net, s)
  }

  /** Rows keep their hashes and keys are not used again. */
  ghost predicate KeysKept(t: Table, after: Table) {
    t.nextId <= after.nextId &&
    (forall id :: id in after.rows && id < t.nextId ==> id in t.rows) &&
    forall id, hash :: id in t.rows && id in after.rows && HashOf(t.rows[id], hash) ==> HashOf(after.rows[id], hash)
  }

  lemma UpsertStays(t: Table, after: Table, u: Upsert)
    requires GoodUpsert(t, u) && KeysKept(t, after)
    ensures GoodUpsert(after, u)
  {
  }

  lemma WrittenKeeps(t: Table, u: Upsert)
    requires Unique(t) && GoodUpsert(t, u)
    ensures KeysKept(t, Written(t, u.found, u.data))
  {
  }

  lemma WholeKeepsKeys(net: Network, s: State, e: TxMachine.Event, t: State)
    requires Inv(net, s) && TxMachine.Next(net, s, e, t) && !e.Store? && !e.Send?
    ensures KeysKept(s.table, t.table)
  {
  }

  // Steps

  /** What is due stays due in steps of the machine that are not the wallet's own. */
  lemma StillDue(net: Network, s: Gapped, e: TxMachine.Event, t: Gapped, w: string)
    requires Next(net, s, Whole(e), t) && w in t.storing && GoodStoring(net, s.base, w, s.storing[w])
    ensures GoodStoring(net, t.base, w, t.storing[w])
  {
  }

  lemma WholeGapKeeps(net: Network, s: Gapped, e: TxMachine.Event, t: Gapped)
    requires GapInv(net, s) && Next(net, s, Whole(e), t)
    ensures GapInv(net, t)
  {
    NextKeeps(net, s.base, e, t.base);
    WholeKeepsKeys(net, s.base, e, t.base);
    forall w | w in t.storing
      ensures GoodUpsert(t.base.table, t.storing[w]) && GoodStoring(net, t.base, w, t.storing[w])
    {
      StillDue(net, s, e, t, w);
      UpsertStays(s.base.table, t.base.table, s.storing[w]);
    }
    forall k | k in t.sending
      ensures GoodUpsert(t.base.table, t.sending[k])
    {
      UpsertStays(s.base.table, t.base.table, s.sending[k]);
    }
  }

  lemma FindKeeps(net: Network, s: Gapped, e: Event, t: Gapped)
    requires GapInv(net, s) && Next(net, s, e, t) && (e.FindStored? || e.FindSent?)
    ensures GapInv(net, t)
  {
    if e.FindStored? {
      DueIsMined(net, s.base, e.wallet, e.hash);
    }
    FoundIsGood(net, s, e, t);
  }

  lemma FoundIsGood(net: Network, s: Gapped, e: Event, t: Gapped)
    requires Unique(s.base.table) && GoodUpserts(net, s) && Next(net, s, e, t)
    requires match e
      case FindStored(w, hash) => HashOf(ProcessTx(net, s.base.jobs[w].pending[hash], w).value, hash)
      case FindSent(_, _, _) => true
      case _ => false
    ensures GoodUpserts(net, t)
  {
  }

  /** The row of an accepted hash that is due is a mined one of that hash. */
  lemma DueIsMined(net: Network, s: State, w: string, hash: string)
    requires Inv(net, s) && Due(s, w, hash) && ProcessTx(net, s.jobs[w].pending[hash], w).Some?
    ensures var row := ProcessTx(net, s.jobs[w].pending[hash], w).value; HashOf(row, hash) && Mined(row)
  {
    var job := s.jobs[w];
    assert GoodJob(net, s, w, job);
    ProperInvolves(s, w, job.start, job.end, hash);
    ProcessedIsMined(net, job.pending[hash], w, hash);
  }

  lemma SkipKeeps(net: Network, s: Gapped, w: string, hash: string, t: Gapped)
    requires GapInv(net, s) && Next(net, s, Skip(w, hash), t)
    ensures GapInv(net, t)
  {
    assert TxMachine.Next(net, s.base, Store(w, hash), t.base);
    NextKeeps(net, s.base, Store(w, hash), t.base);
    SkippedStays(net, s, w, hash, t);
  }

  lemma SkippedStays(net: Network, s: Gapped, w: string, hash: string, t: Gapped)
    requires GoodUpserts(net, s) && Next(net, s, Skip(w, hash), t)
    ensures GoodUpserts(net, t)
  {
    forall v | v in t.storing
      ensures GoodStoring(net, t.base, v, t.storing[v])
    {
      assert GoodStoring(net, s.base, v, s.storing[v]);
    }
  }

  /** A write whose look-up still holds is the upsert in one step. */
  lemma FreshWrite(t: Table, u: Upsert)
    requires GoodUpsert(t, u)
    requires if u.found.Some? then u.found.value in t.rows else !Stored(t, u.hash)
    ensures Upserted(t, u.hash, u.data, Written(t, u.found, u.data))
  {
    assert FoundBy(t, u.hash, u.found);
  }

  /** An insertion beside a row of the same hash leaves two of them. */
  lemma InsertedTwice(t: Table, u: Upsert)
    requires Unique(t) && GoodUpsert(t, u) && u.found.None? && Stored(t, u.hash)
    ensures !Unique(Written(t, u.found, u.data))
  {
    var id :| id in t.rows && HashOf(t.rows[id], u.hash);
    var after := Written(t, u.found, u.data);
    assert id in after.rows && t.nextId in after.rows && id != t.nextId;
    assert after.rows[id]["hash"] == after.rows[t.nextId]["hash"];
  }

  /** A hash that is due, accepted and not stored mined cannot be done with. */
  lemma NotSettled(net: Network, s: State, w: string, hash: string, t: State)
    requires Inv(net, s) && Due(s, w, hash) && ProcessTx(net, s.jobs[w].pending[hash], w).Some?
    requires t == s.(jobs := Done(s, w, hash)) && !StoredMined(s.table, hash)
    ensures exists tx :: tx in s.chain && tx.hash == hash && Involves(tx, w) && tx.block <= s.jobs[w].end && !Settled(net, t, w, hash)
    ensures !Inv(net, t)
  {
    var job := s.jobs[w];
    assert GoodJob(net, s, w, job);
    var slots := job.pending[hash];
    ProperInvolves(s, w, job.start, job.end, hash);
    var tx := DueTx(s, w, job.start, job.end, hash);
    SlotsShow(net, s, w, tx, job.start, job.end);
    assert SlotsOf(t, w, 0, t.head, hash) == slots;
    assert !Settled(net, t, w, hash);
    assert !GoodJob(net, t, w, t.jobs[w]);
  }

  lemma DueTx(s: State, w: string, start: nat, end: nat, hash: string) returns (tx: Tx)
    requires SlotsOf(s, w, start, end, hash) != Slots(None, None)
    ensures tx in s.chain && tx.hash == hash && Involves(tx, w) && start <= tx.block <= end
  {
    var isToken := SlotsOf(s, w, start, end, hash).token.Some?;
    var list := HistoryOf(s.chain, w, isToken, start, end);
    LastWithMember(list, hash);
    tx := LastWith(list, hash).value;
    HistoryMember(s.chain, w, isToken, start, end, tx);
  }

  lemma WriteStoredKeeps(net: Network, s: Gapped, w: string, t: Gapped)
    requires GapInv(net, s) && Next(net, s, WriteStored(w), t)
    ensures Inv(net, t.base) <==> Harmless(s, WriteStored(w))
  {
    var u := s.storing[w];
    var table, hash := s.base.table, u.hash;
    if u.found.Some? && u.found.value !in table.rows {
      LostWrite(net, s, w, t);
    } else if u.found.None? && Stored(table, hash) {
      InsertedTwice(table, u);
    } else {
      FreshWrite(table, u);
      assert TxMachine.Next(net, s.base, Store(w, hash), t.base);
      NextKeeps(net, s.base, Store(w, hash), t.base);
    }
  }

  /** A patch of a row that is gone changes nothing: only a hash that is stored mined anyway can be done with. */
  lemma LostWrite(net: Network, s: Gapped, w: string, t: Gapped)
    requires GapInv(net, s) && Next(net, s, WriteStored(w), t)
    requires s.storing[w].found.Some? && s.storing[w].found.value !in s.base.table.rows
    ensures Inv(net, t.base) <==> StoredMined(s.base.table, s.storing[w].hash)
  {
    var hash := s.storing[w].hash;
    if StoredMined(s.base.table, hash) {
      SettledIsDone(net, s.base, w, hash, t.base);
    } else {
      NotSettled(net, s.base, w, hash, t.base);
    }
  }

  lemma SettledIsDone(net: Network, s: State, w: string, hash: string, t: State)
    requires Inv(net, s) && Due(s, w, hash) && StoredMined(s.table, hash)
    requires t == s.(jobs := Done(s, w, hash))
    ensures Inv(net, t)
  {
    SameData(net, s, t);
    assert GoodJob(net, s, w, s.jobs[w]);
    assert Settled(net, t, w, hash);
    assert GoodJob(net, t, w, t.jobs[w]);
    forall v | v in t.jobs && v != w
      ensures GoodJob(net, t, v, t.jobs[v])
    {
      assert GoodJob(net, s, v, s.jobs[v]);
    }
  }

  lemma WriteSentKeeps(net: Network, s: Gapped, k: int, t: Gapped)
    requires GapInv(net, s) && Next(net, s, WriteSent(k), t)
    ensures Inv(net, t.base) <==> Harmless(s, WriteSent(k))
  {
    var u := s.sending[k];
    var table := s.base.table;
    if u.found.None? && Stored(table, u.hash) {
      InsertedTwice(table, u);
    } else if u.found.Some? && u.found.value !in table.rows {
      assert t.base == s.base;
    } else {
      FreshWrite(table, u);
      assert TxMachine.Next(net, s.base, Send(u.hash, u.data), t.base);
      NextKeeps(net, s.base, Send(u.hash, u.data), t.base);
    }
  }

  lemma UpsertsStay(net: Network, s: Gapped, e: Event, t: Gapped)
    requires GapInv(net, s) && Next(net, s, e, t) && (e.WriteStored? || e.WriteSent?)
    ensures GoodUpserts(net, t)
  {
    WrittenKeeps(s.base.table, if e.WriteStored? then s.storing[e.wallet] else s.sending[e.call]);
    forall w | w in t.storing
      ensures GoodUpsert(t.base.table, t.storing[w]) && GoodStoring(net, t.base, w, t.storing[w])
    {
      UpsertStays(s.base.table, t.base.table, s.storing[w]);
      assert GoodStoring(net, s.base, w, s.storing[w]);
    }
    forall k | k in t.sending
      ensures GoodUpsert(t.base.table, t.sending[k])
    {
      UpsertStays(s.base.table, t.base.table, s.sending[k]);
    }
  }

  /** One step of the machine with the gap keeps the invariant exactly if it is harmless. */
  lemma GapKeeps(net: Network, s: Gapped, e: Event, t: Gapped)
    requires GapInv(net, s) && Next(net, s, e, t)
    ensures Inv(net, t.base) <==> Harmless(s, e)
    ensures Harmless(s, e) ==> GapInv(net, t)
  {
    match e
    case Whole(event) => WholeGapKeeps(net, s, event, t);
    case Skip(w, hash) => SkipKeeps(net, s, w, hash, t);
    case FindStored(_, _) => FindKeeps(net, s, e, t);
    case FindSent(_, _, _) => FindKeeps(net, s, e, t);
    case WriteStored(w) =>
      WriteStoredKeeps(net, s, w, t);
      UpsertsStay(net, s, e, t);
    case WriteSent(k) =>
      WriteSentKeeps(net, s, k, t);
      UpsertsStay(net, s, e, t);
  }

  ghost predicate IsRun(net: Network, states: seq<Gapped>, events: seq<Event>) {
    |states| == |events| + 1 && Initial(states[0]) &&
    forall i :: 0 <= i < |events| ==> Next(net, states[i], events[i], states[i + 1])
  }

  ghost predicate HarmlessUntil(states: seq<Gapped>, events: seq<Event>, n: nat)
    requires n <= |events| < |states|
  {
    forall i :: 0 <= i < n ==> Harmless(states[i], events[i])
  }

  ghost predicate Kept(net: Network, states: seq<Gapped>, i: nat)
    requires i < |states|
  {
    Inv(net, states[i].base)
  }

  lemma {:induction false} HarmlessKeeps(net: Network, states: seq<Gapped>, events: seq<Event>, n: nat)
    requires IsRun(net, states, events) && n <= |events| && HarmlessUntil(states, events, n)
    ensures GapInv(net, states[n])
  {
    if n == 0 {
      SyncedHistoryIsStored(net, [states[0].base], [], 0);
    } else {
      HarmlessKeeps(net, states, events, n - 1);
      assert Next(net, states[n - 1], events[n - 1], states[n - 1 + 1]);
      GapKeeps(net, states[n - 1], events[n - 1], states[n]);
    }
  }

  /**
   Over every run with the gap: what the machine keeps holds in all its states if and only if all
   its writes were harmless.
   */
  lemma {:induction false} KeptIffHarmless(net: Network, states: seq<Gapped>, events: seq<Event>, n: nat)
    requires IsRun(net, states, events) && n <= |events|
    ensures HarmlessUntil(states, events, n) <==> forall i :: 0 <= i <= n ==> Kept(net, states, i)
  {
    if n == 0 {
      HarmlessKeeps(net, states, events, 0);
    } else {
      KeptIffHarmless(net, states, events, n - 1);
      if HarmlessUntil(states, events, n - 1) {
        NextHarmless(net, states, events, n - 1);
      }
    }
  }

  lemma NextHarmless(net: Network, states: seq<Gapped>, events: seq<Event>, n: nat)
    requires IsRun(net, states, events) && n < |events| && HarmlessUntil(states, events, n)
    ensures Kept(net, states, n + 1) <==> Harmless(states[n], events[n])
  {
    HarmlessKeeps(net, states, events, n);
    GapKeeps(net, states[n], events[n], states[n + 1]);
  }

  /** So then the history up to every last synced block is stored, each hash once. */
  lemma HarmlessIsStored(net: Network, states: seq<Gapped>, events: seq<Event>, n: nat)
    requires IsRun(net, states, events) && n <= |events| && HarmlessUntil(states, events, n)
    ensures forall w :: SyncedTo(net, states[n].base, w)
    ensures Unique(states[n].base.table)
  {
    HarmlessKeeps(net, states, events, n);
  }

  /** If the row went missing in the gap of a sync's last write, the sync finishes without it. */
  lemma FinishedWithout(net: Network, s: Gapped, w: string, t: Gapped, u: Gapped)
    requires GapInv(net, s) && Next(net, s, WriteStored(w), t) && Next(net, t, Whole(Finish(w)), u)
    requires s.storing[w].found.Some? && !Harmless(s, WriteStored(w))
    ensures !SyncedTo(net, u.base, w)
  {
    var hash := s.storing[w].hash;
    assert GoodStoring(net, s.base, w, s.storing[w]);
    NotSettled(net, s.base, w, hash, t.base);
    var tx :| tx in s.base.chain && tx.hash == hash && Involves(tx, w) && tx.block <= s.base.jobs[w].end && !Settled(net, t.base, w, hash);
    NotSynced(net, t.base, w, tx, u.base);
  }

  lemma NotSynced(net: Network, s: State, w: string, tx: Tx, t: State)
    requires TxMachine.Next(net, s, Finish(w), t) && !Settled(net, s, w, tx.hash)
    requires tx in s.chain && Involves(tx, w) && tx.block <= s.jobs[w].end
    ensures !SyncedTo(net, t, w)
  {
    assert Mark(t, w) == s.jobs[w].end;
    assert !Settled(net, t, w, tx.hash);
  }

  // A run that loses a transaction

  const SENT: Row := map["hash" := Str("h"), "nonce" := Num(0), "from" := Str("a"), "to" := Str("b")]

  const MINED: Tx := Tx("h", 1, false, 0, "a", "b", 5, Some(1), "", "", "", "")

  /** The same table, chain and jobs with no upsert in flight. */
  function Idle(s: State): Gapped {
    Gapped(s, map[], map[])
  }

  const PENDING := map["h" := Slots(Some(MINED), None)]

  lemma MinedHistory(net: Network)
    ensures HistoryOf([MINED], "a", false, 0, 1) == [MINED] && HistoryOf([MINED], "a", true, 0, 1) == []
    ensures forall hash :: LastWith([MINED], hash) == if hash == "h" then Some(MINED) else None
    ensures IsMerge(PENDING, [MINED], [])
    ensures ProcessTx(net, PENDING["h"], "a").Some?
  {
    assert Lower("a") == "a";
    assert [MINED][..0] == [];
    assert HistoryOf([], "a", false, 0, 1) == [];
  }

  lemma MinedFetched(net: Network, s: State, t: State)
    requires s.chain == [MINED] && s.jobs == map["a" := Fetching(0, 1, 1, map[])]
    requires t == s.(jobs := map["a" := Storing(0, 1, PENDING)])
    ensures TxMachine.Next(net, s, Fetch("a"), t)
  {
    MinedHistory(net);
    assert PageMerged(s, "a", s.jobs["a"], PENDING) by {
      assert [MINED][..1] == [MINED];
    }
  }

  lemma MinedLost(net: Network, s: State)
    requires s.chain == [MINED] && s.head == 1 && s.table.rows == map[] && s.marks == map["a" := 1]
    ensures !SyncedTo(net, s, "a")
  {
    MinedHistory(net);
    assert MINED in s.chain && Lower("a") == "a";
    assert SlotsOf(s, "a", 0, 1, "h") == PENDING["h"];
    assert !Settled(net, s, "a", MINED.hash);
  }

  const START := State([], 0, Table(map[], 1), map[], map[])
  const AFTER_SEND := START.(table := Table(map[1 := SENT], 2))
  const AFTER_MINE := AFTER_SEND.(chain := [MINED], head := 1)
  const FETCHING := AFTER_MINE.(jobs := map["a" := Fetching(0, 1, 1, map[])])
  const STORING := AFTER_MINE.(jobs := map["a" := Storing(0, 1, PENDING)])
  const CLEANED := STORING.(table := Table(map[], 2))
  const STORED := CLEANED.(jobs := map["a" := Storing(0, 1, map[])])
  const FINISHED := CLEANED.(marks := map["a" := 1], jobs := map[])

  /** The pending row looked up by the sync. */
  function InGap(net: Network, s: State): Gapped {
    var row := ProcessTx(net, PENDING["h"], "a");
    Gapped(s, map["a" := Upsert("h", if row.Some? then row.value else map[], Some(1))], map[])
  }

  lemma RunNext(net: Network, states: seq<Gapped>, events: seq<Event>, e: Event, t: Gapped) returns (ss: seq<Gapped>, es: seq<Event>)
    requires IsRun(net, states, events) && Next(net, states[|events|], e, t)
    ensures IsRun(net, ss, es) && ss[|es|] == t
  {
    ss, es := states + [t], events + [e];
    forall i | 0 <= i < |es|
      ensures Next(net, ss[i], es[i], ss[i + 1])
    {
      assert i < |events| ==> Next(net, states[i], events[i], states[i + 1]);
    }
  }

  /** A transaction is sent. */
  lemma SentRun(net: Network) returns (states: seq<Gapped>, events: seq<Event>)
    ensures IsRun(net, states, events) && states[|events|] == Idle(AFTER_SEND)
  {
    var sending := Gapped(START, map[], map[0 := Upsert("h", SENT, None)]);
    states, events := [Idle(START)], [];
    assert FoundBy(START.table, "h", None);
    states, events := RunNext(net, states, events, FindSent(0, "h", SENT), sending);
    states, events := RunNext(net, states, events, WriteSent(0), Idle(AFTER_SEND));
  }

  /** It is mined, and a sync of its sender starts. */
  lemma BegunRun(net: Network) returns (states: seq<Gapped>, events: seq<Event>)
    ensures IsRun(net, states, events) && states[|events|] == Idle(FETCHING)
  {
    states, events := SentRun(net);
    states, events := RunNext(net, states, events, Whole(Mine([MINED], 1)), Idle(AFTER_MINE));
    states, events := RunNext(net, states, events, Whole(Begin("a")), Idle(FETCHING));
  }

  /** The sync looks the pending row up. */
  lemma GapRun(net: Network) returns (states: seq<Gapped>, events: seq<Event>)
    ensures IsRun(net, states, events) && states[|events|] == InGap(net, STORING)
  {
    states, events := BegunRun(net);
    MinedFetched(net, FETCHING, STORING);
    states, events := RunNext(net, states, events, Whole(Fetch("a")), Idle(STORING));
    MinedHistory(net);
    assert FoundBy(STORING.table, "h", Some(1));
    states, events := RunNext(net, states, events, FindStored("a", "h"), InGap(net, STORING));
  }

  /** A cleanup of its recipient removes the row, and the sync patches nothing. */
  lemma PatchedRun(net: Network) returns (states: seq<Gapped>, events: seq<Event>)
    ensures IsRun(net, states, events) && states[|events|] == Idle(STORED)
  {
    states, events := GapRun(net);
    states, events := RunNext(net, states, events, Whole(Cleanup("b", 1)), InGap(net, CLEANED));
    states, events := RunNext(net, states, events, WriteStored("a"), Idle(STORED));
  }

  /** A run in which a cleanup in the gap loses a transaction for good: the mark moves past its block. */
  lemma LostInTheGap(net: Network) returns (states: seq<Gapped>, events: seq<Event>)
    ensures IsRun(net, states, events)
    ensures !SyncedTo(net, states[|events|].base, "a")
  {
    states, events := PatchedRun(net);
    states, events := RunNext(net, states, events, Whole(Finish("a")), Idle(FINISHED));
    MinedLost(net, FINISHED);
  }
}
