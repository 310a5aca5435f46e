/**
 Incremental synchronisation of a wallet's history from a growing chain
 (src/main/blockchain/tx-history-service.js:152-316).
 */
module TxSync {
  import opened Wrappers
  import opened Json
  import opened TxHistory
  import opened Strings

  const OFFSET := 1000

  /** A transaction as the API lists it; an empty string is a missing field. */
  datatype Tx = Tx(
    hash: string, block: nat, isToken: bool, nonce: int, from: string, to: string, value: int,
    status: Option<int>, contract: string, symbol: string, name: string, decimals: string)

  datatype Info = Info(symbol: string, name: string, decimals: string)

  /** The calls into the network that `processTx` makes, as functions of their arguments. */
  datatype Network = Network(info: string -> Option<Info>, receipt: string -> Option<int>)

  /** The two transactions a hash may have in a wallet's lists. */
  datatype Slots = Slots(eth: Option<Tx>, token: Option<Tx>)

  function TextOrNull(s: string): Value {
    if s == "" then Null else Str(s)
  }

  function ReceiptStatus(net: Network, hash: string): int {
    match net.receipt(hash)
    case Some(n) => n
    case None => 0
  }

  /** The columns of a processed transaction; conversions of amounts are left out. */
  function RowFor(tx: Tx, contract: string, symbol: Value, status: int): Row {
    map["hash" := Str(tx.hash), "blockNumber" := Num(tx.block), "nonce" := Num(tx.nonce),
        "from" := Str(Lower(tx.from)), "to" := Str(Lower(tx.to)),
        "contractAddress" := TextOrNull(contract), "tokenSymbol" := symbol,
        "txReceiptStatus" := Num(status)]
  }

  /** The transaction `processTx` goes by. */
  function ProperTx(txs: Slots): Tx
    requires txs.eth.Some? || txs.token.Some?
  {
    if txs.token.Some? then txs.token.value else txs.eth.value
  }

  /**
   `processTx`: `None` where it returns null. A token transfer takes its status from the receipt,
   because the eth entry it looks at has no field of that name; a failed token transfer is
   recognised by its zero value and looked up under the other party's address.
   */
  function ProcessTx(net: Network, txs: Slots, wallet: string): Option<Row>
    requires txs.eth.Some? || txs.token.Some?
  {
    var tx := ProperTx(txs);
    if tx.from == "" || tx.to == "" then None
    else if txs.token.Some? then
      if tx.decimals != "" && tx.symbol != "" && tx.name != "" then
        Some(RowFor(tx, tx.contract, TextOrNull(Upper(tx.symbol)), ReceiptStatus(net, tx.hash)))
      else match net.info(tx.contract)
        case Some(info) => Some(RowFor(tx, tx.contract, TextOrNull(Upper(info.symbol)), ReceiptStatus(net, tx.hash)))
        case None => None
    else if tx.value != 0 then
      Some(RowFor(tx, tx.contract, TextOrNull(Upper(tx.symbol)), if tx.status.Some? then tx.status.value else ReceiptStatus(net, tx.hash)))
    else
      var contract := if Lower(tx.from) == wallet then Lower(tx.to) else Lower(tx.from);
      match net.info(contract)
      case Some(info) => Some(RowFor(tx, contract, Str(info.symbol), 0))
      case None => None
  }

  /** `processTx` itself: fills one record field by field, and gives up where it returns null. */
  method ProcessTransaction(net: Network, txs: Slots, walletAddress: string) returns (r: Option<Row>)
    requires txs.eth.Some? || txs.token.Some?
    ensures r == ProcessTx(net, txs, walletAddress)
  {
    var propperTx := if txs.token.Some? then txs.token.value else txs.eth.value;
    if propperTx.from == "" || propperTx.to == "" {
      return None;
    }
    var processedTx: Row := map["hash" := Str(propperTx.hash), "blockNumber" := Num(propperTx.block), "nonce" := Num(propperTx.nonce)];
    var contractAddress, symbol, status := propperTx.contract, propperTx.symbol, propperTx.status;
    if txs.token.Some? {
      status := None;
      if propperTx.decimals == "" || symbol == "" || propperTx.name == "" {
        var contractInfo := net.info(contractAddress);
        if contractInfo.None? {
          return None;
        }
        symbol := contractInfo.value.symbol;
      }
    }
    var tokenSymbol := TextOrNull(Upper(symbol));
    processedTx := processedTx["from" := Str(Lower(propperTx.from))]["to" := Str(Lower(propperTx.to))];
    var txReceiptStatus := if status.Some? then status.value else ReceiptStatus(net, propperTx.hash);
    if txs.token.None? && propperTx.value == 0 {
      txReceiptStatus := 0;
      contractAddress := if processedTx["from"] == Str(walletAddress) then Lower(propperTx.to) else Lower(propperTx.from);
      var contractInfo := net.info(contractAddress);
      if contractInfo.None? {
        return None;
      }
      tokenSymbol := Str(contractInfo.value.symbol);
    }
    processedTx := processedTx["contractAddress" := TextOrNull(contractAddress)]["tokenSymbol" := tokenSymbol];
    processedTx := processedTx["txReceiptStatus" := Num(txReceiptStatus)];
    assert processedTx == RowFor(propperTx, contractAddress, tokenSymbol, txReceiptStatus);
    r := Some(processedTx);
  }

  /** The wallet is the sender or the recipient. */
  predicate Involves(tx: Tx, wallet: string) {
    Lower(tx.from) == wallet || Lower(tx.to) == wallet
  }

  /** A processed row belongs to exactly the two parties of the transaction it was made from. */
  lemma ProcessedBelongs(net: Network, txs: Slots, wallet: string, publicKey: string)
    requires txs.eth.Some? || txs.token.Some?
    requires ProcessTx(net, txs, wallet).Some?
    ensures var row := ProcessTx(net, txs, wallet).value;
      "from" in row && "to" in row && (PartyOf(row, publicKey) <==> Involves(ProperTx(txs), publicKey))
  {
  }

  /** What the wallet's own side of a transfer calls its counterpart, in lower case. */
  function OtherParty(tx: Tx, wallet: string): string {
    if Lower(tx.from) == wallet then Lower(tx.to) else Lower(tx.from)
  }

  /**
   A hash is accepted if and only if its transaction has a sender and a recipient and its token is
   known where it must be: a token transfer that lacks a part of its token's description needs the
   contract's, and a transaction of no value, as a failed token transfer, its counterpart's.
   */
  lemma AcceptedWhen(net: Network, txs: Slots, wallet: string)
    requires txs.eth.Some? || txs.token.Some?
    ensures ProcessTx(net, txs, wallet).Some? <==>
      match txs
      case Slots(_, Some(token)) =>
        token.from != "" && token.to != "" &&
        ((token.decimals != "" && token.symbol != "" && token.name != "") || net.info(token.contract).Some?)
      case Slots(Some(eth), None) =>
        eth.from != "" && eth.to != "" && (eth.value != 0 || net.info(OtherParty(eth, wallet)).Some?)
  {
  }

  /** The columns of an accepted hash that come from its transaction, sender and recipient each in its own. */
  lemma ProcessedColumns(net: Network, txs: Slots, wallet: string)
    requires (txs.eth.Some? || txs.token.Some?) && ProcessTx(net, txs, wallet).Some?
    ensures var row, tx := ProcessTx(net, txs, wallet).value, if txs.token.Some? then txs.token.value else txs.eth.value;
      Field(row, "hash") == Some(Str(tx.hash)) &&
      Field(row, "from") == Some(Str(Lower(tx.from))) && Field(row, "to") == Some(Str(Lower(tx.to))) &&
      Field(row, "blockNumber") == Some(Num(tx.block)) && Field(row, "nonce") == Some(Num(tx.nonce))
  {
  }

  /**
   Contract, symbol and status of an accepted hash: a token transfer has its own contract, the
   symbol in capitals, its own or the contract's, and the receipt's status; a transaction with a
   value has its own fields and, unless it states one, the receipt's status; one without a value is
   a failed transfer of the counterpart's token.
   */
  lemma ProcessedToken(net: Network, txs: Slots, wallet: string)
    requires (txs.eth.Some? || txs.token.Some?) && ProcessTx(net, txs, wallet).Some?
    ensures var row := ProcessTx(net, txs, wallet).value;
      match txs
      case Slots(_, Some(token)) =>
        var complete := token.decimals != "" && token.symbol != "" && token.name != "";
        var symbol := if complete then token.symbol else net.info(token.contract).value.symbol;
        Describes(row, token.contract, if symbol == "" then Null else Str(Upper(symbol)), StatusOf(net.receipt(token.hash)))
      case Slots(Some(eth), None) =>
        if eth.value != 0 then
          Describes(row, eth.contract, if eth.symbol == "" then Null else Str(Upper(eth.symbol)),
            StatusOf(if eth.status.Some? then eth.status else net.receipt(eth.hash)))
        else Describes(row, OtherParty(eth, wallet), Str(net.info(OtherParty(eth, wallet)).value.symbol), 0)
  {
  }

  /** A missing receipt counts as a failure. */
  function StatusOf(status: Option<int>): int {
    if status.Some? then status.value else 0
  }

  /** The row's contract, symbol and status. */
  ghost predicate Describes(row: Row, contract: string, symbol: Value, status: int) {
    Field(row, "contractAddress") == Some(if contract == "" then Null else Str(contract)) &&
    Field(row, "tokenSymbol") == Some(symbol) &&
    Field(row, "txReceiptStatus") == Some(Num(status))
  }

  lemma ProcessedIsMined(net: Network, txs: Slots, wallet: string, hash: string)
    requires txs.eth.Some? || txs.token.Some?
    requires (txs.eth.Some? ==> txs.eth.value.hash == hash) && (txs.token.Some? ==> txs.token.value.hash == hash)
    requires ProcessTx(net, txs, wallet).Some?
    ensures HashOf(ProcessTx(net, txs, wallet).value, hash) && Mined(ProcessTx(net, txs, wallet).value)
  {
  }

  // Merging the two lists by hash

  type Merged = map<string, Slots>

  /** The last transaction of `list` with this hash: later entries overwrite earlier ones. */
  function LastWith(list: seq<Tx>, hash: string): Option<Tx> {
    if list == [] then None
    else if list[|list| - 1].hash == hash then Some(list[|list| - 1])
    else LastWith(list[..|list| - 1], hash)
  }

  function SlotsIn(eth: seq<Tx>, token: seq<Tx>, hash: string): Slots {
    Slots(LastWith(eth, hash), LastWith(token, hash))
  }

  /** `m` has the hashes of both lists, each slot filled from its own list. */
  ghost predicate IsMerge(m: Merged, eth: seq<Tx>, token: seq<Tx>) {
    forall hash :: (hash in m <==> SlotsIn(eth, token, hash) != Slots(None, None)) &&
                   (hash in m ==> m[hash] == SlotsIn(eth, token, hash))
  }

  /** `txHashes[hash] = txHashes[hash] || {}; txHashes[hash][slot] = tx` */
  function Put(m: Merged, tx: Tx, isToken: bool): Merged {
    var slots := if tx.hash in m then m[tx.hash] else Slots(None, None);
    m[tx.hash := if isToken then slots.(token := Some(tx)) else slots.(eth := Some(tx))]
  }

  lemma PutMerges(m: Merged, tx: Tx, isToken: bool, eth: seq<Tx>, token: seq<Tx>)
    requires IsMerge(m, eth, token)
    ensures IsMerge(Put(m, tx, isToken), if isToken then eth else eth + [tx], if isToken then token + [tx] else token)
  {
    var list := if isToken then token else eth;
    assert (list + [tx])[..|list|] == list;
    forall hash
      ensures LastWith(list + [tx], hash) == if hash == tx.hash then Some(tx) else LastWith(list, hash)
    {
    }
  }

  // Paging

  /** How much of a list of `n` entries the first `page` pages cover. */
  function Covered(n: nat, page: nat): nat {
    if page * OFFSET <= n then page * OFFSET else n
  }

  /** The API's page `page`, counted from 1. */
  function PageOf(list: seq<Tx>, page: nat): seq<Tx>
    requires page > 0
  {
    list[Covered(|list|, page - 1)..Covered(|list|, page)]
  }

  function Max(a: nat, b: nat): nat {
    if a < b then b else a
  }

  /** One round of the loop: both pages, the eth page first. */
  method MergePage(start: Merged, ethPage: seq<Tx>, tokenPage: seq<Tx>, ghost eth: seq<Tx>, ghost token: seq<Tx>)
      returns (txHashes: Merged)
    requires IsMerge(start, eth, token)
    ensures IsMerge(txHashes, eth + ethPage, token + tokenPage)
  {
    txHashes := start;
    var txs := ethPage + tokenPage;
    assert eth + ethPage[..0] == eth && token + tokenPage[..0] == token;
    for index := 0 to |txs|
      invariant IsMerge(txHashes,
        eth + ethPage[..if index <= |ethPage| then index else |ethPage|],
        token + tokenPage[..if index <= |ethPage| then 0 else index - |ethPage|])
    {
      var isToken := index >= |ethPage|;
      ghost var e := eth + ethPage[..if index <= |ethPage| then index else |ethPage|];
      ghost var t := token + tokenPage[..if index <= |ethPage| then 0 else index - |ethPage|];
      PutMerges(txHashes, txs[index], isToken, e, t);
      if isToken {
        assert t + [txs[index]] == token + tokenPage[..index - |ethPage| + 1];
      } else {
        assert e + [txs[index]] == eth + ethPage[..index + 1];
      }
      txHashes := Put(txHashes, txs[index], isToken);
    }
    assert ethPage[..|ethPage|] == ethPage && tokenPage[..|tokenPage|] == tokenPage;
  }

  /**
   The paged fetch loop of `syncByWallet`, for the histories the API holds. It ends, after one
   more round than the longer history has full pages, with the merge of both histories.
   */
  method FetchHistory(eth: seq<Tx>, token: seq<Tx>) returns (txHashes: Merged, rounds: nat)
    ensures IsMerge(txHashes, eth, token)
    ensures rounds == Max(|eth|, |token|) / OFFSET + 1
  {
    txHashes := map[];
    var page := 1;
    var hasNext := true;
    while hasNext
      invariant page >= 1
      invariant IsMerge(txHashes, eth[..Covered(|eth|, page - 1)], token[..Covered(|token|, page - 1)])
      invariant hasNext <==> (page - 1) * OFFSET <= Max(|eth|, |token|)
      invariant !hasNext ==> page >= 2 && (page - 2) * OFFSET <= Max(|eth|, |token|)
      decreases Max(|eth|, |token|) + OFFSET - (page - 1) * OFFSET
    {
      var ethPage, tokenPage := PageOf(eth, page), PageOf(token, page);
      ghost var e, t := eth[..Covered(|eth|, page - 1)], token[..Covered(|token|, page - 1)];
      txHashes := MergePage(txHashes, ethPage, tokenPage, e, t);
      assert e + ethPage == eth[..Covered(|eth|, page)] && t + tokenPage == token[..Covered(|token|, page)];
      page := page + 1;
      hasNext := |ethPage| == OFFSET || |tokenPage| == OFFSET;
    }
    rounds := page - 1;
    assert eth[..|eth|] == eth && token[..|token|] == token;
  }
}
