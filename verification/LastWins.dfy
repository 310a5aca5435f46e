/**
 The last-wins merge of price and token lists (src/common/prices/reducers.js:7-15 and
 src/common/wallet-tokens/reducers.js:8-16).
 */
module LastWins {
  import opened Wrappers
  import opened Sequences

  datatype Entry<T> = Entry(symbol: string, value: T)

  function Symbols<T>(list: seq<Entry<T>>): set<string> {
    set i | 0 <= i < |list| :: list[i].symbol
  }

  /** The entries that are the last of their symbol, in order. */
  function Latest<T>(list: seq<Entry<T>>): seq<Entry<T>> {
    if list == [] then []
    else (if list[0].symbol in Symbols(list[1..]) then [] else [list[0]]) + Latest(list[1..])
  }

  /** `updatePrice(oldPrices, newPrices)` and `updateTokens`; a missing list empties the result. */
  function Merge<T>(before: Option<seq<Entry<T>>>, batch: Option<seq<Entry<T>>>): seq<Entry<T>> {
    if before.None? || batch.None? then [] else Latest(before.value + batch.value)
  }

  /** The list as an override map: later entries win. */
  function AsMap<T>(list: seq<Entry<T>>): map<string, T> {
    if list == [] then map[] else AsMap(list[..|list| - 1])[list[|list| - 1].symbol := list[|list| - 1].value]
  }

  lemma SymbolsConcat<T>(a: seq<Entry<T>>, b: seq<Entry<T>>)
    ensures Symbols(a + b) == Symbols(a) + Symbols(b)
  {
    forall s | s in Symbols(a) + Symbols(b)
      ensures s in Symbols(a + b)
    {
      if s in Symbols(a) {
        var i :| 0 <= i < |a| && a[i].symbol == s;
        assert (a + b)[i].symbol == s;
      } else {
        var i :| 0 <= i < |b| && b[i].symbol == s;
        assert (a + b)[|a| + i].symbol == s;
      }
    }
  }

  lemma LatestCons<T>(x: Entry<T>, rest: seq<Entry<T>>)
    ensures Symbols([x] + rest) == {x.symbol} + Symbols(rest)
    ensures Latest([x] + rest) == if x.symbol in Symbols(rest) then Latest(rest) else [x] + Latest(rest)
  {
    SymbolsConcat([x], rest);
    assert Symbols([x]) == {x.symbol} by {
      assert [x][0].symbol == x.symbol;
    }
    assert ([x] + rest)[1..] == rest;
  }

  lemma {:induction false} LatestSymbols<T>(list: seq<Entry<T>>)
    ensures Symbols(Latest(list)) == Symbols(list)
  {
    if list != [] {
      LatestSymbols(list[1..]);
      assert list == [list[0]] + list[1..];
      LatestCons(list[0], list[1..]);
      LatestCons(list[0], Latest(list[1..]));
    }
  }

  /** Symbols in the result are unique. */
  lemma {:induction false} LatestUnique<T>(list: seq<Entry<T>>)
    ensures forall i, j :: 0 <= i < j < |Latest(list)| ==> Latest(list)[i].symbol != Latest(list)[j].symbol
  {
    if list != [] {
      LatestUnique(list[1..]);
      LatestSymbols(list[1..]);
      var rest := Latest(list[1..]);
      assert forall i :: 0 <= i < |rest| ==> rest[i].symbol in Symbols(rest);
    }
  }

  /** Dropping an earlier entry of a symbol that occurs later changes nothing. */
  lemma {:induction false} LatestPrefix<T>(a: seq<Entry<T>>, b: seq<Entry<T>>)
    ensures Latest(Latest(a) + b) == Latest(a + b)
  {
    if a == [] {
      assert Latest(a) + b == b && a + b == b;
    } else {
      var x, rest := a[0], a[1..];
      assert a == [x] + rest;
      assert a + b == [x] + (rest + b);
      LatestPrefix(rest, b);
      PrefixCons(x, rest, b);
    }
  }

  lemma PrefixCons<T>(x: Entry<T>, rest: seq<Entry<T>>, b: seq<Entry<T>>)
    requires Latest(Latest(rest) + b) == Latest(rest + b)
    ensures Latest(Latest([x] + rest) + b) == Latest([x] + (rest + b))
  {
    LatestSymbols(rest);
    SymbolsConcat(rest, b);
    SymbolsConcat(Latest(rest), b);
    LatestCons(x, rest);
    LatestCons(x, rest + b);
    if x.symbol !in Symbols(rest) {
      Associative([x], Latest(rest), b);
      LatestCons(x, Latest(rest) + b);
    }
  }

  lemma {:induction false} AsMapConcat<T>(a: seq<Entry<T>>, b: seq<Entry<T>>)
    ensures AsMap(a + b) == AsMap(a) + AsMap(b)
  {
    if b == [] {
      assert a + b == a;
    } else {
      AsMapConcat(a, b[..|b| - 1]);
      assert (a + b)[..|a + b| - 1] == a + b[..|b| - 1];
    }
  }

  lemma {:induction false} AsMapKeys<T>(list: seq<Entry<T>>)
    ensures AsMap(list).Keys == Symbols(list)
  {
    if list != [] {
      AsMapKeys(list[..|list| - 1]);
      assert list == list[..|list| - 1] + [list[|list| - 1]];
      SymbolsConcat(list[..|list| - 1], [list[|list| - 1]]);
    }
  }

  lemma AsMapCons<T>(x: Entry<T>, rest: seq<Entry<T>>)
    ensures AsMap([x] + rest) == map[x.symbol := x.value] + AsMap(rest)
  {
    AsMapConcat([x], rest);
    assert [x][..0] == [];
  }

  /** Looking a symbol up in the merge is looking it up in the override map. */
  lemma {:induction false} LatestIsOverride<T>(list: seq<Entry<T>>)
    ensures AsMap(Latest(list)) == AsMap(list)
  {
    if list != [] {
      var x, rest := list[0], list[1..];
      LatestIsOverride(rest);
      assert list == [x] + rest;
      LatestCons(x, rest);
      AsMapCons(x, rest);
      if x.symbol in Symbols(rest) {
        AsMapKeys(rest);
        Overridden(AsMap(rest), x.symbol, x.value);
      } else {
        AsMapCons(x, Latest(rest));
      }
    }
  }

  lemma Overridden<T>(m: map<string, T>, key: string, value: T)
    requires key in m
    ensures map[key := value] + m == m
  {
  }

  function Lookup<T>(list: seq<Entry<T>>, symbol: string): Option<T> {
    if symbol in AsMap(list) then Some(AsMap(list)[symbol]) else None
  }

  /** A symbol is looked up in the new batch first, then in the old list. */
  lemma MergeOverrides<T>(list: seq<Entry<T>>, batch: seq<Entry<T>>, symbol: string)
    ensures Lookup(Merge(Some(list), Some(batch)), symbol) ==
      if Lookup(batch, symbol).Some? then Lookup(batch, symbol) else Lookup(list, symbol)
  {
    LatestIsOverride(list + batch);
    AsMapConcat(list, batch);
  }

  /** Two batches one after the other give the very sequence their concatenation gives. */
  lemma MergeTwice<T>(list: seq<Entry<T>>, a: seq<Entry<T>>, b: seq<Entry<T>>)
    ensures Merge(Some(Merge(Some(list), Some(a))), Some(b)) == Merge(Some(list), Some(a + b))
  {
    var all, both := list + a, a + b;
    LatestPrefix(all, b);
    Associative(list, a, b);
    assert all + b == list + both;
  }

  function Concat<T>(batches: seq<seq<Entry<T>>>): seq<Entry<T>> {
    if batches == [] then [] else Concat(batches[..|batches| - 1]) + batches[|batches| - 1]
  }

  function MergeAll<T>(list: seq<Entry<T>>, batches: seq<seq<Entry<T>>>): seq<Entry<T>> {
    if batches == [] then list
    else Merge(Some(MergeAll(list, batches[..|batches| - 1])), Some(batches[|batches| - 1]))
  }

  /** Any number of updates, one at a time, give one merge of their concatenation, order included. */
  lemma {:induction false} UpdatesCompose<T>(list: seq<Entry<T>>, batches: seq<seq<Entry<T>>>)
    requires batches != []
    ensures MergeAll(list, batches) == Merge(Some(list), Some(Concat(batches)))
    decreases |batches|
  {
    var front, last := batches[..|batches| - 1], batches[|batches| - 1];
    if front == [] {
      assert Concat(batches) == last;
    } else {
      UpdatesCompose(list, front);
      MergeTwice(list, Concat(front), last);
    }
  }
}
