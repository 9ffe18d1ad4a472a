/** Portfolio rows: one balance per (user, asset), created at zero the first time a fill touches it. */
module Holdings {
  import opened Common
  import opened Models

  predicate Keyed(h: Holding, u: nat, a: string) { h.userId == u && h.asset == a }

  /** The first row of user `u` for asset `a`. */
  function IndexOf(rows: seq<Holding>, u: nat, a: string): (r: Option<nat>)
    ensures r.Some? ==> r.value < |rows| && Keyed(rows[r.value], u, a)
    ensures r.Some? ==> forall j :: 0 <= j < r.value ==> !Keyed(rows[j], u, a)
    ensures r.None? <==> forall j :: 0 <= j < |rows| ==> !Keyed(rows[j], u, a)
  {
    FindFirst(rows, (h: Holding) => Keyed(h, u, a))
  }

  predicate HasHolding(rows: seq<Holding>, u: nat, a: string) { IndexOf(rows, u, a).Some? }

  /** The balance a query for (u, a) reads; a user without a row holds 0. */
  function BalanceOf(rows: seq<Holding>, u: nat, a: string): real {
    match IndexOf(rows, u, a)
    case None => 0.0
    case Some(i) => rows[i].balance
  }

  /** At most one row per (user, asset). */
  ghost predicate UniqueKeys(rows: seq<Holding>) {
    forall i, j :: 0 <= i < j < |rows| ==> !Keyed(rows[j], rows[i].userId, rows[i].asset)
  }

  /** Add `delta` to the (u, a) row, first creating that row with balance 0 when there is none. */
  function Upsert(rows: seq<Holding>, u: nat, a: string, delta: real): seq<Holding> {
    match IndexOf(rows, u, a)
    case Some(i) => rows[i := rows[i].(balance := rows[i].balance + delta)]
    case None => rows + [Holding(u, a, 0.0 + delta)]
  }

  /** Rows with the same keys in the same places answer every lookup alike. */
  lemma SameKeysSameIndex(r1: seq<Holding>, r2: seq<Holding>, u: nat, a: string)
    requires |r1| == |r2|
    requires forall i :: 0 <= i < |r1| ==> r1[i].userId == r2[i].userId && r1[i].asset == r2[i].asset
    ensures IndexOf(r1, u, a) == IndexOf(r2, u, a)
  {
    var x, y := IndexOf(r1, u, a), IndexOf(r2, u, a);
    if x.Some? && y.Some? {
      if x.value < y.value {
        assert Keyed(r2[x.value], u, a);
      } else if y.value < x.value {
        assert Keyed(r1[y.value], u, a);
      }
    } else if x.Some? {
      assert Keyed(r2[x.value], u, a);
    } else if y.Some? {
      assert Keyed(r1[y.value], u, a);
    }
  }

  /** A row appended at the end is found only when no earlier row has its key. */
  lemma AppendIndex(rows: seq<Holding>, h: Holding, u: nat, a: string)
    ensures IndexOf(rows + [h], u, a) ==
      if HasHolding(rows, u, a) then IndexOf(rows, u, a)
      else if Keyed(h, u, a) then Some(|rows|)
      else None
  {
    var s := rows + [h];
    assert forall j :: 0 <= j < |rows| ==> s[j] == rows[j];
    assert s[|rows|] == h;
  }

  /** An upsert changes the (u, a) balance by exactly `delta`, no other balance, and adds no key but (u, a). */
  lemma {:induction false} UpsertBalance(rows: seq<Holding>, u: nat, a: string, delta: real, u': nat, a': string)
    ensures BalanceOf(Upsert(rows, u, a, delta), u', a') ==
      BalanceOf(rows, u', a') + (if u' == u && a' == a then delta else 0.0)
    ensures HasHolding(Upsert(rows, u, a, delta), u', a') <==> HasHolding(rows, u', a') || (u' == u && a' == a)
  {
    var r := Upsert(rows, u, a, delta);
    match IndexOf(rows, u, a)
    case Some(i) =>
      SameKeysSameIndex(r, rows, u', a');
      SameKeysSameIndex(r, rows, u, a);
    case None =>
      AppendIndex(rows, Holding(u, a, 0.0 + delta), u', a');
  }

  /** Upserting never creates a second row for a key. */
  lemma {:induction false} UpsertKeepsKeysUnique(rows: seq<Holding>, u: nat, a: string, delta: real)
    requires UniqueKeys(rows)
    ensures UniqueKeys(Upsert(rows, u, a, delta))
  {
    var r := Upsert(rows, u, a, delta);
    match IndexOf(rows, u, a)
    case Some(i) =>
      assert forall k :: 0 <= k < |rows| ==> Keyed(r[k], rows[k].userId, rows[k].asset) && Keyed(rows[k], r[k].userId, r[k].asset);
    case None =>
      forall i, j | 0 <= i < j < |r|
        ensures !Keyed(r[j], r[i].userId, r[i].asset)
      {
        if j == |rows| {
          assert !Keyed(rows[i], u, a);
        }
      }
  }

  /** The settlement of one fill: the base leg, then the quote leg, each an upsert. */
  function Settle(rows: seq<Holding>, u: nat, base: string, quote: string, baseDelta: real, quoteDelta: real): seq<Holding> {
    Upsert(Upsert(rows, u, base, baseDelta), u, quote, quoteDelta)
  }

  /** Settlement moves the base balance by `baseDelta` and the quote balance by `quoteDelta` (both when the two
      assets coincide), leaves every other (user, asset) balance alone, creates rows only for the two legs, and
      keeps one row per key. */
  lemma {:induction false} SettleBalance(rows: seq<Holding>, u: nat, base: string, quote: string,
                                         baseDelta: real, quoteDelta: real, u': nat, a': string)
    ensures BalanceOf(Settle(rows, u, base, quote, baseDelta, quoteDelta), u', a') ==
      BalanceOf(rows, u', a')
      + (if u' == u && a' == base then baseDelta else 0.0)
      + (if u' == u && a' == quote then quoteDelta else 0.0)
    ensures HasHolding(Settle(rows, u, base, quote, baseDelta, quoteDelta), u', a') <==>
      HasHolding(rows, u', a') || (u' == u && (a' == base || a' == quote))
    ensures UniqueKeys(rows) ==> UniqueKeys(Settle(rows, u, base, quote, baseDelta, quoteDelta))
  {
    var mid := Upsert(rows, u, base, baseDelta);
    UpsertBalance(rows, u, base, baseDelta, u', a');
    UpsertBalance(mid, u, quote, quoteDelta, u', a');
    if UniqueKeys(rows) {
      UpsertKeepsKeysUnique(rows, u, base, baseDelta);
      UpsertKeepsKeysUnique(mid, u, quote, quoteDelta);
    }
  }

  /** Settlement as trading.py:100-128 writes it: both rows are looked up before either is created, rows that
      were missing are appended (base first), and then the two deltas are added to the rows found or created. */
  function SettleAsWritten(rows: seq<Holding>, u: nat, base: string, quote: string, baseDelta: real, quoteDelta: real): seq<Holding> {
    var foundBase := IndexOf(rows, u, base);
    var foundQuote := IndexOf(rows, u, quote);
    var rows1 := if foundBase.None? then rows + [Holding(u, base, 0.0)] else rows;
    var b := if foundBase.None? then |rows| else foundBase.value;
    var rows2 := if foundQuote.None? then rows1 + [Holding(u, quote, 0.0)] else rows1;
    var q := if foundQuote.None? then |rows1| else foundQuote.value;
    var rows3 := rows2[b := rows2[b].(balance := rows2[b].balance + baseDelta)];
    rows3[q := rows3[q].(balance := rows3[q].balance + quoteDelta)]
  }

  /** For a self-pair symbol such as "BTC/BTC" and a user without a BTC row, the code as written creates two
      rows for the same (user, asset); later lookups and settlements use only the first row, while the portfolio
      listing still shows both. The upsert settlement keeps one row holding both legs. */
  lemma SelfPairDuplicatesHolding()
    ensures SettleAsWritten([], 1, "BTC", "BTC", 1.0, -2.0) == [Holding(1, "BTC", 1.0), Holding(1, "BTC", -2.0)]
    ensures !UniqueKeys(SettleAsWritten([], 1, "BTC", "BTC", 1.0, -2.0))
    ensures BalanceOf(SettleAsWritten([], 1, "BTC", "BTC", 1.0, -2.0), 1, "BTC") == 1.0
    ensures Settle([], 1, "BTC", "BTC", 1.0, -2.0) == [Holding(1, "BTC", -1.0)]
  {
    var w := SettleAsWritten([], 1, "BTC", "BTC", 1.0, -2.0);
    assert w == [Holding(1, "BTC", 1.0), Holding(1, "BTC", -2.0)];
    assert Keyed(w[1], w[0].userId, w[0].asset);
    assert Keyed(w[0], 1, "BTC");
    var mid := Upsert([], 1, "BTC", 1.0);
    assert mid == [Holding(1, "BTC", 1.0)];
    assert Keyed(mid[0], 1, "BTC");
  }

  /** Whenever the two legs name different assets, the code as written and the upsert settlement agree. */
  lemma {:induction false} SettleAsWrittenAgrees(rows: seq<Holding>, u: nat, base: string, quote: string,
                                                 baseDelta: real, quoteDelta: real)
    requires base != quote
    ensures SettleAsWritten(rows, u, base, quote, baseDelta, quoteDelta) == Settle(rows, u, base, quote, baseDelta, quoteDelta)
  {
    var mid := Upsert(rows, u, base, baseDelta);
    match IndexOf(rows, u, base)
    case Some(i) =>
      SameKeysSameIndex(mid, rows, u, quote);
    case None =>
      AppendIndex(rows, Holding(u, base, 0.0 + baseDelta), u, quote);
      AppendIndex(rows, Holding(u, base, 0.0), u, quote);
  }
}
