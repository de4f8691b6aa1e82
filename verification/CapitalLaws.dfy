/** What a capital snapshot says, and how ties are ordered in a plan. */
module CapitalLaws {
  import opened Prelude
  import opened Dicts
  import opened Balances
  import opened CapitalMonitoring
  import PaperTrading

  /** A status shows the accounts, the target if there is one, and the share: the total is that part of the capital. */
  lemma StatusShows(config: CapitalConfig, ledger: Ledger, capital: real, e: Exchange, baseAssets: seq<string>)
    ensures var s := StatusOf(config, ledger, capital, e, baseAssets);
            && s.exchange == e && s.quote == At(ledger, (e, config.quoteAsset))
            && (forall asset :: asset in s.base <==> asset in baseAssets)
            && (forall asset :: asset in baseAssets ==> s.base[asset] == At(ledger, (e, asset)))
            && (s.target.Some? <==> e in config.targets)
            && (s.target.Some? ==> s.target.value == config.targets[e])
            && (s.actual.Some? <==> capital > 0.0)
            && (s.actual.Some? ==> s.actual.value * capital == s.quote.total * 100.0)
            && (s.deviation.Some? <==> s.target.Some? && s.actual.Some?)
            && (s.deviation.Some? ==> s.actual.value == s.target.value + s.deviation.value)
  {
    if capital > 0.0 {
      ShareScales(QuoteOn(config, ledger, e).total, capital);
    }
  }

  lemma ShareScales(total: real, capital: real)
    requires capital > 0.0
    ensures total / capital * 100.0 * capital == total * 100.0
  {
    var ratio := total / capital;
    assert ratio * capital == total;
    assert ratio * 100.0 * capital == ratio * capital * 100.0;
  }

  /** The shares that a snapshot reports, in order. */
  function SharesOf(statuses: seq<Status>): (r: seq<real>)
    requires forall i :: 0 <= i < |statuses| ==> statuses[i].actual.Some?
    ensures |r| == |statuses| && forall i :: 0 <= i < |r| ==> r[i] == statuses[i].actual.value
  {
    seq(|statuses|, i requires 0 <= i < |statuses| => statuses[i].actual.value)
  }

  lemma {:induction false} ScaledSum(a: seq<real>, b: seq<real>, capital: real)
    requires |a| == |b| && forall i :: 0 <= i < |a| ==> a[i] * capital == b[i] * 100.0
    ensures Sum(a) * capital == Sum(b) * 100.0
  {
    if a != [] {
      ScaledSum(a[1..], b[1..], capital);
      assert Sum(a) * capital == a[0] * capital + Sum(a[1..]) * capital;
    }
  }

  /** With some capital and no exchange listed twice, the reported shares add up to a hundred per cent. */
  lemma SharesAddUp(config: CapitalConfig, ledger: Ledger, exchanges: seq<Exchange>, baseAssets: seq<string>)
    requires Distinct(exchanges) && CapitalOf(config, ledger, exchanges) > 0.0
    ensures var statuses := Snapshot(config, ledger, exchanges, baseAssets);
            && (forall i :: 0 <= i < |statuses| ==> statuses[i].actual.Some?)
            && Sum(SharesOf(statuses)) == 100.0
  {
    hide StatusOf;
    hide Sum;
    DistinctCapital(config, ledger, exchanges);
    var capital, statuses := CapitalOf(config, ledger, exchanges), Snapshot(config, ledger, exchanges, baseAssets);
    forall i | 0 <= i < |statuses|
      ensures statuses[i].actual.Some?
      ensures statuses[i].actual.value * capital == Totals(config, ledger, exchanges)[i] * 100.0
    {
      StatusShows(config, ledger, capital, exchanges[i], baseAssets);
    }
    var shares := SharesOf(statuses);
    assert forall i :: 0 <= i < |shares| ==> shares[i] == statuses[i].actual.value;
    ScaledSum(shares, Totals(config, ledger, exchanges), capital);
    assert Sum(Totals(config, ledger, exchanges)) == capital;
    Cancels(Sum(shares), Sum(Totals(config, ledger, exchanges)), capital);
  }

  lemma Cancels(x: real, total: real, capital: real)
    requires total == capital > 0.0 && x * capital == total * 100.0
    ensures x == 100.0
  {
    assert (x - 100.0) * capital == 0.0;
  }

  /** Listing an exchange once more changes nothing of the capital that a snapshot measures. */
  lemma DuplicateCountsOnce(config: CapitalConfig, ledger: Ledger, exchanges: seq<Exchange>, e: Exchange)
    requires e in exchanges
    ensures SnapshotCapital(config, ledger, exchanges + [e]) == SnapshotCapital(config, ledger, exchanges)
  {
    assert (exchanges + [e])[..|exchanges|] == exchanges;
    TotalListed(config, ledger, exchanges, e);
    PutSame(TotalsByExchange(config, ledger, exchanges), e);
  }

  lemma {:induction false} PutSame<K, V>(d: Dict<K, V>, k: K)
    requires Find(d, k).Some?
    ensures Put(d, k, Find(d, k).value) == d
  {
    hide HasKey;
    FindTail(d, k);
    if d[0].key != k {
      PutSame(d[1..], k);
    }
  }

  // ---- ties ---------------------------------------------------------------

  function WithAmount(s: seq<Entry>, amount: real): seq<Entry> {
    if s == [] then [] else
      (if s[0].amount == amount then [s[0]] else []) + WithAmount(s[1..], amount)
  }

  lemma {:induction false} InsertedFirst(x: Entry, s: seq<Entry>, amount: real)
    requires forall i, j :: 0 <= i < j < |s| ==> s[i].amount >= s[j].amount
    ensures WithAmount(Inserted(x, s), amount) == (if x.amount == amount then [x] else []) + WithAmount(s, amount)
  {
    hide WithAmount;
    if s == [] || s[0].amount <= x.amount {
      WithAmountStep(x, s, amount);
    } else {
      var rest := s[1..];
      InsertedFirst(x, rest, amount);
      WithAmountStep(s[0], Inserted(x, rest), amount);
      WithAmountStep(s[0], rest, amount);
      assert s == [s[0]] + rest;
    }
  }

  lemma WithAmountStep(x: Entry, s: seq<Entry>, amount: real)
    ensures WithAmount([x] + s, amount) == (if x.amount == amount then [x] else []) + WithAmount(s, amount)
  {
    assert ([x] + s)[1..] == s;
  }

  lemma {:induction false} InsertedSorted(x: Entry, s: seq<Entry>)
    requires forall i, j :: 0 <= i < j < |s| ==> s[i].amount >= s[j].amount
    ensures forall i, j :: 0 <= i < j < |Inserted(x, s)| ==> Inserted(x, s)[i].amount >= Inserted(x, s)[j].amount
    ensures forall i :: 0 <= i < |Inserted(x, s)| ==>
              Inserted(x, s)[i].amount <= x.amount || (s != [] && Inserted(x, s)[i].amount <= s[0].amount)
  {
    if s != [] && s[0].amount > x.amount {
      InsertedSorted(x, s[1..]);
    }
  }

  /** Sorting keeps entries of equal amounts in their order, as Python's does even in reverse. */
  lemma {:induction false} TiesKeepOrder(s: seq<Entry>, amount: real)
    ensures WithAmount(SortedDescending(s), amount) == WithAmount(s, amount)
    ensures forall i, j :: 0 <= i < j < |SortedDescending(s)| ==>
              SortedDescending(s)[i].amount >= SortedDescending(s)[j].amount
  {
    if s != [] {
      TiesKeepOrder(s[1..], amount);
      InsertedFirst(s[0], SortedDescending(s[1..]), amount);
      InsertedSorted(s[0], SortedDescending(s[1..]));
    }
  }

  // ---- one direction ------------------------------------------------------

  /** "Available" means that both accounts can spare what the legs need; otherwise the first that cannot is named. */
  lemma AvailabilityMeans(quoteAsset: string, ledger: Ledger, symbol: string, buy: Exchange, sell: Exchange,
                          quantity: real, buyPrice: real)
    ensures var r := AvailabilityOf(quoteAsset, ledger, symbol, buy, sell, quantity, buyPrice);
            var quote, base := At(ledger, (buy, quoteAsset)), At(ledger, (sell, PaperTrading.BaseOf(symbol)));
            && (r.QuoteShort? <==> quote.total < quote.locked + quantity * buyPrice)
            && (r.BaseShort? <==> !r.QuoteShort? && base.total < base.locked + quantity)
            && (r.Available? <==> !r.QuoteShort? && !r.BaseShort?)
  {
    hide At;
    hide PaperTrading.BaseOf;
  }
}
