/** What the greedy rebalancing plan achieves when its transfers are carried out. */
module RebalanceLaws {
  import opened Prelude
  import opened Balances
  import opened CapitalMonitoring

  // ---- totals of a plan ---------------------------------------------------

  function Amounts(s: seq<Entry>): (r: seq<real>)
    ensures |r| == |s| && forall i :: 0 <= i < |r| ==> r[i] == s[i].amount
  {
    seq(|s|, i requires 0 <= i < |s| => s[i].amount)
  }

  function EntrySum(s: seq<Entry>): real {
    if s == [] then 0.0 else s[0].amount + EntrySum(s[1..])
  }

  function PlanTotal(signals: seq<Signal>): real {
    if signals == [] then 0.0 else signals[0].amount + PlanTotal(signals[1..])
  }

  function SentBy(signals: seq<Signal>, e: Exchange): real {
    if signals == [] then 0.0 else (if signals[0].from == e then signals[0].amount else 0.0) + SentBy(signals[1..], e)
  }

  function ReceivedBy(signals: seq<Signal>, e: Exchange): real {
    if signals == [] then 0.0 else (if signals[0].to == e then signals[0].amount else 0.0) + ReceivedBy(signals[1..], e)
  }

  ghost predicate Positive(s: seq<Entry>) {
    forall i :: 0 <= i < |s| ==> s[i].amount > 0.0
  }

  ghost predicate OncePerExchange(s: seq<Entry>) {
    forall i, j :: 0 <= i < j < |s| ==> s[i].exchange != s[j].exchange
  }

  ghost predicate Lists(s: seq<Entry>, e: Exchange) {
    exists i :: 0 <= i < |s| && s[i].exchange == e
  }

  lemma {:induction false} EntrySumPositive(s: seq<Entry>)
    requires Positive(s)
    ensures EntrySum(s) >= 0.0 && (s != [] ==> EntrySum(s) > 0.0)
  {
    if s != [] {
      EntrySumPositive(s[1..]);
    }
  }

  lemma ReducedFacts(s: seq<Entry>, amount: real)
    requires s != [] && Positive(s) && 0.0 < amount <= s[0].amount
    ensures Positive(Reduced(s, amount)) && EntrySum(Reduced(s, amount)) == EntrySum(s) - amount
    ensures OncePerExchange(s) ==> OncePerExchange(Reduced(s, amount))
    ensures forall e :: Lists(Reduced(s, amount), e) ==> Lists(s, e)
  {
    var r := Reduced(s, amount);
    if amount < s[0].amount {
      assert r[1..] == s[1..];
    }
    forall e | Lists(r, e)
      ensures Lists(s, e)
    {
      var i :| 0 <= i < |r| && r[i].exchange == e;
      assert s[if amount < s[0].amount then i else i + 1].exchange == e;
    }
  }

  /** Every transfer is positive and goes from a sender to a receiver; one side is used up; the plan is short. */
  lemma {:induction false} PlanShape(over: seq<Entry>, under: seq<Entry>, asset: string)
    requires Positive(over) && Positive(under)
    ensures forall i :: 0 <= i < |Matched(over, under, asset)| ==>
              var s := Matched(over, under, asset)[i];
              s.amount > 0.0 && s.asset == asset && Lists(over, s.from) && Lists(under, s.to)
    ensures PlanTotal(Matched(over, under, asset)) == Min(EntrySum(over), EntrySum(under))
    ensures over != [] && under != [] ==> |Matched(over, under, asset)| <= |over| + |under| - 1
    decreases |over| + |under|
  {
    hide Reduced;
    hide OncePerExchange;
    hide Lists;
    EntrySumPositive(over);
    EntrySumPositive(under);
    if over != [] && under != [] {
      var amount := Min(over[0].amount, under[0].amount);
      var o, u := Reduced(over, amount), Reduced(under, amount);
      ReducedFacts(over, amount);
      ReducedFacts(under, amount);
      MatchedStep(over, under, asset);
      PlanShape(o, u, asset);
      HeadIsListed(over);
      HeadIsListed(under);
      var signals, rest := Matched(over, under, asset), Matched(o, u, asset);
      assert signals[1..] == rest;
      forall i | 0 <= i < |signals|
        ensures var s := signals[i];
                s.amount > 0.0 && s.asset == asset && Lists(over, s.from) && Lists(under, s.to)
      {
        assert i > 0 ==> signals[i] == rest[i - 1];
      }
    }
  }

  lemma HeadIsListed(s: seq<Entry>)
    requires s != []
    ensures Lists(s, s[0].exchange)
  {
  }

  // ---- who sends how much -------------------------------------------------

  /** A total handed out greedily from the front: what each entry gives. */
  function Shares(amounts: seq<real>, total: real): (r: seq<real>)
    ensures |r| == |amounts|
  {
    if amounts == [] then [] else [Min(amounts[0], total)] + Shares(amounts[1..], total - Min(amounts[0], total))
  }

  lemma {:induction false} SharesWithin(amounts: seq<real>, total: real)
    requires total >= 0.0 && forall i :: 0 <= i < |amounts| ==> amounts[i] >= 0.0
    ensures forall i :: 0 <= i < |amounts| ==> 0.0 <= Shares(amounts, total)[i] <= amounts[i]
  {
    if amounts != [] {
      SharesWithin(amounts[1..], total - Min(amounts[0], total));
    }
  }

  lemma {:induction false} NothingSentByStranger(over: seq<Entry>, under: seq<Entry>, asset: string, e: Exchange)
    requires Positive(over) && Positive(under) && !Lists(over, e)
    ensures SentBy(Matched(over, under, asset), e) == 0.0
    decreases |over| + |under|
  {
    if over != [] && under != [] {
      var amount := Min(over[0].amount, under[0].amount);
      ReducedFacts(over, amount);
      ReducedFacts(under, amount);
      MatchedStep(over, under, asset);
      NothingSentByStranger(Reduced(over, amount), Reduced(under, amount), asset, e);
      assert Matched(over, under, asset)[1..] == Matched(Reduced(over, amount), Reduced(under, amount), asset);
      assert over[0].exchange != e;
    }
  }

  /** The shares of a total, seen after the head has already given `amount` of it. */
  lemma SharesAfterHead(s: seq<Entry>, total: real, amount: real, i: nat)
    requires s != [] && i < |s| && 0.0 < amount <= s[0].amount && amount <= total
    ensures amount == s[0].amount && i == 0 ==> Shares(Amounts(s), total)[i] == amount
    ensures amount == s[0].amount && i > 0 ==>
              Shares(Amounts(s), total)[i] == Shares(Amounts(Reduced(s, amount)), total - amount)[i - 1]
    ensures amount < s[0].amount ==>
              Shares(Amounts(s), total)[i]
              == Shares(Amounts(Reduced(s, amount)), total - amount)[i] + if i == 0 then amount else 0.0
  {
    assert Amounts(s)[1..] == Amounts(s[1..]);
    if amount < s[0].amount {
      assert Amounts(Reduced(s, amount))[1..] == Amounts(s[1..]);
    }
  }

  lemma SentFirst(over: seq<Entry>, under: seq<Entry>, asset: string, e: Exchange)
    requires Positive(over) && Positive(under) && over != [] && under != []
    ensures var amount := Min(over[0].amount, under[0].amount);
            SentBy(Matched(over, under, asset), e)
            == (if over[0].exchange == e then amount else 0.0)
               + SentBy(Matched(Reduced(over, amount), Reduced(under, amount), asset), e)
  {
    hide Matched;
    hide Reduced;
    var amount := Min(over[0].amount, under[0].amount);
    MatchedStep(over, under, asset);
    assert Matched(over, under, asset)[1..] == Matched(Reduced(over, amount), Reduced(under, amount), asset);
  }

  lemma ReducedTotals(over: seq<Entry>, under: seq<Entry>)
    requires Positive(over) && Positive(under) && over != [] && under != []
    ensures var amount := Min(over[0].amount, under[0].amount);
            && Min(EntrySum(Reduced(over, amount)), EntrySum(Reduced(under, amount)))
               == Min(EntrySum(over), EntrySum(under)) - amount
            && amount <= Min(EntrySum(over), EntrySum(under))
  {
    hide Reduced;
    hide OncePerExchange;
    hide Lists;
    var amount := Min(over[0].amount, under[0].amount);
    ReducedFacts(over, amount);
    ReducedFacts(under, amount);
    EntrySumPositive(over[1..]);
    EntrySumPositive(under[1..]);
  }

  /** Each sender's total is its greedy share of what is moved. */
  lemma {:induction false} SentIsShare(over: seq<Entry>, under: seq<Entry>, asset: string, i: nat)
    requires Positive(over) && Positive(under) && OncePerExchange(over) && i < |over|
    ensures SentBy(Matched(over, under, asset), over[i].exchange)
            == Shares(Amounts(over), Min(EntrySum(over), EntrySum(under)))[i]
    decreases |over| + |under|
  {
    hide Shares;
    hide SentBy;
    hide EntrySum;
    hide Matched;
    hide Reduced;
    hide OncePerExchange;
    hide Lists;
    var e := over[i].exchange;
    if under == [] {
      EntrySumPositive(over);
      EmptySide(over, asset, e);
      SharesOfNothing(Amounts(over), i);
    } else {
      var amount := Min(over[0].amount, under[0].amount);
      var o, u := Reduced(over, amount), Reduced(under, amount);
      ReducedFacts(over, amount);
      ReducedFacts(under, amount);
      ReducedTotals(over, under);
      SentFirst(over, under, asset, e);
      SharesAfterHead(over, Min(EntrySum(over), EntrySum(under)), amount, i);
      ReducedAt(over, amount, i);
      if amount == over[0].amount && i == 0 {
        NothingSentByStranger(o, u, asset, e);
      } else {
        SentIsShare(o, u, asset, if amount == over[0].amount then i - 1 else i);
      }
    }
  }

  lemma ReducedAt(s: seq<Entry>, amount: real, i: nat)
    requires Positive(s) && OncePerExchange(s) && i < |s| && 0.0 < amount <= s[0].amount
    ensures i > 0 ==> s[i].exchange != s[0].exchange
    ensures amount == s[0].amount && i == 0 ==> !Lists(Reduced(s, amount), s[0].exchange)
    ensures amount == s[0].amount && i > 0 ==>
              i - 1 < |Reduced(s, amount)| && Reduced(s, amount)[i - 1].exchange == s[i].exchange
    ensures amount < s[0].amount ==> i < |Reduced(s, amount)| && Reduced(s, amount)[i].exchange == s[i].exchange
  {
  }

  lemma EmptySide(over: seq<Entry>, asset: string, e: Exchange)
    ensures SentBy(Matched(over, [], asset), e) == 0.0
    ensures EntrySum([]) == 0.0
  {
  }

  lemma {:induction false} SharesOfNothing(amounts: seq<real>, i: nat)
    requires i < |amounts| && forall j :: 0 <= j < |amounts| ==> amounts[j] >= 0.0
    ensures Shares(amounts, 0.0)[i] == 0.0
  {
    if i > 0 {
      SharesOfNothing(amounts[1..], i - 1);
    }
  }

  // ---- the receiving side, by mirroring -----------------------------------

  function Mirror(signals: seq<Signal>): (r: seq<Signal>)
    ensures |r| == |signals|
  {
    if signals == [] then [] else
      [Signal(signals[0].asset, signals[0].to, signals[0].from, signals[0].amount)] + Mirror(signals[1..])
  }

  lemma {:induction false} MirrorSwapsRoles(signals: seq<Signal>, e: Exchange)
    ensures SentBy(Mirror(signals), e) == ReceivedBy(signals, e)
  {
    if signals != [] {
      MirrorSwapsRoles(signals[1..], e);
    }
  }

  lemma {:induction false} MatchedMirrors(over: seq<Entry>, under: seq<Entry>, asset: string)
    requires Positive(over) && Positive(under)
    ensures Matched(under, over, asset) == Mirror(Matched(over, under, asset))
    decreases |over| + |under|
  {
    if over != [] && under != [] {
      var amount := Min(over[0].amount, under[0].amount);
      ReducedFacts(over, amount);
      ReducedFacts(under, amount);
      MatchedStep(over, under, asset);
      MatchedStep(under, over, asset);
      MatchedMirrors(Reduced(over, amount), Reduced(under, amount), asset);
      assert Matched(over, under, asset)[1..] == Matched(Reduced(over, amount), Reduced(under, amount), asset);
    }
  }

  lemma ReceivedIsShare(over: seq<Entry>, under: seq<Entry>, asset: string, i: nat)
    requires Positive(over) && Positive(under) && OncePerExchange(under) && i < |under|
    ensures ReceivedBy(Matched(over, under, asset), under[i].exchange)
            == Shares(Amounts(under), Min(EntrySum(over), EntrySum(under)))[i]
  {
    MatchedMirrors(over, under, asset);
    MirrorSwapsRoles(Matched(over, under, asset), under[i].exchange);
    SentIsShare(under, over, asset, i);
  }

  /** What greedy sharing leaves over is small everywhere exactly when it is small in total. */
  lemma {:induction false} ResidualsSmallIff(s: seq<Entry>, total: real, limit: real)
    requires limit >= 0.0 && 0.0 <= total <= EntrySum(s)
    requires forall i :: 0 <= i < |s| ==> s[i].amount > limit
    ensures (forall i :: 0 <= i < |s| ==> s[i].amount - Shares(Amounts(s), total)[i] <= limit)
            <==> EntrySum(s) - total <= limit
  {
    if s != [] {
      var take, rest, shares := Min(s[0].amount, total), s[1..], Shares(Amounts(s), total);
      assert Amounts(s)[1..] == Amounts(rest);
      assert shares[1..] == Shares(Amounts(rest), total - take);
      EntrySumPositive(rest);
      ResidualsSmallIff(rest, total - take, limit);
      if forall i :: 0 <= i < |rest| ==> rest[i].amount - Shares(Amounts(rest), total - take)[i] <= limit {
        forall i | 0 < i < |s|
          ensures s[i].amount - shares[i] <= limit
        {
          assert rest[i - 1].amount - Shares(Amounts(rest), total - take)[i - 1] <= limit;
        }
      }
      if forall i :: 0 <= i < |s| ==> s[i].amount - shares[i] <= limit {
        forall i | 0 <= i < |rest|
          ensures rest[i].amount - Shares(Amounts(rest), total - take)[i] <= limit
        {
          assert s[i + 1].amount - shares[i + 1] <= limit;
        }
      }
      if total < s[0].amount && rest != [] {
        assert EntrySum(rest) >= rest[0].amount by {
          EntrySumPositive(rest[1..]);
        }
      }
    }
  }

  // ---- from balances to lists ---------------------------------------------

  function TargetAmount(config: CapitalConfig, capital: real, e: Exchange): real
    requires e in config.targets
  {
    Times(config.targets[e] / 100.0, capital)
  }

  /** How far an exchange is above its target amount. */
  function Gap(config: CapitalConfig, ledger: Ledger, capital: real, e: Exchange): real
    requires e in config.targets
  {
    QuoteOn(config, ledger, e).total - TargetAmount(config, capital, e)
  }

  function Limit(config: CapitalConfig, capital: real): real {
    Times(config.thresholdPct / 100.0, capital)
  }

  lemma DeviationArithmetic(total: real, target: real, capital: real)
    requires capital > 0.0
    ensures Times((total / capital * 100.0 - target) / 100.0, capital) == total - Times(target / 100.0, capital)
    ensures Times(-(total / capital * 100.0 - target) / 100.0, capital) == Times(target / 100.0, capital) - total
  {
    QuotientTimes(total, capital);
    var q := total / capital;
    assert (q * 100.0 - target) / 100.0 == q - target / 100.0;
    assert -(q * 100.0 - target) / 100.0 == target / 100.0 - q;
  }

  lemma ScaledOrder(d: real, t: real, capital: real)
    requires capital > 0.0
    ensures d > t <==> Times(d / 100.0, capital) > Times(t / 100.0, capital)
  {
    hide Times;
    if d > t {
      TimesStrict(t / 100.0, d / 100.0, capital);
    } else {
      TimesMonotone(d / 100.0, t / 100.0, capital);
    }
  }

  /** A status is over (under) the threshold exactly when its gap exceeds the limit, and its entry is that gap. */
  lemma StatusMeansGap(config: CapitalConfig, ledger: Ledger, capital: real, e: Exchange)
    requires capital > 0.0
    ensures var s := StatusOf(config, ledger, capital, e, []);
            && (s.deviation.Some? <==> e in config.targets)
            && (s.deviation.Some? ==>
                  && Times(s.deviation.value / 100.0, capital) == Gap(config, ledger, capital, e)
                  && Times(-s.deviation.value / 100.0, capital) == -Gap(config, ledger, capital, e)
                  && (s.deviation.value > config.thresholdPct
                      <==> Gap(config, ledger, capital, e) > Limit(config, capital))
                  && (s.deviation.value < -config.thresholdPct
                      <==> -Gap(config, ledger, capital, e) > Limit(config, capital)))
  {
    hide Times;
    var s := StatusOf(config, ledger, capital, e, []);
    if s.deviation.Some? {
      var d := s.deviation.value;
      DeviationArithmetic(QuoteOn(config, ledger, e).total, config.targets[e], capital);
      ScaledOrder(d, config.thresholdPct, capital);
      ScaledOrder(-d, config.thresholdPct, capital);
    }
  }

  datatype Role = Sender | Receiver

  function Need(config: CapitalConfig, ledger: Ledger, capital: real, e: Exchange, role: Role): real
    requires e in config.targets
  {
    if role.Sender? then Gap(config, ledger, capital, e) else -Gap(config, ledger, capital, e)
  }

  ghost predicate Qualifies(config: CapitalConfig, ledger: Ledger, capital: real, e: Exchange, role: Role) {
    e in config.targets && Need(config, ledger, capital, e, role) > Limit(config, capital)
  }

  /** A list holds exactly the exchanges that qualify, once each, with their need. */
  ghost predicate Represents(s: seq<Entry>, config: CapitalConfig, ledger: Ledger, capital: real,
                             exchanges: seq<Exchange>, role: Role)
  {
    && OncePerExchange(s)
    && (forall e :: Lists(s, e) <==> e in exchanges && Qualifies(config, ledger, capital, e, role))
    && (forall i :: 0 <= i < |s| ==>
          Lists(s, s[i].exchange) && s[i].exchange in config.targets
          && s[i].amount == Need(config, ledger, capital, s[i].exchange, role))
  }

  lemma ListsAppend(s: seq<Entry>, x: Entry, e: Exchange)
    ensures Lists(s + [x], e) <==> Lists(s, e) || x.exchange == e
  {
    if Lists(s, e) {
      var i :| 0 <= i < |s| && s[i].exchange == e;
      assert (s + [x])[i].exchange == e;
    }
    if x.exchange == e {
      assert (s + [x])[|s|].exchange == e;
    }
  }

  /** The list with one more exchange considered. */
  ghost function Extended(s: seq<Entry>, config: CapitalConfig, ledger: Ledger, capital: real, e: Exchange, role: Role)
    : seq<Entry>
  {
    if Qualifies(config, ledger, capital, e, role) then s + [Entry(e, Need(config, ledger, capital, e, role))] else s
  }

  lemma RepresentsGrows(s: seq<Entry>, config: CapitalConfig, ledger: Ledger, capital: real,
                        exchanges: seq<Exchange>, e: Exchange, role: Role)
    requires Represents(s, config, ledger, capital, exchanges, role) && e !in exchanges
    ensures Represents(Extended(s, config, ledger, capital, e, role), config, ledger, capital, exchanges + [e], role)
  {
    hide Need;
    hide Limit;
    var x := if e in config.targets then Entry(e, Need(config, ledger, capital, e, role)) else Entry(e, 0.0);
    forall f
      ensures Lists(s + [x], f) <==> Lists(s, f) || f == e
    {
      ListsAppend(s, x, f);
    }
  }

  lemma {:induction false} ListStep(config: CapitalConfig, ledger: Ledger, capital: real, statuses: seq<Status>,
                                    e: Exchange)
    requires capital > 0.0 && statuses != []
    requires statuses[|statuses| - 1] == StatusOf(config, ledger, capital, e, [])
    ensures OverList(statuses, capital, config.thresholdPct)
            == Extended(OverList(statuses[..|statuses| - 1], capital, config.thresholdPct), config, ledger, capital, e,
                        Sender)
    ensures UnderList(statuses, capital, config.thresholdPct)
            == Extended(UnderList(statuses[..|statuses| - 1], capital, config.thresholdPct), config, ledger, capital, e,
                        Receiver)
  {
    hide StatusOf;
    hide Times;
    hide Gap;
    StatusMeansGap(config, ledger, capital, e);
    StatusNames(config, ledger, capital, e);
  }

  lemma {:induction false} ListsRepresent(config: CapitalConfig, ledger: Ledger, capital: real,
                                          exchanges: seq<Exchange>, statuses: seq<Status>)
    requires capital > 0.0 && Distinct(exchanges) && |statuses| == |exchanges|
    requires forall i :: 0 <= i < |statuses| ==> statuses[i] == StatusOf(config, ledger, capital, exchanges[i], [])
    ensures Represents(OverList(statuses, capital, config.thresholdPct), config, ledger, capital, exchanges, Sender)
    ensures Represents(UnderList(statuses, capital, config.thresholdPct), config, ledger, capital, exchanges, Receiver)
  {
    if exchanges != [] {
      hide Represents;
      hide Extended;
      hide OverList;
      hide UnderList;
      var n := |exchanges| - 1;
      var e := exchanges[n];
      ListsRepresent(config, ledger, capital, exchanges[..n], statuses[..n]);
      ListStep(config, ledger, capital, statuses, e);
      RepresentsGrows(OverList(statuses[..n], capital, config.thresholdPct), config, ledger, capital, exchanges[..n],
                      e, Sender);
      RepresentsGrows(UnderList(statuses[..n], capital, config.thresholdPct), config, ledger, capital, exchanges[..n],
                      e, Receiver);
      assert exchanges == exchanges[..n] + [e];
    }
  }

  lemma StatusNames(config: CapitalConfig, ledger: Ledger, capital: real, e: Exchange)
    ensures StatusOf(config, ledger, capital, e, []).exchange == e
  {
  }

  // ---- sorting ------------------------------------------------------------

  ghost predicate Descending(s: seq<Entry>) {
    forall i, j :: 0 <= i < j < |s| ==> s[i].amount >= s[j].amount
  }

  lemma {:induction false} InsertedMembers(x: Entry, s: seq<Entry>)
    ensures forall y :: y in Inserted(x, s) <==> y == x || y in s
    ensures EntrySum(Inserted(x, s)) == x.amount + EntrySum(s)
  {
    if s == [] || s[0].amount <= x.amount {
      assert ([x] + s)[1..] == s;
    } else {
      InsertedMembers(x, s[1..]);
      assert ([s[0]] + Inserted(x, s[1..]))[1..] == Inserted(x, s[1..]);
      assert s == [s[0]] + s[1..];
    }
  }

  lemma {:induction false} InsertedDescending(x: Entry, s: seq<Entry>)
    requires Descending(s)
    ensures Descending(Inserted(x, s))
  {
    if s != [] && s[0].amount > x.amount {
      var r := Inserted(x, s[1..]);
      InsertedDescending(x, s[1..]);
      InsertedMembers(x, s[1..]);
      forall j | 0 <= j < |r|
        ensures s[0].amount >= r[j].amount
      {
        assert r[j] in r;
      }
    }
  }

  lemma {:induction false} InsertedOnce(x: Entry, s: seq<Entry>)
    requires OncePerExchange(s) && !Lists(s, x.exchange)
    ensures OncePerExchange(Inserted(x, s))
  {
    assert forall i :: 0 <= i < |s| ==> s[i].exchange != x.exchange;
    if s != [] && s[0].amount > x.amount {
      var r := Inserted(x, s[1..]);
      InsertedOnce(x, s[1..]);
      InsertedMembers(x, s[1..]);
      forall j | 0 <= j < |r|
        ensures s[0].exchange != r[j].exchange
      {
        assert r[j] in r;
        if r[j] != x {
          var k :| 0 <= k < |s[1..]| && s[1..][k] == r[j];
          assert s[k + 1] == r[j];
        }
      }
    }
  }

  lemma {:induction false} SortedFacts(s: seq<Entry>)
    ensures forall y :: y in SortedDescending(s) <==> y in s
    ensures EntrySum(SortedDescending(s)) == EntrySum(s)
    ensures OncePerExchange(s) ==> OncePerExchange(SortedDescending(s))
    ensures Descending(SortedDescending(s))
  {
    if s != [] {
      var r := SortedDescending(s[1..]);
      SortedFacts(s[1..]);
      InsertedMembers(s[0], r);
      InsertedDescending(s[0], r);
      assert s == [s[0]] + s[1..];
      if OncePerExchange(s) {
        forall j | 0 <= j < |r|
          ensures r[j].exchange != s[0].exchange
        {
          assert r[j] in s[1..];
          var k :| 0 <= k < |s[1..]| && s[1..][k] == r[j];
          assert s[k + 1] == r[j];
        }
        InsertedOnce(s[0], r);
      }
    }
  }

  lemma SortedRepresents(s: seq<Entry>, config: CapitalConfig, ledger: Ledger, capital: real,
                         exchanges: seq<Exchange>, role: Role)
    requires Represents(s, config, ledger, capital, exchanges, role)
    ensures Represents(SortedDescending(s), config, ledger, capital, exchanges, role)
  {
    hide Need;
    hide Limit;
    SortedFacts(s);
    var r := SortedDescending(s);
    forall e
      ensures Lists(r, e) <==> Lists(s, e)
    {
      if Lists(s, e) {
        var i :| 0 <= i < |s| && s[i].exchange == e;
        assert s[i] in r;
      }
      if Lists(r, e) {
        var i :| 0 <= i < |r| && r[i].exchange == e;
        assert r[i] in s;
      }
    }
    forall i | 0 <= i < |r|
      ensures Lists(r, r[i].exchange) && r[i].exchange in config.targets
      ensures r[i].amount == Need(config, ledger, capital, r[i].exchange, role)
    {
      assert r[i] in s;
      var k :| 0 <= k < |s| && s[k] == r[i];
    }
  }

  /** The senders and receivers of a plan are the exchanges beyond the limit, each with its gap. */
  lemma SidesRepresent(config: CapitalConfig, ledger: Ledger, exchanges: seq<Exchange>)
    requires Distinct(exchanges) && CapitalOf(config, ledger, exchanges) > 0.0
    ensures var capital := CapitalOf(config, ledger, exchanges);
            && Represents(Senders(config, ledger, exchanges), config, ledger, capital, exchanges, Sender)
            && Represents(Receivers(config, ledger, exchanges), config, ledger, capital, exchanges, Receiver)
  {
    hide StatusOf;
    hide Represents;
    var capital := CapitalOf(config, ledger, exchanges);
    var statuses := Snapshot(config, ledger, exchanges, []);
    DistinctCapital(config, ledger, exchanges);
    ListsRepresent(config, ledger, capital, exchanges, statuses);
    SortedRepresents(OverList(statuses, capital, config.thresholdPct), config, ledger, capital, exchanges, Sender);
    SortedRepresents(UnderList(statuses, capital, config.thresholdPct), config, ledger, capital, exchanges, Receiver);
  }

  // ---- carrying the plan out ----------------------------------------------

  /** The operator records the transfers one after the other. */
  function Replayed(ledger: Ledger, signals: seq<Signal>): Ledger
    decreases |signals|
  {
    if signals == [] then ledger else
      var s := signals[0];
      Replayed(Transferred(ledger, s.asset, s.from, s.to, s.amount), signals[1..])
  }

  predicate ReplaySucceeds(ledger: Ledger, signals: seq<Signal>)
    decreases |signals|
  {
    signals == [] ||
    var s := signals[0];
    Covers(ledger, (s.from, s.asset), s.amount) &&
    ReplaySucceeds(Transferred(ledger, s.asset, s.from, s.to, s.amount), signals[1..])
  }

  /** The transfers that go through when they are recorded one after the other; a refused one moves nothing. */
  function Carried(ledger: Ledger, signals: seq<Signal>): seq<Signal>
    decreases |signals|
  {
    if signals == [] then [] else
      var s := signals[0];
      var rest := Carried(Transferred(ledger, s.asset, s.from, s.to, s.amount), signals[1..]);
      if Covers(ledger, (s.from, s.asset), s.amount) then [s] + rest else rest
  }

  lemma TransferredAt(ledger: Ledger, asset: string, from: Exchange, to: Exchange, amount: real, e: Exchange)
    ensures var moved := if Covers(ledger, (from, asset), amount) then amount else 0.0;
            At(Transferred(ledger, asset, from, to, amount), (e, asset))
            == Account(At(ledger, (e, asset)).total
                         - (if e == from then moved else 0.0) + (if e == to then moved else 0.0),
                       At(ledger, (e, asset)).locked)
  {
  }

  /** Whatever goes through and whatever is refused, each account moves by its flow of what went through. */
  lemma {:induction false} CarriedMoves(ledger: Ledger, asset: string, signals: seq<Signal>, e: Exchange)
    requires forall i :: 0 <= i < |signals| ==> signals[i].asset == asset
    ensures var carried := Carried(ledger, signals);
            At(Replayed(ledger, signals), (e, asset))
            == Account(At(ledger, (e, asset)).total - SentBy(carried, e) + ReceivedBy(carried, e),
                       At(ledger, (e, asset)).locked)
    decreases |signals|
  {
    hide Transferred;
    if signals != [] {
      var s := signals[0];
      var next := Transferred(ledger, asset, s.from, s.to, s.amount);
      TransferredAt(ledger, asset, s.from, s.to, s.amount, e);
      CarriedMoves(next, asset, signals[1..], e);
      assert ([s] + Carried(next, signals[1..]))[1..] == Carried(next, signals[1..]);
    }
  }

  lemma {:induction false} CarriedAtMost(ledger: Ledger, signals: seq<Signal>, e: Exchange)
    requires forall i :: 0 <= i < |signals| ==> signals[i].amount >= 0.0
    ensures 0.0 <= SentBy(Carried(ledger, signals), e) <= SentBy(signals, e)
    ensures 0.0 <= ReceivedBy(Carried(ledger, signals), e) <= ReceivedBy(signals, e)
    ensures forall x :: x in Carried(ledger, signals) ==> x in signals
    decreases |signals|
  {
    hide Transferred;
    hide Covers;
    if signals != [] {
      var s := signals[0];
      var next := Transferred(ledger, s.asset, s.from, s.to, s.amount);
      CarriedAtMost(next, signals[1..], e);
      assert ([s] + Carried(next, signals[1..]))[1..] == Carried(next, signals[1..]);
      assert signals == [s] + signals[1..];
    }
  }

  lemma {:induction false} CarriedAllIff(ledger: Ledger, signals: seq<Signal>)
    ensures |Carried(ledger, signals)| <= |signals|
    ensures ReplaySucceeds(ledger, signals) <==> Carried(ledger, signals) == signals
    decreases |signals|
  {
    hide Transferred;
    hide Covers;
    if signals != [] {
      var s := signals[0];
      var next := Transferred(ledger, s.asset, s.from, s.to, s.amount);
      CarriedAllIff(next, signals[1..]);
      assert ([s] + Carried(next, signals[1..]))[1..] == Carried(next, signals[1..]);
      assert signals == [s] + signals[1..];
    }
  }

  lemma {:induction false} SentNonNegative(signals: seq<Signal>, e: Exchange)
    requires forall i :: 0 <= i < |signals| ==> signals[i].amount >= 0.0
    ensures SentBy(signals, e) >= 0.0 && ReceivedBy(signals, e) >= 0.0
  {
    if signals != [] {
      SentNonNegative(signals[1..], e);
    }
  }

  ghost predicate SendersHaveFree(ledger: Ledger, asset: string, signals: seq<Signal>) {
    forall e :: SentBy(signals, e) > 0.0 ==>
      SentBy(signals, e) <= At(ledger, (e, asset)).total - At(ledger, (e, asset)).locked
  }

  /** If every sender has free what it must send in all, every transfer succeeds. */
  lemma {:induction false} FreeSendersSucceed(ledger: Ledger, asset: string, signals: seq<Signal>)
    requires forall i :: 0 <= i < |signals| ==> signals[i].asset == asset && signals[i].amount > 0.0
    requires SendersHaveFree(ledger, asset, signals)
    ensures ReplaySucceeds(ledger, signals)
    decreases |signals|
  {
    hide Transferred;
    if signals != [] {
      var s := signals[0];
      SentNonNegative(signals[1..], s.from);
      assert SentBy(signals, s.from) == s.amount + SentBy(signals[1..], s.from);
      var next := Transferred(ledger, asset, s.from, s.to, s.amount);
      forall e
        ensures SentBy(signals[1..], e) > 0.0 ==>
                  SentBy(signals[1..], e) <= At(next, (e, asset)).total - At(next, (e, asset)).locked
      {
        TransferredAt(ledger, asset, s.from, s.to, s.amount, e);
        assert SentBy(signals, e) == (if s.from == e then s.amount else 0.0) + SentBy(signals[1..], e);
      }
      FreeSendersSucceed(next, asset, signals[1..]);
    }
  }

  /** What callers and configuration guarantee: distinct exchanges, a positive threshold, and capital to plan for. */
  ghost predicate Plannable(config: CapitalConfig, ledger: Ledger, exchanges: seq<Exchange>) {
    Distinct(exchanges) && CapitalOf(config, ledger, exchanges) > 0.0 && config.thresholdPct > 0.0
  }

  lemma LimitPositive(config: CapitalConfig, capital: real)
    requires config.thresholdPct > 0.0 && capital > 0.0
    ensures Limit(config, capital) > 0.0
  {
    hide Times;
    TimesZero(capital);
    TimesStrict(0.0, config.thresholdPct / 100.0, capital);
  }

  lemma SentBounds(over: seq<Entry>, under: seq<Entry>, asset: string, e: Exchange)
    requires Positive(over) && Positive(under) && OncePerExchange(over)
    ensures !Lists(over, e) ==> SentBy(Matched(over, under, asset), e) == 0.0
    ensures forall i :: 0 <= i < |over| && over[i].exchange == e ==>
              0.0 <= SentBy(Matched(over, under, asset), e) <= over[i].amount
  {
    hide Matched;
    hide Shares;
    EntrySumPositive(over);
    EntrySumPositive(under);
    SharesWithin(Amounts(over), Min(EntrySum(over), EntrySum(under)));
    if !Lists(over, e) {
      NothingSentByStranger(over, under, asset, e);
    }
    forall i | 0 <= i < |over| && over[i].exchange == e
      ensures 0.0 <= SentBy(Matched(over, under, asset), e) <= over[i].amount
    {
      SentIsShare(over, under, asset, i);
    }
  }

  lemma ReceivedBounds(over: seq<Entry>, under: seq<Entry>, asset: string, e: Exchange)
    requires Positive(over) && Positive(under) && OncePerExchange(under)
    ensures !Lists(under, e) ==> ReceivedBy(Matched(over, under, asset), e) == 0.0
    ensures forall i :: 0 <= i < |under| && under[i].exchange == e ==>
              0.0 <= ReceivedBy(Matched(over, under, asset), e) <= under[i].amount
  {
    hide Matched;
    MatchedMirrors(over, under, asset);
    MirrorSwapsRoles(Matched(over, under, asset), e);
    SentBounds(under, over, asset, e);
  }

  /** What the plan moves of one exchange: from above only out, from below only in, and never past the target. */
  lemma FlowOf(config: CapitalConfig, ledger: Ledger, exchanges: seq<Exchange>, e: Exchange)
    requires Plannable(config, ledger, exchanges)
    ensures var capital, plan := CapitalOf(config, ledger, exchanges), Plan(config, ledger, exchanges);
            var inside := e in exchanges && e in config.targets;
            && (inside && Gap(config, ledger, capital, e) > Limit(config, capital) ==>
                  ReceivedBy(plan, e) == 0.0 && 0.0 <= SentBy(plan, e) <= Gap(config, ledger, capital, e))
            && (inside && -Gap(config, ledger, capital, e) > Limit(config, capital) ==>
                  SentBy(plan, e) == 0.0 && 0.0 <= ReceivedBy(plan, e) <= -Gap(config, ledger, capital, e))
            && (!inside || Abs(Gap(config, ledger, capital, e)) <= Limit(config, capital) ==>
                  SentBy(plan, e) == 0.0 == ReceivedBy(plan, e))
  {
    hide Gap;
    hide Limit;
    hide Senders;
    hide Receivers;
    hide Matched;
    hide CapitalOf;
    hide SentBy;
    hide ReceivedBy;
    var capital := CapitalOf(config, ledger, exchanges);
    var over, under := Senders(config, ledger, exchanges), Receivers(config, ledger, exchanges);
    SidesRepresent(config, ledger, exchanges);
    LimitPositive(config, capital);
    SidesPositive(config, ledger, exchanges);
    SentBounds(over, under, config.quoteAsset, e);
    ReceivedBounds(over, under, config.quoteAsset, e);
  }

  lemma SidesPositive(config: CapitalConfig, ledger: Ledger, exchanges: seq<Exchange>)
    requires Plannable(config, ledger, exchanges)
    ensures Positive(Senders(config, ledger, exchanges)) && Positive(Receivers(config, ledger, exchanges))
  {
    hide Gap;
    hide Limit;
    hide Senders;
    hide Receivers;
    hide CapitalOf;
    SidesRepresent(config, ledger, exchanges);
    LimitPositive(config, CapitalOf(config, ledger, exchanges));
  }

  lemma PlanSignals(config: CapitalConfig, ledger: Ledger, exchanges: seq<Exchange>)
    requires Plannable(config, ledger, exchanges)
    ensures var plan := Plan(config, ledger, exchanges);
            forall i :: 0 <= i < |plan| ==>
              && plan[i].asset == config.quoteAsset && plan[i].amount > 0.0
              && plan[i].from in exchanges && plan[i].to in exchanges
  {
    hide Gap;
    hide Limit;
    hide Senders;
    hide Receivers;
    hide Matched;
    hide CapitalOf;
    SidesPositive(config, ledger, exchanges);
    SidesRepresent(config, ledger, exchanges);
    PlanShape(Senders(config, ledger, exchanges), Receivers(config, ledger, exchanges), config.quoteAsset);
  }

  /** With no more locked than the target anywhere, recording the transfers in order never fails. */
  lemma PlanIsExecutable(config: CapitalConfig, ledger: Ledger, exchanges: seq<Exchange>)
    requires Plannable(config, ledger, exchanges)
    requires var capital := CapitalOf(config, ledger, exchanges);
             forall e :: e in exchanges && e in config.targets ==>
               QuoteOn(config, ledger, e).locked <= TargetAmount(config, capital, e)
    ensures ReplaySucceeds(ledger, Plan(config, ledger, exchanges))
  {
    hide Limit;
    hide Plan;
    hide CapitalOf;
    hide Times;
    var plan := Plan(config, ledger, exchanges);
    PlanSignals(config, ledger, exchanges);
    forall e | SentBy(plan, e) > 0.0
      ensures SentBy(plan, e) <= QuoteOn(config, ledger, e).total - QuoteOn(config, ledger, e).locked
    {
      FlowOf(config, ledger, exchanges, e);
    }
    FreeSendersSucceed(ledger, config.quoteAsset, plan);
  }

  ghost predicate OneWay(signals: seq<Signal>) {
    forall i, j :: 0 <= i < |signals| && 0 <= j < |signals| ==> signals[i].from != signals[j].to
  }

  lemma {:induction false} SendingMeansListed(signals: seq<Signal>, e: Exchange)
    requires SentBy(signals, e) > 0.0
    ensures exists i :: 0 <= i < |signals| && signals[i].from == e
  {
    if signals[0].from != e {
      SendingMeansListed(signals[1..], e);
      var i :| 0 <= i < |signals| - 1 && signals[1..][i].from == e;
      assert signals[i + 1].from == e;
    } else {
      assert signals[0].from == e;
    }
  }

  /** When nobody both sends and receives, replaying succeeds only if every sender has its whole total free. */
  lemma {:induction false} ReplayNeedsFree(ledger: Ledger, asset: string, signals: seq<Signal>)
    requires forall i :: 0 <= i < |signals| ==> signals[i].asset == asset && signals[i].amount > 0.0
    requires OneWay(signals) && ReplaySucceeds(ledger, signals)
    ensures SendersHaveFree(ledger, asset, signals)
    decreases |signals|
  {
    hide Transferred;
    if signals != [] {
      var s, rest := signals[0], signals[1..];
      var next := Transferred(ledger, asset, s.from, s.to, s.amount);
      ReplayNeedsFree(next, asset, rest);
      forall e | SentBy(signals, e) > 0.0
        ensures SentBy(signals, e) <= At(ledger, (e, asset)).total - At(ledger, (e, asset)).locked
      {
        TransferredAt(ledger, asset, s.from, s.to, s.amount, e);
        SendingMeansListed(signals, e);
        assert SentBy(signals, e) == (if s.from == e then s.amount else 0.0) + SentBy(rest, e);
      }
    }
  }

  lemma PlanIsOneWay(config: CapitalConfig, ledger: Ledger, exchanges: seq<Exchange>)
    requires Plannable(config, ledger, exchanges)
    ensures OneWay(Plan(config, ledger, exchanges))
  {
    hide Gap;
    hide Limit;
    hide Senders;
    hide Receivers;
    hide Matched;
    hide CapitalOf;
    SidesPositive(config, ledger, exchanges);
    SidesRepresent(config, ledger, exchanges);
    LimitPositive(config, CapitalOf(config, ledger, exchanges));
    PlanShape(Senders(config, ledger, exchanges), Receivers(config, ledger, exchanges), config.quoteAsset);
  }

  /** Whatever is locked: every transfer goes through exactly when each sender has free all that it is to send. */
  lemma ExecutableIff(config: CapitalConfig, ledger: Ledger, exchanges: seq<Exchange>)
    requires Plannable(config, ledger, exchanges)
    ensures ReplaySucceeds(ledger, Plan(config, ledger, exchanges))
            <==> SendersHaveFree(ledger, config.quoteAsset, Plan(config, ledger, exchanges))
  {
    hide Plan;
    hide ReplaySucceeds;
    hide OneWay;
    var plan := Plan(config, ledger, exchanges);
    PlanSignals(config, ledger, exchanges);
    PlanIsOneWay(config, ledger, exchanges);
    if ReplaySucceeds(ledger, plan) {
      ReplayNeedsFree(ledger, config.quoteAsset, plan);
    }
    if SendersHaveFree(ledger, config.quoteAsset, plan) {
      FreeSendersSucceed(ledger, config.quoteAsset, plan);
    }
  }

  /** The gap to target after the flow of some transfers. */
  function GapAfter(config: CapitalConfig, ledger: Ledger, capital: real, signals: seq<Signal>, e: Exchange): real
    requires e in config.targets
  {
    Gap(config, ledger, capital, e) - SentBy(signals, e) + ReceivedBy(signals, e)
  }

  /** Any part of an exchange's planned flow leaves its gap on the same side of the target, and no larger. */
  lemma PartOfFlow(config: CapitalConfig, ledger: Ledger, exchanges: seq<Exchange>, part: seq<Signal>, e: Exchange)
    requires Plannable(config, ledger, exchanges) && e in config.targets
    requires 0.0 <= SentBy(part, e) <= SentBy(Plan(config, ledger, exchanges), e)
    requires 0.0 <= ReceivedBy(part, e) <= ReceivedBy(Plan(config, ledger, exchanges), e)
    ensures var capital := CapitalOf(config, ledger, exchanges);
            var before, after := Gap(config, ledger, capital, e), GapAfter(config, ledger, capital, part, e);
            && (before >= 0.0 ==> 0.0 <= after <= before)
            && (before <= 0.0 ==> before <= after <= 0.0)
            && Abs(after) == Abs(before) - SentBy(part, e) - ReceivedBy(part, e)
  {
    hide Limit;
    hide Plan;
    hide CapitalOf;
    hide Gap;
    FlowOf(config, ledger, exchanges, e);
    LimitPositive(config, CapitalOf(config, ledger, exchanges));
  }

  lemma CarriedGap(config: CapitalConfig, ledger: Ledger, exchanges: seq<Exchange>, e: Exchange)
    requires Plannable(config, ledger, exchanges) && e in config.targets
    ensures var capital, plan := CapitalOf(config, ledger, exchanges), Plan(config, ledger, exchanges);
            Gap(config, Replayed(ledger, plan), capital, e)
            == GapAfter(config, ledger, capital, Carried(ledger, plan), e)
  {
    hide Plan;
    hide CapitalOf;
    hide Replayed;
    hide Carried;
    PlanSignals(config, ledger, exchanges);
    CarriedMoves(ledger, config.quoteAsset, Plan(config, ledger, exchanges), e);
  }

  /** Whatever is locked and whichever transfers are refused for it, no exchange is pushed across its target. */
  lemma NeverCrossesTarget(config: CapitalConfig, ledger: Ledger, exchanges: seq<Exchange>, e: Exchange)
    requires Plannable(config, ledger, exchanges) && e in config.targets
    ensures var capital, plan := CapitalOf(config, ledger, exchanges), Plan(config, ledger, exchanges);
            var before, after := Gap(config, ledger, capital, e), Gap(config, Replayed(ledger, plan), capital, e);
            var carried := Carried(ledger, plan);
            && (before >= 0.0 ==> 0.0 <= after <= before)
            && (before <= 0.0 ==> before <= after <= 0.0)
            && Abs(after) == Abs(before) - SentBy(carried, e) - ReceivedBy(carried, e)
  {
    hide Plan;
    hide CapitalOf;
    hide Replayed;
    hide Gap;
    var plan := Plan(config, ledger, exchanges);
    PlanSignals(config, ledger, exchanges);
    CarriedAtMost(ledger, plan, e);
    PartOfFlow(config, ledger, exchanges, Carried(ledger, plan), e);
    CarriedGap(config, ledger, exchanges, e);
  }

  // ---- totals over the exchanges ------------------------------------------

  function SentIn(signals: seq<Signal>, exchanges: seq<Exchange>): real {
    if exchanges == [] then 0.0 else SentBy(signals, exchanges[0]) + SentIn(signals, exchanges[1..])
  }

  function ReceivedIn(signals: seq<Signal>, exchanges: seq<Exchange>): real {
    if exchanges == [] then 0.0 else ReceivedBy(signals, exchanges[0]) + ReceivedIn(signals, exchanges[1..])
  }

  lemma {:induction false} SentInStep(signals: seq<Signal>, exchanges: seq<Exchange>)
    requires signals != [] && Distinct(exchanges)
    ensures SentIn(signals, exchanges)
            == SentIn(signals[1..], exchanges) + if signals[0].from in exchanges then signals[0].amount else 0.0
    ensures ReceivedIn(signals, exchanges)
            == ReceivedIn(signals[1..], exchanges) + if signals[0].to in exchanges then signals[0].amount else 0.0
    decreases |exchanges|
  {
    if exchanges != [] {
      SentInStep(signals, exchanges[1..]);
      assert exchanges == [exchanges[0]] + exchanges[1..];
    }
  }

  ghost predicate Inside(signals: seq<Signal>, exchanges: seq<Exchange>) {
    forall i :: 0 <= i < |signals| ==> signals[i].from in exchanges && signals[i].to in exchanges
  }

  lemma {:induction false} FlowsAddUp(signals: seq<Signal>, exchanges: seq<Exchange>)
    requires Distinct(exchanges)
    requires Inside(signals, exchanges)
    ensures SentIn(signals, exchanges) == PlanTotal(signals) == ReceivedIn(signals, exchanges)
    decreases |signals|
  {
    if signals == [] {
      NoSignalsNoFlow(exchanges);
    } else {
      FlowsAddUp(signals[1..], exchanges);
      SentInStep(signals, exchanges);
    }
  }

  lemma {:induction false} NoSignalsNoFlow(exchanges: seq<Exchange>)
    ensures SentIn([], exchanges) == 0.0 == ReceivedIn([], exchanges)
  {
    if exchanges != [] {
      NoSignalsNoFlow(exchanges[1..]);
    }
  }

  /** The L1 distance to target over the exchanges that have one. */
  function Distance(config: CapitalConfig, ledger: Ledger, capital: real, exchanges: seq<Exchange>): real {
    if exchanges == [] then 0.0 else
      (if exchanges[0] in config.targets then Abs(Gap(config, ledger, capital, exchanges[0])) else 0.0)
      + Distance(config, ledger, capital, exchanges[1..])
  }

  lemma {:induction false} DistanceStep(config: CapitalConfig, ledger: Ledger, exchanges: seq<Exchange>,
                                        part: seq<Exchange>)
    requires Plannable(config, ledger, exchanges)
    ensures var capital, plan := CapitalOf(config, ledger, exchanges), Plan(config, ledger, exchanges);
            Distance(config, Replayed(ledger, plan), capital, part)
            == Distance(config, ledger, capital, part) - SentIn(Carried(ledger, plan), part)
               - ReceivedIn(Carried(ledger, plan), part)
    decreases |part|
  {
    hide Gap;
    hide Limit;
    hide Plan;
    hide CapitalOf;
    hide Replayed;
    hide Carried;
    if part != [] {
      var e, plan := part[0], Plan(config, ledger, exchanges);
      DistanceStep(config, ledger, exchanges, part[1..]);
      if e in config.targets {
        NeverCrossesTarget(config, ledger, exchanges, e);
      } else {
        FlowOf(config, ledger, exchanges, e);
        PlanSignals(config, ledger, exchanges);
        CarriedAtMost(ledger, plan, e);
      }
    }
  }

  lemma CarriedStaysInside(config: CapitalConfig, ledger: Ledger, exchanges: seq<Exchange>)
    requires Plannable(config, ledger, exchanges)
    ensures Inside(Carried(ledger, Plan(config, ledger, exchanges)), exchanges)
  {
    hide Plan;
    hide CapitalOf;
    hide Carried;
    var plan := Plan(config, ledger, exchanges);
    var carried := Carried(ledger, plan);
    PlanSignals(config, ledger, exchanges);
    CarriedAtMost(ledger, plan, BINANCE);
    forall i | 0 <= i < |carried|
      ensures carried[i].from in exchanges && carried[i].to in exchanges
    {
      assert carried[i] in carried && carried[i] in plan;
    }
  }

  /** The summed distance to the targets falls by exactly twice what goes through. */
  lemma DistanceFallsByTwicePlan(config: CapitalConfig, ledger: Ledger, exchanges: seq<Exchange>)
    requires Plannable(config, ledger, exchanges)
    ensures var capital, plan := CapitalOf(config, ledger, exchanges), Plan(config, ledger, exchanges);
            && Distance(config, Replayed(ledger, plan), capital, exchanges)
               == Distance(config, ledger, capital, exchanges) - 2.0 * PlanTotal(Carried(ledger, plan))
            && (ReplaySucceeds(ledger, plan) ==> Carried(ledger, plan) == plan)
  {
    hide Plan;
    hide CapitalOf;
    hide Gap;
    hide Carried;
    DistanceStep(config, ledger, exchanges, exchanges);
    CarriedStaysInside(config, ledger, exchanges);
    FlowsAddUp(Carried(ledger, Plan(config, ledger, exchanges)), exchanges);
    CarriedAllIff(ledger, Plan(config, ledger, exchanges));
  }

  lemma {:induction false} CapitalStep(config: CapitalConfig, before: Ledger, after: Ledger, signals: seq<Signal>,
                                       part: seq<Exchange>)
    requires forall e :: QuoteOn(config, after, e).total
                         == QuoteOn(config, before, e).total - SentBy(signals, e) + ReceivedBy(signals, e)
    ensures CapitalOf(config, after, part)
            == CapitalOf(config, before, part) - SentIn(signals, part) + ReceivedIn(signals, part)
    decreases |part|
  {
    if part != [] {
      CapitalStep(config, before, after, signals, part[1..]);
      assert Totals(config, after, part)[1..] == Totals(config, after, part[1..]);
      assert Totals(config, before, part)[1..] == Totals(config, before, part[1..]);
    }
  }

  /** Recording the plan keeps the capital, whatever is refused, so the target amounts stay what they were. */
  lemma PlanKeepsCapital(config: CapitalConfig, ledger: Ledger, exchanges: seq<Exchange>)
    requires Plannable(config, ledger, exchanges)
    ensures CapitalOf(config, Replayed(ledger, Plan(config, ledger, exchanges)), exchanges)
            == CapitalOf(config, ledger, exchanges)
  {
    hide Plan;
    hide CapitalOf;
    hide Gap;
    hide Carried;
    hide Replayed;
    var plan := Plan(config, ledger, exchanges);
    var carried := Carried(ledger, plan);
    PlanSignals(config, ledger, exchanges);
    forall e
      ensures QuoteOn(config, Replayed(ledger, plan), e).total
              == QuoteOn(config, ledger, e).total - SentBy(carried, e) + ReceivedBy(carried, e)
    {
      CarriedMoves(ledger, config.quoteAsset, plan, e);
    }
    CapitalStep(config, ledger, Replayed(ledger, plan), carried, exchanges);
    CarriedStaysInside(config, ledger, exchanges);
    FlowsAddUp(carried, exchanges);
  }

  // ---- does the plan reach the threshold? ---------------------------------

  ghost predicate WithinLimit(config: CapitalConfig, ledger: Ledger, capital: real, exchanges: seq<Exchange>) {
    forall e :: e in exchanges && e in config.targets ==> Abs(Gap(config, ledger, capital, e)) <= Limit(config, capital)
  }

  /** The plan, on paper, brings every exchange within the limit. */
  ghost predicate PlansWithinLimit(config: CapitalConfig, ledger: Ledger, exchanges: seq<Exchange>) {
    var capital, plan := CapitalOf(config, ledger, exchanges), Plan(config, ledger, exchanges);
    forall e :: e in exchanges && e in config.targets ==>
      Abs(GapAfter(config, ledger, capital, plan, e)) <= Limit(config, capital)
  }

  /** All residuals of one side are within the limit. */
  ghost predicate SideSettled(s: seq<Entry>, total: real, limit: real) {
    forall i :: 0 <= i < |s| ==> s[i].amount - Shares(Amounts(s), total)[i] <= limit
  }

  lemma SideSettledIff(s: seq<Entry>, total: real, limit: real)
    requires limit >= 0.0 && 0.0 <= total <= EntrySum(s)
    requires forall i :: 0 <= i < |s| ==> s[i].amount > limit
    ensures SideSettled(s, total, limit) <==> EntrySum(s) - total <= limit
  {
    ResidualsSmallIff(s, total, limit);
  }

  /** By the plan, an exchange is within the limit unless its entry on either side keeps too much. */
  lemma WithinIffSidesSettled(config: CapitalConfig, ledger: Ledger, exchanges: seq<Exchange>)
    requires Plannable(config, ledger, exchanges)
    ensures var capital := CapitalOf(config, ledger, exchanges);
            var over, under := Senders(config, ledger, exchanges), Receivers(config, ledger, exchanges);
            var total := Min(EntrySum(over), EntrySum(under));
            PlansWithinLimit(config, ledger, exchanges)
            <==> SideSettled(over, total, Limit(config, capital)) && SideSettled(under, total, Limit(config, capital))
  {
    hide Gap;
    hide GapAfter;
    hide Limit;
    hide Senders;
    hide Receivers;
    hide Matched;
    hide CapitalOf;
    hide Shares;
    hide SentBy;
    hide ReceivedBy;
    var capital := CapitalOf(config, ledger, exchanges);
    var over, under := Senders(config, ledger, exchanges), Receivers(config, ledger, exchanges);
    var limit, total := Limit(config, capital), Min(EntrySum(over), EntrySum(under));
    var plan := Plan(config, ledger, exchanges);
    SidesRepresent(config, ledger, exchanges);
    SidesPositive(config, ledger, exchanges);
    forall i | 0 <= i < |over|
      ensures var e := over[i].exchange;
              && e in exchanges && e in config.targets
              && Abs(GapAfter(config, ledger, capital, plan, e)) == over[i].amount - Shares(Amounts(over), total)[i]
    {
      SentIsShare(over, under, config.quoteAsset, i);
      PlannedGap(config, ledger, exchanges, over[i].exchange);
    }
    forall i | 0 <= i < |under|
      ensures var e := under[i].exchange;
              && e in exchanges && e in config.targets
              && Abs(GapAfter(config, ledger, capital, plan, e)) == under[i].amount - Shares(Amounts(under), total)[i]
    {
      ReceivedIsShare(over, under, config.quoteAsset, i);
      PlannedGap(config, ledger, exchanges, under[i].exchange);
    }
    forall e | e in exchanges && e in config.targets && !Lists(over, e) && !Lists(under, e)
      ensures Abs(GapAfter(config, ledger, capital, plan, e)) <= limit
    {
      PlannedGap(config, ledger, exchanges, e);
    }
  }

  lemma PlannedGap(config: CapitalConfig, ledger: Ledger, exchanges: seq<Exchange>, e: Exchange)
    requires Plannable(config, ledger, exchanges) && e in exchanges && e in config.targets
    ensures var capital, plan := CapitalOf(config, ledger, exchanges), Plan(config, ledger, exchanges);
            var gap, limit := Gap(config, ledger, capital, e), Limit(config, capital);
            && limit > 0.0
            && Abs(GapAfter(config, ledger, capital, plan, e))
               == (if gap > limit then gap - SentBy(plan, e)
                   else if gap < -limit then -gap - ReceivedBy(plan, e) else Abs(gap))
  {
    hide Gap;
    hide Limit;
    hide Plan;
    hide CapitalOf;
    FlowOf(config, ledger, exchanges, e);
    LimitPositive(config, CapitalOf(config, ledger, exchanges));
  }

  /** The plan brings every exchange within the limit exactly when the two sides' sums differ by at most the limit. */
  lemma ReachesThresholdIff(config: CapitalConfig, ledger: Ledger, exchanges: seq<Exchange>)
    requires Plannable(config, ledger, exchanges)
    ensures var capital := CapitalOf(config, ledger, exchanges);
            PlansWithinLimit(config, ledger, exchanges)
            <==> Abs(EntrySum(Senders(config, ledger, exchanges)) - EntrySum(Receivers(config, ledger, exchanges)))
                 <= Limit(config, capital)
  {
    hide Gap;
    hide Limit;
    hide Senders;
    hide Receivers;
    hide CapitalOf;
    hide PlansWithinLimit;
    hide SideSettled;
    var capital := CapitalOf(config, ledger, exchanges);
    var over, under := Senders(config, ledger, exchanges), Receivers(config, ledger, exchanges);
    var limit, total := Limit(config, capital), Min(EntrySum(over), EntrySum(under));
    SidesRepresent(config, ledger, exchanges);
    SidesPositive(config, ledger, exchanges);
    EntrySumPositive(over);
    EntrySumPositive(under);
    LimitPositive(config, capital);
    WithinIffSidesSettled(config, ledger, exchanges);
    SideSettledIff(over, total, limit);
    SideSettledIff(under, total, limit);
  }

  /** Recording the plan reaches no more than the plan does, and exactly as much when no transfer is refused. */
  lemma RecordingReaches(config: CapitalConfig, ledger: Ledger, exchanges: seq<Exchange>)
    requires Plannable(config, ledger, exchanges)
    ensures var capital, plan := CapitalOf(config, ledger, exchanges), Plan(config, ledger, exchanges);
            var reached := WithinLimit(config, Replayed(ledger, plan), capital, exchanges);
            && (reached ==> PlansWithinLimit(config, ledger, exchanges))
            && (ReplaySucceeds(ledger, plan) ==> (reached <==> PlansWithinLimit(config, ledger, exchanges)))
  {
    hide Gap;
    hide GapAfter;
    hide Limit;
    hide Plan;
    hide CapitalOf;
    hide Carried;
    hide Replayed;
    var capital, plan := CapitalOf(config, ledger, exchanges), Plan(config, ledger, exchanges);
    CarriedAllIff(ledger, plan);
    forall e | e in exchanges && e in config.targets
      ensures Gap(config, Replayed(ledger, plan), capital, e)
              == GapAfter(config, ledger, capital, Carried(ledger, plan), e)
      ensures Abs(GapAfter(config, ledger, capital, plan, e)) <= Abs(Gap(config, Replayed(ledger, plan), capital, e))
    {
      CarriedGap(config, ledger, exchanges, e);
      PlanSignals(config, ledger, exchanges);
      CarriedAtMost(ledger, plan, e);
      PartOfFlow(config, ledger, exchanges, Carried(ledger, plan), e);
      PartOfFlow(config, ledger, exchanges, plan, e);
    }
  }

  /** One exchange far above its target, two below by less than the threshold: no transfer is planned at all. */
  lemma PlanCanStopShort()
    ensures var config := CapitalConfig("USDT", map[BINANCE := 50.0, BYBIT := 25.0, OKX := 25.0], 10.0);
            var ledger := map[(BINANCE, "USDT") := Account(65.0, 0.0), (BYBIT, "USDT") := Account(17.0, 0.0),
                              (OKX, "USDT") := Account(18.0, 0.0)];
            var exchanges := [BINANCE, BYBIT, OKX];
            && Plannable(config, ledger, exchanges)
            && Plan(config, ledger, exchanges) == []
            && !WithinLimit(config, Replayed(ledger, []), CapitalOf(config, ledger, exchanges), exchanges)
  {
    hide Senders;
    hide Receivers;
    var config := CapitalConfig("USDT", map[BINANCE := 50.0, BYBIT := 25.0, OKX := 25.0], 10.0);
    var ledger := map[(BINANCE, "USDT") := Account(65.0, 0.0), (BYBIT, "USDT") := Account(17.0, 0.0),
                      (OKX, "USDT") := Account(18.0, 0.0)];
    var exchanges := [BINANCE, BYBIT, OKX];
    var totals := Totals(config, ledger, exchanges);
    assert totals == [65.0, 17.0, 18.0];
    assert Sum(totals[1..][1..]) == 18.0;
    assert CapitalOf(config, ledger, exchanges) == 100.0;
    SidesRepresent(config, ledger, exchanges);
    var under := Receivers(config, ledger, exchanges);
    if under != [] {
      HeadIsListed(under);
      assert false;
    }
    MatchedDone(Senders(config, ledger, exchanges), under, config.quoteAsset);
    assert Gap(config, ledger, 100.0, BINANCE) == 15.0;
  }

  lemma HeadIsLargest(s: seq<Entry>, config: CapitalConfig, ledger: Ledger, capital: real,
                      exchanges: seq<Exchange>, role: Role, e: Exchange)
    requires Represents(s, config, ledger, capital, exchanges, role) && Descending(s) && s != []
    requires e in exchanges && e in config.targets
    ensures s[0].exchange in config.targets && s[0].exchange in exchanges
    ensures Need(config, ledger, capital, e, role) <= Need(config, ledger, capital, s[0].exchange, role) == s[0].amount
  {
    hide Need;
    hide Limit;
    HeadIsListed(s);
    if Qualifies(config, ledger, capital, e, role) {
      var i :| 0 <= i < |s| && s[i].exchange == e;
    }
  }

  /** The plan opens with the largest excess paired with the largest deficit. */
  lemma LargestFirst(config: CapitalConfig, ledger: Ledger, exchanges: seq<Exchange>, e: Exchange)
    requires Plannable(config, ledger, exchanges)
    requires Plan(config, ledger, exchanges) != []
    requires e in exchanges && e in config.targets
    ensures var capital, first := CapitalOf(config, ledger, exchanges), Plan(config, ledger, exchanges)[0];
            && first.from in config.targets && first.to in config.targets
            && Gap(config, ledger, capital, first.to) <= Gap(config, ledger, capital, e)
                                                      <= Gap(config, ledger, capital, first.from)
            && first.amount == Min(Gap(config, ledger, capital, first.from), -Gap(config, ledger, capital, first.to))
  {
    hide Gap;
    hide CapitalOf;
    hide Represents;
    hide Descending;
    hide Reduced;
    hide Snapshot;
    var capital := CapitalOf(config, ledger, exchanges);
    var over, under := Senders(config, ledger, exchanges), Receivers(config, ledger, exchanges);
    SidesRepresent(config, ledger, exchanges);
    SidesPositiveAndSorted(config, ledger, exchanges);
    MatchedStep(over, under, config.quoteAsset);
    HeadIsLargest(over, config, ledger, capital, exchanges, Sender, e);
    HeadIsLargest(under, config, ledger, capital, exchanges, Receiver, e);
  }

  lemma SidesPositiveAndSorted(config: CapitalConfig, ledger: Ledger, exchanges: seq<Exchange>)
    requires Plannable(config, ledger, exchanges)
    ensures Positive(Senders(config, ledger, exchanges)) && Positive(Receivers(config, ledger, exchanges))
    ensures Descending(Senders(config, ledger, exchanges)) && Descending(Receivers(config, ledger, exchanges))
  {
    var capital, statuses := CapitalOf(config, ledger, exchanges), Snapshot(config, ledger, exchanges, []);
    SidesPositive(config, ledger, exchanges);
    SortedFacts(OverList(statuses, capital, config.thresholdPct));
    SortedFacts(UnderList(statuses, capital, config.thresholdPct));
  }
}
