/** Exchange rates and the conversion of US dollar amounts into the charged currency. */
module Currency {
  import opened Wrappers
  import opened Money

  datatype Currency = USD | EUR | AED | GBP | RON

  type Rates = map<Currency, real>

  type Time = int

  function FallbackRate(c: Currency): real {
    match c
    case USD => 1.0
    case EUR => 0.92
    case AED => 3.67
    case GBP => 0.79
    case RON => 4.58
  }

  const FALLBACK_RATES: Rates := map c: Currency | true :: FallbackRate(c)

  const TARGETS: seq<Currency> := [EUR, AED, GBP, RON]

  /** Every currency has a positive rate against the dollar, so no conversion divides by zero. */
  ghost predicate Usable(rates: Rates) {
    && (forall c: Currency :: c in rates && 0.0 < rates[c])
    && rates[USD] == 1.0
  }

  /** The fallback rates, overridden by each positive rate that the provider quoted. */
  ghost predicate Merged(quotes: Rates, rates: Rates) {
    forall c: Currency ::
      && c in rates
      && rates[c] == if c in quotes && c != USD && 0.0 < quotes[c] then quotes[c] else FallbackRate(c)
  }

  type UsableRates = rates: Rates | Usable(rates) witness FALLBACK_RATES

  class CurrencyConversionService {
    var cache: Rates
    var cacheExpiry: Time
    const cacheTtl: Time

    ghost predicate Valid()
      reads this
    {
      Usable(cache)
    }

    constructor (ttl: Time)
      ensures Valid() && cacheExpiry == 0 && cacheTtl == ttl
      ensures cache == map[USD := 1.0, EUR := 0.92, AED := 3.67, GBP := 0.79, RON := 4.58]
    {
      cache := FALLBACK_RATES;
      cacheExpiry := 0;
      cacheTtl := ttl;
    }

    /** `answer` is what the provider quoted, None when it could not be reached. */
    method LoadRatesFromProvider(answer: Option<Rates>) returns (rates: Rates)
      requires Valid()
      ensures answer.None? ==> rates == cache
      ensures answer.Some? ==> Merged(answer.value, rates)
      ensures Usable(rates)
    {
      match answer {
        case None =>
          rates := cache;
        case Some(quotes) =>
          rates := FALLBACK_RATES;
          for i := 0 to |TARGETS|
            invariant forall c: Currency :: c in rates
            invariant forall c: Currency ::
              rates[c] == if c in TARGETS[..i] && c in quotes && 0.0 < quotes[c] then quotes[c] else FallbackRate(c)
          {
            if TARGETS[i] in quotes && 0.0 < quotes[TARGETS[i]] {
              rates := rates[TARGETS[i] := quotes[TARGETS[i]]];
            }
          }
          assert TARGETS[..|TARGETS|] == TARGETS;
          assert forall c: Currency :: c in TARGETS <==> c != USD by {
            assert TARGETS[0] == EUR && TARGETS[1] == AED && TARGETS[2] == GBP && TARGETS[3] == RON;
          }
      }
    }

    method EnsureRatesLoaded(now: Time, answer: Option<Rates>) returns (rates: Rates)
      requires Valid()
      modifies this
      ensures Valid() && rates == cache
      ensures now < old(cacheExpiry) ==> unchanged(this)
      ensures now >= old(cacheExpiry) ==> cacheExpiry == now + cacheTtl
      ensures now >= old(cacheExpiry) && answer.None? ==> cache == old(cache)
      ensures now >= old(cacheExpiry) && answer.Some? ==> Merged(answer.value, cache)
    {
      if now < cacheExpiry {
        return cache;
      }
      var loaded := LoadRatesFromProvider(answer);
      cache := loaded;
      cacheExpiry := now + cacheTtl;
      return cache;
    }
  }

  /** Converts an amount in cents; a dollar amount stays as it is apart from the rounding. */
  function Convert(amount: real, from: Currency, to: Currency, rates: Rates): Cents
    requires from in rates && to in rates && 0.0 < rates[from]
  {
    if from == to then Round(amount) else Round(amount / rates[from] * rates[to])
  }

  function ConvertAll(amounts: seq<Cents>, to: Currency, rates: Rates): (converted: seq<Cents>)
    requires USD in rates && to in rates && 0.0 < rates[USD]
    ensures |converted| == |amounts|
  {
    seq(|amounts|, i requires 0 <= i < |amounts| => Convert(amounts[i] as real, USD, to, rates))
  }

  /** A dollar amount in another currency, before rounding. */
  function Exact(amount: Cents, rate: real): real {
    rate * amount as real
  }

  lemma ExactAdds(a: Cents, b: Cents, rate: real)
    ensures Exact(a + b, rate) == Exact(a, rate) + Exact(b, rate)
  {
  }

  lemma ConvertFromDollars(amount: Cents, to: Currency, rates: Rates)
    requires Usable(rates)
    ensures Convert(amount as real, USD, to, rates) == Round(Exact(amount, rates[to]))
    ensures to == USD ==> Convert(amount as real, USD, to, rates) == amount
  {
    RoundInteger(amount);
    assert amount as real / 1.0 * rates[to] == Exact(amount, rates[to]);
  }

  lemma TimesAndOver(a: real, b: real)
    requires 0.0 < b
    ensures a * b / b == a
  {
  }

  lemma OverAndTimes(d: real, a: real, b: real)
    requires 0.0 < a
    ensures d * a / a * b == d * b
  {
    TimesAndOver(d, a);
  }

  lemma ConvertsTo(amount: real, worth: real, from: Currency, to: Currency, rates: Rates)
    requires Usable(rates) && (from == to ==> amount == worth) && amount / rates[from] * rates[to] == worth
    ensures Convert(amount, from, to, rates) == Round(worth)
  {
    hide Round;
  }

  /** What some dollars are worth in one currency converts to what they are worth in any other. */
  lemma ConvertsThroughDollars(dollars: real, from: Currency, to: Currency, rates: Rates)
    requires Usable(rates)
    ensures Convert(dollars * rates[from], from, to, rates) == Round(dollars * rates[to])
  {
    hide Convert, Round;
    OverAndTimes(dollars, rates[from], rates[to]);
    ConvertsTo(dollars * rates[from], dollars * rates[to], from, to, rates);
  }

  lemma {:induction false} ConvertedPartsTrackTotal(amounts: seq<Cents>, to: Currency, rates: Rates)
    requires Usable(rates)
    ensures var exact := Exact(Sum(amounts), rates[to]);
            var slack := |amounts| as real / 2.0;
            exact - slack <= Sum(ConvertAll(amounts, to, rates)) as real <= exact + slack
    ensures to == USD ==> Sum(ConvertAll(amounts, to, rates)) == Sum(amounts)
  {
    if amounts != [] {
      var n := |amounts| - 1;
      ConvertedPartsTrackTotal(amounts[..n], to, rates);
      assert ConvertAll(amounts, to, rates)[..n] == ConvertAll(amounts[..n], to, rates);
      ConvertFromDollars(amounts[n], to, rates);
      ExactAdds(Sum(amounts[..n]), amounts[n], rates[to]);
    }
  }

  /**
   The orders of a cart are converted one by one and the charged total on its own: over n sellers
   the two differ by at most (n + 1) / 2 cents, and in dollars not at all.
   */
  lemma ConvertedCartBound(orderTotals: seq<Cents>, to: Currency, rates: Rates)
    requires Usable(rates)
    ensures var drift := Sum(ConvertAll(orderTotals, to, rates)) - Convert(Sum(orderTotals) as real, USD, to, rates);
            && -((|orderTotals| + 1) as real / 2.0) <= drift as real <= (|orderTotals| + 1) as real / 2.0
            && (to == USD ==> drift == 0)
  {
    ConvertedPartsTrackTotal(orderTotals, to, rates);
    ConvertFromDollars(Sum(orderTotals), to, rates);
  }

  /** The drift is real: two orders of one cent at the rate 1.5 convert to 4 cents, their total to 3. */
  lemma ConvertedCartDrifts(rates: Rates)
    requires Usable(rates) && rates[EUR] == 1.5
    ensures Sum(ConvertAll([1, 1], EUR, rates)) == 4
    ensures Convert(Sum([1, 1]) as real, USD, EUR, rates) == 3
  {
    ConvertFromDollars(1, EUR, rates);
    assert Sum([1, 1]) == 2 by {
      assert [1, 1] == ([] + [1]) + [1];
      SumSnoc([] + [1], 1);
      SumSnoc([], 1);
    }
    ConvertFromDollars(2, EUR, rates);
    RoundUnique(1.5, 2);
    RoundInteger(3);
    assert ConvertAll([1, 1], EUR, rates) == ([] + [2]) + [2];
    SumSnoc([] + [2], 2);
    SumSnoc([], 2);
  }
}
