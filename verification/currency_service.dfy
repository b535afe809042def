/** CurrencyService: exchange rates cached in one slot for a window of
    minutes, a fallback table when the provider fails, conversion between
    currencies through the base currency, and the formatted rate list. */
module CurrencyService {
  import opened Request
  import opened Decimal

  /** One entry of a rate map; `value` is None when the entry has no usable `value` field. */
  datatype RateEntry = RateEntry(code: string, value: Option<real>)

  type Rates = map<string, RateEntry>

  /** A rate snapshot as the service returns and caches it. */
  datatype Snapshot = Snapshot(success: bool, rates: Rates, base: string, lastUpdated: int, fallback: bool)

  /** What the HTTP call to the provider did: answered with a status and,
      when the body decodes, its `data` field; or threw. */
  datatype HttpResult = Answered(status: int, data: Option<Rates>) | Threw

  predicate Successful(response: HttpResult) {
    response.Answered? && 200 <= response.status < 300
  }

  /** The hard-coded table used when the provider fails. */
  function FallbackRates(now: int): (s: Snapshot)
    ensures !s.success && s.fallback && s.base == "USD" && s.lastUpdated == now
    ensures s.rates.Keys == {"USD", "EUR", "GBP", "INR"}
  {
    Snapshot(
      false,
      map[
        "USD" := RateEntry("USD", Some(1.0)),
        "EUR" := RateEntry("EUR", Some(0.92)),
        "GBP" := RateEntry("GBP", Some(0.79)),
        "INR" := RateEntry("INR", Some(83.12))
      ],
      "USD", now, true)
  }

  /** The snapshot one fetch produces. */
  function FetchSnapshot(response: HttpResult, base: string, now: int): (s: Snapshot)
    ensures s.success <==> Successful(response)
    ensures Successful(response) ==> !s.fallback && s.base == base && s.lastUpdated == now
    ensures Successful(response) ==> s.rates == (if response.data.Some? then response.data.value else map[])
    ensures !Successful(response) ==> s == FallbackRates(now)
  {
    if Successful(response) then
      Snapshot(true, if response.data.Some? then response.data.value else map[], base, now, false)
    else
      FallbackRates(now)
  }

  /** The rate of a currency in a snapshot; a missing entry or value counts as 1. */
  function RateOf(s: Snapshot, code: string): real {
    if code in s.rates && s.rates[code].value.Some? then s.rates[code].value.value else 1.0
  }

  /** An amount taken to the base currency at `fromRate` and on to the target at `toRate`. */
  function ThroughBase(amount: real, fromRate: real, toRate: real): real
    requires fromRate != 0.0
  {
    amount / fromRate * toRate
  }

  /** PHP 8 throws on a division by zero: a conversion either yields an amount or fails so. */
  datatype Conversion = Converted(amount: real) | DivisionByZero

  /** `convert($amount, $from, $to)` given the snapshot the cache hands out. */
  function Convert(s: Snapshot, amount: real, from: string, to: string): (r: Conversion)
    ensures from == to ==> r == Converted(amount)
    ensures from != to && !s.success ==> r == Converted(amount)
    ensures r == DivisionByZero <==> from != to && s.success && RateOf(s, from) == 0.0
    ensures r.Converted? && from != to && s.success ==> HasTwoDecimals(r.amount)
  {
    if from == to then Converted(amount)
    else if !s.success then Converted(amount)
    else
      var fromRate := RateOf(s, from);
      var toRate := RateOf(s, to);
      if fromRate == 0.0 then DivisionByZero
      else Converted(Round2(ThroughBase(amount, fromRate, toRate)))
  }

  /** On a successful snapshot the result is the amount taken to the base
      currency and on to the target, rounded to two fractional digits. */
  lemma ConvertThroughBase(s: Snapshot, amount: real, from: string, to: string)
    requires s.success && from != to && RateOf(s, from) != 0.0
    ensures Convert(s, amount, from, to) == Converted(Round2(ThroughBase(amount, RateOf(s, from), RateOf(s, to))))
  {
  }

  /** A real conversion lands within half a cent of the exact product. */
  lemma ConvertWithinHalfCent(s: Snapshot, amount: real, from: string, to: string)
    requires s.success && from != to && RateOf(s, from) != 0.0
    ensures var exact := ThroughBase(amount, RateOf(s, from), RateOf(s, to));
      exact - 0.005 <= Convert(s, amount, from, to).amount <= exact + 0.005
  {
  }

  /** The fallback table never converts: every amount comes back unchanged. */
  lemma FallbackNeverConverts(now: int, amount: real, from: string, to: string)
    ensures Convert(FallbackRates(now), amount, from, to) == Converted(amount)
  {
  }

  /** A currency missing from a successful snapshot counts as rate 1 on either
      side: the conversion then only multiplies, or only divides, or only rounds. */
  lemma MissingRateCountsAsOne(s: Snapshot, amount: real, from: string, to: string)
    requires s.success && from != to
    ensures from !in s.rates ==> Convert(s, amount, from, to) == Converted(Round2(amount * RateOf(s, to)))
    ensures to !in s.rates && RateOf(s, from) != 0.0 ==>
      Convert(s, amount, from, to) == Converted(Round2(amount / RateOf(s, from)))
    ensures from !in s.rates && to !in s.rates ==> Convert(s, amount, from, to) == Converted(Round2(amount))
  {
    if from !in s.rates {
      ConvertThroughBase(s, amount, from, to);
      var x := ThroughBase(amount, RateOf(s, from), RateOf(s, to));
      assert x == amount * RateOf(s, to);
      assert Round2(x) == Round2(amount * RateOf(s, to));
    }
    if to !in s.rates && RateOf(s, from) != 0.0 {
      ConvertThroughBase(s, amount, from, to);
      var x := ThroughBase(amount, RateOf(s, from), RateOf(s, to));
      assert x == amount / RateOf(s, from);
      assert Round2(x) == Round2(amount / RateOf(s, from));
    }
  }

  /** With positive rates, converting a larger amount never yields less. */
  lemma ConvertMonotone(s: Snapshot, a: real, b: real, from: string, to: string)
    requires a <= b
    requires RateOf(s, from) > 0.0 && RateOf(s, to) > 0.0
    ensures Convert(s, a, from, to).Converted? && Convert(s, b, from, to).Converted?
    ensures Convert(s, a, from, to).amount <= Convert(s, b, from, to).amount
  {
    if from != to && s.success {
      var f, t := RateOf(s, from), RateOf(s, to);
      ThroughBaseMonotone(a, b, f, t);
      Round2Monotone(ThroughBase(a, f, t), ThroughBase(b, f, t));
    }
  }

  lemma ThroughBaseMonotone(a: real, b: real, fromRate: real, toRate: real)
    requires a <= b && fromRate > 0.0 && toRate > 0.0
    ensures ThroughBase(a, fromRate, toRate) <= ThroughBase(b, fromRate, toRate)
  {
  }

  /** The display symbol of a currency code. */
  function CurrencySymbol(code: string): (symbol: string)
    ensures code in {"USD", "EUR", "GBP", "INR"} ==> |symbol| == 1 && symbol != code
    ensures code !in {"USD", "EUR", "GBP", "INR"} ==> symbol == code
  {
    match code
    case "USD" => "$"
    case "EUR" => "€"
    case "GBP" => "£"
    case "INR" => "₹"
    case _ => code
  }

  /** One entry of the formatted rate list. */
  datatype FormattedRate = FormattedRate(code: string, rate: Option<real>, symbol: string)

  /** The loop of getFormattedRates: one formatted entry per rate entry. */
  method FormatRates(rates: Rates) returns (formatted: map<string, FormattedRate>)
    ensures formatted.Keys == rates.Keys
    ensures forall code :: code in formatted ==>
      formatted[code] == FormattedRate(code, rates[code].value, CurrencySymbol(code))
  {
    formatted := map[];
    var todo := rates.Keys;
    while todo != {}
      invariant todo <= rates.Keys
      invariant formatted.Keys == rates.Keys - todo
      invariant forall code :: code in formatted ==>
        formatted[code] == FormattedRate(code, rates[code].value, CurrencySymbol(code))
      decreases todo
    {
      var code :| code in todo;
      formatted := formatted[code := FormattedRate(code, rates[code].value, CurrencySymbol(code))];
      todo := todo - {code};
    }
  }

  /** The service with its cache slot. Time is counted in whole minutes;
      `requests` counts the HTTP calls made to the provider. */
  class Service {
    const baseCurrency: string
    const cacheMinutes: int
    var now: int
    var slot: Option<Snapshot>
    var expiresAt: int
    var requests: nat

    constructor (baseCurrency: string, cacheMinutes: int, startTime: int)
      ensures this.baseCurrency == baseCurrency && this.cacheMinutes == cacheMinutes
      ensures now == startTime && slot == None && requests == 0
    {
      this.baseCurrency := baseCurrency;
      this.cacheMinutes := cacheMinutes;
      now := startTime;
      slot := None;
      expiresAt := startTime;
      requests := 0;
    }

    /** The slot holds a snapshot that has not expired. */
    predicate Hit()
      reads this
    {
      slot.Some? && now < expiresAt
    }

    /** What a read of the rates yields now, if a fetch would answer `response`. */
    function Lookup(response: HttpResult): Snapshot
      reads this
    {
      if Hit() then slot.value else FetchSnapshot(response, baseCurrency, now)
    }

    /** The clock moves forward. */
    method Elapse(minutes: nat)
      modifies this`now
      ensures now == old(now) + minutes
    {
      now := now + minutes;
    }

    /** getExchangeRates: hand out the cached snapshot while it is fresh;
        otherwise fetch once and store whatever the fetch produced, fallback
        included, for the whole window. A window of zero or fewer minutes
        stores nothing. */
    method GetExchangeRates(response: HttpResult) returns (s: Snapshot)
      modifies this`slot, this`expiresAt, this`requests
      ensures s == old(Lookup(response))
      ensures old(Hit()) ==> slot == old(slot) && expiresAt == old(expiresAt) && requests == old(requests)
      ensures !old(Hit()) ==> requests == old(requests) + 1
      ensures !old(Hit()) && cacheMinutes > 0 ==> slot == Some(s) && expiresAt == now + cacheMinutes
      ensures !old(Hit()) && cacheMinutes <= 0 ==> slot == None
    {
      if Hit() {
        return slot.value;
      }
      requests := requests + 1;
      s := FetchSnapshot(response, baseCurrency, now);
      if cacheMinutes > 0 {
        slot := Some(s);
        expiresAt := now + cacheMinutes;
      } else {
        slot := None;
      }
    }

    /** convert: the identity short-circuit touches no cache; otherwise the
        conversion uses the snapshot getExchangeRates hands out. */
    method ConvertAmount(amount: real, from: string, to: string, response: HttpResult) returns (r: Conversion)
      modifies this`slot, this`expiresAt, this`requests
      ensures r == Convert(old(Lookup(response)), amount, from, to)
      ensures from == to ==> slot == old(slot) && expiresAt == old(expiresAt) && requests == old(requests)
      ensures from != to && old(Hit()) ==> slot == old(slot) && expiresAt == old(expiresAt) && requests == old(requests)
      ensures from != to && !old(Hit()) ==> requests == old(requests) + 1
      ensures from != to && !old(Hit()) && cacheMinutes > 0 ==>
        slot == Some(old(Lookup(response))) && expiresAt == now + cacheMinutes
      ensures from != to && !old(Hit()) && cacheMinutes <= 0 ==> slot == None
    {
      if from == to {
        return Converted(amount);
      }
      var s := GetExchangeRates(response);
      r := Convert(s, amount, from, to);
    }

    /** getFormattedRates: the formatted list of the snapshot getExchangeRates hands out. */
    method GetFormattedRates(response: HttpResult) returns (formatted: map<string, FormattedRate>)
      modifies this`slot, this`expiresAt, this`requests
      ensures formatted.Keys == old(Lookup(response)).rates.Keys
      ensures forall code :: code in formatted ==>
        formatted[code] == FormattedRate(code, old(Lookup(response)).rates[code].value, CurrencySymbol(code))
      ensures old(Hit()) ==> slot == old(slot) && expiresAt == old(expiresAt) && requests == old(requests)
      ensures !old(Hit()) ==> requests == old(requests) + 1
      ensures !old(Hit()) && cacheMinutes > 0 ==> slot == Some(old(Lookup(response))) && expiresAt == now + cacheMinutes
      ensures !old(Hit()) && cacheMinutes <= 0 ==> slot == None
    {
      var s := GetExchangeRates(response);
      formatted := FormatRates(s.rates);
    }
  }

  /** A read that fetches stores its snapshot; a second read less than a
      window later hands out that same snapshot and makes no request. */
  method ReadTwiceWithinWindow(service: Service, first: HttpResult, second: HttpResult, gap: nat)
    returns (s1: Snapshot, s2: Snapshot)
    requires !service.Hit()
    requires gap < service.cacheMinutes
    modifies service
    ensures s1 == FetchSnapshot(first, service.baseCurrency, old(service.now))
    ensures s2 == s1
    ensures service.requests == old(service.requests) + 1
  {
    s1 := service.GetExchangeRates(first);
    service.Elapse(gap);
    s2 := service.GetExchangeRates(second);
  }
}
