/**
 * The currency registry (class Coin): the validations of a coin's code,
 * slug, subdivision and asset total; the crypto/fiat split; the BTC rate of a
 * coin taken from two rate tables (Bittrex-style market summaries for crypto,
 * Coinbase-style quotes for fiat); and the parsing of market names.
 * The rate tables, fetched over HTTP and cached in the source, are inputs.
 */
module Coins {
  import opened Wrappers
  import opened Decimal
  import opened Validations

  /** Number of decimal places of the reference unit, BTC. */
  const BTC_SUBDIVISION: nat := 8

  /**
   * A coin row. `id` is nil until the row is saved; `subdivision` is the
   * number of decimal places of the coin's native fixed-point unit.
   * A nil `crypto_currency` column reads as false.
   */
  datatype Coin = Coin(
    id: Option<nat>,
    code: Option<string>,
    slug: Option<string>,
    cryptoCurrency: bool,
    subdivision: Option<int>)

  predicate Crypto(c: Coin)
  {
    c.cryptoCurrency
  }

  predicate Fiat(c: Coin)
  {
    !c.cryptoCurrency
  }

  /** Every coin is exactly one of crypto and fiat. */
  lemma FiatIsNotCrypto(c: Coin)
    ensures Fiat(c) <==> !Crypto(c)
  {
  }

  // ===> Validations

  /** `o` is a different row from `self` for a uniqueness query (a new record has no id to exclude). */
  predicate IsOther(o: Coin, self: Coin)
  {
    self.id.None? || o.id != self.id
  }

  predicate CodeTaken(self: Coin, stored: seq<Coin>)
  {
    exists i :: 0 <= i < |stored| && IsOther(stored[i], self) && stored[i].code == self.code
  }

  predicate SlugTaken(self: Coin, stored: seq<Coin>)
  {
    exists i :: 0 <= i < |stored| && IsOther(stored[i], self) && stored[i].slug == self.slug
  }

  /** The `assets` column summed over the coin's asset events. */
  function Assets(assetEvents: seq<int>): (total: int)
    ensures (forall i :: 0 <= i < |assetEvents| ==> assetEvents[i] >= 0) ==> total >= 0
    ensures |assetEvents| == 1 ==> total == assetEvents[0]
  {
    if assetEvents == [] then 0 else Assets(assetEvents[..|assetEvents| - 1]) + assetEvents[|assetEvents| - 1]
  }

  /** The total over two groups of asset events is the sum of their totals, so grouping never matters. */
  lemma {:induction false} AssetsAppend(a: seq<int>, b: seq<int>)
    ensures Assets(a + b) == Assets(a) + Assets(b)
    decreases |b|
  {
    if b != [] {
      var b' := b[..|b| - 1];
      AssetsAppend(a, b');
      assert (a + b)[..|a + b| - 1] == a + b';
    } else {
      assert a + b == a;
    }
  }

  /** The asset total as a decimal amount of the coin: the minor units divided by 10^subdivision. */
  function AssetsDisplay(assetEvents: seq<int>, subdivision: nat): (d: real)
    ensures d * Unit(subdivision) == Assets(assetEvents) as real
    ensures ToInteger(d, subdivision) == Assets(assetEvents)
  {
    ToIntegerToDecimal(Assets(assetEvents), subdivision);
    ToDecimalScales(Assets(assetEvents) as real, subdivision);
    ToDecimal(Assets(assetEvents) as real, subdivision)
  }

  /** `validates :code, uniqueness, format`: taken first, then invalid. */
  function CodeRules(self: Coin, stored: seq<Coin>): (errors: seq<ValidationError>)
    ensures ValidationError("code", TAKEN) in errors <==> CodeTaken(self, stored)
    ensures ValidationError("code", INVALID) in errors <==> !WordFormat(ToS(self.code))
    ensures forall e :: e in errors ==> e.attribute == "code" && e.message in {TAKEN, INVALID}
  {
    MessagesDistinct();
    (if CodeTaken(self, stored) then [ValidationError("code", TAKEN)] else [])
    + (if !WordFormat(ToS(self.code)) then [ValidationError("code", INVALID)] else [])
  }

  /** `validates :slug, uniqueness`. */
  function SlugRule(self: Coin, stored: seq<Coin>): (errors: seq<ValidationError>)
    ensures ValidationError("slug", TAKEN) in errors <==> SlugTaken(self, stored)
    ensures forall e :: e in errors ==> e == ValidationError("slug", TAKEN)
  {
    if SlugTaken(self, stored) then [ValidationError("slug", TAKEN)] else []
  }

  /** `validates :subdivision, :code, presence`: the subdivision first, then the code. */
  function PresenceRules(self: Coin): (errors: seq<ValidationError>)
    ensures ValidationError("subdivision", BLANK) in errors <==> self.subdivision.None?
    ensures ValidationError("code", BLANK) in errors <==> Blank(self.code)
    ensures forall e :: e in errors ==> e.message == BLANK
  {
    (if self.subdivision.None? then [ValidationError("subdivision", BLANK)] else [])
    + (if Blank(self.code) then [ValidationError("code", BLANK)] else [])
  }

  /** `validates :subdivision, numericality >= 0`: nil is not a number. */
  function SubdivisionNumericality(self: Coin): (errors: seq<ValidationError>)
    ensures ValidationError("subdivision", NOT_A_NUMBER) in errors <==> self.subdivision.None?
    ensures ValidationError("subdivision", NOT_NEGATIVE) in errors <==> self.subdivision.Some? && self.subdivision.value < 0
    ensures forall e :: e in errors ==> e.attribute == "subdivision" && e.message in {NOT_A_NUMBER, NOT_NEGATIVE}
  {
    MessagesDistinct();
    if self.subdivision.None? then [ValidationError("subdivision", NOT_A_NUMBER)]
    else if self.subdivision.value < 0 then [ValidationError("subdivision", NOT_NEGATIVE)]
    else []
  }

  /** `validates :assets, numericality >= 0`. */
  function AssetsNumericality(assetEvents: seq<int>): (errors: seq<ValidationError>)
    ensures ValidationError("assets", NOT_NEGATIVE) in errors <==> Assets(assetEvents) < 0
    ensures forall e :: e in errors ==> e == ValidationError("assets", NOT_NEGATIVE)
  {
    if Assets(assetEvents) < 0 then [ValidationError("assets", NOT_NEGATIVE)] else []
  }

  /**
   * The errors the declared validations add, in declaration order: code
   * uniqueness and format, slug uniqueness, presence of subdivision and code,
   * numericality of subdivision and of assets. Each rule that fails reports
   * its own message, and no other error appears.
   */
  function CoinErrors(self: Coin, stored: seq<Coin>, assetEvents: seq<int>): (errors: seq<ValidationError>)
    ensures ValidationError("code", TAKEN) in errors <==> CodeTaken(self, stored)
    ensures ValidationError("code", INVALID) in errors <==> !WordFormat(ToS(self.code))
    ensures ValidationError("code", BLANK) in errors <==> Blank(self.code)
    ensures ValidationError("slug", TAKEN) in errors <==> SlugTaken(self, stored)
    ensures ValidationError("subdivision", BLANK) in errors <==> self.subdivision.None?
    ensures ValidationError("subdivision", NOT_A_NUMBER) in errors <==> self.subdivision.None?
    ensures ValidationError("subdivision", NOT_NEGATIVE) in errors <==> self.subdivision.Some? && self.subdivision.value < 0
    ensures ValidationError("assets", NOT_NEGATIVE) in errors <==> Assets(assetEvents) < 0
    ensures forall e :: e in errors ==> e.attribute in {"code", "slug", "subdivision", "assets"}
  {
    CodeAndSlugReported(self, stored, assetEvents);
    NumbersReported(self, stored, assetEvents);
    AttributesReported(self, stored, assetEvents);
    AllRules(self, stored, assetEvents)
  }

  /** The five declarations' errors, concatenated in declaration order. */
  function AllRules(self: Coin, stored: seq<Coin>, assetEvents: seq<int>): seq<ValidationError>
  {
    CodeRules(self, stored) + SlugRule(self, stored) + PresenceRules(self)
    + SubdivisionNumericality(self) + AssetsNumericality(assetEvents)
  }

  lemma CodeAndSlugReported(self: Coin, stored: seq<Coin>, assetEvents: seq<int>)
    ensures ValidationError("code", TAKEN) in AllRules(self, stored, assetEvents) <==> CodeTaken(self, stored)
    ensures ValidationError("code", INVALID) in AllRules(self, stored, assetEvents) <==> !WordFormat(ToS(self.code))
    ensures ValidationError("code", BLANK) in AllRules(self, stored, assetEvents) <==> Blank(self.code)
    ensures ValidationError("slug", TAKEN) in AllRules(self, stored, assetEvents) <==> SlugTaken(self, stored)
  {
    var code, slug, presence := CodeRules(self, stored), SlugRule(self, stored), PresenceRules(self);
    var subdivision, assets := SubdivisionNumericality(self), AssetsNumericality(assetEvents);
    MessagesDistinct();
    InErrors(ValidationError("code", TAKEN), code, slug, presence, subdivision, assets);
    InErrors(ValidationError("code", INVALID), code, slug, presence, subdivision, assets);
    InErrors(ValidationError("code", BLANK), code, slug, presence, subdivision, assets);
    InErrors(ValidationError("slug", TAKEN), code, slug, presence, subdivision, assets);
  }

  lemma NumbersReported(self: Coin, stored: seq<Coin>, assetEvents: seq<int>)
    ensures ValidationError("subdivision", BLANK) in AllRules(self, stored, assetEvents) <==> self.subdivision.None?
    ensures ValidationError("subdivision", NOT_A_NUMBER) in AllRules(self, stored, assetEvents) <==> self.subdivision.None?
    ensures ValidationError("subdivision", NOT_NEGATIVE) in AllRules(self, stored, assetEvents) <==>
      self.subdivision.Some? && self.subdivision.value < 0
    ensures ValidationError("assets", NOT_NEGATIVE) in AllRules(self, stored, assetEvents) <==> Assets(assetEvents) < 0
  {
    var code, slug, presence := CodeRules(self, stored), SlugRule(self, stored), PresenceRules(self);
    var subdivision, assets := SubdivisionNumericality(self), AssetsNumericality(assetEvents);
    MessagesDistinct();
    InErrors(ValidationError("subdivision", BLANK), code, slug, presence, subdivision, assets);
    InErrors(ValidationError("subdivision", NOT_A_NUMBER), code, slug, presence, subdivision, assets);
    InErrors(ValidationError("subdivision", NOT_NEGATIVE), code, slug, presence, subdivision, assets);
    InErrors(ValidationError("assets", NOT_NEGATIVE), code, slug, presence, subdivision, assets);
  }

  lemma AttributesReported(self: Coin, stored: seq<Coin>, assetEvents: seq<int>)
    ensures forall e :: e in AllRules(self, stored, assetEvents) ==> e.attribute in {"code", "slug", "subdivision", "assets"}
  {
  }

  /**
   * A code is acceptable when it is a non-empty run of [A-Za-z0-9_.], with at
   * most one trailing newline, that no other coin uses (case-sensitively).
   */
  predicate CodeAcceptable(self: Coin, stored: seq<Coin>)
  {
    self.code.Some? && self.code.value != "" && self.code.value != "\n"
    && WordFormat(self.code.value)
    && forall o :: o in stored && IsOther(o, self) ==> o.code != self.code
  }

  lemma WordFormatPresent(s: string)
    requires WordFormat(s) && s != "" && s != "\n"
    ensures Present(Some(s))
  {
    if AllWordChars(s) {
      assert !IsSpace(s[0]);
    } else {
      assert |s| >= 2;
      assert !IsSpace(s[0]);
    }
  }

  /** A coin passes validation exactly when its code, slug, subdivision and assets are acceptable. */
  lemma CoinValidIff(self: Coin, stored: seq<Coin>, assetEvents: seq<int>)
    ensures CoinErrors(self, stored, assetEvents) == [] <==>
      CodeAcceptable(self, stored)
      && (forall o :: o in stored && IsOther(o, self) ==> o.slug != self.slug)
      && self.subdivision.Some? && self.subdivision.value >= 0
      && Assets(assetEvents) >= 0
  {
    if CodeAcceptable(self, stored) {
      WordFormatPresent(self.code.value);
    }
    if self.code == Some("\n") {
      assert Blank(self.code);
    }
  }

  /**
   * `attr_readonly :code`: saving an update writes every assigned column
   * except the code, which keeps the value it was created with.
   */
  function SaveUpdate(saved: Coin, update: Coin): (r: Coin)
    ensures r.code == saved.code
    ensures r.id == update.id && r.slug == update.slug
    ensures r.cryptoCurrency == update.cryptoCurrency && r.subdivision == update.subdivision
  {
    update.(code := saved.code)
  }

  /**
   * Unregistered validator, as written: it adds "must be a multiple of 10"
   * when the subdivision IS a multiple of ten (0 included).
   */
  function EnsureSubdivisionMultipleOfTen(subdivision: Option<int>): (e: Option<ValidationError>)
    ensures e.Some? <==> subdivision.Some? && subdivision.value % 10 == 0
    ensures e.Some? ==> e.value == ValidationError("subdivision", "must be a multiple of 10")
  {
    if subdivision.Some? && subdivision.value % 10 == 0 then
      Some(ValidationError("subdivision", "must be a multiple of 10"))
    else
      None
  }

  /** The check as written rejects 10 and 0, which satisfy its message, and accepts 8, which does not. */
  lemma SubdivisionCheckInverted()
    ensures EnsureSubdivisionMultipleOfTen(Some(10)).Some?
    ensures EnsureSubdivisionMultipleOfTen(Some(0)).Some?
    ensures EnsureSubdivisionMultipleOfTen(Some(8)).None?
  {
  }

  /** The check its message describes: an error exactly when the subdivision is not a multiple of ten. */
  function SubdivisionMultipleOfTen(subdivision: Option<int>): (e: Option<ValidationError>)
    ensures e.Some? <==> subdivision.Some? && subdivision.value % 10 != 0
    ensures e.Some? ==> e.value == ValidationError("subdivision", "must be a multiple of 10")
  {
    if subdivision.Some? && subdivision.value % 10 != 0 then
      Some(ValidationError("subdivision", "must be a multiple of 10"))
    else
      None
  }

  /** The corrected check accepts a subdivision exactly when it is 10 * k for some k. */
  lemma SubdivisionMultipleOfTenAccepts(k: int, d: int)
    requires 0 < d < 10
    ensures SubdivisionMultipleOfTen(Some(10 * k)).None?
    ensures SubdivisionMultipleOfTen(Some(10 * k + d)).Some?
    ensures SubdivisionMultipleOfTen(None).None?
  {
    assert (10 * k) % 10 == 0;
    assert (10 * k + d) % 10 == d;
  }

  // ===> Market listing

  /** One market summary: its name ("BTC-LTC") and its current bid. */
  datatype Market = Market(name: string, bid: real)

  /** The two rate tables the registry reads: market summaries (entries may be nil) and quotes per ISO code. */
  datatype RateTables = RateTables(markets: seq<Option<Market>>, quotes: map<string, real>)

  /**
   * Why no rate could be produced. A missing market (`["Bid"]` sent to nil)
   * and a missing quote (`BigDecimal.new(nil)`) raise in the source. A zero
   * quote is a BigDecimal division by zero; the model treats that rate as
   * unavailable too, since a real number cannot be infinite.
   */
  datatype RateError =
    | NoMarket(marketName: string)
    | NoQuote(key: Option<string>)
    | ZeroQuote(iso: string)

  /** Array#compact: the non-nil entries, in order. */
  function Compact(ms: seq<Option<Market>>): (r: seq<Market>)
    ensures |r| <= |ms|
    ensures forall m :: m in r <==> Some(m) in ms
  {
    if ms == [] then []
    else
      var init := Compact(ms[..|ms| - 1]);
      assert ms == ms[..|ms| - 1] + [ms[|ms| - 1]];
      if ms[|ms| - 1].Some? then init + [ms[|ms| - 1].value] else init
  }

  /** Compact keeps the order of the entries: it distributes over concatenation. */
  lemma {:induction false} CompactAppend(a: seq<Option<Market>>, b: seq<Option<Market>>)
    ensures Compact(a + b) == Compact(a) + Compact(b)
    decreases |b|
  {
    if b == [] {
      assert a + b == a;
    } else {
      var b', x := b[..|b| - 1], b[|b| - 1];
      CompactAppend(a, b');
      assert (a + b)[..|a + b| - 1] == a + b';
      assert (a + b)[|a + b| - 1] == x;
      if x.Some? {
        calc {
          Compact(a + b);
          Compact(a + b') + [x.value];
          Compact(a) + Compact(b') + [x.value];
          Compact(a) + (Compact(b') + [x.value]);
          Compact(a) + Compact(b);
        }
      } else {
        assert Compact(a + b) == Compact(a + b');
        assert Compact(b) == Compact(b');
      }
    }
  }

  /** Compact drops a nil entry and keeps a market. */
  lemma CompactSingleton(x: Option<Market>)
    ensures Compact([x]) == if x.Some? then [x.value] else []
  {
    var one: seq<Option<Market>> := [x];
    assert one[..0] == [];
  }

  /** Enumerable#find by market name: the index of the first market with that name. */
  function FindByName(ms: seq<Market>, name: string): (r: Option<nat>)
    ensures r.Some? ==> r.value < |ms| && ms[r.value].name == name
    ensures r.Some? ==> forall j :: 0 <= j < r.value ==> ms[j].name != name
    ensures r.None? <==> forall j :: 0 <= j < |ms| ==> ms[j].name != name
  {
    if ms == [] then None
    else if ms[0].name == name then Some(0)
    else
      var rest := FindByName(ms[1..], name);
      if rest.None? then None else Some(rest.value + 1)
  }

  /** The name of a coin's market against BTC: "BTC-" followed by the code (nil interpolates as ""). */
  function MarketName(code: Option<string>): string
  {
    "BTC-" + ToS(code)
  }

  /** The search over the compacted list fails exactly when no non-nil market has the name. */
  lemma FindInCompact(markets: seq<Option<Market>>, name: string)
    ensures FindByName(Compact(markets), name).None? <==>
      forall m :: Some(m) in markets ==> m.name != name
  {
    var listed := Compact(markets);
    if FindByName(listed, name).None? {
      forall m | Some(m) in markets
        ensures m.name != name
      {
        assert m in listed;
        var j :| 0 <= j < |listed| && listed[j] == m;
      }
    } else {
      assert listed[FindByName(listed, name).value] in listed;
    }
  }

  /**
   * crypto_btc_rate: exactly 1 for BTC; for any other code, the bid of the
   * first listed market named "BTC-<code>", and no rate (never a default)
   * when no market has that name.
   */
  function CryptoBtcRate(code: Option<string>, markets: seq<Option<Market>>): (r: Result<real, RateError>)
    ensures code == Some("BTC") ==> r == Ok(1.0)
    ensures code != Some("BTC") ==>
      (r.Ok? <==> exists m :: Some(m) in markets && m.name == MarketName(code))
    ensures code != Some("BTC") && r.Ok? ==>
      exists i :: 0 <= i < |Compact(markets)|
        && Compact(markets)[i].name == MarketName(code)
        && Compact(markets)[i].bid == r.value
        && forall j :: 0 <= j < i ==> Compact(markets)[j].name != MarketName(code)
    ensures r.Err? ==> r.error == NoMarket(MarketName(code))
  {
    if code == Some("BTC") then Ok(1.0)
    else
      var listed := Compact(markets);
      var found := FindByName(listed, MarketName(code));
      FindInCompact(markets, MarketName(code));
      if found.None? then Err(NoMarket(MarketName(code))) else Ok(listed[found.value].bid)
  }

  /** The quote key of fiat_btc_rate(iso): the given ISO code, or the coin's own code when none is given. */
  function QuoteKey(code: Option<string>, iso: Option<string>): Option<string>
  {
    if iso.Some? then iso else code
  }

  /** A quote exists under the key and is not zero. */
  predicate QuoteUsable(key: Option<string>, quotes: map<string, real>)
  {
    key.Some? && key.value in quotes && quotes[key.value] != 0.0
  }

  /**
   * fiat_btc_rate(iso): the BTC per unit of the currency, the reciprocal of
   * the currency's quote (units of the currency per BTC); a missing key or quote is
   * an error, and so is a zero quote.
   */
  function FiatBtcRate(code: Option<string>, iso: Option<string>, quotes: map<string, real>): (r: Result<real, RateError>)
    ensures r.Ok? <==> QuoteUsable(QuoteKey(code, iso), quotes)
    ensures r.Ok? ==> r.value * quotes[QuoteKey(code, iso).value] == 1.0
    ensures r.Err? && !QuoteUsable(QuoteKey(code, iso), quotes) ==>
      r.error == if QuoteKey(code, iso).Some? && QuoteKey(code, iso).value in quotes
                 then ZeroQuote(QuoteKey(code, iso).value) else NoQuote(QuoteKey(code, iso))
  {
    var key := QuoteKey(code, iso);
    if key.None? || key.value !in quotes then Err(NoQuote(key))
    else if quotes[key.value] == 0.0 then Err(ZeroQuote(key.value))
    else
      var q := quotes[key.value];
      assert (1.0 / q) * q == 1.0;
      Ok(1.0 / q)
  }

  /**
   * btc_rate: BTC's rate is 1 whatever the tables say; another crypto coin's
   * rate exists exactly when a market "BTC-<code>" is listed, and is the bid
   * of the first such market (crypto_btc_rate); a fiat coin's
   * rate is the reciprocal of its own quote and exists exactly when that
   * quote is present and non-zero.
   */
  function BtcRate(c: Coin, rates: RateTables): (r: Result<real, RateError>)
    ensures Crypto(c) && c.code == Some("BTC") ==> r == Ok(1.0)
    ensures Crypto(c) && c.code != Some("BTC") ==>
      (r.Ok? <==> exists m :: Some(m) in rates.markets && m.name == MarketName(c.code))
    ensures Fiat(c) ==> (r.Ok? <==> QuoteUsable(c.code, rates.quotes))
    ensures Crypto(c) && c.code != Some("BTC") && r.Ok? ==>
      exists i :: 0 <= i < |Compact(rates.markets)|
        && Compact(rates.markets)[i].name == MarketName(c.code)
        && Compact(rates.markets)[i].bid == r.value
        && forall j :: 0 <= j < i ==> Compact(rates.markets)[j].name != MarketName(c.code)
    ensures Fiat(c) && r.Ok? ==> r.value * rates.quotes[c.code.value] == 1.0
    ensures Crypto(c) ==> r == CryptoBtcRate(c.code, rates.markets)
    ensures Fiat(c) ==> r == FiatBtcRate(c.code, None, rates.quotes)
  {
    if Crypto(c) then CryptoBtcRate(c.code, rates.markets) else FiatBtcRate(c.code, None, rates.quotes)
  }

  /**
   * value(iso): the coin's BTC rate times the quote of the requested currency
   * (the coin's own code when none is requested). It is available exactly
   * when both are, and the BTC rate is looked up first.
   */
  function Value(c: Coin, iso: Option<string>, rates: RateTables): (r: Result<real, RateError>)
    ensures r.Ok? <==> BtcRate(c, rates).Ok? && QuoteUsable(QuoteKey(c.code, iso), rates.quotes)
    ensures r.Ok? ==> r.value == BtcRate(c, rates).value * rates.quotes[QuoteKey(c.code, iso).value]
    ensures BtcRate(c, rates).Err? ==> r == Err(BtcRate(c, rates).error)
  {
    var btc := BtcRate(c, rates);
    if btc.Err? then Err(btc.error)
    else
      var fiat := FiatBtcRate(c.code, iso, rates.quotes);
      if fiat.Err? then Err(fiat.error)
      else
        ReciprocalOf(fiat.value, rates.quotes[QuoteKey(c.code, iso).value]);
        Ok(btc.value * (1.0 / fiat.value))
  }

  lemma ReciprocalOf(r: real, q: real)
    requires r * q == 1.0
    ensures 1.0 / r == q
  {
  }

  /** A fiat coin valued in its own currency is worth exactly one unit of it. */
  lemma ValueInOwnCurrency(c: Coin, rates: RateTables)
    requires Fiat(c)
    ensures Value(c, None, rates).Ok? <==> QuoteUsable(c.code, rates.quotes)
    ensures Value(c, None, rates).Ok? ==> Value(c, None, rates).value == 1.0
  {
  }

  /** BTC valued in a currency is that currency's quote per BTC. */
  lemma ValueOfBtc(c: Coin, iso: string, rates: RateTables)
    requires Crypto(c) && c.code == Some("BTC")
    ensures Value(c, Some(iso), rates).Ok? <==> QuoteUsable(Some(iso), rates.quotes)
    ensures Value(c, Some(iso), rates).Ok? ==> Value(c, Some(iso), rates).value == rates.quotes[iso]
  {
  }

  // ===> Market names

  /** The '-'-separated fields of s, empty ones included (so at least one). */
  function Fields(s: string): (r: seq<string>)
    ensures |r| >= 1
    ensures forall i :: 0 <= i < |r| ==> '-' !in r[i]
  {
    if s == [] then [""]
    else
      var init := Fields(s[..|s| - 1]);
      var c := s[|s| - 1];
      if c == '-' then init + [""] else init[..|init| - 1] + [init[|init| - 1] + [c]]
  }

  /** Array#join("-"). */
  function Join(fs: seq<string>): string
    requires |fs| >= 1
  {
    if |fs| == 1 then fs[0] else Join(fs[..|fs| - 1]) + "-" + fs[|fs| - 1]
  }

  /** Joining the fields of s with '-' gives back s: Fields loses nothing. */
  lemma {:induction false} JoinFields(s: string)
    ensures Join(Fields(s)) == s
  {
    if s != [] {
      var p, c := s[..|s| - 1], s[|s| - 1];
      var init := Fields(p);
      JoinFields(p);
      assert s == p + [c];
      if c == '-' {
        JoinSnoc(init, "");
      } else {
        var k := |init| - 1;
        var prefix, last := init[..k], init[k];
        if k == 0 {
          assert Fields(s) == [last + [c]];
        } else {
          assert init == prefix + [last];
          JoinSnoc(prefix, last);
          JoinSnoc(prefix, last + [c]);
        }
      }
    }
  }

  lemma JoinSnoc(fs: seq<string>, x: string)
    requires |fs| >= 1
    ensures Join(fs + [x]) == Join(fs) + "-" + x
  {
    assert (fs + [x])[..|fs|] == fs;
  }

  /** String#split("-"): the fields with trailing empty fields removed. */
  function Split(s: string): (r: seq<string>)
    ensures |r| <= |Fields(s)| && r == Fields(s)[..|r|]
    ensures r == [] || r[|r| - 1] != ""
    ensures forall i :: |r| <= i < |Fields(s)| ==> Fields(s)[i] == ""
  {
    DropTrailingEmpty(Fields(s))
  }

  function DropTrailingEmpty(fs: seq<string>): (r: seq<string>)
    ensures |r| <= |fs| && r == fs[..|r|]
    ensures r == [] || r[|r| - 1] != ""
    ensures forall i :: |r| <= i < |fs| ==> fs[i] == ""
  {
    if fs == [] || fs[|fs| - 1] != "" then fs else DropTrailingEmpty(fs[..|fs| - 1])
  }

  /** `name.split("-").last`: nil exactly when the name is made of dashes only. */
  function LastField(name: string): (r: Option<string>)
    ensures r.Some? ==> r.value != "" && '-' !in r.value
    ensures r.None? <==> forall i :: 0 <= i < |name| ==> name[i] == '-'
  {
    FieldsEmptyIffDashes(name);
    var parts := Split(name);
    if parts == [] then None else Some(parts[|parts| - 1])
  }

  /** Every field of s is empty exactly when s holds nothing but dashes. */
  lemma {:induction false} FieldsEmptyIffDashes(s: string)
    ensures (forall i :: 0 <= i < |Fields(s)| ==> Fields(s)[i] == "") <==> (forall i :: 0 <= i < |s| ==> s[i] == '-')
    decreases |s|
  {
    if s != [] {
      var p, c := s[..|s| - 1], s[|s| - 1];
      FieldsEmptyIffDashes(p);
      var init := Fields(p);
      assert forall i :: 0 <= i < |p| ==> s[i] == p[i];
      if c == '-' {
        assert Fields(s) == init + [""];
        assert forall i :: 0 <= i < |init| ==> Fields(s)[i] == init[i];
      } else {
        assert Fields(s)[|Fields(s)| - 1] == init[|init| - 1] + [c];
      }
    }
  }

  /** The last field after a final dash is what split("-").last gives back. */
  lemma LastFieldAfterDash(a: string, b: string)
    requires b != "" && '-' !in b
    ensures LastField(a + "-" + b) == Some(b)
  {
    FieldsAfterDash(a, b);
    var fs := Fields(a + "-" + b);
    assert fs[|fs| - 1] == b;
    assert DropTrailingEmpty(fs) == fs;
  }

  /** coins_by_bittrex: the last field of every listed market's name, in order. */
  function CoinsByBittrex(markets: seq<Option<Market>>): (r: seq<Option<string>>)
    ensures |r| == |Compact(markets)|
    ensures forall i :: 0 <= i < |r| ==> r[i] == LastField(Compact(markets)[i].name)
  {
    var listed := Compact(markets);
    seq(|listed|, i requires 0 <= i < |listed| => LastField(listed[i].name))
  }

  lemma {:induction false} FieldsNoDash(s: string)
    requires '-' !in s
    ensures Fields(s) == [s]
  {
    if s != [] {
      var p := s[..|s| - 1];
      assert '-' !in p by {
        forall i | 0 <= i < |p| ensures p[i] != '-' { assert p[i] == s[i]; }
      }
      FieldsNoDash(p);
      assert s == p + [s[|s| - 1]];
    }
  }

  lemma {:induction false} FieldsAfterDash(a: string, b: string)
    requires '-' !in b
    ensures Fields(a + "-" + b) == Fields(a) + [b]
  {
    var s := a + "-" + b;
    if b == [] {
      assert s[..|s| - 1] == a;
    } else {
      var b' := b[..|b| - 1];
      assert '-' !in b' by {
        forall i | 0 <= i < |b'| ensures b'[i] != '-' { assert b'[i] == b[i]; }
      }
      FieldsAfterDash(a, b');
      assert s[..|s| - 1] == a + "-" + b';
      assert b == b' + [b[|b| - 1]];
    }
  }

  /** Parsing the market name built for a code recovers the code: coins_by_bittrex inverts MarketName. */
  lemma MarketNameRoundTrip(code: string)
    requires code != "" && '-' !in code
    ensures LastField(MarketName(Some(code))) == Some(code)
  {
    var name := MarketName(Some(code));
    assert name == "BTC" + "-" + code;
    FieldsNoDash("BTC");
    FieldsAfterDash("BTC", code);
    var fs := Fields(name);
    assert fs == ["BTC", code];
    assert DropTrailingEmpty(fs) == fs;
    assert Split(name) == fs;
  }
}
