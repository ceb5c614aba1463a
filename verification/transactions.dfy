/**
 * The ledger transaction (Transactions::Base): its closed set of types, the
 * zero-sum rule over its events, the rule that a transaction chains to the
 * latest other transaction of its source or destination, and the checks an
 * exchange adds (rates still current, legs of equal value, not fiat to fiat).
 *
 * The pure parts (the event sum, the type predicates, the lookups) are
 * functions; the validators, which append to the record's `errors`, are
 * methods of class Transaction, each proved against a pure function.
 */
module Transactions {
  import opened Wrappers
  import opened Decimal
  import opened Validations
  import opened Coins

  // ===> Types

  /** The transaction types, spelled as the records store them. */
  const TYPES: seq<string> := [
    "SystemDeposit", "SystemAllocation", "SystemWithdrawl",
    "MemberDeposit", "MemberAllocation", "MemberExchange", "MemberWithdrawl"
  ]

  /** The generated predicate `<type>?` (system_deposit?, member_exchange?, ...): the type column is t. */
  predicate IsOfType(txType: Option<string>, t: string)
    ensures IsOfType(txType, t) && t in TYPES ==> TypeErrors(txType) == []
    ensures IsOfType(txType, t) ==> ToS(txType) == t
  {
    txType == Some(t)
  }

  /** `validates :type, presence: true, inclusion: { in: TYPES }`. */
  function TypeErrors(txType: Option<string>): (errors: seq<ValidationError>)
    ensures errors == [] <==> txType.Some? && txType.value in TYPES
    ensures ValidationError("type", BLANK) in errors <==> Blank(txType)
    ensures ValidationError("type", NOT_INCLUDED) in errors <==> txType.None? || txType.value !in TYPES
    ensures forall e :: e in errors ==> e.attribute == "type"
  {
    TypesPresent();
    MessagesDistinct();
    (if Blank(txType) then [ValidationError("type", BLANK)] else [])
    + (if txType.None? || txType.value !in TYPES then [ValidationError("type", NOT_INCLUDED)] else [])
  }

  /** No type name is blank. */
  lemma TypesPresent()
    ensures forall t :: t in TYPES ==> !Blank(Some(t))
  {
    forall t | t in TYPES
      ensures !Blank(Some(t))
    {
      assert t[0] != ' ' && t[0] != '\t' && t[0] != '\n' && t[0] != '\r';
    }
  }

  /**
   * The seven types are distinct, so a valid type makes exactly one of the
   * generated predicates true, and a type is valid exactly when one is.
   */
  lemma TypePredicates(txType: Option<string>)
    ensures |TYPES| == 7
    ensures forall i, j :: 0 <= i < j < |TYPES| ==> TYPES[i] != TYPES[j]
    ensures TypeErrors(txType) == [] <==> exists i :: 0 <= i < |TYPES| && IsOfType(txType, TYPES[i])
    ensures forall i, j :: 0 <= i < |TYPES| && 0 <= j < |TYPES| && IsOfType(txType, TYPES[i]) && IsOfType(txType, TYPES[j]) ==> i == j
  {
  }

  // ===> Events and the zero-sum rule

  /** The three accounting classes of a ledger event. */
  datatype EventKind = Asset | Liability | Equity

  /**
   * A ledger event: a signed whole number of native units (`entry`) of a coin
   * with `subdivision` decimal places, and the rate locked when it was made.
   */
  datatype Event = Event(kind: EventKind, entry: int, rate: real, subdivision: nat)

  /** An event's value in the reference unit, rounded half-up to BTC_SUBDIVISION places. */
  function EventValue(e: Event): real
  {
    ReferenceValue(e.entry, e.rate, e.subdivision)
  }

  /** `entry` native units of a coin with `subdivision` places, at `rate`, in the reference unit, rounded. */
  function ReferenceValue(entry: int, rate: real, subdivision: nat): real
  {
    RoundHalfUp(ToDecimal(entry as real * rate, subdivision), BTC_SUBDIVISION)
  }

  /** The same value as a whole number of 10^-8 reference units. */
  function ReferenceUnits(entry: int, rate: real, subdivision: nat): int
  {
    HalfUpUnits(ToDecimal(entry as real * rate, subdivision), BTC_SUBDIVISION)
  }

  /** Asset events count against the total, liability and equity events for it. */
  function SignedValue(e: Event): real
  {
    if e.kind == Asset then -EventValue(e) else EventValue(e)
  }

  /** The events of one class, in their stored order (the `*_events` associations). */
  function OfKind(evs: seq<Event>, k: EventKind): (r: seq<Event>)
    ensures forall e :: e in r <==> e in evs && e.kind == k
  {
    if evs == [] then [] else (if evs[0].kind == k then [evs[0]] else []) + OfKind(evs[1..], k)
  }

  /**
   * The `inject(0)` block, folding from the left as Ruby does: it adds the
   * signed total of the events to the starting total.
   */
  function Inject(total: real, evs: seq<Event>): (r: real)
    ensures r == total + SignedSum(evs)
    decreases |evs|
  {
    if evs == [] then total
    else
      var entry := EventValue(evs[0]);
      Inject(if evs[0].kind == Asset then total - entry else total + entry, evs[1..])
  }

  /**
   * events_sum_display: equity events, then liability events, then asset
   * events, folded; it is the signed total of all the events.
   */
  function EventsSumDisplay(events: seq<Event>): (r: real)
    ensures r == SignedSum(events)
  {
    GroupedSum(events);
    Inject(0.0, OfKind(events, Equity) + OfKind(events, Liability) + OfKind(events, Asset))
  }

  /** The sum of f over the events. */
  function SumBy(f: Event -> real, evs: seq<Event>): real
  {
    if evs == [] then 0.0 else f(evs[0]) + SumBy(f, evs[1..])
  }

  /** The signed total of the events, independent of any fold: the reference definition. */
  function SignedSum(evs: seq<Event>): real
  {
    SumBy(SignedValue, evs)
  }

  lemma {:induction false} SumByAppend(f: Event -> real, a: seq<Event>, b: seq<Event>)
    ensures SumBy(f, a + b) == SumBy(f, a) + SumBy(f, b)
    decreases |a|
  {
    if a == [] {
      assert a + b == b;
    } else {
      assert (a + b)[0] == a[0];
      assert (a + b)[1..] == a[1..] + b;
      SumByAppend(f, a[1..], b);
    }
  }

  lemma {:induction false} SumByOfKinds(f: Event -> real, evs: seq<Event>)
    ensures SumBy(f, OfKind(evs, Equity)) + SumBy(f, OfKind(evs, Liability)) + SumBy(f, OfKind(evs, Asset))
      == SumBy(f, evs)
    decreases |evs|
  {
    if evs != [] {
      SumByOfKinds(f, evs[1..]);
      var e := evs[0];
      SumByAppend(f, if e.kind == Equity then [e] else [], OfKind(evs[1..], Equity));
      SumByAppend(f, if e.kind == Liability then [e] else [], OfKind(evs[1..], Liability));
      SumByAppend(f, if e.kind == Asset then [e] else [], OfKind(evs[1..], Asset));
    }
  }

  /** A sum over the events does not depend on their order. */
  lemma {:induction false} SumByPermutation(f: Event -> real, a: seq<Event>, b: seq<Event>)
    requires multiset(a) == multiset(b)
    ensures SumBy(f, a) == SumBy(f, b)
    decreases |a|
  {
    if a == [] {
      assert |b| == |multiset(b)| == 0;
    } else {
      var x := a[0];
      assert x in multiset(a);
      var i :| 0 <= i < |b| && b[i] == x;
      var rest := b[..i] + b[i + 1..];
      assert b == b[..i] + ([x] + b[i + 1..]);
      assert a == [x] + a[1..];
      assert multiset(rest) == multiset(b) - multiset{x};
      assert multiset(a[1..]) == multiset(a) - multiset{x};
      SumByPermutation(f, a[1..], rest);
      SumByAppend(f, b[..i], [x] + b[i + 1..]);
      assert ([x] + b[i + 1..])[1..] == b[i + 1..];
      SumByAppend(f, b[..i], b[i + 1..]);
    }
  }

  /** Grouping the events by class keeps their signed total. */
  lemma GroupedSum(events: seq<Event>)
    ensures SignedSum(OfKind(events, Equity) + OfKind(events, Liability) + OfKind(events, Asset)) == SignedSum(events)
  {
    var equity, liability, asset := OfKind(events, Equity), OfKind(events, Liability), OfKind(events, Asset);
    SumByAppend(SignedValue, equity + liability, asset);
    SumByAppend(SignedValue, equity, liability);
    SumByOfKinds(SignedValue, events);
  }

  /**
   * events_sum_display is the signed total of all events (assets negated), so
   * it does not depend on how the events are ordered.
   */
  lemma EventsSumDisplayIsSignedSum(events: seq<Event>, reordered: seq<Event>)
    requires multiset(reordered) == multiset(events)
    ensures EventsSumDisplay(events) == SignedSum(events)
    ensures EventsSumDisplay(reordered) == EventsSumDisplay(events)
  {
    SumByPermutation(SignedValue, reordered, events);
  }

  /** The event's value as a whole number of 10^-8 reference units, with its sign. */
  function SignedUnits(e: Event): int
  {
    var k := ReferenceUnits(e.entry, e.rate, e.subdivision);
    if e.kind == Asset then -k else k
  }

  /** The sum of u over the events. */
  function TotalBy(u: Event -> int, evs: seq<Event>): int
  {
    if evs == [] then 0 else u(evs[0]) + TotalBy(u, evs[1..])
  }

  function TotalUnits(evs: seq<Event>): int
  {
    TotalBy(SignedUnits, evs)
  }

  lemma DivAdd(a: real, b: real, p: real)
    requires p > 0.0
    ensures a / p + b / p == (a + b) / p
    ensures -(a / p) == (-a) / p
    ensures 0.0 / p == 0.0
  {
  }

  lemma SignedValueOnGrid(e: Event)
    ensures SignedValue(e) == SignedUnits(e) as real / Unit(BTC_SUBDIVISION)
  {
    var p := Unit(BTC_SUBDIVISION);
    var k := ReferenceUnits(e.entry, e.rate, e.subdivision) as real;
    assert ReferenceValue(e.entry, e.rate, e.subdivision) == k / p;
    DivAdd(k, 0.0, p);
  }

  lemma {:induction false} SumByOnGrid(f: Event -> real, u: Event -> int, evs: seq<Event>, p: real)
    requires p > 0.0
    requires forall i :: 0 <= i < |evs| ==> f(evs[i]) == u(evs[i]) as real / p
    ensures SumBy(f, evs) == TotalBy(u, evs) as real / p
    decreases |evs|
  {
    DivAdd(0.0, 0.0, p);
    if evs != [] {
      SumByOnGrid(f, u, evs[1..], p);
      DivAdd(u(evs[0]) as real, TotalBy(u, evs[1..]) as real, p);
    }
  }

  /** Every term lies on the 10^-8 grid, so the signed total is a whole number of 10^-8 units. */
  lemma SignedSumOnGrid(evs: seq<Event>)
    ensures SignedSum(evs) == TotalUnits(evs) as real / Unit(BTC_SUBDIVISION)
  {
    forall i | 0 <= i < |evs|
      ensures SignedValue(evs[i]) == SignedUnits(evs[i]) as real / Unit(BTC_SUBDIVISION)
    {
      SignedValueOnGrid(evs[i]);
    }
    SumByOnGrid(SignedValue, SignedUnits, evs, Unit(BTC_SUBDIVISION));
  }

  /**
   * The zero-sum test is exact: the sum displayed is zero exactly when the
   * signed 10^-8 unit counts of the events add up to zero.
   */
  lemma SumZeroIffUnitsZero(events: seq<Event>)
    ensures EventsSumDisplay(events) == 0.0 <==> TotalUnits(events) == 0
  {
    SignedSumOnGrid(events);
    ZeroOnGrid(TotalUnits(events), Unit(BTC_SUBDIVISION));
  }

  lemma ZeroOnGrid(t: int, p: real)
    requires p > 0.0
    ensures t as real / p == 0.0 <==> t == 0
  {
    DivThenMul(t as real, p);
  }

  /** The asset counterpart of each event: same amount, coin and locked rate. */
  function Mirror(evs: seq<Event>): (r: seq<Event>)
    ensures |r| == |evs|
    ensures forall i :: 0 <= i < |evs| ==> r[i] == evs[i].(kind := Asset)
  {
    if evs == [] then [] else [evs[0].(kind := Asset)] + Mirror(evs[1..])
  }

  lemma MirrorValue(e: Event)
    requires e.kind != Asset
    ensures SignedValue(e.(kind := Asset)) == -SignedValue(e)
  {
  }

  lemma {:induction false} SumByNegated(f: Event -> real, a: seq<Event>, b: seq<Event>)
    requires |a| == |b|
    requires forall i :: 0 <= i < |a| ==> f(b[i]) == -f(a[i])
    ensures SumBy(f, b) == -SumBy(f, a)
    decreases |a|
  {
    if a != [] {
      SumByNegated(f, a[1..], b[1..]);
    }
  }

  /**
   * A deposit books each liability or equity event together with an asset
   * event of the same amount and rate; such a transaction always sums to zero.
   */
  lemma MirroredEventsBalance(evs: seq<Event>)
    requires forall i :: 0 <= i < |evs| ==> evs[i].kind != Asset
    ensures EventsSumDisplay(evs + Mirror(evs)) == 0.0
  {
    var mirrored := Mirror(evs);
    forall i | 0 <= i < |evs|
      ensures SignedValue(mirrored[i]) == -SignedValue(evs[i])
    {
      MirrorValue(evs[i]);
    }
    GroupedSum(evs + mirrored);
    SumByAppend(SignedValue, evs, mirrored);
    SumByNegated(SignedValue, evs, mirrored);
  }

  // ===> Chaining

  /** The polymorphic source or destination of a transaction: a coin pool or a member. */
  datatype Party = CoinPool(coinId: nat) | MemberAccount(memberId: nat)

  /** A stored transaction, as far as the lookups read it. */
  datatype TxRow = TxRow(id: nat, txType: Option<string>, source: Option<Party>, destination: Option<Party>, createdAt: int)

  datatype Side = BySource | ByDestination

  /**
   * The scope `self.class.not_self(self).for_source(source)` (or
   * `for_destination`): same STI class (no type filter for the base class,
   * `klass == None`), a different id, the same endpoint on the given side.
   */
  predicate InLineage(klass: Option<string>, selfId: Option<nat>, endpoint: Option<Party>, side: Side, row: TxRow)
  {
    (klass.None? || row.txType == klass)
    && selfId != Some(row.id)
    && (if side == BySource then row.source == endpoint else row.destination == endpoint)
  }

  /**
   * `ordered....last`: the row in the scope with the latest created_at; among
   * rows created at the same instant, the one stored last.
   */
  function Latest(rows: seq<TxRow>, klass: Option<string>, selfId: Option<nat>, endpoint: Option<Party>, side: Side): (r: Option<TxRow>)
    ensures r.Some? ==> r.value in rows && InLineage(klass, selfId, endpoint, side, r.value)
    ensures r.Some? ==> forall row :: row in rows && InLineage(klass, selfId, endpoint, side, row) ==> row.createdAt <= r.value.createdAt
    ensures r.None? <==> forall row :: row in rows ==> !InLineage(klass, selfId, endpoint, side, row)
  {
    if rows == [] then None
    else
      var init := rows[..|rows| - 1];
      var last := rows[|rows| - 1];
      assert rows == init + [last];
      var best := Latest(init, klass, selfId, endpoint, side);
      if InLineage(klass, selfId, endpoint, side, last) && (best.None? || best.value.createdAt <= last.createdAt)
      then Some(last)
      else best
  }

  /** A row strictly later than every other row in the scope is the one found. */
  lemma LatestIsStrictMaximum(rows: seq<TxRow>, klass: Option<string>, selfId: Option<nat>, endpoint: Option<Party>, side: Side, row: TxRow)
    requires row in rows && InLineage(klass, selfId, endpoint, side, row)
    requires forall other :: other in rows && other != row && InLineage(klass, selfId, endpoint, side, other) ==> other.createdAt < row.createdAt
    ensures Latest(rows, klass, selfId, endpoint, side) == Some(row)
  {
  }

  /** The outcome of one validator: it passed, it added its error, or it raised. */
  datatype Check = Pass | Fail | Raise(exception: Exception)

  /** Exceptions a validator can raise instead of adding an error. */
  datatype Exception =
    | NoMethodError(message: string)   // a method sent to nil
    | TypeError(message: string)       // nil used as a number
    | RateUnavailable(reason: RateError)

  /**
   * correct_previous_transaction: passes when there is no previous
   * transaction or its id is the referring transaction's id; with a previous
   * transaction but no referring one, `nil.id` raises.
   */
  function ChainCheck(previous: Option<nat>, referring: Option<nat>): (c: Check)
    ensures c == Pass <==> previous.None? || (referring.Some? && previous == referring)
    ensures c.Raise? <==> previous.Some? && referring.None?
    ensures c.Raise? ==> c.exception.NoMethodError?
  {
    if previous.None? then Pass
    else if referring.None? then Raise(NoMethodError("undefined method `id' for nil"))
    else if previous.value == referring.value then Pass
    else Fail
  }

  /**
   * When the referring transaction is the lookup's answer, a previous
   * transaction passes exactly when it is the latest other transaction of the
   * lineage, and with no such transaction any previous one raises.
   */
  lemma ChainFollowsLatest(rows: seq<TxRow>, klass: Option<string>, selfId: Option<nat>, endpoint: Option<Party>, side: Side, previous: nat)
    ensures var latest := Latest(rows, klass, selfId, endpoint, side);
      var check := ChainCheck(Some(previous), if latest.Some? then Some(latest.value.id) else None);
      (check == Pass ==> exists row :: row in rows && row.id == previous && InLineage(klass, selfId, endpoint, side, row)
                          && forall other :: other in rows && InLineage(klass, selfId, endpoint, side, other) ==> other.createdAt <= row.createdAt)
      && (check.Raise? <==> forall row :: row in rows ==> !InLineage(klass, selfId, endpoint, side, row))
      && (selfId == Some(previous) ==> check != Pass)
  {
  }

  // ===> Exchange checks

  /** rates_match: each locked rate equals its coin's live BTC rate once both are rounded to 8 places. */
  function RatesCheck(sourceRate: real, destinationRate: real, sourceCoin: Coin, destinationCoin: Coin, rates: RateTables): (c: Check)
    ensures c.Raise? <==> BtcRate(sourceCoin, rates).Err? || BtcRate(destinationCoin, rates).Err?
    ensures c.Raise? ==> c.exception == RateUnavailable(
      if BtcRate(sourceCoin, rates).Err? then BtcRate(sourceCoin, rates).error else BtcRate(destinationCoin, rates).error)
    ensures !c.Raise? ==>
      (c == Pass <==>
        RoundHalfUp(sourceRate, BTC_SUBDIVISION) == RoundHalfUp(BtcRate(sourceCoin, rates).value, BTC_SUBDIVISION)
        && RoundHalfUp(destinationRate, BTC_SUBDIVISION) == RoundHalfUp(BtcRate(destinationCoin, rates).value, BTC_SUBDIVISION))
  {
    var live := BtcRate(sourceCoin, rates);
    if live.Err? then Raise(RateUnavailable(live.error))
    else
      var sourceMatches := RoundHalfUp(sourceRate, BTC_SUBDIVISION) == RoundHalfUp(live.value, BTC_SUBDIVISION);
      var live' := BtcRate(destinationCoin, rates);
      if live'.Err? then Raise(RateUnavailable(live'.error))
      else
        var destinationMatches := RoundHalfUp(destinationRate, BTC_SUBDIVISION) == RoundHalfUp(live'.value, BTC_SUBDIVISION);
        if sourceMatches && destinationMatches then Pass else Fail
  }

  /**
   * The rate check accepts a locked rate exactly when it is within the
   * rounding of the live one: accepted rates differ from the live rates by
   * less than 10^-8, and unchanged rates are always accepted.
   */
  lemma RatesCheckTolerance(sourceRate: real, destinationRate: real, sourceCoin: Coin, destinationCoin: Coin, rates: RateTables)
    ensures RatesCheck(sourceRate, destinationRate, sourceCoin, destinationCoin, rates).Raise? <==>
      BtcRate(sourceCoin, rates).Err? || BtcRate(destinationCoin, rates).Err?
    ensures RatesCheck(sourceRate, destinationRate, sourceCoin, destinationCoin, rates) == Pass ==>
      -1.0 < (sourceRate - BtcRate(sourceCoin, rates).value) * Unit(BTC_SUBDIVISION) < 1.0
      && -1.0 < (destinationRate - BtcRate(destinationCoin, rates).value) * Unit(BTC_SUBDIVISION) < 1.0
    ensures BtcRate(sourceCoin, rates).Ok? && BtcRate(destinationCoin, rates).Ok?
      && sourceRate == BtcRate(sourceCoin, rates).value && destinationRate == BtcRate(destinationCoin, rates).value
      ==> RatesCheck(sourceRate, destinationRate, sourceCoin, destinationCoin, rates) == Pass
  {
    if RatesCheck(sourceRate, destinationRate, sourceCoin, destinationCoin, rates) == Pass {
      SameRoundingClose(sourceRate, BtcRate(sourceCoin, rates).value, BTC_SUBDIVISION);
      SameRoundingClose(destinationRate, BtcRate(destinationCoin, rates).value, BTC_SUBDIVISION);
    }
  }

  /**
   * One leg's value: quantity times rate, rounded to 8 places, as a whole
   * count at precision 8 - subdivision (a negative precision for coins with
   * more than 8 places). For every non-negative subdivision this is the
   * product's count of 10^-8 units, divided by 10^subdivision and truncated
   * toward zero.
   */
  function LegValue(quantity: real, rate: real, subdivision: int): (v: int)
    ensures subdivision >= 0 ==>
      v == Truncate(HalfUpUnits(quantity * rate, BTC_SUBDIVISION) as real / Unit(subdivision))
  {
    var rounded := RoundHalfUp(quantity * rate, BTC_SUBDIVISION);
    if subdivision >= 0 then
      ToIntegerOfRounded(quantity * rate, BTC_SUBDIVISION, subdivision);
      ToInteger(rounded, BTC_SUBDIVISION - subdivision)
    else
      ToInteger(rounded, BTC_SUBDIVISION - subdivision)
  }

  /** values_match: both legs have the same value; a nil subdivision raises. */
  function ValuesCheck(sourceQuantity: real, sourceRate: real, destinationQuantity: real, destinationRate: real,
                       sourceCoin: Coin, destinationCoin: Coin): (c: Check)
    ensures c.Raise? <==> sourceCoin.subdivision.None? || destinationCoin.subdivision.None?
    ensures !c.Raise? ==>
      (c == Pass <==> LegValue(sourceQuantity, sourceRate, sourceCoin.subdivision.value)
                      == LegValue(destinationQuantity, destinationRate, destinationCoin.subdivision.value))
  {
    if sourceCoin.subdivision.None? || destinationCoin.subdivision.None? then Raise(TypeError("nil can't be coerced into Integer"))
    else if LegValue(sourceQuantity, sourceRate, sourceCoin.subdivision.value)
            == LegValue(destinationQuantity, destinationRate, destinationCoin.subdivision.value) then Pass
    else Fail
  }

  /** The value check does not care which leg is the source, and identical legs always pass. */
  lemma ValuesCheckSymmetric(q: real, r: real, q': real, r': real, c: Coin, c': Coin)
    ensures ValuesCheck(q, r, q', r', c, c') == ValuesCheck(q', r', q, r, c', c)
    ensures c.subdivision.Some? ==> ValuesCheck(q, r, q, r, c, c) == Pass
  {
  }

  /** not_fiat_to_fiat: only a transfer between two fiat coins is rejected. */
  function FiatToFiatCheck(sourceCoin: Coin, destinationCoin: Coin): (c: Check)
    ensures c != Pass <==> Fiat(sourceCoin) && Fiat(destinationCoin)
    ensures !c.Raise?
  {
    if Fiat(sourceCoin) && Fiat(destinationCoin) then Fail else Pass
  }

  // ===> Validation of the whole record

  const INITIATED_BY_ERROR := ValidationError("initiated_by", BLANK)
  const CHAIN_ERROR := ValidationError("previous_transaction", "Invalid previous transaction")
  const SUM_ERROR := ValidationError("system_sum_to_zero", "Invalid transaction")
  const FIAT_ERROR := ValidationError("not_fiat_to_fiat", "Fiat to fiat not valid")
  const RATE_ERROR := ValidationError("rates_match", "Rate has changed. Please resubmit purchase order after checking the new rate")
  const VALUE_ERROR := ValidationError("values_match", "Invalid purchase")

  /** The result of `valid?`: the errors of every registered check, or the exception one of them raised. */
  datatype Outcome = Completed(errors: seq<ValidationError>) | Raised(exception: Exception, errorsSoFar: seq<ValidationError>)

  /** system_sum_to_zero as a check. */
  function SumCheck(events: seq<Event>): Check
  {
    if EventsSumDisplay(events) == 0.0 then Pass else Fail
  }

  /** The error a failed check adds. */
  function ErrorIf(c: Check, e: ValidationError): seq<ValidationError>
  {
    if c == Fail then [e] else []
  }

  /**
   * The registered validations in declaration order: type, initiated_by,
   * correct_previous_transaction, system_sum_to_zero. Every one runs; only
   * an exception stops the rest.
   */
  function ValidationOutcome(txType: Option<string>, initiatedBy: Option<nat>, previous: Option<nat>,
                             referring: Option<nat>, events: seq<Event>): (o: Outcome)
    ensures o.Raised? <==> previous.Some? && referring.None?
    ensures o.Raised? ==> o.exception.NoMethodError?
    ensures o.Raised? ==>
      (o.errorsSoFar == [] <==> txType.Some? && txType.value in TYPES && initiatedBy.Some?)
  {
    var before := TypeErrors(txType) + (if initiatedBy.None? then [INITIATED_BY_ERROR] else []);
    var chain := ChainCheck(previous, referring);
    if chain.Raise? then Raised(chain.exception, before)
    else
      Completed(before + ErrorIf(chain, CHAIN_ERROR) + ErrorIf(SumCheck(events), SUM_ERROR))
  }

  /**
   * A transaction is valid exactly when its type is one of TYPES, it has an
   * initiator, its previous transaction (if any) is the referring one and its
   * events sum to zero; and each failing rule is reported, not just the first.
   */
  lemma TransactionValidIff(txType: Option<string>, initiatedBy: Option<nat>, previous: Option<nat>,
                            referring: Option<nat>, events: seq<Event>)
    ensures ValidationOutcome(txType, initiatedBy, previous, referring, events) == Completed([]) <==>
      txType.Some? && txType.value in TYPES && initiatedBy.Some?
      && (previous.None? || previous == referring) && EventsSumDisplay(events) == 0.0
    ensures var o := ValidationOutcome(txType, initiatedBy, previous, referring, events);
      o.Completed? ==>
        (INITIATED_BY_ERROR in o.errors <==> initiatedBy.None?)
        && (CHAIN_ERROR in o.errors <==> previous.Some? && previous != referring)
        && (SUM_ERROR in o.errors <==> EventsSumDisplay(events) != 0.0)
        && ((exists e :: e in o.errors && e.attribute == "type") <==> !(txType.Some? && txType.value in TYPES))
        && (forall e :: e in o.errors ==>
              e.attribute == "type" || e == INITIATED_BY_ERROR || e == CHAIN_ERROR || e == SUM_ERROR)
  {
    TypePredicates(txType);
    CompletedReported(txType, initiatedBy, previous, referring, events);
  }

  lemma CompletedReported(txType: Option<string>, initiatedBy: Option<nat>, previous: Option<nat>,
                          referring: Option<nat>, events: seq<Event>)
    ensures var o := ValidationOutcome(txType, initiatedBy, previous, referring, events);
      o.Completed? ==>
        (INITIATED_BY_ERROR in o.errors <==> initiatedBy.None?)
        && (CHAIN_ERROR in o.errors <==> previous.Some? && previous != referring)
        && (SUM_ERROR in o.errors <==> EventsSumDisplay(events) != 0.0)
        && ((exists e :: e in o.errors && e.attribute == "type") <==> !(txType.Some? && txType.value in TYPES))
        && (forall e :: e in o.errors ==>
              e.attribute == "type" || e == INITIATED_BY_ERROR || e == CHAIN_ERROR || e == SUM_ERROR)
  {
    var o := ValidationOutcome(txType, initiatedBy, previous, referring, events);
    if o.Completed? {
      var types := TypeErrors(txType);
      var initiator := if initiatedBy.None? then [INITIATED_BY_ERROR] else [];
      var chain, sum := ErrorIf(ChainCheck(previous, referring), CHAIN_ERROR), ErrorIf(SumCheck(events), SUM_ERROR);
      assert o.errors == types + initiator + chain + sum;
      assert chain != [] <==> previous.Some? && previous != referring;
      RulesReported(types, initiator, chain, sum, txType.Some? && txType.value in TYPES);
    }
  }

  /**
   * The type rule's errors followed by the other rules' errors: each other
   * rule's error appears exactly when its own list holds it, a type error
   * exactly when the type is invalid, and nothing else appears.
   */
  lemma RulesReported(types: seq<ValidationError>, initiator: seq<ValidationError>,
                      chain: seq<ValidationError>, sum: seq<ValidationError>, valid: bool)
    requires types == [] <==> valid
    requires forall e :: e in types ==> e.attribute == "type"
    requires initiator == [] || initiator == [INITIATED_BY_ERROR]
    requires chain == [] || chain == [CHAIN_ERROR]
    requires sum == [] || sum == [SUM_ERROR]
    ensures INITIATED_BY_ERROR in types + initiator + chain + sum <==> initiator != []
    ensures CHAIN_ERROR in types + initiator + chain + sum <==> chain != []
    ensures SUM_ERROR in types + initiator + chain + sum <==> sum != []
    ensures (exists e :: e in types + initiator + chain + sum && e.attribute == "type") <==> !valid
    ensures forall e :: e in types + initiator + chain + sum ==>
      e.attribute == "type" || e == INITIATED_BY_ERROR || e == CHAIN_ERROR || e == SUM_ERROR
  {
    if !valid {
      assert types[0] in types + initiator + chain + sum;
    }
  }

  /**
   * A transaction record. Its columns never change in memory here; the
   * validators append to `errors`, the one field they update.
   */
  class Transaction {
    const id: Option<nat>
    const klass: Option<string>
    const txType: Option<string>
    const source: Option<Party>
    const destination: Option<Party>
    const sourceCoin: Coin
    const destinationCoin: Coin
    const initiatedBy: Option<nat>
    const previousTransaction: Option<nat>
    const events: seq<Event>
    var errors: seq<ValidationError>

    constructor (id: Option<nat>, klass: Option<string>, txType: Option<string>,
                 source: Option<Party>, destination: Option<Party>,
                 sourceCoin: Coin, destinationCoin: Coin,
                 initiatedBy: Option<nat>, previousTransaction: Option<nat>, events: seq<Event>)
      ensures this.id == id && this.klass == klass && this.txType == txType
      ensures this.source == source && this.destination == destination
      ensures this.sourceCoin == sourceCoin && this.destinationCoin == destinationCoin
      ensures this.initiatedBy == initiatedBy && this.previousTransaction == previousTransaction
      ensures this.events == events && errors == []
    {
      this.id := id;
      this.klass := klass;
      this.txType := txType;
      this.source := source;
      this.destination := destination;
      this.sourceCoin := sourceCoin;
      this.destinationCoin := destinationCoin;
      this.initiatedBy := initiatedBy;
      this.previousTransaction := previousTransaction;
      this.events := events;
      errors := [];
    }

    /** referring_transaction_to_source: the latest other transaction of this class with the same source. */
    function ReferringTransactionToSource(rows: seq<TxRow>): (r: Option<TxRow>)
      ensures r.Some? ==> r.value in rows && r.value.source == source && Some(r.value.id) != id
      ensures r.Some? ==> klass.None? || r.value.txType == klass
      ensures r.Some? ==> forall row :: row in rows && InLineage(klass, id, source, BySource, row) ==>
        row.createdAt <= r.value.createdAt
      ensures r.None? <==> forall row :: row in rows ==> !InLineage(klass, id, source, BySource, row)
    {
      Latest(rows, klass, id, source, BySource)
    }

    /** referring_transaction_to_destination: the same search by destination. */
    function ReferringTransactionToDestination(rows: seq<TxRow>): (r: Option<TxRow>)
      ensures r.Some? ==> r.value in rows && r.value.destination == destination && Some(r.value.id) != id
      ensures r.Some? ==> klass.None? || r.value.txType == klass
      ensures r.Some? ==> forall row :: row in rows && InLineage(klass, id, destination, ByDestination, row) ==>
        row.createdAt <= r.value.createdAt
      ensures r.None? <==> forall row :: row in rows ==> !InLineage(klass, id, destination, ByDestination, row)
    {
      Latest(rows, klass, id, destination, ByDestination)
    }

    method SystemSumToZero() returns (passed: bool)
      modifies this`errors
      ensures passed <==> EventsSumDisplay(events) == 0.0
      ensures errors == old(errors) + ErrorIf(SumCheck(events), SUM_ERROR)
    {
      passed := EventsSumDisplay(events) == 0.0;
      if !passed {
        errors := errors + [SUM_ERROR];
      }
    }

    method CorrectPreviousTransaction(referring: Option<nat>) returns (check: Check)
      modifies this`errors
      ensures check == ChainCheck(previousTransaction, referring)
      ensures errors == old(errors) + ErrorIf(check, CHAIN_ERROR)
    {
      if previousTransaction.None? {
        check := Pass;
      } else if referring.None? {
        check := Raise(NoMethodError("undefined method `id' for nil"));
      } else if previousTransaction.value == referring.value {
        check := Pass;
      } else {
        errors := errors + [CHAIN_ERROR];
        check := Fail;
      }
    }

    method NotFiatToFiat() returns (passed: bool)
      modifies this`errors
      ensures passed <==> !(Fiat(sourceCoin) && Fiat(destinationCoin))
      ensures errors == old(errors) + (if passed then [] else [FIAT_ERROR])
    {
      passed := !(Fiat(sourceCoin) && Fiat(destinationCoin));
      if !passed {
        errors := errors + [FIAT_ERROR];
      }
    }

    method RatesMatch(sourceRate: real, destinationRate: real, rates: RateTables) returns (check: Check)
      modifies this`errors
      ensures check == RatesCheck(sourceRate, destinationRate, sourceCoin, destinationCoin, rates)
      ensures errors == old(errors) + ErrorIf(check, RATE_ERROR)
    {
      check := RatesCheck(sourceRate, destinationRate, sourceCoin, destinationCoin, rates);
      if check == Fail {
        errors := errors + [RATE_ERROR];
      }
    }

    method ValuesMatch(sourceQuantity: real, sourceRate: real, destinationQuantity: real, destinationRate: real)
      returns (check: Check)
      modifies this`errors
      ensures check == ValuesCheck(sourceQuantity, sourceRate, destinationQuantity, destinationRate, sourceCoin, destinationCoin)
      ensures errors == old(errors) + ErrorIf(check, VALUE_ERROR)
    {
      if sourceCoin.subdivision.None? || destinationCoin.subdivision.None? {
        check := Raise(TypeError("nil can't be coerced into Integer"));
        return;
      }
      var sourceValue := LegValue(sourceQuantity, sourceRate, sourceCoin.subdivision.value);
      var destinationValue := LegValue(destinationQuantity, destinationRate, destinationCoin.subdivision.value);
      if sourceValue - destinationValue == 0 {
        check := Pass;
      } else {
        errors := errors + [VALUE_ERROR];
        check := Fail;
      }
    }

    /** valid?: clear the errors, then run the registered validations in order. */
    method Validate(referring: Option<nat>) returns (outcome: Outcome)
      modifies this`errors
      ensures outcome == ValidationOutcome(txType, initiatedBy, previousTransaction, referring, events)
      ensures errors == if outcome.Completed? then outcome.errors else outcome.errorsSoFar
    {
      errors := TypeErrors(txType);
      if initiatedBy.None? {
        errors := errors + [INITIATED_BY_ERROR];
      }
      ghost var before := errors;
      assert before == TypeErrors(txType) + (if initiatedBy.None? then [INITIATED_BY_ERROR] else []);
      var chain := CorrectPreviousTransaction(referring);
      if chain.Raise? {
        outcome := Raised(chain.exception, errors);
        return;
      }
      var _ := SystemSumToZero();
      assert errors == before + ErrorIf(chain, CHAIN_ERROR) + ErrorIf(SumCheck(events), SUM_ERROR);
      outcome := Completed(errors);
    }
  }
}
